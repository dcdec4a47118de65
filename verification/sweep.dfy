/**
  combine_ranges: the two-index sweep that subtracts one list of busy ranges
  from a list of free ranges. `SweepFrom` is the functional definition, one
  recursive step per pass of the outer loop; `CombineRanges` is the loop as
  written, with the free range's rewritten start held in a register.
 */
module Sweep {
  import opened Outcomes
  import opened Intervals
  import opened Grid

  /** `free[i][0]` as the loop first reads it; a dummy once the list is exhausted. */
  function StartAt(free: seq<Range>, i: nat): int {
    if i < |free| then free[i].start else 0
  }

  /**
    The inner `while`: skip every busy range that ends at or before the current
    free start `cs`. The result is the first busy index that still matters.
   */
  function Skip(busy: seq<Range>, bi: nat, cs: int): (k: nat)
    requires bi <= |busy|
    ensures bi <= k <= |busy|
    ensures forall j :: bi <= j < k ==> busy[j].end <= cs
    ensures k < |busy| ==> cs < busy[k].end
    decreases |busy| - bi
  {
    if bi < |busy| && busy[bi].end <= cs then Skip(busy, bi + 1, cs) else bi
  }

  /**
    What one pass of the outer loop decides: the candidate range it hands to
    the length test (if any) and the next free index, busy index and free start.
   */
  datatype Pass = Pass(candidate: Option<Range>, fi: nat, bi: nat, cs: int)

  /**
    The busy range `busy[bi]` ends inside the current free range: move the free
    start to the busy end rounded up to the grid through the current start, or
    drop the rest of the free range when that reaches its end. The busy index
    moves on either way.
   */
  function Resume(free: seq<Range>, busy: seq<Range>, m: int, fi: nat, bi: nat, cs: int,
                  candidate: Option<Range>): (r: Result<Pass>)
    requires fi < |free| && bi < |busy|
    ensures r.Ok? <==> m != 0
    ensures r.Ok? ==> r.value.candidate == candidate && r.value.bi == bi + 1
    ensures r.Ok? ==> r.value.fi == fi || r.value.fi == fi + 1
  {
    var next :- CeilDt(busy[bi].end, cs, m);
    if next < free[fi].end then
      Ok(Pass(candidate, fi, bi + 1, next))
    else
      Ok(Pass(candidate, fi + 1, bi + 1, StartAt(free, fi + 1)))
  }

  /**
    The four cases of the outer loop, after the skip: busy range after the free
    range (or none left), busy range over its start (covering it, or ending
    inside it), busy range over its end, busy range strictly inside it.
   */
  function Case(free: seq<Range>, busy: seq<Range>, m: int, fi: nat, bi: nat, cs: int): (r: Result<Pass>)
    requires fi < |free| && bi <= |busy|
    ensures r.Ok? ==> fi <= r.value.fi <= |free| && bi <= r.value.bi <= |busy|
    ensures r.Ok? ==> fi + bi < r.value.fi + r.value.bi
  {
    var fe := free[fi].end;
    if bi == |busy| || busy[bi].start >= fe then
      Ok(Pass(Some(Range(cs, fe)), fi + 1, bi, StartAt(free, fi + 1)))
    else if busy[bi].start <= cs then
      if busy[bi].end >= fe then
        Ok(Pass(None, fi + 1, bi, StartAt(free, fi + 1)))
      else
        Resume(free, busy, m, fi, bi, cs, None)
    else if busy[bi].end >= fe then
      Ok(Pass(Some(Range(cs, busy[bi].start)), fi + 1, bi, StartAt(free, fi + 1)))
    else
      Resume(free, busy, m, fi, bi, cs, Some(Range(cs, busy[bi].start)))
  }

  /** The length test at the end of a pass: keep the candidate only if it is long enough. */
  function Keep(candidate: Option<Range>, m: int, rest: Result<seq<Range>>): Result<seq<Range>> {
    match rest
    case Err(e) => Err(e)
    case Ok(rs) =>
      if candidate.Some? && LongEnough(candidate.value, m) then Ok([candidate.value] + rs) else Ok(rs)
  }

  function Prepend(done: seq<Range>, rest: Result<seq<Range>>): Result<seq<Range>> {
    match rest
    case Err(e) => Err(e)
    case Ok(rs) => Ok(done + rs)
  }

  lemma PrependNothing(rest: Result<seq<Range>>)
    ensures Prepend([], rest) == rest
  {
    if rest.Ok? {
      assert [] + rest.value == rest.value;
    }
  }

  lemma PrependKeep(done: seq<Range>, candidate: Option<Range>, m: int, rest: Result<seq<Range>>)
    ensures Prepend(done, Keep(candidate, m, rest))
         == Prepend(if candidate.Some? && LongEnough(candidate.value, m) then done + [candidate.value] else done, rest)
  {
    if rest.Ok? && candidate.Some? && LongEnough(candidate.value, m) {
      assert done + ([candidate.value] + rest.value) == done + [candidate.value] + rest.value;
    }
  }

  /** The output of the sweep from state (`fi`, `bi`, `cs`) to the end. */
  function SweepFrom(free: seq<Range>, busy: seq<Range>, m: int, fi: nat, bi: nat, cs: int): (r: Result<seq<Range>>)
    requires fi <= |free| && bi <= |busy|
    ensures r.Ok? ==> |r.value| <= (|free| - fi) + (|busy| - bi)
    decreases |free| - fi + |busy| - bi
  {
    if fi == |free| then
      Ok([])
    else
      match Case(free, busy, m, fi, Skip(busy, bi, cs), cs)
      case Err(e) => Err(e)
      case Ok(p) => Keep(p.candidate, m, SweepFrom(free, busy, m, p.fi, p.bi, p.cs))
  }

  /** One pass of the outer loop, unfolded. */
  lemma UnfoldPass(free: seq<Range>, busy: seq<Range>, m: int, fi: nat, bi: nat, cs: int)
    requires fi < |free| && bi <= |busy|
    ensures SweepFrom(free, busy, m, fi, bi, cs) ==
      match Case(free, busy, m, fi, Skip(busy, bi, cs), cs)
      case Err(e) => Err(e)
      case Ok(p) => Keep(p.candidate, m, SweepFrom(free, busy, m, p.fi, p.bi, p.cs))
  {
  }

  /** combine_ranges(config, free, busy) with `meeting_length_minutes` = `m`. */
  function Subtract(free: seq<Range>, busy: seq<Range>, m: int): (r: Result<seq<Range>>)
    ensures r.Ok? ==> |r.value| <= |free| + |busy|
  {
    SweepFrom(free, busy, m, 0, 0, StartAt(free, 0))
  }

  /**
    The loop as written. `cs` is the register that stands for `free[free_idx][0]`,
    which the source rewrites in place; `passes` counts passes of the outer loop.
   */
  method CombineRanges(free: seq<Range>, busy: seq<Range>, m: int) returns (r: Result<seq<Range>>, passes: nat)
    ensures r == Subtract(free, busy, m)
    ensures passes <= |free| + |busy|
  {
    var ranges: seq<Range> := [];
    var fi: nat, bi: nat := 0, 0;
    var cs := StartAt(free, 0);
    passes := 0;
    PrependNothing(Subtract(free, busy, m));
    while fi < |free|
      invariant fi <= |free| && bi <= |busy|
      invariant passes <= fi + bi
      invariant Prepend(ranges, SweepFrom(free, busy, m, fi, bi, cs)) == Subtract(free, busy, m)
      decreases |free| - fi + |busy| - bi
    {
      passes := passes + 1;
      UnfoldPass(free, busy, m, fi, bi, cs);
      var pass := OnePass(free, busy, m, fi, bi, cs);
      if pass.Err? {
        return Err(pass.error), passes;
      }
      var candidate := pass.value.candidate;
      PrependKeep(ranges, candidate, m, SweepFrom(free, busy, m, pass.value.fi, pass.value.bi, pass.value.cs));
      if candidate.Some? && LongEnough(candidate.value, m) {
        ranges := ranges + [candidate.value];
      }
      fi, bi, cs := pass.value.fi, pass.value.bi, pass.value.cs;
    }
    assert ranges + [] == ranges;
    r := Ok(ranges);
  }

  /**
    The body of the outer loop: skip the busy ranges already behind the free
    start, then the four cases. The candidate still has to pass the length test.
   */
  method OnePass(free: seq<Range>, busy: seq<Range>, m: int, fi: nat, bi: nat, cs: int) returns (r: Result<Pass>)
    requires fi < |free| && bi <= |busy|
    ensures r == Case(free, busy, m, fi, Skip(busy, bi, cs), cs)
  {
    var b := bi;
    while b < |busy| && busy[b].end <= cs
      invariant bi <= b <= |busy|
      invariant Skip(busy, b, cs) == Skip(busy, bi, cs)
      decreases |busy| - b
    {
      b := b + 1;
    }
    var fe := free[fi].end;
    if b == |busy| || busy[b].start >= fe {
      // no busy range left, or it starts after this free range: take all of it
      return Ok(Pass(Some(Range(cs, fe)), fi + 1, b, StartAt(free, fi + 1)));
    } else if busy[b].start <= cs {
      if busy[b].end >= fe {
        // the busy range covers this free range: skip it
        return Ok(Pass(None, fi + 1, b, StartAt(free, fi + 1)));
      }
      // the busy range ends inside this free range: move its start up to the grid
      var next :- CeilDt(busy[b].end, cs, m);
      if next < fe {
        return Ok(Pass(None, fi, b + 1, next));
      }
      return Ok(Pass(None, fi + 1, b + 1, StartAt(free, fi + 1)));
    } else if busy[b].end >= fe {
      // the busy range starts inside this free range and runs past its end
      return Ok(Pass(Some(Range(cs, busy[b].start)), fi + 1, b, StartAt(free, fi + 1)));
    }
    // the busy range lies strictly inside this free range
    var candidate := Some(Range(cs, busy[b].start));
    var next :- CeilDt(busy[b].end, cs, m);
    if next < fe {
      return Ok(Pass(candidate, fi, b + 1, next));
    }
    return Ok(Pass(candidate, fi + 1, b + 1, StartAt(free, fi + 1)));
  }
}
