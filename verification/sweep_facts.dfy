/**
  What combine_ranges guarantees: it fails only on a zero grid, keeps only long
  enough ranges, is a plain length filter when nothing is busy (hence
  idempotent), and, on sorted inputs, returns sorted disjoint ranges that lie on
  the grid inside the free ranges and miss every busy range.
 */
module SweepFacts {
  import opened Outcomes
  import opened Intervals
  import opened Grid
  import opened Sweep

  /** `r` lies inside `f` and starts on the grid through the start of `f`. */
  predicate Fits(r: Range, f: Range, m: int) {
    Within(r, f) && OnGrid(r.start, f.start, m)
  }

  /** `r` fits one of the ranges of `free` from index `fi` on. */
  predicate CoveredFrom(r: Range, free: seq<Range>, fi: nat, m: int) {
    exists j :: fi <= j < |free| && Fits(r, free[j], m)
  }

  /** `r` fits one of the ranges of `free`. */
  predicate Covered(r: Range, free: seq<Range>, m: int) {
    CoveredFrom(r, free, 0, m)
  }

  /** The length filter applied to every range: the reference for a sweep with nothing busy. */
  function KeepLong(rs: seq<Range>, m: int): (kept: seq<Range>)
    ensures |kept| <= |rs|
    ensures AllLongEnough(kept, m)
    ensures AllLongEnough(rs, m) ==> kept == rs
  {
    if |rs| == 0 then []
    else if LongEnough(rs[0], m) then [rs[0]] + KeepLong(rs[1..], m)
    else KeepLong(rs[1..], m)
  }

  // ---------------------------------------------------------------------------
  // Properties that hold for all inputs

  lemma {:induction false} SweepFromOk(free: seq<Range>, busy: seq<Range>, m: int, fi: nat, bi: nat, cs: int)
    requires fi <= |free| && bi <= |busy| && m != 0
    ensures SweepFrom(free, busy, m, fi, bi, cs).Ok?
    decreases |free| - fi + |busy| - bi
  {
    if fi < |free| {
      var p := Case(free, busy, m, fi, Skip(busy, bi, cs), cs).value;
      SweepFromOk(free, busy, m, p.fi, p.bi, p.cs);
    }
  }

  /** ceil_dt is the only thing in the sweep that can raise, and only for a zero grid. */
  lemma SubtractFailsOnlyOnZeroGrid(free: seq<Range>, busy: seq<Range>, m: int)
    ensures Subtract(free, busy, m).Err? ==> m == 0 && Subtract(free, busy, m).error == ZeroDivision
  {
    if m != 0 {
      SweepFromOk(free, busy, m, 0, 0, StartAt(free, 0));
    } else {
      SweepFromErr(free, busy, m, 0, 0, StartAt(free, 0));
    }
  }

  lemma {:induction false} SweepFromErr(free: seq<Range>, busy: seq<Range>, m: int, fi: nat, bi: nat, cs: int)
    requires fi <= |free| && bi <= |busy|
    ensures SweepFrom(free, busy, m, fi, bi, cs).Err? ==> SweepFrom(free, busy, m, fi, bi, cs).error == ZeroDivision
    decreases |free| - fi + |busy| - bi
  {
    if fi < |free| {
      var c := Case(free, busy, m, fi, Skip(busy, bi, cs), cs);
      if c.Ok? {
        SweepFromErr(free, busy, m, c.value.fi, c.value.bi, c.value.cs);
      }
    }
  }

  lemma {:induction false} SweepFromLongEnough(free: seq<Range>, busy: seq<Range>, m: int, fi: nat, bi: nat, cs: int)
    requires fi <= |free| && bi <= |busy|
    ensures SweepFrom(free, busy, m, fi, bi, cs).Ok? ==> AllLongEnough(SweepFrom(free, busy, m, fi, bi, cs).value, m)
    decreases |free| - fi + |busy| - bi
  {
    if fi < |free| {
      var c := Case(free, busy, m, fi, Skip(busy, bi, cs), cs);
      if c.Ok? {
        SweepFromLongEnough(free, busy, m, c.value.fi, c.value.bi, c.value.cs);
      }
    }
  }

  /** Every range combine_ranges returns has at least `m` whole minutes. */
  lemma SubtractLongEnough(free: seq<Range>, busy: seq<Range>, m: int)
    ensures Subtract(free, busy, m).Ok? ==> AllLongEnough(Subtract(free, busy, m).value, m)
  {
    SweepFromLongEnough(free, busy, m, 0, 0, StartAt(free, 0));
  }

  lemma {:induction false} SweepFromNothingBusy(free: seq<Range>, m: int, fi: nat)
    requires fi <= |free|
    ensures SweepFrom(free, [], m, fi, 0, StartAt(free, fi)) == Ok(KeepLong(free[fi..], m))
    decreases |free| - fi
  {
    if fi < |free| {
      assert Case(free, [], m, fi, 0, free[fi].start)
          == Ok(Pass(Some(free[fi]), fi + 1, 0, StartAt(free, fi + 1)));
      SweepFromNothingBusy(free, m, fi + 1);
      assert free[fi..][1..] == free[fi + 1..];
    }
  }

  /** With no busy ranges the sweep is exactly the length filter, in order, for every grid. */
  lemma SubtractNothingBusy(free: seq<Range>, m: int)
    ensures Subtract(free, [], m) == Ok(KeepLong(free, m))
  {
    SweepFromNothingBusy(free, m, 0);
    assert free[0..] == free;
  }

  /** A second pass against an empty busy list changes nothing. */
  lemma SubtractIdempotent(free: seq<Range>, busy: seq<Range>, m: int)
    requires Subtract(free, busy, m).Ok?
    ensures Subtract(Subtract(free, busy, m).value, [], m) == Subtract(free, busy, m)
  {
    var out := Subtract(free, busy, m).value;
    SubtractLongEnough(free, busy, m);
    SubtractNothingBusy(out, m);
  }

  /**
    The case where a busy range ends inside the current free range (lines
    129-137 and 150-156): the new start is ceil_dt of the busy end, on the grid
    through the current start and not before the busy end; the rest of the free
    range is dropped when that reaches its end; the busy index advances.
   */
  lemma BusyEndingInsideFree(free: seq<Range>, busy: seq<Range>, m: int, fi: nat, bi: nat, cs: int)
    requires fi < |free| && bi < |busy| && m > 0
    requires cs < busy[bi].end < free[fi].end && busy[bi].start < free[fi].end
    ensures Case(free, busy, m, fi, bi, cs).Ok?
    ensures var p := Case(free, busy, m, fi, bi, cs).value;
            var next := CeilDt(busy[bi].end, cs, m).value;
            && busy[bi].end <= next && OnGrid(next, cs, m)
            && p.bi == bi + 1
            && p.candidate == (if busy[bi].start <= cs then None else Some(Range(cs, busy[bi].start)))
            && (next < free[fi].end ==> p.fi == fi && p.cs == next)
            && (free[fi].end <= next ==> p.fi == fi + 1)
  {
  }

  // ---------------------------------------------------------------------------
  // Soundness on sorted inputs

  /** The inputs the sweep is designed for. */
  predicate SweepInputs(free: seq<Range>, busy: seq<Range>, m: int) {
    && m > 0
    && SortedDisjoint(free)
    && SortedByStart(busy)
    && WellFormed(busy)
  }

  /**
    The loop state the sweep keeps: the register lies inside the current free
    range, on its grid, and every busy range already passed ends by it.
   */
  predicate Register(free: seq<Range>, busy: seq<Range>, m: int, fi: nat, bi: nat, cs: int) {
    && fi <= |free| && bi <= |busy|
    && (fi < |free| ==>
          && free[fi].start <= cs <= free[fi].end
          && OnGrid(cs, free[fi].start, m)
          && forall j :: 0 <= j < bi ==> busy[j].end <= cs)
  }

  /** A candidate of pass `fi` starts at the register, fits the free range and misses every busy range. */
  predicate CandidateSound(c: Range, free: seq<Range>, busy: seq<Range>, m: int, fi: nat, cs: int)
    requires fi < |free|
  {
    && c.start == cs
    && Fits(c, free[fi], m)
    && forall j :: 0 <= j < |busy| ==> !Overlaps(c, busy[j])
  }

  lemma NextFreeRange(free: seq<Range>, busy: seq<Range>, m: int, fi: nat, bi: nat, cs: int)
    requires SweepInputs(free, busy, m) && fi < |free| && bi <= |busy|
    requires cs <= free[fi].end
    requires forall j :: 0 <= j < bi ==> busy[j].end <= free[fi].end
    ensures Register(free, busy, m, fi + 1, bi, StartAt(free, fi + 1))
    ensures fi + 1 < |free| ==> free[fi].end <= StartAt(free, fi + 1) && cs <= StartAt(free, fi + 1)
  {
    if fi + 1 < |free| {
      assert free[fi].end <= free[fi + 1].start;
      OnGridRefl(free[fi + 1].start, m);
    }
  }

  lemma PassSound(free: seq<Range>, busy: seq<Range>, m: int, fi: nat, bi: nat, cs: int)
    requires SweepInputs(free, busy, m) && Register(free, busy, m, fi, bi, cs) && fi < |free|
    ensures Case(free, busy, m, fi, Skip(busy, bi, cs), cs).Ok?
    ensures var p := Case(free, busy, m, fi, Skip(busy, bi, cs), cs).value;
            && Register(free, busy, m, p.fi, p.bi, p.cs)
            && (p.fi < |free| ==> cs <= p.cs)
            && (p.candidate.Some? ==>
                  && CandidateSound(p.candidate.value, free, busy, m, fi, cs)
                  && (p.fi < |free| ==> p.candidate.value.end <= p.cs))
  {
    var k := Skip(busy, bi, cs);
    var fe := free[fi].end;
    assert forall j :: 0 <= j < k ==> busy[j].end <= cs;
    if k == |busy| || busy[k].start >= fe {
      var c := Range(cs, fe);
      forall j | 0 <= j < |busy|
        ensures !Overlaps(c, busy[j])
      {
        if k <= j {
          assert busy[k].start <= busy[j].start;
        }
      }
      NextFreeRange(free, busy, m, fi, k, cs);
    } else if busy[k].start <= cs {
      if busy[k].end >= fe {
        NextFreeRange(free, busy, m, fi, k, cs);
      } else {
        ResumeSound(free, busy, m, fi, k, cs);
      }
    } else {
      var c := Range(cs, busy[k].start);
      forall j | 0 <= j < |busy|
        ensures !Overlaps(c, busy[j])
      {
        if k <= j {
          assert busy[k].start <= busy[j].start;
        }
      }
      if busy[k].end >= fe {
        NextFreeRange(free, busy, m, fi, k, cs);
      } else {
        ResumeSound(free, busy, m, fi, k, cs);
      }
    }
  }

  lemma ResumeSound(free: seq<Range>, busy: seq<Range>, m: int, fi: nat, k: nat, cs: int)
    requires SweepInputs(free, busy, m) && Register(free, busy, m, fi, k, cs) && fi < |free|
    requires k < |busy| && cs < busy[k].end < free[fi].end
    ensures forall c :: Resume(free, busy, m, fi, k, cs, c).Ok?
    ensures var p := Resume(free, busy, m, fi, k, cs, None).value;
            && Register(free, busy, m, p.fi, p.bi, p.cs)
            && (p.fi < |free| ==> busy[k].end <= p.cs)
  {
    var next := CeilDt(busy[k].end, cs, m).value;
    if next < free[fi].end {
      OnGridTrans(next, cs, free[fi].start, m);
    } else {
      assert busy[k].start <= busy[k].end;
      NextFreeRange(free, busy, m, fi, k + 1, cs);
    }
  }

  /** The output of the sweep from a state, as far as soundness goes. */
  predicate Sound(out: seq<Range>, free: seq<Range>, busy: seq<Range>, m: int, fi: nat, cs: int) {
    && SortedDisjoint(out)
    && (forall k :: 0 <= k < |out| ==> cs <= out[k].start)
    && (forall k :: 0 <= k < |out| ==> CoveredFrom(out[k], free, fi, m))
    && (forall k, j :: 0 <= k < |out| && 0 <= j < |busy| ==> !Overlaps(out[k], busy[j]))
  }

  lemma {:induction false} SweepSound(free: seq<Range>, busy: seq<Range>, m: int, fi: nat, bi: nat, cs: int)
    requires SweepInputs(free, busy, m) && Register(free, busy, m, fi, bi, cs)
    ensures SweepFrom(free, busy, m, fi, bi, cs).Ok?
    ensures Sound(SweepFrom(free, busy, m, fi, bi, cs).value, free, busy, m, fi, cs)
    decreases |free| - fi + |busy| - bi
  {
    if fi < |free| {
      PassSound(free, busy, m, fi, bi, cs);
      UnfoldPass(free, busy, m, fi, bi, cs);
      var p := Case(free, busy, m, fi, Skip(busy, bi, cs), cs).value;
      SweepSound(free, busy, m, p.fi, p.bi, p.cs);
      var rest := SweepFrom(free, busy, m, p.fi, p.bi, p.cs).value;
      if p.fi == |free| {
        assert rest == [];
      }
      if p.candidate.Some? && LongEnough(p.candidate.value, m) {
        var c := p.candidate.value;
        SoundFromLaterState(rest, free, busy, m, p.fi, p.cs, fi, c.end);
        SoundCons(c, rest, free, busy, m, fi, cs);
      } else {
        SoundFromLaterState(rest, free, busy, m, p.fi, p.cs, fi, cs);
      }
    }
  }

  /** What holds of the output from a later state holds from an earlier one. */
  lemma SoundFromLaterState(out: seq<Range>, free: seq<Range>, busy: seq<Range>, m: int,
                            fi': nat, cs': int, fi: nat, cs: int)
    requires Sound(out, free, busy, m, fi', cs') && fi <= fi'
    requires out != [] ==> cs <= cs'
    ensures Sound(out, free, busy, m, fi, cs)
  {
    forall k | 0 <= k < |out|
      ensures CoveredFrom(out[k], free, fi, m)
    {
      assert CoveredFrom(out[k], free, fi', m);
      var j :| fi' <= j < |free| && Fits(out[k], free[j], m);
    }
    assert forall k :: 0 <= k < |out| ==> cs <= out[k].start;
    assert SortedDisjoint(out);
    assert forall k, j :: 0 <= k < |out| && 0 <= j < |busy| ==> !Overlaps(out[k], busy[j]);
  }

  /** A sound candidate followed by a sound remainder that starts after it. */
  lemma SoundCons(c: Range, rest: seq<Range>, free: seq<Range>, busy: seq<Range>, m: int, fi: nat, cs: int)
    requires m > 0 && fi < |free| && LongEnough(c, m)
    requires CandidateSound(c, free, busy, m, fi, cs)
    requires Sound(rest, free, busy, m, fi, c.end)
    ensures Sound([c] + rest, free, busy, m, fi, cs)
  {
    var out := [c] + rest;
    LongEnoughSpan(c, m);
    forall k | 0 <= k < |out|
      ensures CoveredFrom(out[k], free, fi, m)
    {
      if k == 0 {
        assert Fits(out[k], free[fi], m);
      } else {
        assert out[k] == rest[k - 1];
      }
    }
    forall k, j | 0 <= k < |out| && 0 <= j < |busy|
      ensures !Overlaps(out[k], busy[j])
    {
      if k > 0 {
        assert out[k] == rest[k - 1];
      }
    }
    assert SortedDisjoint(out);
  }

  /**
    On free ranges sorted and disjoint and busy ranges sorted by start, the
    result is sorted and disjoint, every range in it fits a free range on that
    range's grid, and none of it overlaps any busy range.
   */
  lemma SubtractSound(free: seq<Range>, busy: seq<Range>, m: int)
    requires SweepInputs(free, busy, m)
    ensures Subtract(free, busy, m).Ok?
    ensures var out := Subtract(free, busy, m).value;
            && SortedDisjoint(out)
            && AllLongEnough(out, m)
            && (forall k :: 0 <= k < |out| ==> Covered(out[k], free, m))
            && (forall k, j :: 0 <= k < |out| && 0 <= j < |busy| ==> !Overlaps(out[k], busy[j]))
  {
    if 0 < |free| {
      OnGridRefl(free[0].start, m);
    }
    SweepSound(free, busy, m, 0, 0, StartAt(free, 0));
    SubtractLongEnough(free, busy, m);
  }
}
