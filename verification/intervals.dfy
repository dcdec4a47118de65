/** Time ranges and the orderings the sweep relies on. */
module Intervals {
  import opened Clock

  /** A range `[start, end)` of timestamps; the scripts store it as a two-element list. */
  datatype Range = Range(start: int, end: int)

  /** `(end - start).total_seconds() // 60`: whole minutes, rounded down. */
  function WholeMinutes(r: Range): int {
    (r.end - r.start) / 60
  }

  /** The length test that decides whether a candidate range is kept. */
  predicate LongEnough(r: Range, minutes: int) {
    WholeMinutes(r) >= minutes
  }

  predicate Overlaps(a: Range, b: Range) {
    a.start < b.end && b.start < a.end
  }

  predicate Within(inner: Range, outer: Range) {
    outer.start <= inner.start && inner.end <= outer.end
  }

  predicate WellFormed(rs: seq<Range>) {
    forall i :: 0 <= i < |rs| ==> rs[i].start <= rs[i].end
  }

  predicate SortedByStart(rs: seq<Range>) {
    forall i, j :: 0 <= i < j < |rs| ==> rs[i].start <= rs[j].start
  }

  /** Well-formed, and each range ends no later than any later range starts. */
  predicate SortedDisjoint(rs: seq<Range>) {
    && WellFormed(rs)
    && forall i, j :: 0 <= i < j < |rs| ==> rs[i].end <= rs[j].start
  }

  predicate AllLongEnough(rs: seq<Range>, minutes: int) {
    forall i :: 0 <= i < |rs| ==> LongEnough(rs[i], minutes)
  }

  /** A range that passes the length test lasts at least that many minutes. */
  lemma LongEnoughSpan(r: Range, minutes: int)
    requires LongEnough(r, minutes)
    ensures r.start + 60 * minutes <= r.end
  {
  }

  /** Shrinking a range cannot create an overlap. */
  lemma WithinAvoids(inner: Range, outer: Range, x: Range)
    requires Within(inner, outer) && !Overlaps(outer, x)
    ensures !Overlaps(inner, x)
  {
  }

  /** Two sorted, disjoint lists, the first ending before the second starts, concatenate to one. */
  lemma SortedDisjointConcat(a: seq<Range>, b: seq<Range>)
    requires SortedDisjoint(a) && SortedDisjoint(b)
    requires forall x, y :: x in a && y in b ==> x.end <= y.start
    ensures SortedDisjoint(a + b)
  {
    var ab := a + b;
    forall i | 0 <= i < |ab|
      ensures ab[i].start <= ab[i].end
    {
      if i >= |a| {
        assert ab[i] == b[i - |a|];
      }
    }
    forall i, j | 0 <= i < j < |ab|
      ensures ab[i].end <= ab[j].start
    {
      if i >= |a| {
        assert ab[i] == b[i - |a|] && ab[j] == b[j - |a|];
      } else if j >= |a| {
        assert ab[i] in a && ab[j] in b;
      }
    }
  }
}
