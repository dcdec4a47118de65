/**
  The loop in main: one sweep per chosen calendar, each feeding its output to
  the next. This is a left fold of combine_ranges over the calendars.
 */
module Chaining {
  import opened Outcomes
  import opened Intervals
  import opened Grid
  import opened Sweep
  import opened SweepFacts

  /** Subtract the busy ranges of each calendar in turn. */
  function SubtractEach(free: seq<Range>, calendars: seq<seq<Range>>, m: int): (r: Result<seq<Range>>)
    ensures r.Err? ==> r.error == ZeroDivision && m == 0 && |calendars| > 0
    decreases |calendars|
  {
    if |calendars| == 0 then
      Ok(free)
    else
      SubtractFailsOnlyOnZeroGrid(free, calendars[0], m);
      var next :- Subtract(free, calendars[0], m);
      SubtractEach(next, calendars[1..], m)
  }

  /** Splitting the calendar list splits the fold: the second part continues from the first's output. */
  lemma {:induction false} SubtractEachAppend(free: seq<Range>, first: seq<seq<Range>>, second: seq<seq<Range>>, m: int)
    ensures SubtractEach(free, first + second, m) ==
      match SubtractEach(free, first, m)
      case Err(e) => Err(e)
      case Ok(mid) => SubtractEach(mid, second, m)
    decreases |first|
  {
    if |first| == 0 {
      assert first + second == second;
    } else {
      assert (first + second)[0] == first[0];
      assert (first + second)[1..] == first[1..] + second;
      var next := Subtract(free, first[0], m);
      if next.Ok? {
        SubtractEachAppend(next.value, first[1..], second, m);
      }
    }
  }

  /** Calendars that report nothing busy leave an already filtered free list unchanged. */
  lemma {:induction false} IdleCalendarsChangeNothing(free: seq<Range>, calendars: seq<seq<Range>>, m: int)
    requires AllLongEnough(free, m)
    requires forall c :: 0 <= c < |calendars| ==> calendars[c] == []
    ensures SubtractEach(free, calendars, m) == Ok(free)
    decreases |calendars|
  {
    if |calendars| > 0 {
      SubtractNothingBusy(free, m);
      IdleCalendarsChangeNothing(free, calendars[1..], m);
    }
  }

  lemma FitsTrans(r: Range, a: Range, f: Range, m: int)
    requires Fits(r, a, m) && Fits(a, f, m)
    ensures Fits(r, f, m)
  {
    OnGridTrans(r.start, a.start, f.start, m);
  }

  lemma CoveredTrans(r: Range, mid: seq<Range>, free: seq<Range>, m: int)
    requires Covered(r, mid, m)
    requires forall k :: 0 <= k < |mid| ==> Covered(mid[k], free, m)
    ensures Covered(r, free, m)
  {
    var k :| 0 <= k < |mid| && Fits(r, mid[k], m);
    var j :| 0 <= j < |free| && Fits(mid[k], free[j], m);
    FitsTrans(r, mid[k], free[j], m);
  }

  /** Every calendar's busy list sorted by start and well formed. */
  predicate CalendarsSorted(calendars: seq<seq<Range>>) {
    forall c :: 0 <= c < |calendars| ==> SortedByStart(calendars[c]) && WellFormed(calendars[c])
  }

  /**
    On sorted inputs the chained result is sorted and disjoint, fits the
    original free ranges on their grids, and misses the busy ranges of EVERY
    calendar, not only the last one.
   */
  lemma {:induction false} SubtractEachSound(free: seq<Range>, calendars: seq<seq<Range>>, m: int)
    requires m > 0 && SortedDisjoint(free) && CalendarsSorted(calendars)
    ensures SubtractEach(free, calendars, m).Ok?
    ensures var out := SubtractEach(free, calendars, m).value;
            && SortedDisjoint(out)
            && (|calendars| > 0 ==> AllLongEnough(out, m))
            && (forall k :: 0 <= k < |out| ==> Covered(out[k], free, m))
            && (forall k, c, j :: 0 <= k < |out| && 0 <= c < |calendars| && 0 <= j < |calendars[c]| ==>
                  !Overlaps(out[k], calendars[c][j]))
    decreases |calendars|
  {
    if |calendars| == 0 {
      var out := free;
      forall k | 0 <= k < |out|
        ensures Covered(out[k], free, m)
      {
        OnGridRefl(free[k].start, m);
        assert Fits(out[k], free[k], m);
      }
    } else {
      SubtractSound(free, calendars[0], m);
      var mid := Subtract(free, calendars[0], m).value;
      var rest := calendars[1..];
      SubtractEachSound(mid, rest, m);
      var out := SubtractEach(mid, rest, m).value;
      assert SubtractEach(free, calendars, m) == SubtractEach(mid, rest, m);
      if |rest| == 0 {
        assert out == mid;
      }
      forall k | 0 <= k < |out|
        ensures Covered(out[k], free, m)
      {
        CoveredTrans(out[k], mid, free, m);
      }
      forall k, c, j | 0 <= k < |out| && 0 <= c < |calendars| && 0 <= j < |calendars[c]|
        ensures !Overlaps(out[k], calendars[c][j])
      {
        if c == 0 {
          var i :| 0 <= i < |mid| && Fits(out[k], mid[i], m);
          WithinAvoids(out[k], mid[i], calendars[0][j]);
        } else {
          assert calendars[c] == rest[c - 1];
        }
      }
    }
  }
}
