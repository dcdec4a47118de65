/** Worked examples of the sweep and its chaining, on day 0 of the local clock. */
module Scenarios {
  import opened Outcomes
  import opened Intervals
  import opened Grid
  import opened Sweep
  import opened Chaining

  /**
    A clock time in seconds after midnight. The stated examples use it; the
    step lemmas below them write the same times in seconds, which the solver
    evaluates without unfolding it.
   */
  function At(hour: int, minute: int): int {
    hour * 3600 + minute * 60
  }

  /** 9:00 to 17:00. */
  const WorkDay: seq<Range> := [Range(32400, 61200)]
  /** 10:00 to 10:15. */
  const Quarter: seq<Range> := [Range(36000, 36900)]
  /** 9:00 to 12:00. */
  const Morning: seq<Range> := [Range(32400, 43200)]
  /** 12:00 to 17:00. */
  const Afternoon: seq<Range> := [Range(43200, 61200)]
  /** 13:00 to 14:00. */
  const Lunch: seq<Range> := [Range(46800, 50400)]

  /** Once the only free range is finished the sweep has nothing left to add. */
  lemma Finished(free: seq<Range>, busy: seq<Range>, cs: int)
    requires |free| == 1 && |busy| == 1
    ensures SweepFrom(free, busy, 30, 1, 1, cs) == Ok([])
  {
  }

  /** The tail of a free range after the last busy range, if long enough, is the last output. */
  lemma Tail(free: seq<Range>, busy: seq<Range>, cs: int)
    requires |free| == 1 && |busy| == 1 && busy[0].end <= cs
    requires LongEnough(Range(cs, free[0].end), 30)
    ensures SweepFrom(free, busy, 30, 0, 1, cs) == Ok([Range(cs, free[0].end)])
  {
    UnfoldPass(free, busy, 30, 0, 1, cs);
    assert Skip(busy, 1, cs) == 1;
    Finished(free, busy, StartAt(free, 1));
    assert Case(free, busy, 30, 0, 1, cs) == Ok(Pass(Some(Range(cs, free[0].end)), 1, 1, StartAt(free, 1)));
    assert [Range(cs, free[0].end)] + [] == [Range(cs, free[0].end)];
  }

  lemma QuarterStep()
    ensures Case(WorkDay, Quarter, 30, 0, 0, 32400) == Ok(Pass(Some(Range(32400, 36000)), 0, 1, 37800))
  {
    assert CeilDt(36900, 32400, 30) == Ok(37800);
  }

  /** A busy quarter hour inside the day: its end 10:15 is rounded up to 10:30 on the 30-minute grid from 9:00. */
  lemma BusyInsideFreeIsRoundedUp()
    ensures Subtract([Range(At(9, 0), At(17, 0))], [Range(At(10, 0), At(10, 15))], 30)
         == Ok([Range(At(9, 0), At(10, 0)), Range(At(10, 30), At(17, 0))])
  {
    Tail(WorkDay, Quarter, 37800);
    QuarterStep();
    UnfoldPass(WorkDay, Quarter, 30, 0, 0, 32400);
    assert Skip(Quarter, 0, 32400) == 0;
    assert LongEnough(Range(32400, 36000), 30);
    assert [Range(32400, 36000)] + [Range(37800, 61200)] == [Range(32400, 36000), Range(37800, 61200)];
  }

  /** A busy range over the whole free range removes it. */
  lemma BusyCoveringFreeRemovesIt()
    ensures Subtract([Range(At(9, 0), At(10, 0))], [Range(At(8, 0), At(11, 0))], 30) == Ok([])
  {
  }

  /** A free range shorter than the meeting length is dropped even with nothing busy. */
  lemma ShortFreeRangeIsDropped()
    ensures Subtract([Range(At(9, 0), At(9, 20))], [], 30) == Ok([])
  {
  }

  lemma MorningStep()
    ensures Case(WorkDay, Morning, 30, 0, 0, 32400) == Ok(Pass(None, 0, 1, 43200))
  {
    assert CeilDt(43200, 32400, 30) == Ok(43200);
  }

  lemma FirstCalendar()
    ensures Subtract(WorkDay, Morning, 30) == Ok(Afternoon)
  {
    Tail(WorkDay, Morning, 43200);
    MorningStep();
    UnfoldPass(WorkDay, Morning, 30, 0, 0, 32400);
    assert Skip(Morning, 0, 32400) == 0;
  }

  lemma LunchStep()
    ensures Case(Afternoon, Lunch, 30, 0, 0, 43200) == Ok(Pass(Some(Range(43200, 46800)), 0, 1, 50400))
  {
    assert CeilDt(50400, 43200, 30) == Ok(50400);
  }

  lemma SecondCalendar()
    ensures Subtract(Afternoon, Lunch, 30) == Ok([Range(43200, 46800), Range(50400, 61200)])
  {
    Tail(Afternoon, Lunch, 50400);
    LunchStep();
    UnfoldPass(Afternoon, Lunch, 30, 0, 0, 43200);
    assert Skip(Lunch, 0, 43200) == 0;
    assert LongEnough(Range(43200, 46800), 30);
    assert [Range(43200, 46800)] + [Range(50400, 61200)] == [Range(43200, 46800), Range(50400, 61200)];
  }

  /** Two calendars, one after the other: the second works on what the first left. */
  lemma TwoCalendarsCompound()
    ensures SubtractEach([Range(At(9, 0), At(17, 0))],
                         [[Range(At(9, 0), At(12, 0))], [Range(At(13, 0), At(14, 0))]], 30)
         == Ok([Range(At(12, 0), At(13, 0)), Range(At(14, 0), At(17, 0))])
  {
    FirstCalendar();
    SecondCalendar();
    var cals := [Morning, Lunch];
    assert cals[1..] == [Lunch];
    assert SubtractEach(Afternoon, [Lunch], 30) == Ok([Range(43200, 46800), Range(50400, 61200)]);
  }

  /** A zero meeting length makes ceil_dt divide by zero as soon as a busy range ends inside a free one. */
  lemma ZeroGridRaises()
    ensures Subtract([Range(At(9, 0), At(17, 0))], [Range(At(10, 0), At(10, 15))], 0) == Err(ZeroDivision)
  {
  }
}
