/**
  The part of print_ranges that can be stated without strftime: grouping the
  ranges into runs that start on the same weekday, the "Next week:" marker of
  the src/ variant, and the ordinal day suffix.
 */
module Schedule {
  import opened Outcomes
  import opened Clock
  import opened Intervals
  import opened Variants
  import opened Config

  /**
    `r0.astimezone(show_timezone).weekday()`. The display clock differs from
    the construction clock by the fixed offset `shift` seconds.
   */
  function DisplayWeekday(t: int, shift: int): int {
    Weekday(Day(t + shift))
  }

  /**
    `int(config["week_starts_on_sunday"])`, read from the configuration in
    effect: a missing key is a KeyError, a string that is not a decimal
    integer a ValueError, a template a TypeError.
   */
  function WeekOffset(c: Config): (r: Result<int>)
    ensures r.Err? <==> "week_starts_on_sunday" !in c || ToInt(c["week_starts_on_sunday"]).Err?
    ensures r.Ok? ==> ToInt(c["week_starts_on_sunday"]) == Ok(r.value)
    ensures r.Err? && "week_starts_on_sunday" !in c ==> r.error == KeyError("week_starts_on_sunday")
  {
    var value :- Lookup(c, "week_starts_on_sunday");
    ToInt(value)
  }

  /** The default configuration counts weeks from Monday: `int(False)` is 0. */
  lemma DefaultWeekStartsOnMonday()
    ensures WeekOffset(Defaults) == Ok(0)
  {
  }

  /** `_to_weekday`: the weekday counted from the configured first day of the week. */
  function WeekIndex(t: int, shift: int, weekOffset: int): (w: int)
    ensures 0 <= w < 7
  {
    (DisplayWeekday(t, shift) + weekOffset) % 7
  }

  function Flatten(groups: seq<seq<Range>>): seq<Range> {
    if |groups| == 0 then [] else groups[0] + Flatten(groups[1..])
  }

  /**
    Each group is non-empty and all its ranges start on the same display
    weekday; neighbouring groups start on different weekdays, so no run can
    be extended. The key is the weekday only, not the date.
   */
  predicate Runs(groups: seq<seq<Range>>, shift: int) {
    && (forall g :: 0 <= g < |groups| ==> |groups[g]| > 0)
    && (forall g, k :: 0 <= g < |groups| && 0 <= k < |groups[g]| ==>
          DisplayWeekday(groups[g][k].start, shift) == DisplayWeekday(groups[g][0].start, shift))
    && (forall g :: 0 < g < |groups| ==>
          DisplayWeekday(groups[g][0].start, shift) != DisplayWeekday(groups[g - 1][0].start, shift))
  }

  lemma {:induction false} FlattenAppend(groups: seq<seq<Range>>, g: seq<Range>)
    ensures Flatten(groups + [g]) == Flatten(groups) + g
    decreases |groups|
  {
    if |groups| == 0 {
      assert groups + [g] == [g];
      assert Flatten([g]) == g + Flatten([]);
    } else {
      assert (groups + [g])[1..] == groups[1..] + [g];
      FlattenAppend(groups[1..], g);
    }
  }

  /** `day_ranges[-1].append(r)`: the range joins the last run, which starts on its weekday. */
  function ExtendLastRun(groups: seq<seq<Range>>, r: Range, shift: int): (grown: seq<seq<Range>>)
    requires Runs(groups, shift) && |groups| > 0
    requires DisplayWeekday(r.start, shift) == DisplayWeekday(groups[|groups| - 1][0].start, shift)
    ensures Runs(grown, shift) && Flatten(grown) == Flatten(groups) + [r]
    ensures |grown| == |groups| && grown[|grown| - 1][0] == groups[|groups| - 1][0]
  {
    var last := |groups| - 1;
    assert groups == groups[..last] + [groups[last]];
    FlattenAppend(groups[..last], groups[last]);
    FlattenAppend(groups[..last], groups[last] + [r]);
    var grown := groups[..last] + [groups[last] + [r]];
    assert forall g :: 0 <= g < last ==> grown[g] == groups[g];
    grown
  }

  /** `day_ranges.append([r])`: a new run, on a weekday other than the last run's. */
  lemma AddRun(groups: seq<seq<Range>>, r: Range, shift: int)
    requires Runs(groups, shift)
    requires |groups| > 0 ==> DisplayWeekday(r.start, shift) != DisplayWeekday(groups[|groups| - 1][0].start, shift)
    ensures Runs(groups + [[r]], shift)
  {
    var grown := groups + [[r]];
    assert forall g :: 0 <= g < |groups| ==> grown[g] == groups[g];
    assert grown[|groups|] == [r];
    assert forall g :: 0 <= g < |grown| ==> |grown[g]| > 0;
    assert forall g, k :: 0 <= g < |grown| && 0 <= k < |grown[g]| ==>
          DisplayWeekday(grown[g][k].start, shift) == DisplayWeekday(grown[g][0].start, shift);
    assert forall g :: 0 < g < |grown| ==>
          DisplayWeekday(grown[g][0].start, shift) != DisplayWeekday(grown[g - 1][0].start, shift);
  }

  /** The first loop of print_ranges: a run grows while the weekday of its start stays the same. */
  method GroupByWeekday(ranges: seq<Range>, shift: int) returns (groups: seq<seq<Range>>)
    ensures Flatten(groups) == ranges
    ensures Runs(groups, shift)
  {
    groups := [];
    var day: Option<int> := None;
    var i := 0;
    while i < |ranges|
      invariant 0 <= i <= |ranges|
      invariant Flatten(groups) == ranges[..i]
      invariant Runs(groups, shift)
      invariant day == if |groups| == 0 then None else Some(DisplayWeekday(groups[|groups| - 1][0].start, shift))
    {
      var r := ranges[i];
      var w := DisplayWeekday(r.start, shift);
      if day == Some(w) {
        groups := ExtendLastRun(groups, r, shift);
      } else {
        AddRun(groups, r, shift);
        FlattenAppend(groups, [r]);
        groups := groups + [[r]];
        day := Some(w);
      }
      assert ranges[..i + 1] == ranges[..i] + [r];
      i := i + 1;
    }
    assert ranges[..i] == ranges;
  }

  /** One printed line: an optional "Next week:" marker before it, and the ranges of one run. */
  datatype Line = Line(nextWeek: bool, ranges: seq<Range>)

  function Groups(lines: seq<Line>): (groups: seq<seq<Range>>)
    ensures |groups| == |lines|
    ensures forall k :: 0 <= k < |lines| ==> groups[k] == lines[k].ranges
  {
    seq(|lines|, k requires 0 <= k < |lines| => lines[k].ranges)
  }

  /** The marker rule: a line is marked when its week index is below the previous line's. */
  predicate MarkedByWeek(lines: seq<Line>, shift: int, weekOffset: int)
    requires forall k :: 0 <= k < |lines| ==> |lines[k].ranges| > 0
  {
    forall k :: 0 <= k < |lines| ==>
      (lines[k].nextWeek <==>
         0 < k && WeekIndex(lines[k].ranges[0].start, shift, weekOffset)
                < WeekIndex(lines[k - 1].ranges[0].start, shift, weekOffset))
  }

  /**
    print_ranges without the text: the runs in order, each with its marker.
    The src/ variant reads `day_ranges[0]` and so fails on an empty list, and
    then converts `week_starts_on_sunday` of the configuration in effect; the
    top-level variant prints nothing for an empty list and never marks a week.
   */
  method PlanSchedule(v: Variant, config: Config, ranges: seq<Range>, shift: int) returns (r: Result<seq<Line>>)
    ensures r.Err? <==> MarksWeeks(v) && (|ranges| == 0 || WeekOffset(config).Err?)
    ensures r.Err? ==> r.error == if |ranges| == 0 then IndexError else WeekOffset(config).error
    ensures r.Ok? ==> Flatten(Groups(r.value)) == ranges && Runs(Groups(r.value), shift)
    ensures r.Ok? && MarksWeeks(v) ==> WeekOffset(config).Ok? && MarkedByWeek(r.value, shift, WeekOffset(config).value)
    ensures r.Ok? && !MarksWeeks(v) ==> forall k :: 0 <= k < |r.value| ==> !r.value[k].nextWeek
  {
    var groups := GroupByWeekday(ranges, shift);
    if !MarksWeeks(v) {
      var lines := seq(|groups|, k requires 0 <= k < |groups| => Line(false, groups[k]));
      assert Groups(lines) == groups;
      return Ok(lines);
    }
    if |groups| == 0 {
      assert |ranges| == 0 by { assert Flatten(groups) == []; }
      return Err(IndexError);
    }
    assert |ranges| > 0 by {
      assert groups[0] + Flatten(groups[1..]) == ranges;
    }
    var offset := WeekOffset(config);
    if offset.Err? {
      return Err(offset.error);
    }
    var weekOffset := offset.value;
    var lines: seq<Line> := [];
    var lastWeekday := WeekIndex(groups[0][0].start, shift, weekOffset);
    var i := 0;
    while i < |groups|
      invariant 0 <= i <= |groups|
      invariant |lines| == i
      invariant forall k :: 0 <= k < i ==> lines[k].ranges == groups[k]
      invariant MarkedByWeek(lines, shift, weekOffset)
      invariant lastWeekday == WeekIndex(groups[if i == 0 then 0 else i - 1][0].start, shift, weekOffset)
    {
      var here := WeekIndex(groups[i][0].start, shift, weekOffset);
      lines := lines + [Line(here < lastWeekday, groups[i])];
      lastWeekday := here;
      i := i + 1;
    }
    assert Groups(lines) == groups;
    return Ok(lines);
  }

  /** Adding a fixed offset modulo 7 keeps distinct weekdays distinct. */
  lemma WeekIndexSeparatesWeekdays(t: int, u: int, shift: int, weekOffset: int)
    requires DisplayWeekday(t, shift) != DisplayWeekday(u, shift)
    ensures WeekIndex(t, shift, weekOffset) != WeekIndex(u, shift, weekOffset)
  {
    var a, b := DisplayWeekday(t, shift), DisplayWeekday(u, shift);
    var o := weekOffset % 7;
    SameRemainder(a, weekOffset);
    SameRemainder(b, weekOffset);
    ReduceOnce(a + o);
    ReduceOnce(b + o);
  }

  /** Only the offset's remainder matters. */
  lemma SameRemainder(a: int, offset: int)
    ensures (a + offset) % 7 == (a + offset % 7) % 7
  {
    var q := offset / 7;
    assert a + offset == (a + offset % 7) + 7 * q;
  }

  /** Below two weeks, the remainder is at most one subtraction away. */
  lemma ReduceOnce(x: int)
    requires 0 <= x < 14
    ensures x % 7 == if x < 7 then x else x - 7
  {
  }

  /**
    Between two markers the week indices strictly increase: an unmarked line
    starts later in the week than the line before it, because neighbouring
    runs never share a weekday.
   */
  lemma UnmarkedLinesAdvanceThroughTheWeek(lines: seq<Line>, shift: int, weekOffset: int)
    requires Runs(Groups(lines), shift)
    requires MarkedByWeek(lines, shift, weekOffset)
    ensures forall k :: 0 < k < |lines| && !lines[k].nextWeek ==>
              WeekIndex(lines[k - 1].ranges[0].start, shift, weekOffset)
                < WeekIndex(lines[k].ranges[0].start, shift, weekOffset)
  {
    forall k | 0 < k < |lines| && !lines[k].nextWeek
      ensures WeekIndex(lines[k - 1].ranges[0].start, shift, weekOffset)
                < WeekIndex(lines[k].ranges[0].start, shift, weekOffset)
    {
      assert Groups(lines)[k] == lines[k].ranges && Groups(lines)[k - 1] == lines[k - 1].ranges;
      WeekIndexSeparatesWeekdays(lines[k].ranges[0].start, lines[k - 1].ranges[0].start, shift, weekOffset);
    }
  }

  /** `suffix(d)` in print_ranges. */
  function Suffix(d: int): (s: string)
    ensures s in {"st", "nd", "rd", "th"}
  {
    if 11 <= d <= 13 then "th"
    else if d % 10 == 1 then "st"
    else if d % 10 == 2 then "nd"
    else if d % 10 == 3 then "rd"
    else "th"
  }

  /** The English ordinal rule: "th" throughout the teens of every hundred, otherwise by the last digit. */
  function EnglishOrdinalSuffix(d: nat): string {
    if (d / 10) % 10 == 1 then "th"
    else if d % 10 == 1 then "st"
    else if d % 10 == 2 then "nd"
    else if d % 10 == 3 then "rd"
    else "th"
  }

  /** For every day of a month the suffix is the English ordinal one. */
  lemma SuffixIsEnglishOrdinal(d: int)
    requires 1 <= d <= 31
    ensures Suffix(d) == EnglishOrdinalSuffix(d)
  {
  }
}
