/**
  prep_work_ranges: expand the weekly template over `days_forward` days from
  today, add a day to windows that cross midnight, drop windows that end before
  the floor, and raise window starts to the floor.
 */
module WorkWindows {
  import opened Outcomes
  import opened Clock
  import opened Intervals
  import opened Config
  import opened Variants

  function Max(a: int, b: int): int {
    if a < b then b else a
  }

  /**
    `now + hours_till_first_meeting` with minutes, seconds and microseconds
    zeroed: the start of the hour it falls in.
   */
  function Floor(now: int, hours: int): (f: int)
    ensures f % SecondsPerHour == 0
    ensures f <= now + SecondsPerHour * hours < f + SecondsPerHour
  {
    var t := now + SecondsPerHour * hours;
    t - t % SecondsPerHour
  }

  /** The start of a template window on a given day. */
  function WindowStart(day: int, w: Window): int {
    Midnight(day) + w.opens
  }

  /** The end of a template window on a given day; a window that closes before it opens ends the next day. */
  function WindowEnd(day: int, w: Window): int {
    Midnight(day) + w.closes + (if w.closes < w.opens then SecondsPerDay else 0)
  }

  /** A window never runs backwards and lasts less than a day; it is empty only when it opens as it closes. */
  lemma WindowSpan(day: int, w: Window)
    ensures WindowStart(day, w) <= WindowEnd(day, w) < WindowStart(day, w) + SecondsPerDay
    ensures WindowStart(day, w) == WindowEnd(day, w) <==> w.opens == w.closes
  {
  }

  /** The range a window gives once raised to the floor. */
  function Clipped(day: int, w: Window, floor: int): Range {
    Range(Max(WindowStart(day, w), floor), WindowEnd(day, w))
  }

  /**
    One template window on one day: dropped when it ends before the floor,
    otherwise raised to the floor and checked by the variant's assertion.
   */
  function ClipWindow(day: int, w: Window, floor: int, strict: bool): (r: Result<Option<Range>>)
    ensures r == Ok(None) <==> WindowEnd(day, w) < floor
    ensures r.Ok? && r.value.Some? ==> r.value.value == Clipped(day, w, floor)
    ensures r.Err? <==> strict && floor <= WindowEnd(day, w) && Max(WindowStart(day, w), floor) == WindowEnd(day, w)
    ensures r.Err? ==> r.error == WindowAssertion
  {
    if WindowEnd(day, w) < floor then
      Ok(None)
    else
      var r := Clipped(day, w, floor);
      if (if strict then r.start < r.end else r.start <= r.end) then Ok(Some(r))
      else Err(WindowAssertion)
  }

  /** The template windows for a day; a weekday missing from the template has none. */
  function WindowsOn(days: map<string, seq<Window>>, day: int): seq<Window> {
    var name := DayName(Weekday(day));
    if name in days then days[name] else []
  }

  /** The inner loop over one day's windows. */
  function ExpandDay(day: int, ws: seq<Window>, floor: int, strict: bool): (r: Result<seq<Range>>)
    ensures r.Ok? ==> |r.value| <= |ws|
    ensures r.Err? ==> strict && r.error == WindowAssertion
    decreases |ws|
  {
    if |ws| == 0 then
      Ok([])
    else
      var first :- ClipWindow(day, ws[0], floor, strict);
      var rest :- ExpandDay(day, ws[1..], floor, strict);
      Ok((if first.Some? then [first.value] else []) + rest)
  }

  /** The outer loop over the days `today + i` for `i` in `range(i, n)`. */
  function ExpandDays(today: int, i: int, n: int, days: map<string, seq<Window>>, floor: int, strict: bool): (r: Result<seq<Range>>)
    ensures r.Err? ==> strict && r.error == WindowAssertion
    decreases n - i
  {
    if n <= i then
      Ok([])
    else
      var here :- ExpandDay(today + i, WindowsOn(days, today + i), floor, strict);
      var later :- ExpandDays(today, i + 1, n, days, floor, strict);
      Ok(here + later)
  }

  predicate HasEmpty(rs: seq<Range>) {
    exists k :: 0 <= k < |rs| && rs[k].start == rs[k].end
  }

  /** Every range emitted starts at or after the floor and is well formed; a strict check makes it non-empty. */
  predicate Emitted(rs: seq<Range>, floor: int, strict: bool) {
    forall k :: 0 <= k < |rs| ==>
      && floor <= rs[k].start <= rs[k].end
      && rs[k].end - rs[k].start < SecondsPerDay
      && (strict ==> rs[k].start < rs[k].end)
  }

  lemma {:induction false} ExpandDayEmits(day: int, ws: seq<Window>, floor: int, strict: bool)
    ensures ExpandDay(day, ws, floor, strict).Ok? ==> Emitted(ExpandDay(day, ws, floor, strict).value, floor, strict)
    decreases |ws|
  {
    if |ws| > 0 {
      WindowSpan(day, ws[0]);
      ExpandDayEmits(day, ws[1..], floor, strict);
    }
  }

  /** Every emitted window lies at or after the floor and lasts less than a day; `start < end` under the strict check. */
  lemma {:induction false} ExpandDaysEmits(today: int, i: int, n: int, days: map<string, seq<Window>>, floor: int, strict: bool)
    ensures ExpandDays(today, i, n, days, floor, strict).Ok? ==> Emitted(ExpandDays(today, i, n, days, floor, strict).value, floor, strict)
    decreases n - i
  {
    if i < n {
      ExpandDayEmits(today + i, WindowsOn(days, today + i), floor, strict);
      ExpandDaysEmits(today, i + 1, n, days, floor, strict);
    }
  }

  lemma {:induction false} ExpandDayStrictness(day: int, ws: seq<Window>, floor: int)
    ensures ExpandDay(day, ws, floor, false).Ok?
    ensures var lenient := ExpandDay(day, ws, floor, false).value;
            ExpandDay(day, ws, floor, true) == if HasEmpty(lenient) then Err(WindowAssertion) else Ok(lenient)
    decreases |ws|
  {
    if |ws| > 0 {
      WindowSpan(day, ws[0]);
      ExpandDayStrictness(day, ws[1..], floor);
      var first := ClipWindow(day, ws[0], floor, false).value;
      var head := if first.Some? then [first.value] else [];
      var rest := ExpandDay(day, ws[1..], floor, false).value;
      HasEmptyConcat(head, rest);
      if first.Some? {
        assert head[0] == first.value;
        assert HasEmpty(head) <==> first.value.start == first.value.end;
      } else {
        assert !HasEmpty(head);
      }
      assert HasEmpty(head) <==> ClipWindow(day, ws[0], floor, true).Err?;
      if ClipWindow(day, ws[0], floor, true).Ok? {
        assert ClipWindow(day, ws[0], floor, true) == ClipWindow(day, ws[0], floor, false);
      }
    }
  }

  lemma HasEmptyConcat(a: seq<Range>, b: seq<Range>)
    ensures HasEmpty(a + b) <==> HasEmpty(a) || HasEmpty(b)
  {
    if HasEmpty(a + b) {
      var k :| 0 <= k < |a + b| && (a + b)[k].start == (a + b)[k].end;
      if k >= |a| {
        assert b[k - |a|] == (a + b)[k];
      }
    }
    if HasEmpty(a) {
      var k :| 0 <= k < |a| && a[k].start == a[k].end;
      assert (a + b)[k] == a[k];
    }
    if HasEmpty(b) {
      var k :| 0 <= k < |b| && b[k].start == b[k].end;
      assert (a + b)[|a| + k] == b[k];
    }
  }

  /**
    The two assertions compared: `start <= end` never fails, and `start < end`
    fails exactly when the lenient expansion would emit a zero-length window;
    otherwise both expansions agree.
   */
  lemma {:induction false} StrictFailsIffZeroLength(today: int, i: int, n: int, days: map<string, seq<Window>>, floor: int)
    ensures ExpandDays(today, i, n, days, floor, false).Ok?
    ensures var lenient := ExpandDays(today, i, n, days, floor, false).value;
            ExpandDays(today, i, n, days, floor, true) == if HasEmpty(lenient) then Err(WindowAssertion) else Ok(lenient)
    decreases n - i
  {
    if i < n {
      ExpandDayStrictness(today + i, WindowsOn(days, today + i), floor);
      StrictFailsIffZeroLength(today, i + 1, n, days, floor);
      var here := ExpandDay(today + i, WindowsOn(days, today + i), floor, false).value;
      var later := ExpandDays(today, i + 1, n, days, floor, false).value;
      HasEmptyConcat(here, later);
    }
  }

  /** `r` is what some template window on a day of the horizon gives once clipped. */
  predicate FromTemplate(r: Range, first: int, last: int, days: map<string, seq<Window>>, floor: int) {
    exists day, w :: first <= day < last && w in WindowsOn(days, day) && r == Clipped(day, w, floor)
  }

  lemma {:induction false} ExpandDayExactly(day: int, ws: seq<Window>, floor: int, strict: bool)
    requires ExpandDay(day, ws, floor, strict).Ok?
    ensures var out := ExpandDay(day, ws, floor, strict).value;
            && (forall r :: r in out ==> exists w :: w in ws && r == Clipped(day, w, floor))
            && (forall w :: w in ws && floor <= WindowEnd(day, w) ==> Clipped(day, w, floor) in out)
    decreases |ws|
  {
    if |ws| > 0 {
      ExpandDayExactly(day, ws[1..], floor, strict);
      var out := ExpandDay(day, ws, floor, strict).value;
      forall r | r in out
        ensures exists w :: w in ws && r == Clipped(day, w, floor)
      {
        if r !in ExpandDay(day, ws[1..], floor, strict).value {
          assert r == Clipped(day, ws[0], floor);
        } else {
          var w :| w in ws[1..] && r == Clipped(day, w, floor);
          assert w in ws;
        }
      }
      forall w | w in ws && floor <= WindowEnd(day, w)
        ensures Clipped(day, w, floor) in out
      {
        if w != ws[0] {
          assert w in ws[1..];
        }
      }
    }
  }

  /** Each emitted range is a clipped template window of a day of the horizon. */
  lemma {:induction false} ExpandDaysFromTemplate(today: int, i: int, n: int, days: map<string, seq<Window>>, floor: int, strict: bool)
    requires ExpandDays(today, i, n, days, floor, strict).Ok?
    ensures var out := ExpandDays(today, i, n, days, floor, strict).value;
            forall r :: r in out ==> FromTemplate(r, today + i, today + n, days, floor)
    decreases n - i
  {
    if i < n {
      var d := today + i;
      ExpandDayExactly(d, WindowsOn(days, d), floor, strict);
      ExpandDaysFromTemplate(today, i + 1, n, days, floor, strict);
      var here := ExpandDay(d, WindowsOn(days, d), floor, strict).value;
      var later := ExpandDays(today, i + 1, n, days, floor, strict).value;
      var out := ExpandDays(today, i, n, days, floor, strict).value;
      assert out == here + later;
      forall r | r in out
        ensures FromTemplate(r, today + i, today + n, days, floor)
      {
        if r in here {
          var w :| w in WindowsOn(days, d) && r == Clipped(d, w, floor);
        } else {
          assert r in later;
        }
      }
    }
  }

  /** Each template window of a day of the horizon that ends at or after the floor is emitted, clipped. */
  lemma {:induction false} ExpandDaysComplete(today: int, i: int, n: int, days: map<string, seq<Window>>, floor: int, strict: bool)
    requires ExpandDays(today, i, n, days, floor, strict).Ok?
    ensures var out := ExpandDays(today, i, n, days, floor, strict).value;
            forall day, w :: today + i <= day < today + n && w in WindowsOn(days, day) && floor <= WindowEnd(day, w) ==>
              Clipped(day, w, floor) in out
    decreases n - i
  {
    if i < n {
      var d := today + i;
      ExpandDayExactly(d, WindowsOn(days, d), floor, strict);
      ExpandDaysComplete(today, i + 1, n, days, floor, strict);
      var here := ExpandDay(d, WindowsOn(days, d), floor, strict).value;
      var later := ExpandDays(today, i + 1, n, days, floor, strict).value;
      var out := ExpandDays(today, i, n, days, floor, strict).value;
      assert out == here + later;
      forall day, w | today + i <= day < today + n && w in WindowsOn(days, day) && floor <= WindowEnd(day, w)
        ensures Clipped(day, w, floor) in out
      {
        if day == d {
          assert Clipped(day, w, floor) in here;
        } else {
          assert Clipped(day, w, floor) in later;
        }
      }
    }
  }

  /**
    The expansion emits exactly the clipped template windows of the horizon
    that end at or after the floor: each emitted range comes from such a
    window, and each such window is emitted.
   */
  lemma ExpandDaysExactly(today: int, i: int, n: int, days: map<string, seq<Window>>, floor: int, strict: bool)
    requires ExpandDays(today, i, n, days, floor, strict).Ok?
    ensures var out := ExpandDays(today, i, n, days, floor, strict).value;
            && (forall r :: r in out ==> FromTemplate(r, today + i, today + n, days, floor))
            && (forall day, w :: today + i <= day < today + n && w in WindowsOn(days, day) && floor <= WindowEnd(day, w) ==>
                  Clipped(day, w, floor) in out)
  {
    ExpandDaysFromTemplate(today, i, n, days, floor, strict);
    ExpandDaysComplete(today, i, n, days, floor, strict);
  }

  /** One day's windows in order: none crosses midnight, and each closes no later than any later one opens. */
  predicate OrderedWindows(ws: seq<Window>) {
    && (forall k :: 0 <= k < |ws| ==> ws[k].opens <= ws[k].closes)
    && (forall j, k :: 0 <= j < k < |ws| ==> ws[j].closes <= ws[k].opens)
  }

  predicate OrderedTemplate(days: map<string, seq<Window>>) {
    forall name :: name in days ==> OrderedWindows(days[name])
  }

  /** The default template is ordered. */
  lemma DefaultDaysOrdered()
    ensures OrderedTemplate(DefaultDays)
  {
  }

  lemma OrderedTail(ws: seq<Window>)
    requires OrderedWindows(ws) && |ws| > 0
    ensures OrderedWindows(ws[1..])
  {
    forall j, k | 0 <= j < k < |ws[1..]|
      ensures ws[1..][j].closes <= ws[1..][k].opens
    {
      assert ws[1..][j] == ws[j + 1] && ws[1..][k] == ws[k + 1];
    }
  }

  /** A window that does not cross midnight stays within its day once clipped. */
  lemma ClippedWithinDay(day: int, w: Window, floor: int)
    requires w.opens <= w.closes
    ensures Midnight(day) <= Clipped(day, w, floor).start
    ensures Clipped(day, w, floor).end == Midnight(day) + w.closes < Midnight(day + 1)
  {
    assert Midnight(day + 1) == Midnight(day) + SecondsPerDay;
  }

  /** The first window closes before anything the later windows of the day give starts. */
  lemma FirstBeforeRest(day: int, ws: seq<Window>, floor: int, strict: bool)
    requires OrderedWindows(ws) && |ws| > 0 && ExpandDay(day, ws[1..], floor, strict).Ok?
    ensures forall y :: y in ExpandDay(day, ws[1..], floor, strict).value ==> Midnight(day) + ws[0].closes <= y.start
  {
    ExpandDayExactly(day, ws[1..], floor, strict);
    forall y | y in ExpandDay(day, ws[1..], floor, strict).value
      ensures Midnight(day) + ws[0].closes <= y.start
    {
      var w :| w in ws[1..] && y == Clipped(day, w, floor);
      var k :| 0 <= k < |ws[1..]| && ws[1..][k] == w;
      assert ws[0].closes <= ws[k + 1].opens;
    }
  }

  /** An ordered day gives sorted, disjoint ranges that stay within that day. */
  lemma {:induction false} ExpandDaySorted(day: int, ws: seq<Window>, floor: int, strict: bool)
    requires OrderedWindows(ws) && ExpandDay(day, ws, floor, strict).Ok?
    ensures var out := ExpandDay(day, ws, floor, strict).value;
            && SortedDisjoint(out)
            && forall r :: r in out ==> Midnight(day) <= r.start && r.end < Midnight(day + 1)
    decreases |ws|
  {
    if |ws| > 0 {
      var rest := ExpandDay(day, ws[1..], floor, strict).value;
      var out := ExpandDay(day, ws, floor, strict).value;
      OrderedTail(ws);
      ExpandDaySorted(day, ws[1..], floor, strict);
      var first := ClipWindow(day, ws[0], floor, strict).value;
      if first.Some? {
        var c := first.value;
        ClippedWithinDay(day, ws[0], floor);
        FirstBeforeRest(day, ws, floor, strict);
        SortedDisjointConcat([c], rest);
        assert out == [c] + rest;
      } else {
        assert out == rest;
      }
    }
  }

  /** An ordered template gives sorted, disjoint work windows, none before the first day of the horizon. */
  lemma {:induction false} ExpandDaysSorted(today: int, i: int, n: int, days: map<string, seq<Window>>, floor: int, strict: bool)
    requires OrderedTemplate(days) && ExpandDays(today, i, n, days, floor, strict).Ok?
    ensures var out := ExpandDays(today, i, n, days, floor, strict).value;
            && SortedDisjoint(out)
            && forall r :: r in out ==> Midnight(today + i) <= r.start
    decreases n - i
  {
    if i < n {
      var d := today + i;
      assert OrderedWindows(WindowsOn(days, d));
      ExpandDaySorted(d, WindowsOn(days, d), floor, strict);
      ExpandDaysSorted(today, i + 1, n, days, floor, strict);
      var here := ExpandDay(d, WindowsOn(days, d), floor, strict).value;
      var later := ExpandDays(today, i + 1, n, days, floor, strict).value;
      assert Midnight(d + 1) == Midnight(d) + SecondsPerDay;
      assert today + (i + 1) == d + 1;
      SortedDisjointConcat(here, later);
      assert ExpandDays(today, i, n, days, floor, strict).value == here + later;
    }
  }

  /** Python's `word in text` on two strings: `word` is a contiguous piece of `text`. */
  predicate Occurs(word: string, text: string)
    decreases |text|
  {
    |word| <= |text| && (text[..|word|] == word || Occurs(word, text[1..]))
  }

  /** `word` appears in `text` starting at position `k`. */
  predicate OccursAt(word: string, text: string, k: int) {
    0 <= k <= |text| - |word| && text[k..k + |word|] == word
  }

  /** `Occurs` finds exactly the positions at which `word` appears. */
  lemma {:induction false} OccursSomewhere(word: string, text: string)
    ensures Occurs(word, text) <==> exists k :: OccursAt(word, text, k)
    decreases |text|
  {
    if |word| <= |text| && text[..|word|] != word {
      OccursSomewhere(word, text[1..]);
      if Occurs(word, text[1..]) {
        var k :| OccursAt(word, text[1..], k);
        assert text[k + 1..k + 1 + |word|] == word;
        assert OccursAt(word, text, k + 1);
      }
      if exists k :: OccursAt(word, text, k) {
        var k :| OccursAt(word, text, k);
        assert k != 0;
        assert text[1..][k - 1..k - 1 + |word|] == word;
        assert OccursAt(word, text[1..], k - 1);
      }
    } else if |word| <= |text| {
      assert OccursAt(word, text, 0);
    }
  }

  /**
    The outer loop when `days` is a string. `dow in days` is then a substring
    test: a day whose name occurs in the string goes on to `days[dow]`, which
    raises TypeError on a string; every other day is skipped.
   */
  function SkipText(today: int, i: int, n: int, text: string): (r: Result<seq<Range>>)
    ensures r.Ok? ==> r.value == []
    ensures r.Err? <==> exists day :: today + i <= day < today + n && Occurs(DayName(Weekday(day)), text)
    ensures r.Err? ==> r.error == TypeError
    decreases n - i
  {
    if n <= i then
      Ok([])
    else if Occurs(DayName(Weekday(today + i)), text) then
      Err(TypeError)
    else
      SkipText(today, i + 1, n, text)
  }

  /**
    prep_work_ranges for each variant, with "now" as a parameter. The src/
    variant merges the defaults first; the top-level one reads the keys as they are.
   */
  function PrepWorkRanges(v: Variant, config: Config, now: int): (r: Result<seq<Range>>)
    ensures r.Ok? ==> WellFormed(r.value)
    ensures r.Ok? && StrictWindows(v) ==> forall k :: 0 <= k < |r.value| ==> r.value[k].start < r.value[k].end
  {
    match v
    case SrcScript =>
      var merged :- MergeDefaults(config);
      PrepFrom(merged, "local_timezone", now, StrictWindows(v))
    case RootScript =>
      PrepFrom(config, "timezone", now, StrictWindows(v))
  }

  /**
    The body after the configuration checks, in the order the keys are read.
    `days` is read only inside the day loop, so only with a positive horizon;
    a number there fails the membership test with TypeError.
   */
  function PrepFrom(c: Config, tzKey: string, now: int, strict: bool): (r: Result<seq<Range>>)
    ensures r.Ok? ==> WellFormed(r.value)
    ensures r.Ok? && strict ==> forall k :: 0 <= k < |r.value| ==> r.value[k].start < r.value[k].end
  {
    if tzKey !in c then
      Err(KeyError(tzKey))
    else
      var hours :- GetInt(c, "hours_till_first_meeting");
      var n :- GetInt(c, "days_forward");
      var days :- if n > 0 then Lookup(c, "days") else Ok(DaysV(map[]));
      match days
      case DaysV(template) =>
        ExpandDaysEmits(Day(now), 0, n, template, Floor(now, hours), strict);
        ExpandDays(Day(now), 0, n, template, Floor(now, hours), strict)
      case StrV(text) =>
        SkipText(Day(now), 0, n, text)
      case _ =>
        Err(TypeError)
  }

  /** The `days` value of a configuration, when it is a template, is ordered. */
  predicate OrderedDays(c: Config) {
    "days" in c && c["days"].DaysV? ==> OrderedTemplate(c["days"].days)
  }

  lemma PrepFromSorted(c: Config, tzKey: string, now: int, strict: bool)
    requires OrderedDays(c)
    ensures PrepFrom(c, tzKey, now, strict).Ok? ==> SortedDisjoint(PrepFrom(c, tzKey, now, strict).value)
  {
    if tzKey in c {
      var hours := GetInt(c, "hours_till_first_meeting");
      var n := GetInt(c, "days_forward");
      if hours.Ok? && n.Ok? && n.value > 0 && "days" in c && c["days"].DaysV? {
        var template := c["days"].days;
        if ExpandDays(Day(now), 0, n.value, template, Floor(now, hours.value), strict).Ok? {
          ExpandDaysSorted(Day(now), 0, n.value, template, Floor(now, hours.value), strict);
        }
      }
    }
  }

  /**
    With an ordered template (the user's, or the default one the src/ variant
    falls back on) the work windows are sorted and disjoint, as the sweep needs.
   */
  lemma PrepWorkRangesSorted(v: Variant, config: Config, now: int)
    requires OrderedDays(config)
    ensures PrepWorkRanges(v, config, now).Ok? ==> SortedDisjoint(PrepWorkRanges(v, config, now).value)
  {
    match v
    case SrcScript =>
      if MergeDefaults(config).Ok? {
        var merged := MergeDefaults(config).value;
        DefaultDaysOrdered();
        assert OrderedDays(merged) by {
          if "days" !in config {
            assert merged["days"] == Defaults["days"] == DaysV(DefaultDays);
          }
        }
        PrepFromSorted(merged, "local_timezone", now, StrictWindows(v));
      }
    case RootScript =>
      PrepFromSorted(config, "timezone", now, StrictWindows(v));
  }

  /** The src/ variant fails on any unrecognised key, before reading anything else. */
  lemma SrcRejectsUnknownKeys(config: Config, now: int, key: string)
    requires key in config && key !in Defaults
    ensures PrepWorkRanges(SrcScript, config, now) == Err(UnknownConfigKey)
  {
  }

  /**
    In the src/ variant the window assertion never fires and no key is ever
    missing: of the failures modelled, only an unknown key and a value of the
    wrong shape remain.
   */
  lemma SrcFailsOnlyOnBadConfig(config: Config, now: int)
    ensures var r := PrepWorkRanges(SrcScript, config, now);
            r.Err? ==> r.error == UnknownConfigKey || r.error == TypeError
  {
  }

  /** With an empty configuration the src/ variant expands the default template over 14 days with a 3-hour lead. */
  lemma SrcDefaultsExpandDefaultTemplate(now: int)
    ensures PrepWorkRanges(SrcScript, map[], now) == ExpandDays(Day(now), 0, 14, DefaultDays, Floor(now, 3), false)
    ensures PrepWorkRanges(SrcScript, map[], now).Ok?
  {
    EmptyConfigMergesToDefaults();
    DefaultValues();
  }

  lemma EmptyConfigMergesToDefaults()
    ensures MergeDefaults(map[]) == Ok(Defaults)
  {
    assert Defaults + map[] == Defaults;
  }

  lemma DefaultValues()
    ensures "local_timezone" in Defaults
    ensures GetInt(Defaults, "hours_till_first_meeting") == Ok(3)
    ensures GetInt(Defaults, "days_forward") == Ok(14)
    ensures Lookup(Defaults, "days") == Ok(DaysV(DefaultDays))
  {
  }

  /**
    A string `days` is searched, not indexed: the empty string names no day,
    so every day is skipped and the result is empty, without an error.
   */
  lemma EmptyTextTemplateSkipsEveryDay(now: int)
    ensures PrepWorkRanges(SrcScript, map["days" := StrV("")], now) == Ok([])
  {
    var config: Config := map["days" := StrV("")];
    var merged := Defaults["days" := StrV("")];
    assert MergeDefaults(config) == Ok(merged) by {
      assert Defaults + config == merged;
    }
    assert GetInt(merged, "hours_till_first_meeting") == Ok(3);
    assert GetInt(merged, "days_forward") == Ok(14);
    assert Lookup(merged, "days") == Ok(StrV(""));
    assert forall day :: !Occurs(DayName(Weekday(day)), "");
  }

  /** The top-level variant needs a `timezone` key and fails with KeyError without one. */
  lemma RootNeedsTimezone(config: Config, now: int)
    requires "timezone" !in config
    ensures PrepWorkRanges(RootScript, config, now) == Err(KeyError("timezone"))
  {
  }

  /** With no days to expand, `days` is never read, so it may be missing. */
  lemma DaysReadOnlyWithAHorizon(config: Config, now: int)
    requires "timezone" in config && "days" !in config
    requires "hours_till_first_meeting" in config && config["hours_till_first_meeting"].IntV?
    requires "days_forward" in config && config["days_forward"].IntV?
    ensures PrepWorkRanges(RootScript, config, now) ==
              if config["days_forward"].i > 0 then Err(KeyError("days")) else Ok([])
  {
  }
}
