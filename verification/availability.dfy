/**
  main, without the calendar service: the work windows, then one sweep per
  chosen calendar over its padded busy ranges, in the order chosen.
 */
module Availability {
  import opened Outcomes
  import opened Intervals
  import opened Variants
  import opened Busy
  import opened SweepFacts
  import opened Chaining
  import opened Config
  import opened WorkWindows

  /** The padded busy list of each calendar, in the order the calendars were chosen. */
  function PadAll(v: Variant, raws: seq<seq<Range>>, before: int, after: int): (busy: seq<seq<Range>>)
    ensures |busy| == |raws|
    ensures forall c :: 0 <= c < |raws| ==> busy[c] == PadBusy(v, raws[c], before, after)
  {
    seq(|raws|, c requires 0 <= c < |raws| => PadBusy(v, raws[c], before, after))
  }

  /**
    The free list main hands to print_ranges: the work windows built from the
    configuration, then one sweep per calendar over its padded busy ranges.
    The meeting length `m` and the padding `before` and `after` are passed in;
    they stand for the values of their configuration keys.
   */
  function Availability(v: Variant, config: Config, now: int, raws: seq<seq<Range>>, before: int, after: int, m: int): (r: Result<seq<Range>>)
    ensures PrepWorkRanges(v, config, now).Err? ==> r == PrepWorkRanges(v, config, now)
    ensures PrepWorkRanges(v, config, now).Ok? && r.Err? ==> r.error == ZeroDivision && m == 0
  {
    var free :- PrepWorkRanges(v, config, now);
    SubtractEach(free, PadAll(v, raws, before, after), m)
  }

  /**
    With an ordered template, a positive meeting length, non-negative padding
    and each calendar's busy ranges sorted by start, the free list handed to
    print_ranges is computed exactly when the work windows are, and it is
    sorted and disjoint, lies on the grid inside the work windows, and
    overlaps no busy range as the service reported it.
   */
  lemma AvailabilitySound(v: Variant, config: Config, now: int, raws: seq<seq<Range>>, before: int, after: int, m: int)
    requires m > 0 && before >= 0 && after >= 0 && OrderedDays(config)
    requires forall c :: 0 <= c < |raws| ==> SortedByStart(raws[c]) && WellFormed(raws[c])
    ensures Availability(v, config, now, raws, before, after, m).Ok? <==> PrepWorkRanges(v, config, now).Ok?
    ensures Availability(v, config, now, raws, before, after, m).Ok? ==>
            var free := PrepWorkRanges(v, config, now).value;
            var out := Availability(v, config, now, raws, before, after, m).value;
            && SortedDisjoint(out)
            && (forall k :: 0 <= k < |out| ==> Covered(out[k], free, m))
            && (forall k, c, j :: 0 <= k < |out| && 0 <= c < |raws| && 0 <= j < |raws[c]| ==>
                  !Overlaps(out[k], raws[c][j]))
  {
    if PrepWorkRanges(v, config, now).Ok? {
      var free := PrepWorkRanges(v, config, now).value;
      PrepWorkRangesSorted(v, config, now);
      var busy := PadAll(v, raws, before, after);
      forall c | 0 <= c < |raws|
        ensures SortedByStart(busy[c]) && WellFormed(busy[c])
      {
        PaddingKeepsOrder(v, raws[c], before, after);
        PaddingWidens(v, raws[c], before, after);
      }
      SubtractEachSound(free, busy, m);
      assert Availability(v, config, now, raws, before, after, m) == SubtractEach(free, busy, m);
      var out := SubtractEach(free, busy, m).value;
      forall k, c, j | 0 <= k < |out| && 0 <= c < |raws| && 0 <= j < |raws[c]|
        ensures !Overlaps(out[k], raws[c][j])
      {
        PaddingWidens(v, raws[c], before, after);
        assert !Overlaps(out[k], busy[c][j]);
        assert Within(raws[c][j], busy[c][j]);
      }
    }
  }

  /** The three settings the sweep reads, in minutes: the meeting length and the padding before and after each busy range. */
  datatype Meeting = Meeting(length: int, before: int, after: int)

  /**
    The configuration the calendars and the sweep read. prep_work_ranges
    merges the defaults into the src/ configuration in place; the earlier
    copy reads the file as given.
   */
  function InEffect(v: Variant, config: Config): Result<Config> {
    match v
    case SrcScript => MergeDefaults(config)
    case RootScript => Ok(config)
  }

  /**
    The meeting settings, read in the order the scripts first reach them:
    the padding in get_busy_ranges (the earlier copy pads ends only), then
    the meeting length in combine_ranges.
   */
  function ReadMeeting(v: Variant, c: Config): (r: Result<Meeting>)
    ensures r.Ok? <==> && GetInt(c, "meeting_length_minutes").Ok?
                       && GetInt(c, "meeting_spare_after").Ok?
                       && (v.SrcScript? ==> GetInt(c, "meeting_spare_before").Ok?)
    ensures r.Ok? ==> && Ok(r.value.length) == GetInt(c, "meeting_length_minutes")
                      && Ok(r.value.after) == GetInt(c, "meeting_spare_after")
                      && (v.SrcScript? ==> Ok(r.value.before) == GetInt(c, "meeting_spare_before"))
                      && (v.RootScript? ==> r.value.before == 0)
    ensures r.Err? ==> r.error.TypeError? || r.error.KeyError?
  {
    var before :- if v.SrcScript? then GetInt(c, "meeting_spare_before") else Ok(0);
    var after :- GetInt(c, "meeting_spare_after");
    var length :- GetInt(c, "meeting_length_minutes");
    Ok(Meeting(length, before, after))
  }

  /**
    main once the calendars are chosen and their busy ranges fetched: the
    display zone name is read from the configuration as loaded, then the work
    windows are built, then every calendar is padded and swept with the
    settings of the configuration in effect.
   */
  function Run(v: Variant, config: Config, now: int, raws: seq<seq<Range>>): (r: Result<seq<Range>>)
    ensures "show_timezone_name" !in config ==> r == Err(KeyError("show_timezone_name"))
    ensures "show_timezone_name" in config && PrepWorkRanges(v, config, now).Err? ==> r == PrepWorkRanges(v, config, now)
    ensures r.Ok? ==> PrepWorkRanges(v, config, now).Ok?
  {
    if "show_timezone_name" !in config then
      Err(KeyError("show_timezone_name"))
    else
      var _ :- PrepWorkRanges(v, config, now);
      var c :- InEffect(v, config);
      var s :- ReadMeeting(v, c);
      Availability(v, config, now, raws, s.before, s.after, s.length)
  }

  /** Settings under which the sweep is sound: a positive meeting length and padding that only widens. */
  predicate SaneMeeting(v: Variant, config: Config) {
    InEffect(v, config).Ok? && ReadMeeting(v, InEffect(v, config).value).Ok? ==>
      var s := ReadMeeting(v, InEffect(v, config).value).value;
      s.length > 0 && s.before >= 0 && s.after >= 0
  }

  /**
    With an ordered template, sane settings and sorted busy lists, the free
    list main hands to print_ranges is computed exactly when the display zone
    name is present, the work windows are built and the settings read; it is
    then sorted and disjoint, inside the work windows on the grid of the
    configured meeting length, and clear of every busy range as the service
    reported it. Printing it can still fail: see Schedule.PlanSchedule.
   */
  lemma RunSound(v: Variant, config: Config, now: int, raws: seq<seq<Range>>)
    requires OrderedDays(config) && SaneMeeting(v, config)
    requires forall c :: 0 <= c < |raws| ==> SortedByStart(raws[c]) && WellFormed(raws[c])
    ensures Run(v, config, now, raws).Ok? <==>
              && "show_timezone_name" in config
              && PrepWorkRanges(v, config, now).Ok?
              && InEffect(v, config).Ok?
              && ReadMeeting(v, InEffect(v, config).value).Ok?
    ensures var r := Run(v, config, now, raws);
            var c := InEffect(v, config);
            r.Ok? && PrepWorkRanges(v, config, now).Ok? && c.Ok? && ReadMeeting(v, c.value).Ok? ==>
              var free := PrepWorkRanges(v, config, now).value;
              var m := ReadMeeting(v, c.value).value.length;
              && SortedDisjoint(r.value)
              && (forall k :: 0 <= k < |r.value| ==> Covered(r.value[k], free, m))
              && (forall k, i, j :: 0 <= k < |r.value| && 0 <= i < |raws| && 0 <= j < |raws[i]| ==>
                    !Overlaps(r.value[k], raws[i][j]))
  {
    if "show_timezone_name" in config && PrepWorkRanges(v, config, now).Ok? && InEffect(v, config).Ok?
       && ReadMeeting(v, InEffect(v, config).value).Ok? {
      var s := ReadMeeting(v, InEffect(v, config).value).value;
      AvailabilitySound(v, config, now, raws, s.before, s.after, s.length);
    }
  }

  /**
    In the src/ variant a configuration without the meeting keys takes their
    defaults: 30-minute meetings and no padding.
   */
  lemma SrcDefaultMeeting(config: Config, now: int, raws: seq<seq<Range>>)
    requires "show_timezone_name" in config
    requires "meeting_length_minutes" !in config && "meeting_spare_before" !in config && "meeting_spare_after" !in config
    ensures Run(SrcScript, config, now, raws) == Availability(SrcScript, config, now, raws, 0, 0, 30)
  {
    if PrepWorkRanges(SrcScript, config, now).Ok? {
      assert MergeDefaults(config).Ok?;
      assert ReadMeeting(SrcScript, InEffect(SrcScript, config).value) == Ok(Meeting(30, 0, 0)) by {
        MergedMeetingDefaults(config);
      }
    }
  }

  lemma MergedMeetingDefaults(config: Config)
    requires MergeDefaults(config).Ok?
    requires "meeting_length_minutes" !in config && "meeting_spare_before" !in config && "meeting_spare_after" !in config
    ensures ReadMeeting(SrcScript, MergeDefaults(config).value) == Ok(Meeting(30, 0, 0))
  {
    var merged := MergeDefaults(config).value;
    assert merged["meeting_length_minutes"] == IntV(30);
    assert merged["meeting_spare_before"] == IntV(0);
    assert merged["meeting_spare_after"] == IntV(0);
  }

  /** A meeting length given as a string is not a number: src/ main raises a type error. */
  lemma SrcStringMeetingLengthRaises(config: Config, now: int, raws: seq<seq<Range>>)
    requires "show_timezone_name" in config && PrepWorkRanges(SrcScript, config, now).Ok?
    requires "meeting_length_minutes" in config && config["meeting_length_minutes"].StrV?
    ensures Run(SrcScript, config, now, raws) == Err(TypeError)
  {
  }

  /** The earlier copy fills no defaults: without `meeting_spare_after` its main raises KeyError. */
  lemma RootNeedsPadding(config: Config, now: int, raws: seq<seq<Range>>)
    requires "show_timezone_name" in config && PrepWorkRanges(RootScript, config, now).Ok?
    requires "meeting_spare_after" !in config
    ensures Run(RootScript, config, now, raws) == Err(KeyError("meeting_spare_after"))
  {
  }
}
