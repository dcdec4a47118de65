# calendar-availability: the interval algebra, in Dafny

The availability calculator finds the slots in which a person could take a meeting:

- It expands a weekly template of working hours into free ranges over a horizon of days.
- It subtracts each chosen calendar's busy ranges from them, one calendar after another.
- It rounds every restarted free range up to a grid of `meeting_length_minutes`.
- It drops any fragment shorter than a meeting.
- It groups the result by weekday for display.

The repository holds two near-identical copies of the script:

- `src/get_availability.py` is the later one. It merges defaults into the configuration, rejects unknown keys and pads busy ranges on both sides. Its window check is `start <= end`. It prints a "Next week:" marker.
- `get_availability.py` is the earlier one. It does no default filling, pads busy ends only and checks `start < end`. It prints no marker.

The model covers both copies. `Variants.Variant` (`SrcScript` | `RootScript`) selects the behaviour wherever the two differ.

Timestamps are integer seconds on a fixed-offset local clock:

- The day number is `t / 86400`.
- The weekday is `(day + 3) % 7`, with Monday as 0, because day 0 was a Thursday.
- A template time is the number of seconds after midnight.

Python's floored `%` on `timedelta` is written out as `Grid.PyMod`. A meeting length of 0 makes `ceil_dt` divide by zero, which the model reports as `Err(ZeroDivision)`. The exceptions the model raises are `Outcomes.Result` errors:

- the unknown-key assertion;
- the window assertion;
- `KeyError`;
- a value of the wrong type;
- `IndexError` on empty display input.

The exceptions it does not raise are listed under "## Left out".

Modules:

- `Grid`: `ceil_dt`.
- `Sweep`: `combine_ranges`.
  - It is written as a functional specification, `Subtract` / `SweepFrom`, where each outer pass is `Skip`, then `Case`, then `Resume`, then `Keep`.
  - It is also written as the two-index loop `CombineRanges`, proved equal to that specification.
  - The in-place rewrite of `free[free_idx][0]` is the register `cs`.
- `SweepFacts`: what the sweep guarantees.
- `Chaining`: the per-calendar fold in `main`.
- `Busy`: padding.
- `Config`: the defaults and the merge.
- `Decimal`: Python's `int()` on a string of decimal digits, with its inverse `str()`.
- `WorkWindows`: `prep_work_ranges`.
- `Schedule`: grouping, the week marker and `suffix`.
- `Availability`: `main` after the calendars are chosen. It starts from the configuration as loaded (the file, or the defaults, updated by the command-line overrides) and the raw busy lists of the chosen calendars, and ends with the free list handed to `print_ranges`.
- `Scenarios`: worked examples.

Behaviour of the code that the model keeps, although a reader might expect otherwise:

- Neither `get_busy_ranges` sorts or coalesces the busy ranges it returns.
  - The model therefore takes them in the order given.
  - The soundness lemmas assume only that each calendar's busy list is sorted by start and well formed. Overlapping busy ranges are allowed.
- `print_ranges` in `src/get_availability.py` reads `day_ranges[0]`, so it raises `IndexError` on an empty list instead of printing nothing. `Schedule.PlanSchedule` returns that error. An empty free list is an ordinary result of `Availability.Run`: every slot busy, a `days` naming no weekday, or a horizon of 0. So the src `main` raises `IndexError` exactly when the list computed by `Availability.Run` is empty, or else fails as `Schedule.PlanSchedule` says on a bad `week_starts_on_sunday`.
- The src variant's check is `start <= end` and the earlier one's is `start < end`. Neither is chosen over the other: both are modelled.
- `dow not in config["days"]` on a string `days` is a substring test, not a type error. A string that names no weekday of the horizon gives an empty list; one that does fails when it is indexed by the weekday name. `WorkWindows.SkipText` models both.

## Model

| member | source | states |
|---|---|---|
| Grid.PyMod | src/get_availability.py:105 | Python's `%` for a non-zero divisor: the remainder has the divisor's sign, lies strictly below it in magnitude, and differs from the dividend by a multiple of the divisor |
| Grid.CeilDt | src/get_availability.py:104-105 | fails with division by zero exactly when the step is 0; otherwise the result is on the grid through `base`; for a positive step it lies in `[dt, dt + step)`, for a negative step in `(dt + step, dt]`; get_availability.py:69-70 is the same expression |
| Grid.CeilDtIsLeast | src/get_availability.py:104-105 | for a positive step, every grid point through `base` at or after `dt` is at or after `ceil_dt(dt, base, m)`: the result is the least such point |
| Grid.CeilDtIsGreatestForNegativeStep | src/get_availability.py:104-105 | for a negative step the same expression rounds down: the result is the greatest grid point at or before `dt` |
| Sweep.SweepFrom | src/get_availability.py:113-161 | from loop state `(free_idx, busy_idx)` the remaining output has at most one range per remaining free or busy range |
| Sweep.Subtract | src/get_availability.py:108-163 | `combine_ranges` returns at most `len(free) + len(busy)` ranges |
| Sweep.Skip | src/get_availability.py:114-115 | the inner loop stops at the first busy index at or after `bi` whose end is after the free start; every busy range it passes ends at or before that start |
| Sweep.Resume | src/get_availability.py:129-138 | a busy range ending inside the free range always advances the busy index; it succeeds exactly when the meeting length is non-zero; the free index stays or moves by one |
| Sweep.Case | src/get_availability.py:116-157 | each pass of the four cases moves the free index or the busy index forward and keeps both in bounds, which is why the loop terminates |
| Sweep.CombineRanges | src/get_availability.py:108-163 | the two-index loop, with `free[free_idx][0]` as a local register, returns exactly the functional sweep `Subtract` and runs at most `len(free) + len(busy)` passes; get_availability.py:72-121 is the same loop |
| Sweep.OnePass | src/get_availability.py:114-157 | one pass of the loop body (skip, then the four cases) computes the same pass as the functional `Case` after `Skip` |
| SweepFacts.KeepLong | src/get_availability.py:159-161 | the length filter keeps at most the input's ranges, keeps only ranges of at least `m` whole minutes, and keeps everything when all ranges are long enough |
| SweepFacts.SubtractFailsOnlyOnZeroGrid | src/get_availability.py:129-133 | the only way `combine_ranges` can raise is `ceil_dt` dividing by a zero meeting length |
| SweepFacts.SubtractLongEnough | src/get_availability.py:159-161 | every returned range has whole-minute length `(end - start) // 60` at least `meeting_length_minutes` |
| SweepFacts.SubtractNothingBusy | src/get_availability.py:116-120 | with no busy ranges the result is exactly the free ranges that are long enough, in order |
| SweepFacts.SubtractIdempotent | src/get_availability.py:159-161 | a second pass with no busy ranges returns the first result unchanged |
| SweepFacts.BusyEndingInsideFree | src/get_availability.py:129-137 | when a busy range ends inside the free range, the new start is `ceil_dt` of the busy end, not before it and on the grid through the current start; the rest is dropped when that reaches the free end; the busy index advances |
| SweepFacts.SweepSound | src/get_availability.py:113-161 | from any reachable loop state the remaining output is sorted and disjoint, starts at or after the register, fits the remaining free ranges on their grids and misses every busy range |
| SweepFacts.SubtractSound | src/get_availability.py:108-163 | free ranges sorted and disjoint plus busy ranges sorted by start give an output that is sorted and disjoint, long enough, inside some free range on that range's grid, and overlapping no busy range |
| Chaining.SubtractEach | src/get_availability.py:350-353 | the per-calendar fold fails only with division by zero, only on a zero meeting length and only when some calendar is chosen |
| Chaining.SubtractEachAppend | src/get_availability.py:350-353 | the per-calendar fold splits: folding over `first + second` is folding over `second` starting from the result of `first` |
| Chaining.IdleCalendarsChangeNothing | src/get_availability.py:350-353 | calendars with no busy time leave a free list that is already long enough unchanged |
| Chaining.SubtractEachSound | src/get_availability.py:350-353 | after all calendars the free list is sorted and disjoint, long enough, inside the original free ranges on their grids, and clear of the busy ranges of every calendar, not only the last |
| Busy.PadBusy | src/get_availability.py:92-100 | the variant's padding keeps the count, moves every end later by `meeting_spare_after` minutes, and moves the start earlier by `meeting_spare_before` minutes in the src variant only; get_availability.py:62-66 is the end-only case |
| Busy.PadBoth | src/get_availability.py:92-100 | each busy range is widened by `meeting_spare_before` minutes at the start and `meeting_spare_after` minutes at the end; count and order of ranges are kept |
| Busy.PadAfter | get_availability.py:62-66 | each start is unchanged and each end moves by `meeting_spare_after` minutes; count and order are kept |
| Busy.PadAfterIsPadBothWithNothingBefore | get_availability.py:63-66 | end-only padding is two-sided padding with nothing before |
| Busy.UnpadRoundTrip | src/get_availability.py:94-99 | padding by the negated amounts undoes padding |
| Busy.PaddingKeepsOrder | src/get_availability.py:92-100 | padding keeps a list sorted by start sorted by start, in both variants |
| Busy.PaddingWidens | src/get_availability.py:94-99 | non-negative padding keeps count, contains each reported range in its padded one and keeps well-formed lists well formed |
| Availability.Availability | src/get_availability.py:350-353 | the work windows, then the per-calendar sweep, for given meeting-length and padding values: it fails with the work windows' error when they fail, and otherwise only with division by zero on a zero meeting length; get_availability.py:189-193 is the same with the first calendar |
| Availability.AvailabilitySound | src/get_availability.py:350-353 | for given values with a positive meeting length and non-negative padding and an ordered template, the free list handed to `print_ranges` is computed exactly when the work windows are; it is sorted and disjoint, inside the work windows on their grids, and overlaps no busy range as the service reported it |
| Availability.ReadMeeting | src/get_availability.py:92-99 | the settings are read as `config[key]` is: padding before (src only) and after, then the meeting length; each is the key's integer value, a bool counts as 0 or 1, and a missing key or a string fails; get_availability.py:65 and 110-118 read the after-padding and the length |
| Availability.Run | src/get_availability.py:338-353 | `main` raises `KeyError` for a missing `show_timezone_name` before anything else, since the defaults are merged only later inside `prep_work_ranges`; it then raises what the work windows raise; get_availability.py:184-191 reads the same key first |
| Availability.RunSound | src/get_availability.py:338-353 | with an ordered template, a positive configured meeting length, non-negative configured padding and sorted busy lists, the free list `main` hands to `print_ranges` is computed exactly when `show_timezone_name` is present, the work windows are built and the settings read; it is sorted and disjoint, inside the work windows on the configured grid, and clear of every reported busy range |
| Availability.SrcDefaultMeeting | src/get_availability.py:14-16 | a src configuration without the meeting keys sweeps with the defaults: 30-minute meetings and no padding |
| Availability.SrcStringMeetingLengthRaises | src/get_availability.py:128-133 | a string `meeting_length_minutes` makes src `main` raise a type error |
| Availability.RootNeedsPadding | get_availability.py:62-65 | the earlier copy, which fills no defaults, raises `KeyError` without `meeting_spare_after` |
| Config.MergeDefaults | src/get_availability.py:40-43 | fails exactly when some key is not a recognised key; otherwise has exactly the recognised keys, the user's value for every key given, and the default for every other one |
| Config.MergeIsIdempotent | src/get_availability.py:42-43 | merging the defaults into a merged configuration changes nothing |
| Config.UserDaysReplaceDefaultDays | src/get_availability.py:43 | a user-supplied `days` is taken whole: a weekday absent from it stays absent |
| Config.GetInt | src/get_availability.py:47-52 | an integer option read where the script does arithmetic with it: a missing key is a `KeyError`, a string or template a type error, and a bool counts as 0 or 1 |
| Config.ToInt | src/get_availability.py:167 | Python's `int()` on a configuration value: an integer is itself, a bool 0 or 1, a string parses as a decimal integer or raises `ValueError`, a template raises `TypeError` |
| Config.ToIntAgreesWithArithmetic | src/get_availability.py:167 | on integers and bools `int()` agrees with reading the value as a number; on a string it reads back every integer written in decimal and rejects a word like "yes" |
| Decimal.ParseDecimal | src/get_availability.py:167 | a string converts exactly when, after an optional sign, it is one or more decimal digits; a leading minus gives a value at or below zero |
| Decimal.DecimalRoundTrip | src/get_availability.py:167 | parsing the decimal text of any integer gives that integer back |
| Decimal.WordsAreNotNumbers | src/get_availability.py:167 | "yes", the empty string and a lone sign are not integers |
| Config.Lookup | src/get_availability.py:55-57 | a key lookup `config[key]` succeeds exactly when the key is present and returns its value; otherwise it raises `KeyError` for that key; get_availability.py:31-39 reads its keys the same way |
| WorkWindows.Floor | src/get_availability.py:47-50 | the floor is on a whole hour and is the hour containing `now + hours_till_first_meeting` |
| WorkWindows.WindowSpan | src/get_availability.py:66-67 | a window's end is at or after its start and less than a day later, with one day added when the end time is before the start time; the two are equal exactly when the times are equal |
| WorkWindows.ClipWindow | src/get_availability.py:68-73 | a window is dropped exactly when it ends before the floor; otherwise its start is raised to the floor; the strict check fails exactly when the clipped window is empty |
| WorkWindows.ExpandDay | src/get_availability.py:57-73 | the windows of one day give at most one range each, and the expansion fails only under the strict check, with the window assertion |
| WorkWindows.ExpandDays | src/get_availability.py:52-73 | the day loop fails only under the strict check, with the window assertion |
| WorkWindows.ExpandDaysEmits | src/get_availability.py:52-73 | every emitted range starts at or after the floor, has `start <= end` and spans less than a day, with `start < end` under the strict check |
| WorkWindows.ExpandDaysExactly | src/get_availability.py:52-73 | the emitted ranges are exactly the clipped template windows of days in the horizon that end at or after the floor; weekdays absent from the template give nothing |
| WorkWindows.ExpandDayExactly | src/get_availability.py:57-73 | the same for one day: each emitted range comes from a window of that day, and every window ending at or after the floor is emitted |
| WorkWindows.StrictFailsIffZeroLength | get_availability.py:44-50 | the lenient expansion never fails; the strict `start < end` assertion fails exactly when the lenient output holds an empty range, and otherwise the two agree |
| WorkWindows.ExpandDayStrictness | get_availability.py:46-50 | the same for the windows of one day |
| WorkWindows.ExpandDaySorted | src/get_availability.py:57-73 | when each of a day's windows closes at or after it opens and before the next one opens, the ranges of that day are sorted, disjoint and lie inside that day |
| WorkWindows.ExpandDaysSorted | src/get_availability.py:52-73 | with an ordered template (every weekday's windows ordered that way), the ranges of the whole horizon are sorted, disjoint and start no earlier than the first day, so the work windows are a valid free list for the sweep |
| WorkWindows.OccursSomewhere | src/get_availability.py:55 | the substring test `dow in text` holds exactly when `dow` appears at some position of the text |
| WorkWindows.SkipText | src/get_availability.py:55-57 | with a string `days`, the result is empty when no day of the horizon has its weekday name inside the string; otherwise indexing the string by that name raises a type error; get_availability.py:39-41 is the same |
| WorkWindows.PrepFrom | src/get_availability.py:45-74 | the work windows are well formed, with `start < end` under the strict check; get_availability.py:31-51 is the strict case |
| WorkWindows.PrepWorkRanges | src/get_availability.py:39-74 | `prep_work_ranges` in either variant returns well-formed ranges, non-empty ones in the earlier copy; get_availability.py:30-52 is the earlier copy |
| WorkWindows.PrepWorkRangesSorted | src/get_availability.py:39-74 | with an ordered template the work windows are sorted and disjoint |
| WorkWindows.EmptyTextTemplateSkipsEveryDay | src/get_availability.py:55-56 | `days` given as the empty string skips every day and returns an empty list without error |
| WorkWindows.SrcRejectsUnknownKeys | src/get_availability.py:40-41 | any key outside the recognised set fails the src variant before anything else is read |
| WorkWindows.SrcFailsOnlyOnBadConfig | src/get_availability.py:39-74 | in the src variant the window assertion never fires and no key is missing: of the failures the model raises, the only ones left are an unknown key or a value of the wrong type |
| WorkWindows.SrcDefaultsExpandDefaultTemplate | src/get_availability.py:11-31 | an empty configuration expands the default template (Mon-Thu 9-17, Fri 9-14, weekend empty) over 14 days with a 3-hour lead, without error |
| WorkWindows.RootNeedsTimezone | get_availability.py:31 | the earlier copy does no default filling: without a `timezone` key it raises `KeyError` |
| WorkWindows.DaysReadOnlyWithAHorizon | get_availability.py:36-41 | `days` is read only inside the day loop: with a positive horizon a missing `days` raises `KeyError`; with none the result is empty |
| Schedule.WeekOffset | src/get_availability.py:166-167 | `int(config["week_starts_on_sunday"])`: a missing key is a `KeyError`; otherwise the value is converted as `int()` does, a bool to 0 or 1, a decimal string to its number, another string a `ValueError`, a template a `TypeError` |
| Schedule.DefaultWeekStartsOnMonday | src/get_availability.py:20 | the default `False` gives offset 0, counting weeks from Monday |
| Schedule.WeekIndex | src/get_availability.py:166-167 | `_to_weekday` is a week-relative index between 0 and 6 |
| Schedule.GroupByWeekday | src/get_availability.py:189-199 | the runs concatenate back to the input, each run is non-empty with one display weekday, and neighbouring runs have different weekdays, so the runs are maximal; the key is the weekday, not the date; get_availability.py:140-150 groups the same way |
| Schedule.ExtendLastRun | src/get_availability.py:195-196 | appending a range with the last run's weekday to that run keeps maximal runs and adds the range to the concatenation |
| Schedule.AddRun | src/get_availability.py:197-199 | a range with a new weekday opens a new run and keeps the runs maximal |
| Schedule.PlanSchedule | src/get_availability.py:189-207 | only the src variant fails: with `IndexError` on empty input, otherwise with the error of converting `week_starts_on_sunday`; the lines carry the maximal runs; in the src variant a line is marked "Next week:" exactly when its week index, counted with the configured offset, is below the previous line's, so the first is never marked; the earlier copy marks nothing |
| Schedule.WeekIndexSeparatesWeekdays | src/get_availability.py:166-167 | shifting by `week_starts_on_sunday` keeps distinct weekdays distinct |
| Schedule.UnmarkedLinesAdvanceThroughTheWeek | src/get_availability.py:200-207 | between markers the week index strictly increases from line to line |
| Schedule.Suffix | src/get_availability.py:183-184 | the suffix is one of "st", "nd", "rd", "th" |
| Schedule.SuffixIsEnglishOrdinal | get_availability.py:135-136 | for every day of a month the suffix is the English ordinal one ("th" in the teens, else by the last digit) |
| Intervals.LongEnoughSpan | src/get_availability.py:159-160 | a range passing the whole-minute length test spans at least `m` minutes of seconds |
| Scenarios.BusyInsideFreeIsRoundedUp | src/get_availability.py:145-157 | 9:00-17:00 minus 10:00-10:15 on a 30-minute grid gives 9:00-10:00 and 10:30-17:00 |
| Scenarios.BusyCoveringFreeRemovesIt | src/get_availability.py:121-125 | a busy range over the whole free range removes it |
| Scenarios.ShortFreeRangeIsDropped | src/get_availability.py:159-161 | a 20-minute free range is dropped for a 30-minute meeting even with nothing busy |
| Scenarios.FirstCalendar | src/get_availability.py:121-139 | a busy morning over the start of the day leaves the afternoon, restarted on the grid |
| Scenarios.SecondCalendar | src/get_availability.py:145-157 | lunch inside the afternoon splits it in two |
| Scenarios.TwoCalendarsCompound | src/get_availability.py:350-353 | the second calendar works on what the first left: the morning and then lunch leave 12:00-13:00 and 14:00-17:00 |
| Scenarios.ZeroGridRaises | src/get_availability.py:104-105 | a zero meeting length raises division by zero once a busy range ends inside a free range |

## Left out

- The Google Calendar service and OAuth (`get_calendar_service`, the `freebusy` and `calendarList` queries): these are foreign network calls, so the raw busy lists are inputs.
- Command-line parsing (`get_args`, including its type coercion of `-o` values), `json.load` of the configuration file, `tabulate`, the calendar-list sort key `_order_cal_list`, and the printing itself: these are I/O and library plumbing.
- The earlier copy's `main` takes the first calendar in the service's list: this is only a special case of the fold over calendars.
- `pytz` localisation (`is_dst=None` raising on ambiguous or missing local times), `astimezone` and daylight-saving shifts: the clock is a fixed offset, and the display clock differs from it by a parameter `shift`.
- Parsing of template times (`dateutil`, `fromisoformat`): templates hold already-parsed times of day.
- `datetime.now()` becomes the parameter `now`. The scripts call it twice, for `today` and for the floor; the model uses one instant for both.
- `format_time` and `custom_strftime`: locale-dependent text, so only the grouping, the marker and `suffix` are modelled.
- Microseconds and the float `total_seconds()`: timestamps are whole seconds, so `// 60` on the float is exact.
- JSON values that are floats, lists or `None` where the code expects numbers: `Config.Value` has integers, booleans, strings and templates only.
- The text of the unknown-key assertion message: `Err(UnknownConfigKey)` stands for the whole message.
- `print_ranges` reads `show_timezone` (src/get_availability.py:171, get_availability.py:124) and, for each printed time, `show_24hr` (get_availability.py:126). Neither read is guarded by a default, and `show_24hr` is read only once a range is printed. In the earlier copy, which fills no defaults, a missing key raises `KeyError` there. The model's display takes the zone as the offset `shift` and reads neither key, because the zone name needs `pytz`. The src copy has both keys after the merge.
- The text of `show_timezone_name` and the 12- or 24-hour format only shape the printed text. Reading `show_timezone_name` is modelled: `Availability.Run` raises `KeyError` without it.
- Whether chaining equals subtracting the coalesced union of the calendars is not stated. `Chaining.SubtractEachSound` proves instead that the chained result is clear of every calendar and inside the original free ranges.
- Sweep.CombineRanges: completeness (every long-enough free fragment that avoids the busy ranges and lies on the grid is returned) is not stated. Only soundness and the exact equality with the functional sweep are proved.
- `pytz.timezone` raising on an unknown or non-string zone name (src/get_availability.py:45, get_availability.py:31): the zone is a fixed offset, so only a missing key is modelled.
- `OverflowError` from `datetime` arithmetic past year 9999 or from a huge `timedelta` (src/get_availability.py:47-53): timestamps are unbounded integers.
- Availability.Run: reads `meeting_spare_before`, `meeting_spare_after` and `meeting_length_minutes` once, before the first calendar. The scripts read the padding only for each busy range (src/get_availability.py:94-99, get_availability.py:65) and the meeting length only when a pass reaches `ceil_dt` or the length test (src/get_availability.py:132, 151, 160; get_availability.py:93, 110, 118). So with no calendar, no busy range, or no such pass, a missing or non-numeric value raises here but not in the scripts. Modelling the lazy reads would thread a `Result` through every step of the sweep.
- WorkWindows.SrcFailsOnlyOnBadConfig: only the failures the model raises are covered; the unmodelled zone and overflow failures above are not.
- WorkWindows.ExpandDaysSorted: templates with a window past midnight or with overlapping windows are not covered; such windows can overlap the next day's, and the sweep's soundness is not stated for them.
- Decimal.ParseDecimal: Python's `int()` also accepts surrounding whitespace, underscores between digits and non-ASCII decimal digits. These are not modelled, so such strings give `ValueError` here.
