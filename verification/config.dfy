/**
  The configuration dictionary. Only the src/ variant knows the recognised
  keys: it rejects any other key and fills missing ones from its defaults.
 */
module Config {
  import opened Outcomes
  import opened Clock
  import opened Decimal

  /** The JSON shapes the options take; template times are already parsed. */
  datatype Value =
    | IntV(i: int)
    | BoolV(b: bool)
    | StrV(s: string)
    | DaysV(days: map<string, seq<Window>>)

  type Config = map<string, Value>

  /** Monday to Thursday 9am-5pm, Friday 9am-2pm, weekends empty. */
  const DefaultDays: map<string, seq<Window>> := map[
    "Mon" := [Window(9 * 3600, 17 * 3600)],
    "Tue" := [Window(9 * 3600, 17 * 3600)],
    "Wed" := [Window(9 * 3600, 17 * 3600)],
    "Thu" := [Window(9 * 3600, 17 * 3600)],
    "Fri" := [Window(9 * 3600, 14 * 3600)],
    "Sat" := [],
    "Sun" := []
  ]

  /** `_CONFIG_DEFAULT_KEYS`: the recognised keys and their defaults. */
  const Defaults: Config := map[
    "days_forward" := IntV(14),
    "hours_till_first_meeting" := IntV(3),
    "meeting_length_minutes" := IntV(30),
    "meeting_spare_before" := IntV(0),
    "meeting_spare_after" := IntV(0),
    "show_timezone" := StrV("America/Los_Angeles"),
    "show_24hr" := BoolV(false),
    "show_timezone_name" := StrV("PT"),
    "week_starts_on_sunday" := BoolV(false),
    "local_timezone" := StrV("America/Los_Angeles"),
    "days" := DaysV(DefaultDays)
  ]

  /**
    The first lines of the src/ prep_work_ranges: assert that every key is
    recognised, then `setdefault` each recognised key. The merge is shallow.
   */
  function MergeDefaults(config: Config): (r: Result<Config>)
    ensures r.Err? <==> exists k :: k in config && k !in Defaults
    ensures r.Err? ==> r.error == UnknownConfigKey
    ensures r.Ok? ==> r.value.Keys == Defaults.Keys
    ensures r.Ok? ==> forall k :: k in config ==> r.value[k] == config[k]
    ensures r.Ok? ==> forall k :: k in Defaults && k !in config ==> r.value[k] == Defaults[k]
  {
    if config.Keys <= Defaults.Keys then Ok(Defaults + config) else Err(UnknownConfigKey)
  }

  /** A merged configuration is a fixed point of the merge. */
  lemma MergeIsIdempotent(config: Config)
    requires MergeDefaults(config).Ok?
    ensures MergeDefaults(MergeDefaults(config).value) == MergeDefaults(config)
  {
    var merged := MergeDefaults(config).value;
    assert Defaults + merged == merged;
  }

  /**
    A user-supplied `days` replaces the default template whole: a weekday
    missing from it stays missing after the merge.
   */
  lemma UserDaysReplaceDefaultDays(config: Config, name: string)
    requires "days" in config && config["days"].DaysV? && name !in config["days"].days
    requires MergeDefaults(config).Ok?
    ensures var merged := MergeDefaults(config).value;
            merged["days"] == config["days"] && name !in merged["days"].days
  {
  }

  /** `config[key]`, whatever its shape: a missing key is a `KeyError`. */
  function Lookup(c: Config, key: string): (r: Result<Value>)
    ensures r.Ok? <==> key in c
    ensures r.Ok? ==> r.value == c[key]
    ensures r.Err? ==> r.error == KeyError(key)
  {
    if key in c then Ok(c[key]) else Err(KeyError(key))
  }

  /** `config[key]` used as an integer; Python's `bool` is an `int`. */
  function GetInt(c: Config, key: string): (r: Result<int>)
    ensures r.Err? <==> key !in c || c[key].StrV? || c[key].DaysV?
    ensures r.Err? ==> r.error == (if key !in c then KeyError(key) else TypeError)
    ensures r.Ok? && c[key].IntV? ==> r.value == c[key].i
    ensures r.Ok? && c[key].BoolV? ==> r.value == (if c[key].b then 1 else 0)
  {
    var value :- Lookup(c, key);
    match value
    case IntV(i) => Ok(i)
    case BoolV(b) => Ok(if b then 1 else 0)
    case _ => Err(TypeError)
  }

  /**
    Python's `int(value)`: an integer is itself, a bool is 0 or 1, a string
    is parsed as a decimal integer and raises ValueError otherwise, and a
    template raises TypeError.
   */
  function ToInt(value: Value): (r: Result<int>)
    ensures value.StrV? ==> (r.Ok? <==> ParseDecimal(value.s).Some?)
    ensures value.StrV? && r.Ok? ==> ParseDecimal(value.s) == Some(r.value)
    ensures value.StrV? && r.Err? ==> r.error == ValueError
    ensures value.DaysV? ==> r == Err(TypeError)
  {
    match value
    case IntV(i) => Ok(i)
    case BoolV(b) => Ok(if b then 1 else 0)
    case StrV(s) => if ParseDecimal(s).Some? then Ok(ParseDecimal(s).value) else Err(ValueError)
    case DaysV(_) => Err(TypeError)
  }

  /**
    On numbers and bools, `int()` changes nothing that arithmetic would not
    already see; on a string it reads back any integer written in decimal.
   */
  lemma ToIntAgreesWithArithmetic(key: string, value: Value, n: int)
    ensures !value.StrV? && !value.DaysV? ==> ToInt(value) == GetInt(map[key := value], key)
    ensures ToInt(StrV(DecimalText(n))) == Ok(n)
    ensures ToInt(StrV("yes")) == Err(ValueError)
  {
    DecimalRoundTrip(n);
    WordsAreNotNumbers();
  }
}
