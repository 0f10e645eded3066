/**
 * The `timeUnit` call parameter: a case-exact name of one of the seven
 * `java.util.concurrent.TimeUnit` constants, with HOURS for anything else.
 */
module TimeUnits {

  datatype TimeUnit = Nanoseconds | Microseconds | Milliseconds | Seconds | Minutes | Hours | Days

  /** The Java constant name of a unit. */
  function Name(u: TimeUnit): string
  {
    match u
    case Nanoseconds => "NANOSECONDS"
    case Microseconds => "MICROSECONDS"
    case Milliseconds => "MILLISECONDS"
    case Seconds => "SECONDS"
    case Minutes => "MINUTES"
    case Hours => "HOURS"
    case Days => "DAYS"
  }

  /** The seven names the plugin recognises. */
  const KnownNames: set<string> :=
    {"NANOSECONDS", "MICROSECONDS", "MILLISECONDS", "SECONDS", "MINUTES", "HOURS", "DAYS"}

  /** `stringToTimeUnit`: a recognised name selects its unit, every other string falls back to HOURS. */
  function StringToTimeUnit(s: string): (u: TimeUnit)
    ensures s in KnownNames ==> Name(u) == s
    ensures s !in KnownNames ==> u == Hours
  {
    match s
    case "NANOSECONDS" => Nanoseconds
    case "MICROSECONDS" => Microseconds
    case "MILLISECONDS" => Milliseconds
    case "SECONDS" => Seconds
    case "MINUTES" => Minutes
    case "HOURS" => Hours
    case "DAYS" => Days
    case _ => Hours
  }

  /** Every unit is reached from its own name, so the mapping loses no unit. */
  lemma NameRoundTrip(u: TimeUnit)
    ensures Name(u) in KnownNames
    ensures StringToTimeUnit(Name(u)) == u
  {
  }

  /** Names are distinct, so a recognised string denotes exactly one unit. */
  lemma NameInjective(u: TimeUnit, v: TimeUnit)
    ensures Name(u) == Name(v) ==> u == v
  {
  }

  /** The result is HOURS exactly when the input is "HOURS" or no recognised name at all. */
  lemma HoursIsTheFallback(s: string)
    ensures StringToTimeUnit(s) == Hours <==> s == "HOURS" || s !in KnownNames
  {
  }

  /** Lower-case spellings and the empty string are not recognised. */
  lemma CaseExact()
    ensures StringToTimeUnit("") == Hours
    ensures StringToTimeUnit("days") == Hours
    ensures StringToTimeUnit("Minutes") == Hours
    ensures StringToTimeUnit("WEEKS") == Hours
  {
  }
}
