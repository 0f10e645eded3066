/**
 * `dateToTimestamp`: an ISO-8601 date string to epoch milliseconds, with -1 as the
 * "no usable time" sentinel. `SimpleDateFormat.parse` is not modelled; it is the
 * parameter `parse`, which yields `None` where the Java parser throws `ParseException`.
 */
module Timestamps {
  import opened Wrappers

  /** The value the readers treat as "no time given". */
  const Sentinel: int := -1

  /** The epoch milliseconds of `date`, or the sentinel for the empty string and for text the parser refuses. */
  function DateToTimestamp(date: string, parse: string -> Option<int>): (ms: int)
    ensures date == "" ==> ms == Sentinel
    ensures date != "" && parse(date).None? ==> ms == Sentinel
    ensures date != "" && parse(date).Some? ==> ms == parse(date).value
    ensures ms != Sentinel ==> parse(date) == Some(ms)
  {
    if date == "" then Sentinel
    else match parse(date)
      case None => Sentinel
      case Some(t) => t
  }

  /**
   * The sentinel is ambiguous: it comes back exactly for the empty string, for a parse
   * failure, and for a date that parses to the instant one millisecond before the epoch.
   */
  lemma SentinelExactly(date: string, parse: string -> Option<int>)
    ensures DateToTimestamp(date, parse) == Sentinel <==> date == "" || parse(date).None? || parse(date) == Some(Sentinel)
  {
  }

  /** Any other successfully parsed value passes through unchanged. */
  lemma ParsedPassesThrough(date: string, parse: string -> Option<int>, t: int)
    requires date != "" && parse(date) == Some(t)
    ensures DateToTimestamp(date, parse) == t
  {
  }
}
