/**
 * The common prefix of `getSteps`, `getWeight` and `getActivities`: the account check,
 * the parsing of the call's parameters, the sentinel check, and the read request that is
 * handed to the vendor's history client when all of that succeeds.
 */
module ReadGate {
  import opened Wrappers
  import opened TimeUnits
  import opened Timestamps
  import opened Bridge

  /**
   * The call's parameters as `PluginCall` hands them out. `None` is an absent key (or a value of the
   * wrong JSON type): `getString(key)` then yields null, while `getString(key, d)` and `getInt(key, d)` yield `d`.
   */
  datatype CallParams = CallParams(startTime: Option<string>, endTime: Option<string>,
                                   timeUnit: Option<string>, bucketSize: Option<int>)

  /** Which read the request builder is set up for. */
  datatype ReadKind =
    | StepsByTime             // aggregate TYPE_STEP_COUNT_DELTA, bucketByTime
    | CaloriesByActivity      // aggregate TYPE_CALORIES_EXPENDED and AGGREGATE_CALORIES_EXPENDED, bucketByActivitySegment
    | RawWeight               // read TYPE_WEIGHT, no bucketing

  datatype Bucketing = Bucketing(size: int, unit: TimeUnit)

  /** The parameters a `DataReadRequest` is built from (times in milliseconds). */
  datatype ReadRequest = ReadRequest(kind: ReadKind, startMs: int, endMs: int, bucketing: Option<Bucketing>)

  /** How the prefix ends: a request to issue, a rejection, or a `NullPointerException` from an absent date. */
  datatype Gate = Proceed(request: ReadRequest) | Refused(why: Rejection) | NullDate

  const DefaultTimeUnit: string := "HOURS"
  const DefaultBucketSize: int := 1

  /** The bucketing a call asks for once the defaults are filled in. */
  function RequestedBucketing(p: CallParams): (b: Bucketing)
    ensures p.bucketSize.None? ==> b.size == 1
    ensures p.timeUnit.None? ==> b.unit == Hours
    ensures p.bucketSize.Some? ==> b.size == p.bucketSize.value
    ensures p.timeUnit.Some? ==> b.unit == StringToTimeUnit(p.timeUnit.value)
  {
    Bucketing(p.bucketSize.GetOr(DefaultBucketSize), StringToTimeUnit(p.timeUnit.GetOr(DefaultTimeUnit)))
  }

  /** Both dates are present and neither maps to the sentinel. */
  predicate TimesGiven(p: CallParams, parse: string -> Option<int>)
  {
    && p.startTime.Some? && p.endTime.Some?
    && DateToTimestamp(p.startTime.value, parse) != Sentinel
    && DateToTimestamp(p.endTime.value, parse) != Sentinel
  }

  /**
   * The prefix of `getSteps` (kind StepsByTime) and `getActivities` (kind CaloriesByActivity):
   * no account rejects with "No access"; an absent date throws; a sentinel start, end or
   * bucket size rejects; otherwise the bucketed request is built.
   */
  function CheckBucketedRead(kind: ReadKind, hasAccount: bool, p: CallParams, parse: string -> Option<int>): (g: Gate)
    requires kind != RawWeight
    ensures !hasAccount ==> g == Refused(Message(NoAccess))
    ensures hasAccount && (p.startTime.None? || p.endTime.None?) ==> g == NullDate
    ensures g.Proceed? <==> hasAccount && TimesGiven(p, parse) && RequestedBucketing(p).size != Sentinel
    ensures g.Proceed? ==> g.request == ReadRequest(kind, DateToTimestamp(p.startTime.value, parse),
                                                     DateToTimestamp(p.endTime.value, parse), Some(RequestedBucketing(p)))
    ensures hasAccount && p.startTime.Some? && p.endTime.Some? && !g.Proceed? ==> g == Refused(Message(MissingRange))
  {
    if !hasAccount then Refused(Message(NoAccess))
    else if p.startTime.None? || p.endTime.None? then NullDate
    else
      var startMs := DateToTimestamp(p.startTime.value, parse);
      var endMs := DateToTimestamp(p.endTime.value, parse);
      var bucketing := RequestedBucketing(p);
      if startMs == Sentinel || endMs == Sentinel || bucketing.size == Sentinel then Refused(Message(MissingRange))
      else Proceed(ReadRequest(kind, startMs, endMs, Some(bucketing)))
  }

  /** The prefix of `getWeight`: as above, but with no bucketing and so no bucket-size check. */
  function CheckWeightRead(hasAccount: bool, p: CallParams, parse: string -> Option<int>): (g: Gate)
    ensures !hasAccount ==> g == Refused(Message(NoAccess))
    ensures hasAccount && (p.startTime.None? || p.endTime.None?) ==> g == NullDate
    ensures g.Proceed? <==> hasAccount && TimesGiven(p, parse)
    ensures g.Proceed? ==> g.request == ReadRequest(RawWeight, DateToTimestamp(p.startTime.value, parse),
                                                     DateToTimestamp(p.endTime.value, parse), None)
    ensures hasAccount && p.startTime.Some? && p.endTime.Some? && !g.Proceed? ==> g == Refused(Message(MissingRange))
  {
    if !hasAccount then Refused(Message(NoAccess))
    else if p.startTime.None? || p.endTime.None? then NullDate
    else
      var startMs := DateToTimestamp(p.startTime.value, parse);
      var endMs := DateToTimestamp(p.endTime.value, parse);
      if startMs == Sentinel || endMs == Sentinel then Refused(Message(MissingRange))
      else Proceed(ReadRequest(RawWeight, startMs, endMs, None))
  }

  /** Without an account nothing about the parameters matters: no parsing, no request. */
  lemma NoAccountIgnoresParameters(kind: ReadKind, p: CallParams, q: CallParams, parse: string -> Option<int>, parse': string -> Option<int>)
    requires kind != RawWeight
    ensures CheckBucketedRead(kind, false, p, parse) == CheckBucketedRead(kind, false, q, parse')
    ensures CheckWeightRead(false, p, parse) == CheckWeightRead(false, q, parse')
  {
  }

  /** Only the exact sentinel is refused: a bucket size of 0 or -5 is passed on to the vendor. */
  lemma NonPositiveBucketSizesPass(kind: ReadKind, p: CallParams, parse: string -> Option<int>)
    requires kind != RawWeight && TimesGiven(p, parse)
    requires p.bucketSize == Some(0) || p.bucketSize == Some(-5)
    ensures CheckBucketedRead(kind, true, p, parse).Proceed?
    ensures CheckBucketedRead(kind, true, p, parse).request.bucketing.value.size <= 0
  {
  }

  /** With neither `timeUnit` nor `bucketSize` given, the request buckets by one hour. */
  lemma DefaultsToOneHour(kind: ReadKind, p: CallParams, parse: string -> Option<int>)
    requires kind != RawWeight && TimesGiven(p, parse)
    requires p.timeUnit.None? && p.bucketSize.None?
    ensures CheckBucketedRead(kind, true, p, parse) ==
      Proceed(ReadRequest(kind, DateToTimestamp(p.startTime.value, parse), DateToTimestamp(p.endTime.value, parse),
                          Some(Bucketing(1, Hours))))
  {
  }

  /** The weight read ignores the bucket parameters entirely, even a sentinel bucket size. */
  lemma WeightIgnoresBucketSize(p: CallParams, parse: string -> Option<int>, size: Option<int>, unit: Option<string>)
    ensures CheckWeightRead(true, p, parse) == CheckWeightRead(true, p.(bucketSize := size, timeUnit := unit), parse)
  {
  }

  /** The readers accept exactly the calls the weight reader accepts, less those with a sentinel bucket size. */
  lemma BucketedIsWeightPlusBucketCheck(kind: ReadKind, hasAccount: bool, p: CallParams, parse: string -> Option<int>)
    requires kind != RawWeight
    ensures CheckBucketedRead(kind, hasAccount, p, parse).Proceed? <==>
      CheckWeightRead(hasAccount, p, parse).Proceed? && p.bucketSize != Some(Sentinel)
  {
  }

  /** An empty or unparsable start date is refused by every reader before any request is built. */
  lemma UnusableStartRefused(kind: ReadKind, p: CallParams, parse: string -> Option<int>)
    requires kind != RawWeight && p.startTime.Some? && p.endTime.Some?
    requires p.startTime.value == "" || parse(p.startTime.value).None?
    ensures CheckBucketedRead(kind, true, p, parse) == Refused(Message(MissingRange))
    ensures CheckWeightRead(true, p, parse) == Refused(Message(MissingRange))
  {
  }

  /** A start date the parser reads as one millisecond before the epoch is refused exactly like an unparsable one. */
  lemma EpochMinusOneRefused(kind: ReadKind, p: CallParams, parse: string -> Option<int>)
    requires kind != RawWeight && p.startTime.Some? && p.endTime.Some?
    requires p.startTime.value != "" && parse(p.startTime.value) == Some(-1)
    ensures CheckBucketedRead(kind, true, p, parse) == Refused(Message(MissingRange))
    ensures CheckWeightRead(true, p, parse) == Refused(Message(MissingRange))
  {
  }
}
