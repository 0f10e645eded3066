/**
 * The three bridge methods `getSteps`, `getWeight` and `getActivities` end to end: the
 * shared prefix, the vendor read, and the success listener. The vendor's
 * `HistoryClient.readData` is not modelled; its outcome is the parameter `vendor`
 * (`None` when the task fails, which no listener handles, so the call stays pending).
 */
module HistoryReads {
  import opened Wrappers
  import opened Bridge
  import opened FitnessData
  import opened ReadGate
  import opened Flatten

  /** How a call that stopped in the prefix ends. */
  function Stopped<T>(g: Gate): (r: Reply<T>)
    requires !g.Proceed?
    ensures g.Refused? ==> r == Rejected(g.why)
    ensures g.NullDate? ==> r == Crashed
  {
    if g.Refused? then Rejected(g.why) else Crashed
  }

  /** `getSteps`: the request it issues, if any, and how the call ends. */
  method GetSteps(hasAccount: bool, p: CallParams, parse: string -> Option<int>,
                  vendor: Option<Response>, accepts: Value -> bool)
    returns (request: Option<ReadRequest>, reply: Reply<seq<Sample>>)
    ensures !hasAccount ==> request == None && reply == Rejected(Message(NoAccess))
    ensures request.Some? <==> CheckBucketedRead(StepsByTime, hasAccount, p, parse).Proceed?
    ensures request.Some? ==> request.value == CheckBucketedRead(StepsByTime, hasAccount, p, parse).request
    ensures request.None? ==> reply == Stopped(CheckBucketedRead(StepsByTime, hasAccount, p, parse))
    ensures request.Some? && vendor.None? ==> reply == Pending
    ensures request.Some? && vendor.Some? ==>
      reply == Deliver(Values(StepEntries(vendor.value.buckets)), accepts, StepEntries(vendor.value.buckets))
  {
    var gate := CheckBucketedRead(StepsByTime, hasAccount, p, parse);
    if !gate.Proceed? {
      return None, Stopped(gate);
    }
    request := Some(gate.request);
    if vendor.None? {
      return request, Pending;
    }
    reply := FlattenSteps(vendor.value.buckets, accepts);
  }

  /** `getWeight`: as `getSteps`, over the weight data set of a raw read. */
  method GetWeight(hasAccount: bool, p: CallParams, parse: string -> Option<int>,
                   vendor: Option<Response>, accepts: Value -> bool)
    returns (request: Option<ReadRequest>, reply: Reply<seq<Sample>>)
    ensures !hasAccount ==> request == None && reply == Rejected(Message(NoAccess))
    ensures request.Some? <==> CheckWeightRead(hasAccount, p, parse).Proceed?
    ensures request.Some? ==> request.value == CheckWeightRead(hasAccount, p, parse).request
    ensures request.None? ==> reply == Stopped(CheckWeightRead(hasAccount, p, parse))
    ensures request.Some? && vendor.None? ==> reply == Pending
    ensures request.Some? && vendor.Some? ==>
      reply == Deliver(Values(WeightEntries(vendor.value.weight)), accepts, WeightEntries(vendor.value.weight))
  {
    var gate := CheckWeightRead(hasAccount, p, parse);
    if !gate.Proceed? {
      return None, Stopped(gate);
    }
    request := Some(gate.request);
    if vendor.None? {
      return request, Pending;
    }
    reply := FlattenWeight(vendor.value.weight, accepts);
  }

  /** `getActivities`: the calories-by-activity-segment read and its one-entry-per-bucket listener. */
  method GetActivities(hasAccount: bool, p: CallParams, parse: string -> Option<int>,
                       vendor: Option<Response>, accepts: Value -> bool)
    returns (request: Option<ReadRequest>, reply: Reply<seq<Activity>>)
    ensures !hasAccount ==> request == None && reply == Rejected(Message(NoAccess))
    ensures request.Some? <==> CheckBucketedRead(CaloriesByActivity, hasAccount, p, parse).Proceed?
    ensures request.Some? ==> request.value == CheckBucketedRead(CaloriesByActivity, hasAccount, p, parse).request
    ensures request.None? ==> reply == Stopped(CheckBucketedRead(CaloriesByActivity, hasAccount, p, parse))
    ensures request.Some? && vendor.None? ==> reply == Pending
    ensures request.Some? && vendor.Some? ==>
      reply == Deliver(CalorieWrites(vendor.value.buckets), accepts, ActivityEntries(vendor.value.buckets))
  {
    var gate := CheckBucketedRead(CaloriesByActivity, hasAccount, p, parse);
    if !gate.Proceed? {
      return None, Stopped(gate);
    }
    request := Some(gate.request);
    if vendor.None? {
      return request, Pending;
    }
    reply := FlattenActivities(vendor.value.buckets, accepts);
  }

  /**
   * A resolved `getSteps` call carries the complete flattening, one entry per field;
   * a call that is not resolved carries no entries at all.
   */
  lemma StepsResolveCompletely(buckets: seq<Bucket>, accepts: Value -> bool)
    ensures var r := Deliver(Values(StepEntries(buckets)), accepts, StepEntries(buckets));
      (r.Resolved? <==> forall j :: 0 <= j < |StepEntries(buckets)| ==> accepts(StepEntries(buckets)[j].value)) &&
      (r.Resolved? ==> r.payload == StepEntries(buckets) && |r.payload| == BucketsFieldCount(buckets)) &&
      (!r.Resolved? ==> r.Rejected? && r.why.WriteFault?)
  {
    var entries := StepEntries(buckets);
    DeliverAllOrNothing(Values(entries), accepts, entries);
    assert forall j :: 0 <= j < |entries| ==> Values(entries)[j] == entries[j].value;
    StepEntriesLength(buckets);
  }

  /** A resolved `getActivities` call carries one entry per bucket; a faulting one carries none. */
  lemma ActivitiesResolveCompletely(buckets: seq<Bucket>, accepts: Value -> bool)
    ensures var r := Deliver(CalorieWrites(buckets), accepts, ActivityEntries(buckets));
      (r.Resolved? <==> forall j :: 0 <= j < |CalorieWrites(buckets)| ==> accepts(CalorieWrites(buckets)[j])) &&
      (r.Resolved? ==> |r.payload| == |buckets| && forall i :: 0 <= i < |buckets| ==> r.payload[i] == ActivityOf(buckets[i])) &&
      (!r.Resolved? ==> r.Rejected? && r.why.WriteFault?)
  {
    DeliverAllOrNothing(CalorieWrites(buckets), accepts, ActivityEntries(buckets));
    ActivityEntriesPerBucket(buckets);
  }
}
