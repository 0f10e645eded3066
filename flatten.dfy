/**
 * The success listeners of the three readers: each walks the nested response
 * (bucket, data set, data point, field) and builds a flat JSON array in iteration
 * order. A `JSONException` from any value write makes the listener reject the call
 * and return, so the array built so far is never delivered.
 *
 * Each listener is a method with the source's nested loops, proved equal to a
 * specification function; the properties the plugin promises are lemmas about
 * those functions.
 */
module Flatten {
  import opened Wrappers
  import opened Bridge
  import opened FitnessData

  /** One entry of `steps` or `weights`: the data point's interval and one field's value. */
  datatype Sample = Sample(startMs: int, endMs: int, value: Value)

  /** One entry of `activities`; `calories` is `None` when the key was never written. */
  datatype Activity = Activity(startMs: int, endMs: int, calories: Option<Value>, name: string)

  // ---------------------------------------------------------------------------
  // Specification of the steps and weight listeners

  /** The entries of data point `dp` for the given run of its fields. */
  function FieldSamples(dp: DataPoint, fields: seq<FieldValue>): seq<Sample>
  {
    if fields == [] then [] else [Sample(dp.startMs, dp.endMs, fields[0].value)] + FieldSamples(dp, fields[1..])
  }

  /** The entries of one data point: one per field of its data type. */
  function PointSamples(dp: DataPoint): seq<Sample>
  {
    FieldSamples(dp, dp.fields)
  }

  function PointsSamples(points: seq<DataPoint>): seq<Sample>
  {
    if points == [] then [] else PointSamples(points[0]) + PointsSamples(points[1..])
  }

  function SetsSamples(sets: seq<DataSet>): seq<Sample>
  {
    if sets == [] then [] else PointsSamples(sets[0].points) + SetsSamples(sets[1..])
  }

  /** The `steps` array for a list of buckets. */
  function StepEntries(buckets: seq<Bucket>): seq<Sample>
  {
    if buckets == [] then [] else SetsSamples(buckets[0].dataSets) + StepEntries(buckets[1..])
  }

  /** The `weights` array for the weight data set. */
  function WeightEntries(weight: DataSet): seq<Sample>
  {
    PointsSamples(weight.points)
  }

  /** The fallible writes of a run of entries, in order: the `value` put of each. */
  function Values(entries: seq<Sample>): (vs: seq<Value>)
    ensures |vs| == |entries|
  {
    seq(|entries|, i requires 0 <= i < |entries| => entries[i].value)
  }

  // ---------------------------------------------------------------------------
  // Specification of the activities listener

  /** The calorie writes for a run of fields of `dp`: one per field when `dp` is of the calories type, none otherwise. */
  function FieldCalories(dp: DataPoint, fields: seq<FieldValue>): seq<Value>
  {
    if fields == [] then []
    else (if dp.typeName == CaloriesExpended then [fields[0].value] else []) + FieldCalories(dp, fields[1..])
  }

  function PointsCalories(points: seq<DataPoint>): seq<Value>
  {
    if points == [] then [] else FieldCalories(points[0], points[0].fields) + PointsCalories(points[1..])
  }

  function SetsCalories(sets: seq<DataSet>): seq<Value>
  {
    if sets == [] then [] else PointsCalories(sets[0].points) + SetsCalories(sets[1..])
  }

  /** The calorie writes of the whole activities listener, bucket after bucket. */
  function CalorieWrites(buckets: seq<Bucket>): seq<Value>
  {
    if buckets == [] then [] else SetsCalories(buckets[0].dataSets) + CalorieWrites(buckets[1..])
  }

  /** The value a key holds after a run of overwriting puts: the last one, or absent when there were none. */
  function Last(writes: seq<Value>): Option<Value>
  {
    if writes == [] then None else Some(writes[|writes| - 1])
  }

  /** The entry of one bucket: its interval, its activity name, and the last calorie value written. */
  function ActivityOf(b: Bucket): Activity
  {
    Activity(b.startMs, b.endMs, Last(SetsCalories(b.dataSets)), b.activity)
  }

  /** The `activities` array for a list of buckets. */
  function ActivityEntries(buckets: seq<Bucket>): seq<Activity>
  {
    if buckets == [] then [] else [ActivityOf(buckets[0])] + ActivityEntries(buckets[1..])
  }

  // ---------------------------------------------------------------------------
  // What the specifications promise

  /** Each entry of a data point carries that point's interval and the value of the matching field. */
  lemma {:induction false} FieldSamplesAt(dp: DataPoint, fields: seq<FieldValue>, i: nat)
    requires i < |fields|
    ensures |FieldSamples(dp, fields)| == |fields|
    ensures FieldSamples(dp, fields)[i] == Sample(dp.startMs, dp.endMs, fields[i].value)
  {
    FieldSamplesLength(dp, fields[1..]);
    if i > 0 {
      FieldSamplesAt(dp, fields[1..], i - 1);
    }
  }

  lemma {:induction false} FieldSamplesLength(dp: DataPoint, fields: seq<FieldValue>)
    ensures |FieldSamples(dp, fields)| == |fields|
  {
    if fields != [] {
      FieldSamplesLength(dp, fields[1..]);
    }
  }

  lemma {:induction false} PointsSamplesLength(points: seq<DataPoint>)
    ensures |PointsSamples(points)| == PointsFieldCount(points)
  {
    if points != [] {
      FieldSamplesLength(points[0], points[0].fields);
      PointsSamplesLength(points[1..]);
    }
  }

  lemma {:induction false} SetsSamplesLength(sets: seq<DataSet>)
    ensures |SetsSamples(sets)| == SetsFieldCount(sets)
  {
    if sets != [] {
      PointsSamplesLength(sets[0].points);
      SetsSamplesLength(sets[1..]);
    }
  }

  /** `steps` has one entry per field of every data point of every data set of every bucket. */
  lemma {:induction false} StepEntriesLength(buckets: seq<Bucket>)
    ensures |StepEntries(buckets)| == BucketsFieldCount(buckets)
  {
    if buckets != [] {
      SetsSamplesLength(buckets[0].dataSets);
      StepEntriesLength(buckets[1..]);
    }
  }

  /** `weights` has one entry per field of every data point of the weight data set. */
  lemma WeightEntriesLength(weight: DataSet)
    ensures |WeightEntries(weight)| == PointsFieldCount(weight.points)
  {
    PointsSamplesLength(weight.points);
  }

  /**
   * Order is preserved: the entries of a run of buckets are the entries of its first part
   * followed by those of its second part, so no entry moves across a bucket boundary.
   */
  lemma {:induction false} StepEntriesAppend(a: seq<Bucket>, b: seq<Bucket>)
    ensures StepEntries(a + b) == StepEntries(a) + StepEntries(b)
  {
    if a == [] {
      assert a + b == b;
    } else {
      assert (a + b)[0] == a[0];
      assert (a + b)[1..] == a[1..] + b;
      StepEntriesAppend(a[1..], b);
      Assoc(SetsSamples(a[0].dataSets), StepEntries(a[1..]), StepEntries(b));
    }
  }

  /** The same for the data points of the weight data set. */
  lemma {:induction false} PointsSamplesAppend(a: seq<DataPoint>, b: seq<DataPoint>)
    ensures PointsSamples(a + b) == PointsSamples(a) + PointsSamples(b)
  {
    if a == [] {
      assert a + b == b;
    } else {
      assert (a + b)[0] == a[0];
      assert (a + b)[1..] == a[1..] + b;
      PointsSamplesAppend(a[1..], b);
      Assoc(PointSamples(a[0]), PointsSamples(a[1..]), PointsSamples(b));
    }
  }

  /** `activities` has exactly one entry per bucket, in bucket order. */
  lemma {:induction false} ActivityEntriesPerBucket(buckets: seq<Bucket>)
    ensures |ActivityEntries(buckets)| == |buckets|
    ensures forall i :: 0 <= i < |buckets| ==> ActivityEntries(buckets)[i] == ActivityOf(buckets[i])
  {
    if buckets != [] {
      ActivityEntriesPerBucket(buckets[1..]);
    }
  }

  /** Each activity entry carries its bucket's interval and activity name. */
  lemma ActivityOfBucket(b: Bucket)
    ensures ActivityOf(b).startMs == b.startMs && ActivityOf(b).endMs == b.endMs && ActivityOf(b).name == b.activity
  {
  }

  /** A data point writes calories exactly when it is of the calories type and has a field. */
  predicate WritesCalories(dp: DataPoint)
  {
    dp.typeName == CaloriesExpended && dp.fields != []
  }

  lemma {:induction false} FieldCaloriesEmpty(dp: DataPoint, fields: seq<FieldValue>)
    ensures FieldCalories(dp, fields) == [] <==> dp.typeName != CaloriesExpended || fields == []
  {
    if fields != [] {
      FieldCaloriesEmpty(dp, fields[1..]);
    }
  }

  lemma {:induction false} PointsCaloriesEmpty(points: seq<DataPoint>)
    ensures PointsCalories(points) == [] <==> forall k :: 0 <= k < |points| ==> !WritesCalories(points[k])
  {
    if points != [] {
      FieldCaloriesEmpty(points[0], points[0].fields);
      PointsCaloriesEmpty(points[1..]);
      assert forall k :: 1 <= k < |points| ==> points[k] == points[1..][k - 1];
    }
  }

  lemma {:induction false} SetsCaloriesEmpty(sets: seq<DataSet>)
    ensures SetsCalories(sets) == [] <==>
      forall d, k :: 0 <= d < |sets| && 0 <= k < |sets[d].points| ==> !WritesCalories(sets[d].points[k])
  {
    if sets != [] {
      PointsCaloriesEmpty(sets[0].points);
      SetsCaloriesEmpty(sets[1..]);
      assert forall d :: 1 <= d < |sets| ==> sets[d] == sets[1..][d - 1];
    }
  }

  /**
   * The `calories` key is absent from a bucket's entry exactly when no data point of the
   * bucket is of the calories type with at least one field.
   */
  lemma CaloriesAbsentIff(b: Bucket)
    ensures ActivityOf(b).calories.None? <==>
      forall d, k :: 0 <= d < |b.dataSets| && 0 <= k < |b.dataSets[d].points| ==> !WritesCalories(b.dataSets[d].points[k])
  {
    SetsCaloriesEmpty(b.dataSets);
  }

  lemma {:induction false} SetsCaloriesAppend(a: seq<DataSet>, b: seq<DataSet>)
    ensures SetsCalories(a + b) == SetsCalories(a) + SetsCalories(b)
  {
    if a == [] {
      assert a + b == b;
    } else {
      assert (a + b)[0] == a[0];
      assert (a + b)[1..] == a[1..] + b;
      SetsCaloriesAppend(a[1..], b);
      Assoc(PointsCalories(a[0].points), SetsCalories(a[1..]), SetsCalories(b));
    }
  }

  /**
   * The last calorie value wins: a data set that ends the bucket with a calories point
   * overrides everything before it with that point's last field value.
   */
  lemma LastCaloriesWin(b: Bucket, points: seq<DataPoint>, dp: DataPoint)
    requires WritesCalories(dp)
    ensures ActivityOf(b.(dataSets := b.dataSets + [DataSet(points + [dp])])).calories == Some(dp.fields[|dp.fields| - 1].value)
  {
    var last := DataSet(points + [dp]);
    SetsCaloriesAppend(b.dataSets, [last]);
    assert SetsCalories([last]) == PointsCalories(last.points) + SetsCalories([]);
    CaloriesOfPointsAppend(points, dp);
    FieldCaloriesLast(dp, dp.fields);
  }

  /** A data set without calories points leaves a bucket's calories as they were. */
  lemma OtherDataSetsKeepCalories(b: Bucket, ds: DataSet)
    requires forall k :: 0 <= k < |ds.points| ==> !WritesCalories(ds.points[k])
    ensures ActivityOf(b.(dataSets := b.dataSets + [ds])).calories == ActivityOf(b).calories
  {
    SetsCaloriesAppend(b.dataSets, [ds]);
    PointsCaloriesEmpty(ds.points);
    assert SetsCalories([ds]) == PointsCalories(ds.points) + SetsCalories([]);
    assert SetsCalories(b.dataSets + [ds]) == SetsCalories(b.dataSets);
  }

  lemma {:induction false} CaloriesOfPointsAppend(points: seq<DataPoint>, dp: DataPoint)
    ensures PointsCalories(points + [dp]) == PointsCalories(points) + FieldCalories(dp, dp.fields)
  {
    if points == [] {
      assert points + [dp] == [dp];
      assert PointsCalories([dp]) == FieldCalories(dp, dp.fields) + PointsCalories([]);
    } else {
      assert (points + [dp])[0] == points[0];
      assert (points + [dp])[1..] == points[1..] + [dp];
      CaloriesOfPointsAppend(points[1..], dp);
      Assoc(FieldCalories(points[0], points[0].fields), PointsCalories(points[1..]), FieldCalories(dp, dp.fields));
    }
  }

  lemma {:induction false} FieldCaloriesLast(dp: DataPoint, fields: seq<FieldValue>)
    requires dp.typeName == CaloriesExpended && fields != []
    ensures FieldCalories(dp, fields) != []
    ensures FieldCalories(dp, fields)[|FieldCalories(dp, fields)| - 1] == fields[|fields| - 1].value
  {
    if |fields| > 1 {
      FieldCaloriesLast(dp, fields[1..]);
    } else {
      assert fields[1..] == [];
    }
  }

  /**
   * A worked case: two buckets, each with one data set of two single-field data points,
   * give four `steps` entries in bucket, then point, order.
   */
  lemma TwoBucketsOfTwoPoints(p1: DataPoint, p2: DataPoint, p3: DataPoint, p4: DataPoint, s1: int, e1: int, s2: int, e2: int)
    requires |p1.fields| == 1 && |p2.fields| == 1 && |p3.fields| == 1 && |p4.fields| == 1
    ensures StepEntries([Bucket(s1, e1, "", [DataSet([p1, p2])]), Bucket(s2, e2, "", [DataSet([p3, p4])])]) ==
      [Sample(p1.startMs, p1.endMs, p1.fields[0].value), Sample(p2.startMs, p2.endMs, p2.fields[0].value),
       Sample(p3.startMs, p3.endMs, p3.fields[0].value), Sample(p4.startMs, p4.endMs, p4.fields[0].value)]
  {
    var b1 := Bucket(s1, e1, "", [DataSet([p1, p2])]);
    var b2 := Bucket(s2, e2, "", [DataSet([p3, p4])]);
    var e := [Sample(p1.startMs, p1.endMs, p1.fields[0].value), Sample(p2.startMs, p2.endMs, p2.fields[0].value),
              Sample(p3.startMs, p3.endMs, p3.fields[0].value), Sample(p4.startMs, p4.endMs, p4.fields[0].value)];
    FieldSamplesAt(p1, p1.fields, 0);
    FieldSamplesAt(p2, p2.fields, 0);
    FieldSamplesAt(p3, p3.fields, 0);
    FieldSamplesAt(p4, p4.fields, 0);
    assert [b1, b2] == [b1] + [b2];
    StepEntriesAppend([b1], [b2]);
    assert [p1, p2] == [p1] + [p2];
    assert [p3, p4] == [p3] + [p4];
    PointsSamplesAppend([p1], [p2]);
    PointsSamplesAppend([p3], [p4]);
    assert PointsSamples([p1]) == [e[0]];
    assert PointsSamples([p2]) == [e[1]];
    assert PointsSamples([p3]) == [e[2]];
    assert PointsSamples([p4]) == [e[3]];
    assert StepEntries([b1]) == SetsSamples(b1.dataSets) + StepEntries([]) == [e[0], e[1]];
    assert StepEntries([b2]) == SetsSamples(b2.dataSets) + StepEntries([]) == [e[2], e[3]];
  }

  // ---------------------------------------------------------------------------
  // The listeners

  /**
   * The two inner loops shared by the steps and weight listeners: for each data point,
   * for each field of its data type, append an entry. Stops at the first value the JSON
   * layer refuses and reports it.
   */
  method AppendPointEntries(entries: seq<Sample>, points: seq<DataPoint>, accepts: Value -> bool)
    returns (out: seq<Sample>, fault: Option<Value>)
    ensures fault == FirstFault(Values(PointsSamples(points)), accepts)
    ensures fault.None? ==> out == entries + PointsSamples(points)
  {
    ghost var full := PointsSamples(points);
    ghost var done: seq<Sample> := [];
    out := entries;
    for pi := 0 to |points|
      invariant done + PointsSamples(points[pi..]) == full
      invariant out == entries + done
      invariant FirstFault(Values(full), accepts) == FirstFault(Values(PointsSamples(points[pi..])), accepts)
    {
      ghost var after := PointsSamples(points[pi + 1..]);
      PointsStep(points, pi);
      var dp := points[pi];
      var fields := dp.fields;
      assert fields[0..] == fields;
      for fi := 0 to |fields|
        invariant done + (FieldSamples(dp, fields[fi..]) + after) == full
        invariant out == entries + done
        invariant FirstFault(Values(full), accepts) == FirstFault(Values(FieldSamples(dp, fields[fi..]) + after), accepts)
      {
        ghost var later := FieldSamples(dp, fields[fi + 1..]) + after;
        var entry := Sample(dp.startMs, dp.endMs, fields[fi].value);
        FieldStep(dp, fields, fi, after);
        EntryFault(entry, later, accepts);
        if !accepts(entry.value) {
          fault := Some(entry.value);
          return;
        }
        Assoc(done, [entry], later);
        Assoc(entries, done, [entry]);
        out := out + [entry];
        done := done + [entry];
      }
      assert fields[|fields|..] == [];
      assert FieldSamples(dp, fields[|fields|..]) + after == after;
    }
    assert points[|points|..] == [];
    assert done == full;
    fault := None;
  }

  /** `getSteps`' success listener: for each bucket, for each data set, the two inner loops above. */
  method FlattenSteps(buckets: seq<Bucket>, accepts: Value -> bool) returns (reply: Reply<seq<Sample>>)
    ensures reply == Deliver(Values(StepEntries(buckets)), accepts, StepEntries(buckets))
  {
    ghost var full := StepEntries(buckets);
    var steps: seq<Sample> := [];
    for bi := 0 to |buckets|
      invariant steps + StepEntries(buckets[bi..]) == full
      invariant FirstFault(Values(full), accepts) == FirstFault(Values(StepEntries(buckets[bi..])), accepts)
    {
      ghost var afterB := StepEntries(buckets[bi + 1..]);
      BucketsStep(buckets, bi);
      var sets := buckets[bi].dataSets;
      assert sets[0..] == sets;
      for di := 0 to |sets|
        invariant steps + (SetsSamples(sets[di..]) + afterB) == full
        invariant FirstFault(Values(full), accepts) == FirstFault(Values(SetsSamples(sets[di..]) + afterB), accepts)
      {
        var points := sets[di].points;
        ghost var afterS := SetsSamples(sets[di + 1..]) + afterB;
        SetsStep(sets, di, afterB);
        ValuesAppend(PointsSamples(points), afterS);
        FirstFaultAppend(Values(PointsSamples(points)), Values(afterS), accepts);
        ghost var before := steps;
        var fault;
        steps, fault := AppendPointEntries(steps, points, accepts);
        if fault.Some? {
          reply := Rejected(WriteFault(fault.value));
          return;
        }
        Assoc(before, PointsSamples(points), afterS);
      }
      assert sets[|sets|..] == [];
      assert SetsSamples(sets[|sets|..]) + afterB == afterB;
    }
    assert buckets[|buckets|..] == [];
    assert steps == full;
    reply := Resolved(steps);
  }

  /** `getWeight`' success listener: the two inner loops over the weight data set. */
  method FlattenWeight(weight: DataSet, accepts: Value -> bool) returns (reply: Reply<seq<Sample>>)
    ensures reply == Deliver(Values(WeightEntries(weight)), accepts, WeightEntries(weight))
  {
    var weights, fault := AppendPointEntries([], weight.points, accepts);
    if fault.Some? {
      reply := Rejected(WriteFault(fault.value));
    } else {
      assert [] + WeightEntries(weight) == WeightEntries(weight);
      reply := Resolved(weights);
    }
  }

  /**
   * The body of `getActivities`' bucket loop: a fresh entry whose `calories` key is
   * overwritten by every field of every data point of the calories type, in iteration order.
   */
  method BucketActivity(bucket: Bucket, accepts: Value -> bool) returns (activity: Activity, fault: Option<Value>)
    ensures fault == FirstFault(SetsCalories(bucket.dataSets), accepts)
    ensures fault.None? ==> activity == ActivityOf(bucket)
  {
    var sets := bucket.dataSets;
    ghost var full := SetsCalories(sets);
    var calories: Option<Value> := None;
    ghost var seen: seq<Value> := [];
    assert sets[0..] == sets;
    for di := 0 to |sets|
      invariant seen + SetsCalories(sets[di..]) == full
      invariant calories == Last(seen)
      invariant FirstFault(full, accepts) == FirstFault(SetsCalories(sets[di..]), accepts)
    {
      ghost var afterS := SetsCalories(sets[di + 1..]);
      CalSetsStep(sets, di);
      var points := sets[di].points;
      assert points[0..] == points;
      for pi := 0 to |points|
        invariant seen + (PointsCalories(points[pi..]) + afterS) == full
        invariant calories == Last(seen)
        invariant FirstFault(full, accepts) == FirstFault(PointsCalories(points[pi..]) + afterS, accepts)
      {
        ghost var afterP := PointsCalories(points[pi + 1..]) + afterS;
        CalPointsStep(points, pi, afterS);
        var dp := points[pi];
        var fields := dp.fields;
        assert fields[0..] == fields;
        for fi := 0 to |fields|
          invariant seen + (FieldCalories(dp, fields[fi..]) + afterP) == full
          invariant calories == Last(seen)
          invariant FirstFault(full, accepts) == FirstFault(FieldCalories(dp, fields[fi..]) + afterP, accepts)
        {
          ghost var later := FieldCalories(dp, fields[fi + 1..]) + afterP;
          CalFieldStep(dp, fields, fi, afterP);
          if dp.typeName == CaloriesExpended {
            var v := fields[fi].value;
            FirstFaultCons(v, later, accepts);
            if !accepts(v) {
              assert FieldCalories(dp, fields[fi..]) + afterP == [v] + later;
              assert FirstFault(full, accepts) == Some(v);
              activity, fault := Activity(bucket.startMs, bucket.endMs, calories, bucket.activity), Some(v);
              return;
            }
            Assoc(seen, [v], later);
            calories := Some(v);
            seen := seen + [v];
          }
        }
        assert fields[|fields|..] == [];
        assert FieldCalories(dp, fields[|fields|..]) + afterP == afterP;
      }
      assert points[|points|..] == [];
      assert PointsCalories(points[|points|..]) + afterS == afterS;
    }
    assert sets[|sets|..] == [];
    assert seen == full;
    activity := Activity(bucket.startMs, bucket.endMs, calories, bucket.activity);
    fault := None;
  }

  /** `getActivities`' success listener: one entry per bucket, in bucket order. */
  method FlattenActivities(buckets: seq<Bucket>, accepts: Value -> bool) returns (reply: Reply<seq<Activity>>)
    ensures reply == Deliver(CalorieWrites(buckets), accepts, ActivityEntries(buckets))
  {
    ghost var full := CalorieWrites(buckets);
    var activities: seq<Activity> := [];
    for bi := 0 to |buckets|
      invariant activities + ActivityEntries(buckets[bi..]) == ActivityEntries(buckets)
      invariant FirstFault(full, accepts) == FirstFault(CalorieWrites(buckets[bi..]), accepts)
    {
      var bucket := buckets[bi];
      CalBucketsStep(buckets, bi);
      ActivitiesStep(buckets, bi);
      FirstFaultAppend(SetsCalories(bucket.dataSets), CalorieWrites(buckets[bi + 1..]), accepts);
      var activity, fault := BucketActivity(bucket, accepts);
      if fault.Some? {
        reply := Rejected(WriteFault(fault.value));
        return;
      }
      Assoc(activities, [activity], ActivityEntries(buckets[bi + 1..]));
      activities := activities + [activity];
    }
    assert buckets[|buckets|..] == [];
    assert activities == ActivityEntries(buckets);
    reply := Resolved(activities);
  }

  /** Writing one entry faults exactly when its value is refused; otherwise the fault lies further on. */
  lemma EntryFault(entry: Sample, later: seq<Sample>, accepts: Value -> bool)
    ensures FirstFault(Values([entry] + later), accepts) ==
      if accepts(entry.value) then FirstFault(Values(later), accepts) else Some(entry.value)
  {
    ValuesAppend([entry], later);
    assert Values([entry]) == [entry.value];
    FirstFaultCons(entry.value, Values(later), accepts);
  }

  lemma {:induction false} ValuesAppend(a: seq<Sample>, b: seq<Sample>)
    ensures Values(a + b) == Values(a) + Values(b)
  {
    assert |Values(a + b)| == |Values(a) + Values(b)|;
    forall i | 0 <= i < |a + b|
      ensures Values(a + b)[i] == (Values(a) + Values(b))[i]
    {
    }
  }

  lemma FieldStep(dp: DataPoint, fields: seq<FieldValue>, fi: nat, after: seq<Sample>)
    requires fi < |fields|
    ensures FieldSamples(dp, fields[fi..]) + after ==
      [Sample(dp.startMs, dp.endMs, fields[fi].value)] + (FieldSamples(dp, fields[fi + 1..]) + after)
  {
    assert fields[fi..][1..] == fields[fi + 1..];
  }

  lemma PointsStep(points: seq<DataPoint>, pi: nat)
    requires pi < |points|
    ensures PointsSamples(points[pi..]) == FieldSamples(points[pi], points[pi].fields) + PointsSamples(points[pi + 1..])
  {
    assert points[pi..][1..] == points[pi + 1..];
  }

  lemma SetsStep(sets: seq<DataSet>, di: nat, after: seq<Sample>)
    requires di < |sets|
    ensures SetsSamples(sets[di..]) + after == PointsSamples(sets[di].points) + (SetsSamples(sets[di + 1..]) + after)
  {
    assert sets[di..][1..] == sets[di + 1..];
  }

  lemma BucketsStep(buckets: seq<Bucket>, bi: nat)
    requires bi < |buckets|
    ensures StepEntries(buckets[bi..]) == SetsSamples(buckets[bi].dataSets) + StepEntries(buckets[bi + 1..])
  {
    assert buckets[bi..][1..] == buckets[bi + 1..];
  }

  lemma CalFieldStep(dp: DataPoint, fields: seq<FieldValue>, fi: nat, after: seq<Value>)
    requires fi < |fields|
    ensures dp.typeName == CaloriesExpended ==>
      FieldCalories(dp, fields[fi..]) + after == [fields[fi].value] + (FieldCalories(dp, fields[fi + 1..]) + after)
    ensures dp.typeName != CaloriesExpended ==>
      FieldCalories(dp, fields[fi..]) + after == FieldCalories(dp, fields[fi + 1..]) + after
  {
    assert fields[fi..][1..] == fields[fi + 1..];
  }

  lemma CalPointsStep(points: seq<DataPoint>, pi: nat, after: seq<Value>)
    requires pi < |points|
    ensures PointsCalories(points[pi..]) + after ==
      FieldCalories(points[pi], points[pi].fields) + (PointsCalories(points[pi + 1..]) + after)
  {
    assert points[pi..][1..] == points[pi + 1..];
  }

  lemma CalSetsStep(sets: seq<DataSet>, di: nat)
    requires di < |sets|
    ensures SetsCalories(sets[di..]) == PointsCalories(sets[di].points) + SetsCalories(sets[di + 1..])
  {
    assert sets[di..][1..] == sets[di + 1..];
  }

  lemma CalBucketsStep(buckets: seq<Bucket>, bi: nat)
    requires bi < |buckets|
    ensures CalorieWrites(buckets[bi..]) == SetsCalories(buckets[bi].dataSets) + CalorieWrites(buckets[bi + 1..])
  {
    assert buckets[bi..][1..] == buckets[bi + 1..];
  }

  lemma ActivitiesStep(buckets: seq<Bucket>, bi: nat)
    requires bi < |buckets|
    ensures ActivityEntries(buckets[bi..]) == [ActivityOf(buckets[bi])] + ActivityEntries(buckets[bi + 1..])
  {
    assert buckets[bi..][1..] == buckets[bi + 1..];
  }

  lemma Assoc<T>(a: seq<T>, b: seq<T>, c: seq<T>)
    ensures a + (b + c) == a + b + c
  {
  }
}
