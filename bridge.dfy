/**
 * What a plugin call delivers back across the Capacitor bridge, and the model
 * of assembling a JSON payload whose writes can throw `JSONException`.
 */
module Bridge {
  import opened Wrappers
  import opened FitnessData

  /** The fixed rejection messages of the source. */
  const NoAccess: string := "No access"
  const MissingRange: string := "Must provide a start time and end time"

  /** Why a call was rejected: one of the fixed messages, or the message of a `JSONException` raised while writing a value. */
  datatype Rejection = Message(text: string) | WriteFault(refused: Value)

  /**
   * The fate of one `PluginCall`: still unsettled, resolved with a payload,
   * rejected, or abandoned because an exception escaped the plugin method.
   */
  datatype Reply<+T> = Pending | Resolved(payload: T) | Rejected(why: Rejection) | Crashed

  /**
   * Index of the first value that the JSON layer refuses, or `|writes|` when every write succeeds.
   * `accepts` says whether `JSONObject.put` takes a value without throwing (org.json refuses
   * non-finite doubles); it is a parameter because the JSON library is not part of this model.
   */
  function FirstRefused(writes: seq<Value>, accepts: Value -> bool): (k: nat)
    ensures k <= |writes|
    ensures forall j :: 0 <= j < k ==> accepts(writes[j])
    ensures k < |writes| ==> !accepts(writes[k])
  {
    if writes == [] then 0
    else if !accepts(writes[0]) then 0
    else 1 + FirstRefused(writes[1..], accepts)
  }

  /** The value of the first write that throws, if any. */
  function FirstFault(writes: seq<Value>, accepts: Value -> bool): (f: Option<Value>)
    ensures f.None? <==> forall j :: 0 <= j < |writes| ==> accepts(writes[j])
    ensures f.Some? ==> FirstRefused(writes, accepts) < |writes| && f.value == writes[FirstRefused(writes, accepts)]
  {
    var k := FirstRefused(writes, accepts);
    if k < |writes| then Some(writes[k]) else None
  }

  /**
   * The outcome of a success listener that performs `writes` in order, leaving the loop with
   * `call.reject(e.getMessage())` at the first that throws, and otherwise resolving `payload`.
   */
  function Deliver<T>(writes: seq<Value>, accepts: Value -> bool, payload: T): Reply<T>
  {
    match FirstFault(writes, accepts)
    case Some(v) => Rejected(WriteFault(v))
    case None => Resolved(payload)
  }

  /** All or nothing: the call resolves, with the whole payload, exactly when every write is accepted. */
  lemma DeliverAllOrNothing<T>(writes: seq<Value>, accepts: Value -> bool, payload: T)
    ensures Deliver(writes, accepts, payload).Resolved? <==> forall j :: 0 <= j < |writes| ==> accepts(writes[j])
    ensures Deliver(writes, accepts, payload).Resolved? ==> Deliver(writes, accepts, payload).payload == payload
    ensures !Deliver(writes, accepts, payload).Resolved? ==>
      Deliver(writes, accepts, payload).Rejected? && Deliver(writes, accepts, payload).why.WriteFault?
  {
    var k := FirstRefused(writes, accepts);
    if k < |writes| {
      assert !accepts(writes[k]);
    }
  }

  /** A refused value at position `i` makes the call reject, naming a refused value no later than `i`. */
  lemma DeliverNamesFirstFault<T>(writes: seq<Value>, accepts: Value -> bool, payload: T, i: nat)
    requires i < |writes| && !accepts(writes[i])
    ensures FirstRefused(writes, accepts) <= i
    ensures Deliver(writes, accepts, payload) == Rejected(WriteFault(writes[FirstRefused(writes, accepts)]))
  {
  }

  /** Only the writes up to the first fault matter: later writes cannot change the outcome. */
  lemma {:induction false} DeliverIgnoresLaterWrites<T>(pre: seq<Value>, v: Value, post1: seq<Value>, post2: seq<Value>,
                                                      accepts: Value -> bool, payload: T)
    requires !accepts(v)
    ensures Deliver(pre + [v] + post1, accepts, payload) == Deliver(pre + [v] + post2, accepts, payload)
  {
    FirstRefusedPrefix(pre, [v] + post1, accepts);
    FirstRefusedPrefix(pre, [v] + post2, accepts);
    assert pre + [v] + post1 == pre + ([v] + post1);
    assert pre + [v] + post2 == pre + ([v] + post2);
  }

  /** A fault inside a prefix is found where the prefix alone would find it; past a clean prefix the search continues in the rest. */
  lemma {:induction false} FirstRefusedPrefix(pre: seq<Value>, rest: seq<Value>, accepts: Value -> bool)
    ensures FirstRefused(pre + rest, accepts) ==
      if FirstRefused(pre, accepts) < |pre| then FirstRefused(pre, accepts) else |pre| + FirstRefused(rest, accepts)
  {
    if pre != [] {
      assert (pre + rest)[0] == pre[0];
      assert (pre + rest)[1..] == pre[1..] + rest;
      if accepts(pre[0]) {
        FirstRefusedPrefix(pre[1..], rest, accepts);
      }
    } else {
      assert pre + rest == rest;
    }
  }
  /** A listener that has written `done` without a fault and then meets a refused value rejects with that value, whatever follows. */
  lemma DeliverFaultAfter<T>(done: seq<Value>, v: Value, rest: seq<Value>, accepts: Value -> bool, payload: T)
    requires forall j :: 0 <= j < |done| ==> accepts(done[j])
    requires !accepts(v)
    ensures Deliver(done + [v] + rest, accepts, payload) == Rejected(WriteFault(v))
  {
    FirstFaultSplit(done, [v], rest, accepts);
  }

  /**
   * Past a clean prefix, a run of writes that faults decides the fault of the whole;
   * a run that does not fault hands the search on to what follows.
   */
  lemma FirstFaultSplit(done: seq<Value>, mid: seq<Value>, rest: seq<Value>, accepts: Value -> bool)
    requires forall j :: 0 <= j < |done| ==> accepts(done[j])
    ensures FirstFault(mid, accepts).Some? ==> FirstFault(done + mid + rest, accepts) == FirstFault(mid, accepts)
    ensures FirstFault(mid, accepts).None? ==> FirstFault(done + mid + rest, accepts) == FirstFault(rest, accepts)
  {
    assert done + mid + rest == done + (mid + rest);
    FirstRefusedPrefix(done, mid + rest, accepts);
    FirstRefusedPrefix(mid, rest, accepts);
    assert FirstRefused(done, accepts) == |done|;
    var k := FirstRefused(mid, accepts);
    if k < |mid| {
      assert (done + (mid + rest))[|done| + k] == mid[k];
    } else {
      var r := FirstRefused(rest, accepts);
      if r < |rest| {
        assert (done + (mid + rest))[|done| + |mid| + r] == rest[r];
      }
    }
  }

  /** The first fault of two runs of writes in sequence: the first run's, or else the second's. */
  lemma FirstFaultAppend(mid: seq<Value>, rest: seq<Value>, accepts: Value -> bool)
    ensures FirstFault(mid + rest, accepts) ==
      if FirstFault(mid, accepts).Some? then FirstFault(mid, accepts) else FirstFault(rest, accepts)
  {
    FirstFaultSplit([], mid, rest, accepts);
    assert [] + mid + rest == mid + rest;
  }

  /** A single write faults exactly when its value is refused; otherwise the fault lies further on. */
  lemma FirstFaultCons(v: Value, rest: seq<Value>, accepts: Value -> bool)
    ensures FirstFault([v] + rest, accepts) == if accepts(v) then FirstFault(rest, accepts) else Some(v)
  {
    FirstFaultAppend([v], rest, accepts);
    assert FirstRefused([v], accepts) == (if accepts(v) then 1 else 0) by {
      assert [v][1..] == [];
    }
  }
}
