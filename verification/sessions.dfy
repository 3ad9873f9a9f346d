/**
  Sequences of calls made on one promise after it was created, and what the
  observers receive over the whole sequence. Callbacks are assumed not to call
  back into the cell while they run.
 */
module Sessions {
  import opened Outcomes
  import Futures
  import Promises
  import opened Traces

  /** One public call on a promise. */
  datatype Call<V, E, Id> =
    | Observe(id: Id)
    | ObserveValue(id: Id)
    | Resolve(value: V)
    | Reject(error: E)

  function Apply<V, E, Id>(f: Futures.Future<V, E, Id>, c: Call<V, E, Id>): Futures.Step<V, E, Id>
  {
    match c
    case Observe(id) => Futures.Observe(f, id)
    case ObserveValue(id) => Futures.ObserveValue(f, id)
    case Resolve(v) => Promises.Resolve(f, v)
    case Reject(e) => Promises.Reject(f, e)
  }

  /** Performs `calls` in order from `f`; the deliveries of all calls are concatenated. */
  function Run<V, E, Id>(f: Futures.Future<V, E, Id>, calls: seq<Call<V, E, Id>>): Futures.Step<V, E, Id>
    decreases |calls|
  {
    if calls == [] then Futures.Step(f, [])
    else
      var first := Apply(f, calls[0]);
      var rest := Run(first.future, calls[1..]);
      Futures.Step(rest.future, first.deliveries + rest.deliveries)
  }

  /** How many of `calls` assign a result. */
  function Resolutions<V, E, Id>(calls: seq<Call<V, E, Id>>): nat
  {
    if calls == [] then 0
    else if calls[0].Resolve? || calls[0].Reject? then 1 + Resolutions(calls[1..])
    else Resolutions(calls[1..])
  }

  /** The ids registered through `observe` in `calls`, in order. */
  function Observers<V, E, Id>(calls: seq<Call<V, E, Id>>): seq<Id>
  {
    if calls == [] then []
    else if calls[0].Observe? then [calls[0].id] + Observers(calls[1..])
    else Observers(calls[1..])
  }

  /** The ids registered through `observeValue` in `calls`, in order. */
  function ValueObservers<V, E, Id>(calls: seq<Call<V, E, Id>>): seq<Id>
  {
    if calls == [] then []
    else if calls[0].ObserveValue? then [calls[0].id] + ValueObservers(calls[1..])
    else ValueObservers(calls[1..])
  }

  /**
    The observer lists only grow: after any calls each list is its old contents
    followed by the ids registered with it, in registration order. Nothing is
    removed or reordered, and resolving or rejecting adds nothing.
   */
  lemma {:induction false} ListsOnlyGrow<V, E, Id>(f: Futures.Future<V, E, Id>, calls: seq<Call<V, E, Id>>)
    ensures Run(f, calls).future.callbacks == f.callbacks + Observers(calls)
    ensures Run(f, calls).future.valueCallbacks == f.valueCallbacks + ValueObservers(calls)
    decreases |calls|
  {
    if calls != [] {
      var first := Apply(f, calls[0]);
      ListsOnlyGrow(first.future, calls[1..]);
      assert Run(f, calls).future == Run(first.future, calls[1..]).future;
      match calls[0]
      case Observe(id) =>
        assert first.future.callbacks == f.callbacks + [id];
        assert first.future.valueCallbacks == f.valueCallbacks;
      case ObserveValue(id) =>
        assert first.future.callbacks == f.callbacks;
        assert first.future.valueCallbacks == f.valueCallbacks + [id];
      case Resolve(v) =>
        assert first.future.callbacks == f.callbacks;
      case Reject(e) =>
        assert first.future.callbacks == f.callbacks;
    }
  }

  /** While nothing resolves a pending cell, no observer is called and the cell stays pending. */
  lemma {:induction false} PendingDeliversNothing<V, E, Id>(f: Futures.Future<V, E, Id>, calls: seq<Call<V, E, Id>>)
    requires f.result.None? && Resolutions(calls) == 0
    ensures Run(f, calls).future.result.None?
    ensures Run(f, calls).deliveries == []
    decreases |calls|
  {
    if calls != [] {
      PendingDeliversNothing(Apply(f, calls[0]).future, calls[1..]);
    }
  }

  /**
    Late registration: on a cell that already holds a result, each later
    registration is called exactly once, in registration order, with the stored
    result; value observers only if the result is a success, with its value.
    The result does not change.
   */
  lemma {:induction false} LateRegistration<V, E, Id>(f: Futures.Future<V, E, Id>, calls: seq<Call<V, E, Id>>)
    requires f.result.Some? && Resolutions(calls) == 0
    ensures Run(f, calls).future.result == f.result
    ensures FullRecipients(Run(f, calls).deliveries) == Observers(calls)
    ensures ValueRecipients(Run(f, calls).deliveries) ==
              (if f.result.value.Success? then ValueObservers(calls) else [])
    ensures Carries(Run(f, calls).deliveries, f.result.value)
    decreases |calls|
  {
    LateCarries(f, calls);
    if calls != [] {
      var first := Apply(f, calls[0]);
      LateRegistration(first.future, calls[1..]);
      RecipientsAppend(first.deliveries, Run(first.future, calls[1..]).deliveries);
    }
  }

  /** The payload half of `LateRegistration`: every later delivery hands over the stored result. */
  lemma {:induction false} LateCarries<V, E, Id>(f: Futures.Future<V, E, Id>, calls: seq<Call<V, E, Id>>)
    requires f.result.Some? && Resolutions(calls) == 0
    ensures Run(f, calls).future.result == f.result
    ensures Carries(Run(f, calls).deliveries, f.result.value)
    decreases |calls|
  {
    if calls != [] {
      var first := Apply(f, calls[0]);
      var rest := Run(first.future, calls[1..]);
      assert Run(f, calls) == Futures.Step(rest.future, first.deliveries + rest.deliveries);
      assert first.future.result == f.result;
      assert Carries(first.deliveries, f.result.value);
      LateCarries(first.future, calls[1..]);
      CarriesAppend(first.deliveries, rest.deliveries, f.result.value);
    }
  }

  /**
    Exactly-once delivery: from a pending cell, over any calls that resolve or
    reject exactly once, every full observer, whether registered before or
    after the resolution, is called exactly once per registration, and all are
    called in registration order, each with the result that was set. Value
    observers are treated the same way on a success, each with its value, and
    are never called on a failure.
   */
  lemma SingleResolutionDeliversOnce<V, E, Id>(f: Futures.Future<V, E, Id>, calls: seq<Call<V, E, Id>>)
    requires f.result.None? && Resolutions(calls) == 1
    ensures Run(f, calls).future.result.Some?
    ensures FullRecipients(Run(f, calls).deliveries) == f.callbacks + Observers(calls)
    ensures ValueRecipients(Run(f, calls).deliveries) ==
              (if Run(f, calls).future.result.value.Success? then f.valueCallbacks + ValueObservers(calls) else [])
    ensures Carries(Run(f, calls).deliveries, Run(f, calls).future.result.value)
  {
    SingleResolutionResolves(f, calls);
    SingleResolutionFull(f, calls);
    SingleResolutionValue(f, calls);
    SingleResolutionCarries(f, calls);
  }

  /** The payload half of `SingleResolutionDeliversOnce`: every delivery hands over the result that was set. */
  lemma {:induction false} SingleResolutionCarries<V, E, Id>(f: Futures.Future<V, E, Id>, calls: seq<Call<V, E, Id>>)
    requires f.result.None? && Resolutions(calls) == 1
    ensures Run(f, calls).future.result.Some?
    ensures Carries(Run(f, calls).deliveries, Run(f, calls).future.result.value)
    decreases |calls|
  {
    if calls[0].Resolve? || calls[0].Reject? {
      var first := Apply(f, calls[0]);
      var rest := Run(first.future, calls[1..]);
      assert Run(f, calls) == Futures.Step(rest.future, first.deliveries + rest.deliveries);
      assert Resolutions(calls[1..]) == 0;
      var r := if calls[0].Resolve? then Success(calls[0].value) else Failure(calls[0].error);
      assert first.future.result == Some(r);
      assert Futures.IsReportTrace(first.deliveries, f, r);
      ReportTraceCarries(first.deliveries, f, r);
      LateCarries(first.future, calls[1..]);
      CarriesAppend(first.deliveries, rest.deliveries, r);
    } else {
      RegistrationStep(f, calls);
      SingleResolutionCarries(Apply(f, calls[0]).future, calls[1..]);
    }
  }

  /** From a pending cell, calls that resolve or reject exactly once leave the cell resolved. */
  lemma {:induction false} SingleResolutionResolves<V, E, Id>(f: Futures.Future<V, E, Id>, calls: seq<Call<V, E, Id>>)
    requires f.result.None? && Resolutions(calls) == 1
    ensures Run(f, calls).future.result.Some?
    decreases |calls|
  {
    if calls[0].Resolve? || calls[0].Reject? {
      ResolvedFirst(f, calls);
    } else {
      RegistrationStep(f, calls);
      SingleResolutionResolves(Apply(f, calls[0]).future, calls[1..]);
    }
  }

  /** The full observer half of `SingleResolutionDeliversOnce`. */
  lemma {:induction false} SingleResolutionFull<V, E, Id>(f: Futures.Future<V, E, Id>, calls: seq<Call<V, E, Id>>)
    requires f.result.None? && Resolutions(calls) == 1
    ensures FullRecipients(Run(f, calls).deliveries) == f.callbacks + Observers(calls)
    decreases |calls|
  {
    if calls[0].Resolve? || calls[0].Reject? {
      ResolvedFirst(f, calls);
    } else {
      RegistrationStep(f, calls);
      SingleResolutionFull(Apply(f, calls[0]).future, calls[1..]);
    }
  }

  /** The value observer half of `SingleResolutionDeliversOnce`. */
  lemma {:induction false} SingleResolutionValue<V, E, Id>(f: Futures.Future<V, E, Id>, calls: seq<Call<V, E, Id>>)
    requires f.result.None? && Resolutions(calls) == 1
    ensures Run(f, calls).future.result.Some? && Run(f, calls).future.result.value.Success? ==>
              ValueRecipients(Run(f, calls).deliveries) == f.valueCallbacks + ValueObservers(calls)
    ensures Run(f, calls).future.result.Some? && Run(f, calls).future.result.value.Failure? ==>
              ValueRecipients(Run(f, calls).deliveries) == []
    decreases |calls|
  {
    if calls[0].Resolve? || calls[0].Reject? {
      ResolvedFirst(f, calls);
    } else {
      RegistrationStep(f, calls);
      SingleResolutionValue(Apply(f, calls[0]).future, calls[1..]);
    }
  }

  /** The step of the exactly-once proof where the first call resolves or rejects. */
  lemma ResolvedFirst<V, E, Id>(f: Futures.Future<V, E, Id>, calls: seq<Call<V, E, Id>>)
    requires f.result.None? && Resolutions(calls) == 1
    requires calls != [] && (calls[0].Resolve? || calls[0].Reject?)
    ensures Run(f, calls).future.result.Some?
    ensures FullRecipients(Run(f, calls).deliveries) == f.callbacks + Observers(calls)
    ensures ValueRecipients(Run(f, calls).deliveries) ==
              (if Run(f, calls).future.result.value.Success? then f.valueCallbacks + ValueObservers(calls) else [])
  {
    var first := Apply(f, calls[0]);
    var rest := Run(first.future, calls[1..]);
    assert Run(f, calls) == Futures.Step(rest.future, first.deliveries + rest.deliveries);
    assert Observers(calls) == Observers(calls[1..]);
    assert ValueObservers(calls) == ValueObservers(calls[1..]);
    RecipientsAppend(first.deliveries, rest.deliveries);
    ResolutionReachesAll(f, calls[0]);
    LateRegistration(first.future, calls[1..]);
  }

  /**
    The step of the exactly-once proof where the first call registers an
    observer on a pending cell: it delivers nothing, the cell stays pending, and
    the run continues from the extended cell with the same lists to come.
   */
  lemma RegistrationStep<V, E, Id>(f: Futures.Future<V, E, Id>, calls: seq<Call<V, E, Id>>)
    requires f.result.None? && calls != [] && (calls[0].Observe? || calls[0].ObserveValue?)
    ensures Run(f, calls) == Run(Apply(f, calls[0]).future, calls[1..])
    ensures Apply(f, calls[0]).future.result.None?
    ensures Resolutions(calls[1..]) == Resolutions(calls)
    ensures Apply(f, calls[0]).future.callbacks + Observers(calls[1..]) == f.callbacks + Observers(calls)
    ensures Apply(f, calls[0]).future.valueCallbacks + ValueObservers(calls[1..]) == f.valueCallbacks + ValueObservers(calls)
  {
    RegistrationRun(f, calls);
    match calls[0]
    case Observe(id) => ObserveLists(f, calls);
    case ObserveValue(id) => ObserveValueLists(f, calls);
  }

  /** A registration on a pending cell delivers nothing, so the run continues from the cell it leaves. */
  lemma RegistrationRun<V, E, Id>(f: Futures.Future<V, E, Id>, calls: seq<Call<V, E, Id>>)
    requires f.result.None? && calls != [] && (calls[0].Observe? || calls[0].ObserveValue?)
    ensures Run(f, calls) == Run(Apply(f, calls[0]).future, calls[1..])
    ensures Apply(f, calls[0]).future.result.None?
  {
    var first := Apply(f, calls[0]);
    var rest := Run(first.future, calls[1..]);
    assert first.deliveries == [];
    assert first.deliveries + rest.deliveries == rest.deliveries;
  }

  /** After a leading `observe`, the lists still to be built are the same. */
  lemma ObserveLists<V, E, Id>(f: Futures.Future<V, E, Id>, calls: seq<Call<V, E, Id>>)
    requires calls != [] && calls[0].Observe?
    ensures Resolutions(calls[1..]) == Resolutions(calls)
    ensures Apply(f, calls[0]).future.callbacks + Observers(calls[1..]) == f.callbacks + Observers(calls)
    ensures Apply(f, calls[0]).future.valueCallbacks + ValueObservers(calls[1..]) == f.valueCallbacks + ValueObservers(calls)
  {
    var id := calls[0].id;
    assert Apply(f, calls[0]).future.callbacks == f.callbacks + [id];
    assert Observers(calls) == [id] + Observers(calls[1..]);
    assert (f.callbacks + [id]) + Observers(calls[1..]) == f.callbacks + ([id] + Observers(calls[1..]));
  }

  /** After a leading `observeValue`, the lists still to be built are the same. */
  lemma ObserveValueLists<V, E, Id>(f: Futures.Future<V, E, Id>, calls: seq<Call<V, E, Id>>)
    requires calls != [] && calls[0].ObserveValue?
    ensures Resolutions(calls[1..]) == Resolutions(calls)
    ensures Apply(f, calls[0]).future.callbacks + Observers(calls[1..]) == f.callbacks + Observers(calls)
    ensures Apply(f, calls[0]).future.valueCallbacks + ValueObservers(calls[1..]) == f.valueCallbacks + ValueObservers(calls)
  {
    var id := calls[0].id;
    assert Apply(f, calls[0]).future.valueCallbacks == f.valueCallbacks + [id];
    assert ValueObservers(calls) == [id] + ValueObservers(calls[1..]);
    assert (f.valueCallbacks + [id]) + ValueObservers(calls[1..]) == f.valueCallbacks + ([id] + ValueObservers(calls[1..]));
  }

  /**
    Nothing guards a reassignment: resolving or rejecting reports the new result
    to every registered observer whether or not the cell already held a result,
    so on a resolved cell the late registrants, already called once, are called
    again.
   */
  lemma ResolutionReachesAll<V, E, Id>(f: Futures.Future<V, E, Id>, c: Call<V, E, Id>)
    requires c.Resolve? || c.Reject?
    ensures c.Resolve? ==> Apply(f, c).future.result == Some(Success(c.value))
    ensures c.Reject? ==> Apply(f, c).future.result == Some(Failure(c.error))
    ensures FullRecipients(Apply(f, c).deliveries) == f.callbacks
    ensures ValueRecipients(Apply(f, c).deliveries) == (if c.Resolve? then f.valueCallbacks else [])
  {
    match c
    case Resolve(v) => ReportTraceRecipients(Apply(f, c).deliveries, f, Success(v));
    case Reject(e) => ReportTraceRecipients(Apply(f, c).deliveries, f, Failure(e));
  }

  /**
    A concrete double delivery: resolve, register an observer late (it is called
    at once), resolve again (it is called a second time, with the new value).
   */
  lemma LateObserverCalledTwice<V, E, Id>(v1: V, v2: V, id: Id)
    ensures Run(Futures.Empty<V, E, Id>(), [Resolve(v1), Observe(id), Resolve(v2)]).deliveries
            == [Futures.Full(id, Success(v1)), Futures.Full(id, Success(v2))]
  {
    var calls: seq<Call<V, E, Id>> := [Resolve(v1), Observe(id), Resolve(v2)];
    var f0 := Futures.Empty<V, E, Id>();
    var s1 := Apply(f0, calls[0]);
    var s2 := Apply(s1.future, calls[1]);
    var s3 := Apply(s2.future, calls[2]);
    assert s1.deliveries == [];
    assert s2.future.callbacks == [id];
    assert s3.deliveries == [Futures.Full(id, Success(v2))];
    assert calls[1..][1..][1..] == [];
    assert Run(s3.future, calls[1..][1..][1..]).deliveries == [];
    assert Run(s2.future, calls[1..][1..]).deliveries == s3.deliveries;
    assert Run(s1.future, calls[1..]).deliveries == s2.deliveries + s3.deliveries;
  }
}
