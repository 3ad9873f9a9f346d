/**
  The read side of the cell (`TMROFuture`): an optional stored result and two
  append-only observer lists. Callbacks are opaque observer ids; what a callback
  does is not modelled, only that it is invoked, with what, and in which order.
  Every operation returns the new state together with the deliveries it caused.
 */
module Futures {
  import opened Outcomes

  /** One callback invocation: a full observer receiving the result, or a value observer receiving the value. */
  datatype Delivery<V, E, Id> =
    | Full(id: Id, result: Result<V, E>)
    | Val(id: Id, value: V)

  /** The state of one cell. */
  datatype Future<V, E, Id> = Future(
    result: Option<Result<V, E>>,
    callbacks: seq<Id>,
    valueCallbacks: seq<Id>)

  /** The state after an operation and the deliveries, in call order, that the operation caused. */
  datatype Step<V, E, Id> = Step(future: Future<V, E, Id>, deliveries: seq<Delivery<V, E, Id>>)

  /** A cell as the initialiser leaves it: pending, with no observers. */
  function Empty<V, E, Id>(): Future<V, E, Id>
  {
    Future(None, [], [])
  }

  /**
    What reporting `r` to the observers of `f` must produce, stated position by
    position: every full observer in registration order with `r`, then, on a
    success only, every value observer in registration order with the value.
   */
  ghost predicate IsReportTrace<V, E, Id>(t: seq<Delivery<V, E, Id>>, f: Future<V, E, Id>, r: Result<V, E>)
  {
    && |t| == |f.callbacks| + (if r.Success? then |f.valueCallbacks| else 0)
    && (forall i :: 0 <= i < |f.callbacks| ==> t[i] == Full(f.callbacks[i], r))
    && (r.Success? ==>
          forall j :: 0 <= j < |f.valueCallbacks| ==> t[|f.callbacks| + j] == Val(f.valueCallbacks[j], r.value))
  }

  /** The first `forEach` of `report`: each full observer, in order, receives `r`. */
  function ReportFull<V, E, Id>(ids: seq<Id>, r: Result<V, E>): (t: seq<Delivery<V, E, Id>>)
    ensures |t| == |ids|
    ensures forall i :: 0 <= i < |ids| ==> t[i] == Full(ids[i], r)
  {
    if ids == [] then [] else [Full(ids[0], r)] + ReportFull(ids[1..], r)
  }

  /** The second `forEach` of `report`: each value observer is visited and called only when `r` is a success. */
  function ReportValue<V, E, Id>(ids: seq<Id>, r: Result<V, E>): (t: seq<Delivery<V, E, Id>>)
    ensures r.Failure? ==> t == []
    ensures r.Success? ==> |t| == |ids|
    ensures r.Success? ==> forall i :: 0 <= i < |ids| ==> t[i] == Val(ids[i], r.value)
  {
    if ids == [] then []
    else
      var here := match r
        case Success(v) => [Val(ids[0], v)]
        case Failure(_) => [];
      here + ReportValue(ids[1..], r)
  }

  /** `report(result:)`: the deliveries caused by announcing `r` to the observers currently registered on `f`. */
  function Report<V, E, Id>(f: Future<V, E, Id>, r: Result<V, E>): (t: seq<Delivery<V, E, Id>>)
    ensures IsReportTrace(t, f, r)
  {
    var full := ReportFull(f.callbacks, r);
    var values := ReportValue(f.valueCallbacks, r);
    assert forall i :: 0 <= i < |full| ==> (full + values)[i] == full[i];
    assert forall j :: 0 <= j < |values| ==> (full + values)[|full| + j] == values[j];
    full + values
  }

  /** The reference trace leaves no freedom: at most one sequence meets it. */
  lemma ReportTraceUnique<V, E, Id>(t1: seq<Delivery<V, E, Id>>, t2: seq<Delivery<V, E, Id>>, f: Future<V, E, Id>, r: Result<V, E>)
    requires IsReportTrace(t1, f, r) && IsReportTrace(t2, f, r)
    ensures t1 == t2
  {
    forall k | 0 <= k < |t1|
      ensures t1[k] == t2[k]
    {
      if k >= |f.callbacks| {
        var j := k - |f.callbacks|;
        assert r.Success? && 0 <= j < |f.valueCallbacks|;
        assert t1[|f.callbacks| + j] == Val(f.valueCallbacks[j], r.value);
      }
    }
  }

  /**
    Assigning the `result` property: the new value is stored and `didSet`
    reports it to every registered observer when it is non-nil. Nothing guards
    a cell that already holds a result: reassignment reports again.
   */
  function SetResult<V, E, Id>(f: Future<V, E, Id>, r: Option<Result<V, E>>): (s: Step<V, E, Id>)
    ensures s.future.result == r
    ensures s.future.callbacks == f.callbacks && s.future.valueCallbacks == f.valueCallbacks
    ensures r.None? ==> s.deliveries == []
    ensures r.Some? ==> IsReportTrace(s.deliveries, f, r.value)
  {
    var g := f.(result := r);
    match r
    case Some(x) => Step(g, Report(g, x))
    case None => Step(g, [])
  }

  /**
    `observe(with:)`: the callback is always appended to the full observer list;
    if a result is already stored it is also called with it at once.
   */
  function Observe<V, E, Id>(f: Future<V, E, Id>, id: Id): (s: Step<V, E, Id>)
    ensures s.future.result == f.result && s.future.valueCallbacks == f.valueCallbacks
    ensures s.future.callbacks == f.callbacks + [id]
    ensures f.result.None? ==> s.deliveries == []
    ensures f.result.Some? ==> s.deliveries == [Full(id, f.result.value)]
  {
    var g := f.(callbacks := f.callbacks + [id]);
    match f.result
    case Some(x) => Step(g, [Full(id, x)])
    case None => Step(g, [])
  }

  /**
    `observeValue(with:)`: the callback is always appended to the value observer
    list; it is called at once only if the stored result is a success.
   */
  function ObserveValue<V, E, Id>(f: Future<V, E, Id>, id: Id): (s: Step<V, E, Id>)
    ensures s.future.result == f.result && s.future.callbacks == f.callbacks
    ensures s.future.valueCallbacks == f.valueCallbacks + [id]
    ensures f.result.None? || f.result.value.Failure? ==> s.deliveries == []
    ensures f.result.Some? && f.result.value.Success? ==> s.deliveries == [Val(id, f.result.value.value)]
  {
    var g := f.(valueCallbacks := f.valueCallbacks + [id]);
    match f.result
    case Some(Success(v)) => Step(g, [Val(id, v)])
    case Some(Failure(_)) => Step(g, [])
    case None => Step(g, [])
  }
}
