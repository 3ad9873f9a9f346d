/**
  The write side (`TMROPromise`): the two initialisers and the two mutators.
  All of them act by assigning the cell's result, so all of them report through
  `Futures.SetResult`. The promise adds no state of its own to the cell.
 */
module Promises {
  import opened Outcomes
  import opened Futures

  /**
    `init(value:)`: a fresh cell, resolved with the value when one is given.
    The observer lists are still empty, so construction delivers nothing.
   */
  function Init<V, E, Id>(value: Option<V>): (s: Step<V, E, Id>)
    ensures s.future.callbacks == [] && s.future.valueCallbacks == []
    ensures value.None? ==> s.future.result.None?
    ensures value.Some? ==> s.future.result == Some(Success(value.value))
    ensures s.deliveries == []
  {
    var f := Empty();
    match value
    case Some(v) => SetResult(f, Some(Success(v)))
    case None => Step(f, [])
  }

  /** `init(error:)`: a fresh cell holding the failure; nothing is delivered. */
  function InitError<V, E, Id>(error: E): (s: Step<V, E, Id>)
    ensures s.future.callbacks == [] && s.future.valueCallbacks == []
    ensures s.future.result == Some(Failure(error))
    ensures s.deliveries == []
  {
    SetResult(Empty(), Some(Failure(error)))
  }

  /**
    `resolve(with:)`: stores the success and reports it to every full observer
    and then every value observer, each in registration order. The observer
    lists are left as they are, and a cell that already holds a result is
    overwritten and reported again.
   */
  function Resolve<V, E, Id>(f: Future<V, E, Id>, value: V): (s: Step<V, E, Id>)
    ensures s.future.result == Some(Success(value))
    ensures s.future.callbacks == f.callbacks && s.future.valueCallbacks == f.valueCallbacks
    ensures IsReportTrace(s.deliveries, f, Success(value))
  {
    SetResult(f, Some(Success(value)))
  }

  /**
    `reject(with:)`: stores the failure and reports it to every full observer in
    registration order; no value observer is called. The observer lists are
    left as they are.
   */
  function Reject<V, E, Id>(f: Future<V, E, Id>, error: E): (s: Step<V, E, Id>)
    ensures s.future.result == Some(Failure(error))
    ensures s.future.callbacks == f.callbacks && s.future.valueCallbacks == f.valueCallbacks
    ensures |s.deliveries| == |f.callbacks|
    ensures forall i :: 0 <= i < |f.callbacks| ==> s.deliveries[i] == Full(f.callbacks[i], Failure(error))
    ensures forall d :: d in s.deliveries ==> d.Full?
  {
    SetResult(f, Some(Failure(error)))
  }
}
