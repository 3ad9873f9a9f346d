/** The four usage scenarios of the library, each as a concrete call sequence. */
module Scenarios {
  import opened Outcomes
  import Futures
  import Promises
  import opened Sessions

  /** A promise created with 42 calls a later value observer once, with 42, before any resolve. */
  lemma PreResolvedValueObserver(id: string)
    ensures Run(Promises.Init<int, string, string>(Some(42)).future, [ObserveValue(id)]).deliveries
            == [Futures.Val(id, 42)]
  {
  }

  /** Two observers registered on a pending promise are called in registration order when it resolves with 7. */
  lemma ObserversCalledInOrder(a: string, b: string)
    ensures Run(Promises.Init<int, string, string>(None).future, [Observe(a), Observe(b), Resolve(7)]).deliveries
            == [Futures.Full(a, Success(7)), Futures.Full(b, Success(7))]
  {
    var calls: seq<Call<int, string, string>> := [Observe(a), Observe(b), Resolve(7)];
    var f0 := Promises.Init<int, string, string>(None).future;
    var f1 := Apply(f0, calls[0]).future;
    var f2 := Apply(f1, calls[1]).future;
    var s3 := Apply(f2, calls[2]);
    assert f2.callbacks == [a, b] && f2.valueCallbacks == [];
    assert s3.deliveries == [Futures.Full(a, Success(7)), Futures.Full(b, Success(7))];
    assert calls[1..][1..][1..] == [];
    assert Run(f2, calls[1..][1..]).deliveries == s3.deliveries;
    assert Run(f1, calls[1..]).deliveries == s3.deliveries;
  }

  /** A value observer on a pending promise is never called when the promise is rejected. */
  lemma RejectSkipsValueObserver(id: string, err: string)
    ensures Run(Promises.Init<int, string, string>(None).future, [ObserveValue(id), Reject(err)]).deliveries == []
  {
    var calls: seq<Call<int, string, string>> := [ObserveValue(id), Reject(err)];
    var f0 := Promises.Init<int, string, string>(None).future;
    var f1 := Apply(f0, calls[0]).future;
    var s2 := Apply(f1, calls[1]);
    assert f1.callbacks == [];
    assert s2.deliveries == [];
    assert calls[1..][1..] == [];
    assert Run(f1, calls[1..]).deliveries == [];
  }

  /** An observer registered on a promise created with an error is called at once with that failure. */
  lemma PreRejectedObserver(id: string, err: string)
    ensures Run(Promises.InitError<int, string, string>(err).future, [Observe(id)]).deliveries
            == [Futures.Full(id, Failure(err))]
  {
  }
}
