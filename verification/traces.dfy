/**
  Projections of a delivery trace onto the observers it reached, in order.
  A recipient sequence says at once who was called, how often and in which order.
 */
module Traces {
  import opened Outcomes
  import opened Futures

  /** The ids of the full observers called in `t`, in call order, with repetitions. */
  function FullRecipients<V, E, Id>(t: seq<Delivery<V, E, Id>>): seq<Id>
  {
    if t == [] then []
    else if t[0].Full? then [t[0].id] + FullRecipients(t[1..])
    else FullRecipients(t[1..])
  }

  /** The ids of the value observers called in `t`, in call order, with repetitions. */
  function ValueRecipients<V, E, Id>(t: seq<Delivery<V, E, Id>>): seq<Id>
  {
    if t == [] then []
    else if t[0].Val? then [t[0].id] + ValueRecipients(t[1..])
    else ValueRecipients(t[1..])
  }

  /** Recipients of consecutive traces are the recipients of each, one after the other. */
  lemma RecipientsAppend<V, E, Id>(a: seq<Delivery<V, E, Id>>, b: seq<Delivery<V, E, Id>>)
    ensures FullRecipients(a + b) == FullRecipients(a) + FullRecipients(b)
    ensures ValueRecipients(a + b) == ValueRecipients(a) + ValueRecipients(b)
  {
    FullRecipientsAppend(a, b);
    ValueRecipientsAppend(a, b);
  }

  lemma {:induction false} FullRecipientsAppend<V, E, Id>(a: seq<Delivery<V, E, Id>>, b: seq<Delivery<V, E, Id>>)
    ensures FullRecipients(a + b) == FullRecipients(a) + FullRecipients(b)
  {
    if a == [] {
      assert a + b == b;
    } else {
      assert (a + b)[0] == a[0];
      assert (a + b)[1..] == a[1..] + b;
      FullRecipientsAppend(a[1..], b);
      if a[0].Full? {
        assert [a[0].id] + (FullRecipients(a[1..]) + FullRecipients(b))
            == ([a[0].id] + FullRecipients(a[1..])) + FullRecipients(b);
      }
    }
  }

  lemma {:induction false} ValueRecipientsAppend<V, E, Id>(a: seq<Delivery<V, E, Id>>, b: seq<Delivery<V, E, Id>>)
    ensures ValueRecipients(a + b) == ValueRecipients(a) + ValueRecipients(b)
  {
    if a == [] {
      assert a + b == b;
    } else {
      assert (a + b)[0] == a[0];
      assert (a + b)[1..] == a[1..] + b;
      ValueRecipientsAppend(a[1..], b);
      if a[0].Val? {
        assert [a[0].id] + (ValueRecipients(a[1..]) + ValueRecipients(b))
            == ([a[0].id] + ValueRecipients(a[1..])) + ValueRecipients(b);
      }
    }
  }

  lemma {:induction false} ReportFullRecipients<V, E, Id>(ids: seq<Id>, r: Result<V, E>)
    ensures FullRecipients(ReportFull(ids, r)) == ids
    ensures ValueRecipients(ReportFull(ids, r)) == []
  {
    if ids != [] {
      var t := ReportFull(ids, r);
      assert t[1..] == ReportFull(ids[1..], r);
      ReportFullRecipients(ids[1..], r);
    }
  }

  lemma {:induction false} ReportValueRecipients<V, E, Id>(ids: seq<Id>, r: Result<V, E>)
    ensures FullRecipients(ReportValue(ids, r)) == []
    ensures ValueRecipients(ReportValue(ids, r)) == (if r.Success? then ids else [])
  {
    if ids != [] && r.Success? {
      var t := ReportValue(ids, r);
      assert t[1..] == ReportValue(ids[1..], r);
      ReportValueRecipients(ids[1..], r);
    }
  }

  /**
    Reporting reaches every full observer exactly once per registration, in
    order, and every value observer likewise but only on a success.
   */
  lemma ReportRecipients<V, E, Id>(f: Future<V, E, Id>, r: Result<V, E>)
    ensures FullRecipients(Report(f, r)) == f.callbacks
    ensures ValueRecipients(Report(f, r)) == (if r.Success? then f.valueCallbacks else [])
  {
    ReportFullRecipients(f.callbacks, r);
    ReportValueRecipients(f.valueCallbacks, r);
    RecipientsAppend(ReportFull(f.callbacks, r), ReportValue(f.valueCallbacks, r));
  }

  /** The same holds of every trace that meets the reference definition of reporting. */
  lemma ReportTraceRecipients<V, E, Id>(t: seq<Delivery<V, E, Id>>, f: Future<V, E, Id>, r: Result<V, E>)
    requires IsReportTrace(t, f, r)
    ensures FullRecipients(t) == f.callbacks
    ensures ValueRecipients(t) == (if r.Success? then f.valueCallbacks else [])
  {
    ReportTraceUnique(t, Report(f, r), f, r);
    ReportRecipients(f, r);
  }

  /**
    Every delivery in `t` hands over `r`: full observers receive `r` itself,
    and value observers are called only when `r` is a success, with its value.
   */
  ghost predicate Carries<V, E, Id>(t: seq<Delivery<V, E, Id>>, r: Result<V, E>)
  {
    forall i :: 0 <= i < |t| ==>
      && (t[i].Full? ==> t[i].result == r)
      && (t[i].Val? ==> r.Success? && t[i].value == r.value)
  }

  lemma CarriesAppend<V, E, Id>(a: seq<Delivery<V, E, Id>>, b: seq<Delivery<V, E, Id>>, r: Result<V, E>)
    requires Carries(a, r) && Carries(b, r)
    ensures Carries(a + b, r)
  {
    forall i | 0 <= i < |a + b|
      ensures ((a + b)[i].Full? ==> (a + b)[i].result == r)
      ensures ((a + b)[i].Val? ==> r.Success? && (a + b)[i].value == r.value)
    {
      if i >= |a| {
        assert (a + b)[i] == b[i - |a|];
      }
    }
  }

  /** Reporting hands every observer the reported result, or its value. */
  lemma ReportTraceCarries<V, E, Id>(t: seq<Delivery<V, E, Id>>, f: Future<V, E, Id>, r: Result<V, E>)
    requires IsReportTrace(t, f, r)
    ensures Carries(t, r)
  {
    forall i | 0 <= i < |t|
      ensures (t[i].Full? ==> t[i].result == r)
      ensures (t[i].Val? ==> r.Success? && t[i].value == r.value)
    {
      if i >= |f.callbacks| {
        var j := i - |f.callbacks|;
        assert t[|f.callbacks| + j] == Val(f.valueCallbacks[j], r.value);
      }
    }
  }
}
