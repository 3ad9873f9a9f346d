# TMROFutures in Dafny

A model of `TMROFuture` and `TMROPromise`, a single-cell future/promise pair.
The future holds an optional `Result<Value, Error>` and two observer lists:
full observers, which receive the result, and value observers, which receive
the success value only. Assigning the result reports it through `didSet` to
every registered observer. The promise is the write side: two initialisers,
`resolve` and `reject`.

The model is functional. A cell is an immutable `Futures.Future` record. Each
callback is an opaque observer id. Every operation returns a `Futures.Step`:
the new cell plus the sequence of deliveries it caused, in call order. A
delivery is `Full(id, result)` or `Val(id, value)`. The error type is a type
parameter `E`.

Modules:
- `Outcomes`: `Option` and `Result`, standing for Swift's `Optional` and `Result`.
- `Futures`: the cell, `report`, the `result` assignment with its `didSet`, `observe` and `observeValue`.
- `Promises`: `init(value:)`, `init(error:)`, `resolve(with:)` and `reject(with:)`.
- `Traces`: `FullRecipients` and `ValueRecipients` project a trace onto the ids it called, in order.
- `Sessions`: runs a sequence of public calls on one promise and proves what observers receive over the whole run.
- `Scenarios`: four concrete runs that show the intended use.

Two behaviours of the code shape what the model can promise:
- `observe` and `observeValue` append the callback to their list even when a
  result is already stored.
- The source does not guard reassignment of the result. Each `resolve` or
  `reject` re-stores the result and reports it again to every registered
  observer, including late registrants that were already called once.
  Exactly-once delivery is proved for runs that resolve or reject once
  (`Sessions.SingleResolutionDeliversOnce`); `Sessions.ResolutionReachesAll`
  covers the rest, and `Sessions.LateObserverCalledTwice` shows a late
  observer called twice.

## Model

| member | source | states |
|---|---|---|
| Futures.ReportFull | TMROFutures/TMROFuture.swift:55-57 | the first loop of `report` calls each full observer exactly once, at its own position, in list order, with the result |
| Futures.ReportValue | TMROFutures/TMROFuture.swift:59-66 | the second loop calls nothing on a failure; on a success it calls each value observer exactly once, in list order, with the unwrapped value |
| Futures.Report | TMROFutures/TMROFuture.swift:54-67 | `report` meets the reference trace `IsReportTrace`: all full observers in order with the result, then, only on a success, all value observers in order with the value |
| Futures.ReportTraceUnique | TMROFutures/TMROFuture.swift:54-67 | the reference trace of `report` fixes the delivery sequence completely: two traces that meet it are equal |
| Futures.SetResult | TMROFutures/TMROFuture.swift:16-22 | assigning `result` stores the new value and leaves both lists alone; a nil assignment delivers nothing; a non-nil one produces the full `report` trace, whether or not a result was stored before |
| Futures.Observe | TMROFutures/TMROFuture.swift:28-35 | `observe` appends the id as the last full observer and changes nothing else; on a pending cell it delivers nothing; on a resolved cell it delivers the stored result to this id exactly once, at once |
| Futures.ObserveValue | TMROFutures/TMROFuture.swift:39-51 | `observeValue` appends the id as the last value observer and changes nothing else; it delivers nothing when pending or when the stored result is a failure, and delivers the value exactly once when it is a success |
| Promises.Init | TMROFutures/TMROFuture.swift:74-82 | `init(value: nil)` gives a pending cell; `init(value: v)` gives a cell holding `success(v)`; both have empty observer lists and deliver nothing |
| Promises.InitError | TMROFutures/TMROFuture.swift:84-87 | `init(error: e)` gives a cell holding `failure(e)` with empty observer lists and delivers nothing |
| Promises.Resolve | TMROFutures/TMROFuture.swift:89-91 | `resolve(v)` stores `success(v)`, leaves both lists unchanged, and delivers `success(v)` to each full observer in order, then `v` to each value observer in order |
| Promises.Reject | TMROFutures/TMROFuture.swift:93-95 | `reject(e)` stores `failure(e)`, leaves both lists unchanged, delivers it to each full observer in order, and calls no value observer |
| Traces.ReportFullRecipients | TMROFutures/TMROFuture.swift:55-57 | the ids reached by the first loop of `report` are exactly the full observer list, in order, and no value observer is reached |
| Traces.ReportValueRecipients | TMROFutures/TMROFuture.swift:59-66 | the ids reached by the second loop are the value observer list on a success and nobody on a failure, and no full observer is reached |
| Traces.ReportRecipients | TMROFutures/TMROFuture.swift:54-67 | `report` reaches each full observer once per registration in order, and each value observer likewise only on a success |
| Traces.ReportTraceRecipients | TMROFutures/TMROFuture.swift:16-22 | every trace meeting the reference definition of reporting reaches exactly the registered observers, in order |
| Sessions.ListsOnlyGrow | TMROFutures/TMROFuture.swift:24-25 | over any sequence of calls each list ends as its old contents followed by the ids registered with it, in order: nothing is removed or reordered, and `resolve`/`reject` add nothing |
| Sessions.PendingDeliversNothing | TMROFutures/TMROFuture.swift:28-51 | on a pending cell, registrations alone call no observer and the cell stays pending |
| Sessions.LateRegistration | TMROFutures/TMROFuture.swift:28-51 | on a resolved cell, over calls that do not resolve again, each later registration is called exactly once, in registration order, with the stored result; value observers only if the result is a success, with its value; the result is unchanged (that each call happens during its own registration is stated by `Futures.Observe` and `Futures.ObserveValue`) |
| Sessions.SingleResolutionDeliversOnce | TMROFutures/TMROFuture.swift:16-67 | from a pending cell, over calls that resolve or reject exactly once, every full observer, registered before or after the resolution, is called exactly once per registration, in registration order, with the result that was set; value observers the same on a success, with its value, and never on a failure |
| Sessions.ResolutionReachesAll | TMROFutures/TMROFuture.swift:89-95 | `resolve` and `reject` store their result and reach every registered full observer, in order, whether or not a result was already stored; so on a resolved cell the late registrants are called again; value observers are reached only by `resolve` |
| Sessions.LateObserverCalledTwice | TMROFutures/TMROFuture.swift:16-22 | resolve, then a late `observe`, then resolve again: the late observer is called twice, first with the old value and then with the new one |
| Scenarios.PreResolvedValueObserver | TMROFutures/TMROFuture.swift:74-82 | a promise created with 42 calls a later value observer exactly once with 42 |
| Scenarios.ObserversCalledInOrder | TMROFutures/TMROFuture.swift:89-91 | two observers registered on a pending promise are called in registration order, both with `success(7)` |
| Scenarios.RejectSkipsValueObserver | TMROFutures/TMROFuture.swift:93-95 | a value observer on a pending promise is never called when it is rejected |
| Scenarios.PreRejectedObserver | TMROFutures/TMROFuture.swift:84-87 | an observer registered on a promise created with an error is called at once with that failure |

## Left out

- What a callback does: callbacks are opaque ids, and only who is called, with what and in which order is modelled.
- Re-entrant callbacks: a callback that calls `observe`, `resolve` or `reject` while `report` is running is not modelled. Every run in `Sessions` assumes callbacks return without touching the cell.
- Thread safety: the source has no synchronisation, and the model is sequential.
- Swift class semantics: the subclassing of `TMROPromise` from `TMROFuture`, `fileprivate`/`private` access and ARC lifetime. The promise operations act on the same cell record.
- The `Foundation` import and the existential `Error` type: the error is a type parameter.
- Assigning `nil`: `SetResult` models the `nil` branch of `didSet`, but no operation of the source assigns `nil`, so no run reaches it.
