# react-facet core: `createFacet` and its equality checks, in Dafny

This project models the core of `@react-facet/core`: the facet, a push-based
container that holds zero or one value, and the two equality-check strategies
that have logic of their own, `strictEqualityCheck` and `defaultEqualityCheck`.

- `values.dfy` (module `Values`): the JavaScript values a facet can hold
  (`Num`, `Str`, `Bool`, `Null`, `Undefined`, and objects and functions known
  by reference), which makes `typeof` and `===` decidable. It also defines
  `Option`, which is `NoValue` (the `NO_VALUE` sentinel) or `Some(v)`.
- `sequences.dfy` (module `Sequences`): a regrouping fact about
  concatenation that the loops' invariants use.
- `equality_checks.dfy` (module `EqualityChecks`): one class per checker
  factory. Each has a `previous` field, initialised to `NoValue`, and a
  `Check` method. `StrictAnswers` and `DefaultAnswers` give the answers a
  checker returns over a run of calls, and lemmas state what those answers
  mean.
- `bookkeeping.dfy` (module `Bookkeeping`): the facet's collections as pure
  functions:
  - the insertion-ordered listener `Set` (`Added`, `Deleted`);
  - `findIndex` and `splice` on the array of pending cleanups;
  - the pending entries a notification pass leaves behind (`Collected`);
  - the events a flush and a notification pass produce.
- `facet.dfy` (module `CreateFacet`): class `Facet`. Its fields are the
  closure state of one `createFacet` call: `currentValue`, `listeners`,
  `listenerCleanups`, whether `cleanupSubscription` is held, and the checker,
  created once. Its methods are `update`, `updateToNoValue`, both forms of
  `set`, `get`, `observe` and the unsubscribe closure. Every call into
  foreign code is appended to `trace`: a listener call, a cleanup,
  `startSubscription`, and the subscription's cleanup. Listeners are `nat`
  ids. What a listener returns when called with a value is given by a
  `behaviour` function parameter.
- `scenarios.dfy` (module `FacetScenarios`): short client programs. They use
  only the contracts above and state, for all inputs, the behaviour the
  library's users rely on, including its quirks.

The `equalityCheck` option has four cases:
- `NoEqualityCheck`: the option is left out.
- `TheDefaultEqualityCheck`: the exported `defaultEqualityCheck`. `update`
  recognises it by identity and runs an inlined fast path instead of the
  checker. A checker instance is still created for it and never called.
- `StrictEqualityCheckFactory`: `strictEqualityCheck`.
- `WrappedDefaultEqualityCheck`: any other factory whose checkers behave like
  `defaultEqualityCheck`'s. It fails the identity test, so `update` calls the
  checker.

### Quirks of the code the model keeps

- The default fast path does not behave like a `defaultEqualityCheck`
  checker:
  - It compares with `currentValue`, not with the checker's own memory.
  - It drops only numbers, strings and booleans. `null` and `undefined`
    always propagate, although the checker would treat them as unchanged.
  - `WrappedDefaultFacetSetTwice` and `SetAfterClearing` show the two
    behaviours side by side.
- `cleanupSubscription` is never cleared after it runs. Calling an
  unsubscribe closure again on an empty facet therefore resets the value and
  runs that cleanup again (`UnsubscribeTwice`).
- `startSubscription` runs whenever the set holds exactly one listener after
  `add`. This includes observing the sole listener a second time
  (`ObserveSoleListenerTwice`). In the code this overwrites the held
  cleanup, which the model does not show (see "Left out").
- The reset to `initialValue` on the last unsubscribe happens only when a
  subscription cleanup is held (`NoResetWithoutSubscription`).
- The unsubscribe closure removes only the first pending entry of its
  listener. A listener observed twice can therefore keep a pending cleanup
  after it has left, and that cleanup runs at the next update
  (`ObserveTwiceLeavesCleanup`).
- The subscription is therefore not active exactly when listeners are
  present. `Facet.Valid` keeps the direction that holds: with a
  `startSubscription` and at least one listener, a subscription cleanup is
  held, and one is held only when `startSubscription` was supplied.

## Model

| member | source | states |
|---|---|---|
| `EqualityChecks.StrictEqualityCheck.constructor` | packages/@react-facet/core/src/equalityChecks.ts:8-9 | a fresh strict checker remembers `NO_VALUE` |
| `EqualityChecks.StrictEqualityCheck.Check` | packages/@react-facet/core/src/equalityChecks.ts:10-17 | answers true iff `current` is `===` the remembered value; afterwards it remembers `current` |
| `EqualityChecks.DefaultEqualityCheck.constructor` | packages/@react-facet/core/src/equalityChecks.ts:41-42 | a fresh default checker remembers `NO_VALUE` |
| `EqualityChecks.DefaultEqualityCheck.Check` | packages/@react-facet/core/src/equalityChecks.ts:44-65 | false, with memory untouched, for values other than number/string/boolean/null/undefined; otherwise true iff equal to the memory, and the memory becomes `current` |
| `EqualityChecks.StrictAnswers` | packages/@react-facet/core/src/equalityChecks.ts:10-17 | one answer per call of a run |
| `EqualityChecks.DefaultAnswers` | packages/@react-facet/core/src/equalityChecks.ts:44-65 | one answer per call of a run |
| `EqualityChecks.DefaultMemory` | packages/@react-facet/core/src/equalityChecks.ts:59-62 | after a run the default checker remembers either what it started with or one of the run's immutable inputs |
| `EqualityChecks.RunStrict` | packages/@react-facet/core/src/equalityChecks.ts:10-17 | calling a strict checker's `check` on each input in turn gives exactly `StrictAnswers` from its memory, and it ends remembering the last input |
| `EqualityChecks.RunDefault` | packages/@react-facet/core/src/equalityChecks.ts:44-65 | calling a default checker's `check` on each input in turn gives exactly `DefaultAnswers` from its memory, and it ends remembering `DefaultMemory` of the run |
| `EqualityChecks.StrictAnswersAt` | packages/@react-facet/core/src/equalityChecks.ts:11-16 | in a run, call i answers true iff its input equals input i-1 (call 0: iff it equals the initial memory) |
| `EqualityChecks.FreshStrictAnswers` | packages/@react-facet/core/src/equalityChecks.ts:9-16 | a fresh strict checker answers false first, and later true exactly on a repeated input |
| `EqualityChecks.DefaultAnswersAt` | packages/@react-facet/core/src/equalityChecks.ts:45-65 | call i answers true iff its input is immutable and equals the checker's memory after calls 0..i-1 |
| `EqualityChecks.DefaultNeverMatchesMutable` | packages/@react-facet/core/src/equalityChecks.ts:45-57 | an object or function is never reported unchanged, even the same reference |
| `EqualityChecks.DefaultAgreesWithStrict` | packages/@react-facet/core/src/equalityChecks.ts:59-65 | on runs of immutable values the default checker answers exactly as the strict one |
| `EqualityChecks.DefaultMemoryIsLastImmutable` | packages/@react-facet/core/src/equalityChecks.ts:47-62 | after a run, the default checker remembers the last immutable input |
| `EqualityChecks.DefaultMemoryUnchanged` | packages/@react-facet/core/src/equalityChecks.ts:47-57 | a run of non-immutable values leaves the memory unchanged |
| `Values.IsNumberStringOrBoolean` | packages/@react-facet/core/src/facet/createFacet.ts:34-36 | the `typeof` test of the fast path: true iff the value is not `null`, `undefined`, an object or a function |
| `Values.IsImmutable` | packages/@react-facet/core/src/equalityChecks.ts:45-54 | the values the default checker compares: true iff the value is not an object or a function, that is a number, string, boolean, `null` or `undefined` |
| `Bookkeeping.Added` | packages/@react-facet/core/src/facet/createFacet.ts:103 | `add` yields the old members plus `l`, keeps the existing order as a prefix, grows by at most one and keeps members distinct |
| `Bookkeeping.Deleted` | packages/@react-facet/core/src/facet/createFacet.ts:127 | `delete` yields exactly the other members, keeps them distinct, shrinks by one iff `l` was present, and is the identity when it was not |
| `Bookkeeping.DeletedAppend` | packages/@react-facet/core/src/facet/createFacet.ts:127 | deleting distributes over concatenation, so the remaining listeners keep their order |
| `Bookkeeping.DeleteUndoesAdd` | packages/@react-facet/core/src/facet/createFacet.ts:103 | deleting a listener just added for the first time restores the listeners exactly |
| `Bookkeeping.FindIndex` | packages/@react-facet/core/src/facet/createFacet.ts:121 | -1 iff no entry belongs to `l`; otherwise the index of the first entry of `l` |
| `Bookkeeping.Spliced` | packages/@react-facet/core/src/facet/createFacet.ts:124 | `splice(i, 1)`: one entry shorter; entries before `i` stay, entries after it shift down by one |
| `Bookkeeping.SpliceFirstEntry` | packages/@react-facet/core/src/facet/createFacet.ts:121-125 | removing at `findIndex` drops exactly the oldest entry of `l` and leaves every other listener's entries unchanged and in order |
| `Bookkeeping.SpliceOwnEntry` | packages/@react-facet/core/src/facet/createFacet.ts:121-124 | when no earlier entry belongs to `l`, the entry at `i` is the first of `l`'s entries and the splice removes exactly it |
| `Bookkeeping.SpliceOtherEntry` | packages/@react-facet/core/src/facet/createFacet.ts:124 | splicing out an entry of another listener leaves `other`'s entries unchanged |
| `Bookkeeping.Collected` | packages/@react-facet/core/src/facet/createFacet.ts:59-66 | a pass leaves at most one entry per listener called |
| `Bookkeeping.EntryFrom` | packages/@react-facet/core/src/facet/createFacet.ts:60-64 | a listener call adds at most one entry: none iff it returns no cleanup, otherwise an entry of that listener holding the cleanup it returned |
| `Bookkeeping.CollectedMembers` | packages/@react-facet/core/src/facet/createFacet.ts:59-66 | the entries left are exactly the cleanups returned: each belongs to a called listener and is what it returned, and each returned cleanup is there |
| `Bookkeeping.CollectedAppend` | packages/@react-facet/core/src/facet/createFacet.ts:59-66 | a pass over `a + b` leaves the entries of `a`, then those of `b` |
| `Bookkeeping.CollectedStep` | packages/@react-facet/core/src/facet/createFacet.ts:59-66 | one more listener of a pass adds its own entry and its own event after those of the listeners before it |
| `Bookkeeping.CollectedOncePerListener` | packages/@react-facet/core/src/facet/createFacet.ts:59-66 | over distinct listeners, each has exactly one entry if it returned a cleanup and none otherwise |
| `Bookkeeping.CollectedInOrder` | packages/@react-facet/core/src/facet/createFacet.ts:59-66 | entries are in notification order: an earlier listener's entry comes before a later one's |
| `CreateFacet.Facet.constructor` | packages/@react-facet/core/src/facet/createFacet.ts:22-28 | value = `initialValue`, no listeners, nothing pending, no subscription cleanup, empty trace; one fresh checker with memory `NO_VALUE` iff an equality check is given |
| `CreateFacet.Facet.Get` | packages/@react-facet/core/src/facet/createFacet.ts:100 | returns `currentValue` and changes nothing |
| `CreateFacet.FastPathDrops` | packages/@react-facet/core/src/facet/createFacet.ts:33-40 | the inlined fast path drops `v` iff `v` is a number, string or boolean and a default checker remembering `currentValue` would answer "unchanged" |
| `CreateFacet.FastPathLetsNullThrough` | packages/@react-facet/core/src/facet/createFacet.ts:33-40 | `null` or `undefined` equal to the current value passes the fast path, although a default checker remembering it reports it unchanged |
| `CreateFacet.Facet.Drops` | packages/@react-facet/core/src/facet/createFacet.ts:31-46 | `update` returns early only when an equality check is given, and for an object or function only under a strict checker |
| `CreateFacet.Facet.FlushCleanups` | packages/@react-facet/core/src/facet/createFacet.ts:50-57 | every pending cleanup runs once, in list order, then the list is empty |
| `CreateFacet.Facet.NotifyOne` | packages/@react-facet/core/src/facet/createFacet.ts:60-65 | one listener call is recorded, and the cleanup it returns, if any, is appended to the pending list |
| `CreateFacet.Facet.NotifyListeners` | packages/@react-facet/core/src/facet/createFacet.ts:59-66 | every listener is called with `v` in insertion order; the cleanups they return are appended in that order |
| `CreateFacet.Facet.Consult` | packages/@react-facet/core/src/facet/createFacet.ts:31-46 | the equality check drops `v` exactly as `Drops` says (never without a check; the fast path against `currentValue`; otherwise the checker's answer), and leaves the checker's memory as its `check` does |
| `CreateFacet.Facet.Propagate` | packages/@react-facet/core/src/facet/createFacet.ts:48-66 | `currentValue := v`, old cleanups run in order and are dropped, then every listener is called in order and only their new cleanups stay pending; listeners and subscription untouched |
| `CreateFacet.Facet.Update` | packages/@react-facet/core/src/facet/createFacet.ts:30-67 | a value the check drops changes nothing, trace and checker memory included; otherwise `currentValue := v`, old cleanups run in order, then listeners are called in order, leaving only their new cleanups pending |
| `CreateFacet.Facet.UpdateToNoValue` | packages/@react-facet/core/src/facet/createFacet.ts:73-84 | value becomes `NO_VALUE`, every pending cleanup runs once and the list empties, no listener is called, the checker is untouched |
| `CreateFacet.Facet.SetValue` | packages/@react-facet/core/src/facet/createFacet.ts:95-97 | `set(value)` has exactly the effect of `update(value)` |
| `CreateFacet.Facet.SetWithUpdater` | packages/@react-facet/core/src/facet/createFacet.ts:88-94 | the updater sees `currentValue`; a `NO_VALUE` result clears without notifying, any other result is an `update` |
| `CreateFacet.Facet.Observe` | packages/@react-facet/core/src/facet/createFacet.ts:102-117 | `l` joins the set; it is called at once, with its cleanup kept, iff a value is present; `startSubscription` runs iff supplied and the set then has size 1 |
| `CreateFacet.Facet.CallNewListener` | packages/@react-facet/core/src/facet/createFacet.ts:105-112 | with a value present the new listener is called with it and its cleanup kept; with `NO_VALUE` nothing happens |
| `CreateFacet.Facet.StartIfSole` | packages/@react-facet/core/src/facet/createFacet.ts:115-117 | `startSubscription` runs, and its cleanup is held, iff it was supplied and the set has exactly one listener |
| `CreateFacet.Facet.Unsubscribe` | packages/@react-facet/core/src/facet/createFacet.ts:119-134 | only the first pending entry of `l` runs and is removed; `l` leaves the set; if it is then empty and a subscription cleanup is held, value := `initialValue` and that cleanup runs, which is kept; otherwise the value is untouched |
| `FacetScenarios.StrictCheckerRepeat` | packages/@react-facet/core/src/equalityChecks.ts:10-17 | a fresh strict checker answers false, then true, for the same value |
| `FacetScenarios.DefaultCheckerFirstCall` | packages/@react-facet/core/src/equalityChecks.ts:42-62 | a fresh default checker answers false to its first call, whatever the value |
| `FacetScenarios.DefaultCheckerRepeatsReference` | packages/@react-facet/core/src/equalityChecks.ts:45-57 | the same object or function twice is never unchanged for the default checker |
| `FacetScenarios.FreshStrictRun` | packages/@react-facet/core/src/equalityChecks.ts:9-16 | over any run, a fresh strict checker answers false first, and afterwards true exactly when the input repeats the one before |
| `FacetScenarios.FreshDefaultRun` | packages/@react-facet/core/src/equalityChecks.ts:42-65 | over any run, a fresh default checker answers true exactly to an immutable input equal to its memory of the earlier calls, and ends remembering the last immutable input, or `NO_VALUE` if there was none |
| `FacetScenarios.StrictFacetSetTwice` | packages/@react-facet/core/src/facet/createFacet.ts:41-44 | with `strictEqualityCheck`, setting a value twice notifies once |
| `FacetScenarios.UncheckedFacetSetTwice` | packages/@react-facet/core/src/facet/createFacet.ts:30-66 | with no equality check, every set notifies, and the first call's cleanup runs before the second call |
| `FacetScenarios.DefaultFacetSetTwice` | packages/@react-facet/core/src/facet/createFacet.ts:33-40 | fast path: number/string/boolean set twice notifies once; null, undefined, objects and functions notify twice, with the first cleanup run between, for any listener behaviour |
| `FacetScenarios.WrappedDefaultFacetSetTwice` | packages/@react-facet/core/src/facet/createFacet.ts:41-44 | through a checker, every immutable value (null and undefined too) set twice notifies once; objects and functions notify twice, with the first cleanup run between |
| `FacetScenarios.SetAfterClearing` | packages/@react-facet/core/src/facet/createFacet.ts:33-44 | clearing to `NO_VALUE` runs the pending cleanup; afterwards the same number notifies again under the fast path but not through a default checker |
| `FacetScenarios.ClearRunsCleanup` | packages/@react-facet/core/src/facet/createFacet.ts:73-91 | an updater yielding `NO_VALUE` runs the pending cleanup once, notifies nobody, and `get` then gives `NO_VALUE` |
| `FacetScenarios.UpdaterSeesCurrentValue` | packages/@react-facet/core/src/facet/createFacet.ts:88-94 | the updater receives the current value and its result is propagated, after the pending cleanup runs |
| `FacetScenarios.LateSubscriber` | packages/@react-facet/core/src/facet/createFacet.ts:105-112 | a listener observing after a set is called with the current value at once |
| `FacetScenarios.SubscriptionOutlivesFirstListener` | packages/@react-facet/core/src/facet/createFacet.ts:127-130 | the subscription started by the first listener is not stopped while another listener remains |
| `FacetScenarios.LazySubscription` | packages/@react-facet/core/src/facet/createFacet.ts:115-133 | the subscription starts on the first listener, stops when it leaves as the last, and restarts when a listener arrives again |
| `FacetScenarios.ResetOnLastUnsubscribe` | packages/@react-facet/core/src/facet/createFacet.ts:130-133 | created with 5, pushed 10 by the upstream, last listener gone: `get` gives 5 |
| `FacetScenarios.NoResetWithoutSubscription` | packages/@react-facet/core/src/facet/createFacet.ts:130 | without a subscription cleanup, the last listener leaving keeps 10 |
| `FacetScenarios.ObserveSoleListenerTwice` | packages/@react-facet/core/src/facet/createFacet.ts:115-117 | observing the sole listener again starts the subscription a second time |
| `FacetScenarios.UnsubscribeTwice` | packages/@react-facet/core/src/facet/createFacet.ts:130-133 | the subscription cleanup is kept, so a second unsubscribe runs it again |
| `FacetScenarios.ObserveTwiceLeavesCleanup` | packages/@react-facet/core/src/facet/createFacet.ts:119-125 | a listener observed twice keeps one pending cleanup after unsubscribing, and it runs at the next update |

## Left out

- The composite checkers (`shallowObjectEqualityCheck`,
  `shallowObjectArrayEqualityCheck`, `shallowArrayEqualityCheck`) are not
  modelled. They are built by `createUniformObjectEqualityCheck` and
  `createUniformArrayEqualityCheck`, and packages/@react-facet/core/src/createEqualityChecks.ts
  is not part of this model. Equality checks written by users are not
  modelled either. The effect of a checker answering true is shown for the
  two checkers the project defines.
- Re-entrancy is not modelled: a listener, cleanup or upstream that calls
  `set`, `observe` or an unsubscribe closure on the same facet while a
  flush or a notification pass is running. The code neither documents nor
  guards against such calls.
- Exceptions thrown by listeners, cleanups, checkers or `startSubscription`
  are not modelled.
- Callback bodies are foreign code.
  - A listener is an id, and what it returns is the `behaviour` parameter of
    each call.
  - A cleanup is an id.
  - `startSubscription` is a flag on the facet. The cleanup it returns is the
    flag `hasSubscriptionCleanup`.
  - The `update` function handed to `startSubscription` is the `Update`
    method, which the upstream may call later. `startSubscription` itself
    does not push a value while it runs.
  - Calls to the updater of `set(updater)` are not recorded in `trace`.
- `isSetterCallback` is not modelled: its `typeof` dispatch becomes the two
  methods `SetValue` and `SetWithUpdater`. A value that is itself a function
  is therefore never taken for an updater.
- `observe` does not return a closure. The closure's behaviour depends only
  on its listener, so it is the method `Unsubscribe(l)`, which may be called
  for any id.
- Numbers are integers: `NaN`, `-0` and floating point are not modelled.
- `JsValue` has no `symbol` and no `bigint`. A `bigint` is `===` by value,
  which an `Obj` reference cannot express, and the default checker treats
  both kinds as values it does not compare.
- Two subscriptions are not told apart. `hasSubscriptionCleanup` is a flag,
  and `SubscriptionStarted`/`SubscriptionStopped` carry no id. When
  `startSubscription` runs again while a cleanup is held, the code drops
  the earlier cleanup, which then never runs. The model shows only a
  second start and, later, one stop.
- The `../types` module (`Option`, `NO_VALUE`, the callback types) is not
  part of this model beyond the `Option` datatype. React bindings and
  rendering integration are not part of this model.
