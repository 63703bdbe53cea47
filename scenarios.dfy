/** What callers of a facet and of its checkers can rely on, shown as short
    client programs that use nothing but the contracts of `CreateFacet` and
    `EqualityChecks`. Each works for every value and every listener
    behaviour its requires admit. */
module FacetScenarios {
  import opened Values
  import opened EqualityChecks
  import opened Bookkeeping
  import opened CreateFacet

  /** A fresh strict checker answers false, then true for the same value. */
  method StrictCheckerRepeat(x: JsValue) returns (first: bool, second: bool)
    ensures !first && second
  {
    var checker := new StrictEqualityCheck();
    first := checker.Check(x);
    second := checker.Check(x);
  }

  /** A fresh default checker answers false to its first call, whatever the value. */
  method DefaultCheckerFirstCall(x: JsValue) returns (same: bool)
    ensures !same
  {
    var checker := new DefaultEqualityCheck();
    same := checker.Check(x);
  }

  /** A default checker never answers true for an object or a function, not
      even for the same reference twice. */
  method DefaultCheckerRepeatsReference(x: JsValue) returns (first: bool, second: bool)
    requires x.Obj? || x.Fn?
    ensures !first && !second
  {
    var checker := new DefaultEqualityCheck();
    first := checker.Check(x);
    second := checker.Check(x);
  }

  /** Over any run of calls, a fresh strict checker answers false first and
      afterwards "unchanged" exactly when the input repeats the one before. */
  method FreshStrictRun(inputs: seq<JsValue>) returns (answers: seq<bool>)
    ensures |answers| == |inputs|
    ensures |inputs| > 0 ==> !answers[0]
    ensures forall i :: 0 < i < |inputs| ==> (answers[i] <==> inputs[i - 1] == inputs[i])
  {
    var checker := new StrictEqualityCheck();
    answers := RunStrict(checker, inputs);
    FreshStrictAnswers(inputs);
  }

  /** Over any run of calls, a fresh default checker answers "unchanged"
      exactly to an immutable input equal to the last immutable input before
      it, and afterwards remembers the last immutable input of the run
      (`inputs[k]`, when that is the one), or `NO_VALUE` if there is none. */
  method FreshDefaultRun(inputs: seq<JsValue>, k: nat) returns (answers: seq<bool>, memory: Option<JsValue>)
    ensures |answers| == |inputs|
    ensures forall i :: 0 <= i < |inputs| ==>
      (answers[i] <==> IsImmutable(inputs[i]) && DefaultMemory(NoValue, inputs[..i]) == Some(inputs[i]))
    ensures k < |inputs| && IsImmutable(inputs[k]) && (forall j :: k < j < |inputs| ==> !IsImmutable(inputs[j]))
        ==> memory == Some(inputs[k])
    ensures (forall j :: 0 <= j < |inputs| ==> !IsImmutable(inputs[j])) ==> memory == NoValue
  {
    var checker := new DefaultEqualityCheck();
    answers := RunDefault(checker, inputs);
    memory := checker.previous;
    forall i | 0 <= i < |inputs|
      ensures answers[i] <==> IsImmutable(inputs[i]) && DefaultMemory(NoValue, inputs[..i]) == Some(inputs[i])
    {
      DefaultAnswersAt(NoValue, inputs, i);
    }
    if k < |inputs| && IsImmutable(inputs[k]) && (forall j :: k < j < |inputs| ==> !IsImmutable(inputs[j])) {
      DefaultMemoryIsLastImmutable(NoValue, inputs, k);
    }
    if forall j :: 0 <= j < |inputs| ==> !IsImmutable(inputs[j]) {
      DefaultMemoryUnchanged(NoValue, inputs);
    }
  }

  /** With `strictEqualityCheck`, setting the same value twice notifies once. */
  method StrictFacetSetTwice(x: JsValue, l: nat, behaviour: ListenerBehaviour) returns (events: seq<Event>)
    ensures events == [Notified(l, x)]
  {
    var f := new Facet(NoValue, false, StrictEqualityCheckFactory);
    f.Observe(l, behaviour);
    f.SetValue(x, behaviour);
    f.SetValue(x, behaviour);
    events := f.trace;
  }

  /** Without an equality check every set notifies, an identical value
      included, and the cleanup of the first call runs before the second. */
  method UncheckedFacetSetTwice(x: JsValue, l: nat, behaviour: ListenerBehaviour) returns (events: seq<Event>)
    ensures events == [Notified(l, x)] + Flushed(EntryFrom(l, x, behaviour)) + [Notified(l, x)]
  {
    var f := new Facet(NoValue, false, NoEqualityCheck);
    f.Observe(l, behaviour);
    f.SetValue(x, behaviour);
    f.SetValue(x, behaviour);
    events := f.trace;
  }

  /** Under the default fast path a number, string or boolean set twice
      notifies once, while an object or a function, `null` or `undefined`
      set twice notifies twice, with the first call's cleanup run between. */
  method DefaultFacetSetTwice(x: JsValue, l: nat, behaviour: ListenerBehaviour) returns (events: seq<Event>)
    ensures IsNumberStringOrBoolean(x) ==> events == [Notified(l, x)]
    ensures !IsNumberStringOrBoolean(x) ==> events == [Notified(l, x)] + Flushed(EntryFrom(l, x, behaviour)) + [Notified(l, x)]
  {
    var f := new Facet(NoValue, false, TheDefaultEqualityCheck);
    f.Observe(l, behaviour);
    f.SetValue(x, behaviour);
    f.SetValue(x, behaviour);
    events := f.trace;
  }

  /** A default checker reached through another factory is not the fast
      path: it drops `null` set twice, which the fast path lets through. */
  method WrappedDefaultFacetSetTwice(x: JsValue, l: nat, behaviour: ListenerBehaviour) returns (events: seq<Event>)
    ensures IsImmutable(x) ==> events == [Notified(l, x)]
    ensures !IsImmutable(x) ==> events == [Notified(l, x)] + Flushed(EntryFrom(l, x, behaviour)) + [Notified(l, x)]
  {
    var f := new Facet(NoValue, false, WrappedDefaultEqualityCheck);
    f.Observe(l, behaviour);
    f.SetValue(x, behaviour);
    f.SetValue(x, behaviour);
    events := f.trace;
  }

  /** The fast path compares with the current value, a checker with its own
      memory: after the facet is cleared, which runs the pending cleanup,
      the same number propagates again under the fast path but not through
      a default checker. */
  method SetAfterClearing(wrapped: bool, n: int, l: nat, behaviour: ListenerBehaviour) returns (events: seq<Event>)
    ensures wrapped ==> events == [Notified(l, Num(n))] + Flushed(EntryFrom(l, Num(n), behaviour))
    ensures !wrapped ==> events == [Notified(l, Num(n))] + Flushed(EntryFrom(l, Num(n), behaviour)) + [Notified(l, Num(n))]
  {
    var f := new Facet(NoValue, false, if wrapped then WrappedDefaultEqualityCheck else TheDefaultEqualityCheck);
    f.Observe(l, behaviour);
    f.SetValue(Num(n), behaviour);
    f.SetWithUpdater(_ => NoValue, behaviour);
    f.SetValue(Num(n), behaviour);
    events := f.trace;
  }

  /** An updater that yields `NO_VALUE` runs the pending cleanup once and
      calls no listener; the facet then holds no value. */
  method ClearRunsCleanup(x: JsValue, l: nat, c: nat, behaviour: ListenerBehaviour)
    returns (events: seq<Event>, value: Option<JsValue>)
    requires behaviour(l, x) == ReturnsCleanup(c)
    ensures events == [Notified(l, x), CleanupRan(l, c)]
    ensures value == NoValue
  {
    var f := new Facet(NoValue, false, NoEqualityCheck);
    f.Observe(l, behaviour);
    f.SetValue(x, behaviour);
    f.SetWithUpdater(_ => NoValue, behaviour);
    events := f.trace;
    value := f.Get();
  }

  /** An updater is called with the current value and its result is set. */
  method UpdaterSeesCurrentValue(n: int, l: nat, behaviour: ListenerBehaviour)
    returns (events: seq<Event>, value: Option<JsValue>)
    ensures events == [Notified(l, Num(n))] + Flushed(EntryFrom(l, Num(n), behaviour)) + [Notified(l, Num(n + 1))]
    ensures value == Some(Num(n + 1))
  {
    var f := new Facet(Some(Num(n)), false, TheDefaultEqualityCheck);
    f.Observe(l, behaviour);
    assert f.currentValue == Some(Num(n)) && f.trace == [Notified(l, Num(n))] && f.listeners == [l];
    f.SetWithUpdater((prev: Option<JsValue>) => if prev.Some? && prev.value.Num? then Some(Num(prev.value.n + 1)) else NoValue, behaviour);
    events := f.trace;
    value := f.Get();
  }

  /** A listener that arrives after a value was set is called with it at
      once. */
  method LateSubscriber(x: JsValue, l1: nat, l2: nat, behaviour: ListenerBehaviour) returns (events: seq<Event>)
    requires l1 != l2
    ensures events == [Notified(l1, x), Notified(l2, x)]
  {
    var f := new Facet(NoValue, false, NoEqualityCheck);
    f.Observe(l1, behaviour);
    f.SetValue(x, behaviour);
    f.Observe(l2, behaviour);
    events := f.trace;
  }

  /** The upstream subscription starts when the first listener arrives and
      stays while any listener remains. */
  method SubscriptionOutlivesFirstListener(l1: nat, l2: nat, behaviour: ListenerBehaviour) returns (events: seq<Event>)
    requires l1 != l2
    ensures events == [SubscriptionStarted]
  {
    var f := new Facet(NoValue, true, NoEqualityCheck);
    f.Observe(l1, behaviour);
    f.Observe(l2, behaviour);
    f.Unsubscribe(l1);
    events := f.trace;
  }

  /** The subscription stops when the last listener leaves and starts again
      on the next arrival. */
  method LazySubscription(l: nat, behaviour: ListenerBehaviour) returns (events: seq<Event>)
    ensures events == [SubscriptionStarted, SubscriptionStopped, SubscriptionStarted]
  {
    var f := new Facet(NoValue, true, NoEqualityCheck);
    f.Observe(l, behaviour);
    assert f.listeners == [l] && f.listenerCleanups == [] && f.trace == [SubscriptionStarted];
    f.Unsubscribe(l);
    assert f.listeners == [] && f.currentValue == NoValue && f.trace == [SubscriptionStarted, SubscriptionStopped];
    f.Observe(l, behaviour);
    events := f.trace;
  }

  /** A facet created with 5 and pushed 10 by its upstream reads 5 again
      once its last listener has left. */
  method ResetOnLastUnsubscribe(l: nat, behaviour: ListenerBehaviour) returns (value: Option<JsValue>)
    ensures value == Some(Num(5))
  {
    var f := new Facet(Some(Num(5)), true, TheDefaultEqualityCheck);
    f.Observe(l, behaviour);
    f.Update(Num(10), behaviour);
    f.Unsubscribe(l);
    value := f.Get();
  }

  /** Without a subscription cleanup there is no reset: the last value stays. */
  method NoResetWithoutSubscription(l: nat, behaviour: ListenerBehaviour) returns (value: Option<JsValue>)
    ensures value == Some(Num(10))
  {
    var f := new Facet(Some(Num(5)), false, TheDefaultEqualityCheck);
    f.Observe(l, behaviour);
    f.SetValue(Num(10), behaviour);
    f.Unsubscribe(l);
    value := f.Get();
  }

  /** Observing with the sole listener again starts the subscription a
      second time. */
  method ObserveSoleListenerTwice(l: nat, behaviour: ListenerBehaviour) returns (events: seq<Event>)
    ensures events == [SubscriptionStarted, SubscriptionStarted]
  {
    var f := new Facet(NoValue, true, NoEqualityCheck);
    f.Observe(l, behaviour);
    f.Observe(l, behaviour);
    events := f.trace;
  }

  /** The subscription cleanup is kept after it runs, so calling the
      unsubscribe closure twice runs it twice. */
  method UnsubscribeTwice(l: nat, behaviour: ListenerBehaviour) returns (events: seq<Event>)
    ensures events == [SubscriptionStarted, SubscriptionStopped, SubscriptionStopped]
  {
    var f := new Facet(NoValue, true, NoEqualityCheck);
    f.Observe(l, behaviour);
    f.Unsubscribe(l);
    f.Unsubscribe(l);
    events := f.trace;
  }

  /** A listener observed twice has two pending cleanups; unsubscribing
      runs only the first, and the second runs at the next update, after the
      listener has left. */
  method ObserveTwiceLeavesCleanup(x: JsValue, y: JsValue, l: nat, c: nat, behaviour: ListenerBehaviour)
    returns (events: seq<Event>)
    requires behaviour(l, x) == ReturnsCleanup(c)
    ensures events == [Notified(l, x), Notified(l, x), CleanupRan(l, c), CleanupRan(l, c)]
  {
    var f := new Facet(Some(x), false, NoEqualityCheck);
    f.Observe(l, behaviour);
    f.Observe(l, behaviour);
    f.Unsubscribe(l);
    f.SetValue(y, behaviour);
    events := f.trace;
  }
}
