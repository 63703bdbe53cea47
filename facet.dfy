/** `createFacet`: a writable single-value container. The closure state of
    one `createFacet` call becomes the fields of one `Facet` object; its
    `set`, `get` and `observe`, and the unsubscribe closure `observe`
    returns, become methods. Every call into foreign code (a listener, a
    cleanup, `startSubscription`, the subscription's cleanup) is appended
    to `trace`. */
module CreateFacet {
  import opened Values
  import opened EqualityChecks
  import opened Bookkeeping
  import opened Sequences

  /** The `equalityCheck` option the facet is created with. */
  datatype EqualityCheckOption =
      /** the option is left out: every value propagates */
    | NoEqualityCheck
      /** the exported `defaultEqualityCheck` itself, which `update`
          recognises by identity and replaces by an inlined fast path */
    | TheDefaultEqualityCheck
      /** `strictEqualityCheck` */
    | StrictEqualityCheckFactory
      /** any other factory whose checkers behave as `defaultEqualityCheck`'s
          do, for instance `() => defaultEqualityCheck()`: it fails the
          identity test, so `update` calls its checker */
    | WrappedDefaultEqualityCheck

  /** The inlined fast path of `update` for `defaultEqualityCheck`: a number,
      string or boolean `===` to the current value is dropped. */
  predicate FastPathDrops(currentValue: Option<JsValue>, v: JsValue): (r: bool)
    ensures r <==> IsNumberStringOrBoolean(v) && DefaultAnswers(currentValue, [v])[0]
  {
    assert [v][1..] == [];
    IsNumberStringOrBoolean(v) && currentValue == Some(v)
  }

  /** Where the fast path and a default checker remembering the same value
      part ways: `null` and `undefined` always pass the fast path, while the
      checker reports them unchanged. */
  lemma FastPathLetsNullThrough(v: JsValue)
    requires v == Null || v == Undefined
    ensures !FastPathDrops(Some(v), v)
    ensures DefaultAnswers(Some(v), [v])[0]
  {
    assert [v][1..] == [];
  }

  class Facet {
    const initialValue: Option<JsValue>
    /** whether a `startSubscription` callback was supplied */
    const hasStartSubscription: bool
    const equalityCheck: EqualityCheckOption
    /** `checker`, created once by the constructor when the option asks for it */
    const strictChecker: StrictEqualityCheck?
    const defaultChecker: DefaultEqualityCheck?
    ghost const Checkers: set<object>

    var currentValue: Option<JsValue>
    /** the `listeners` Set, in insertion order */
    var listeners: seq<nat>
    var listenerCleanups: seq<CleanupEntry>
    /** whether `cleanupSubscription` holds a cleanup */
    var hasSubscriptionCleanup: bool
    var trace: seq<Event>

    ghost predicate Valid()
      reads this
    {
      && (strictChecker != null <==> equalityCheck == StrictEqualityCheckFactory)
      && (defaultChecker != null <==>
            equalityCheck == TheDefaultEqualityCheck || equalityCheck == WrappedDefaultEqualityCheck)
      && Checkers == (if strictChecker != null then {strictChecker}
                      else if defaultChecker != null then {defaultChecker}
                      else {})
      && NoDuplicates(listeners)
      && (hasSubscriptionCleanup ==> hasStartSubscription)
      && (hasStartSubscription && listeners != [] ==> hasSubscriptionCleanup)
    }

    /** Whether `update(v)` returns early in the present state. */
    ghost predicate Drops(v: JsValue): (r: bool)
      reads this, Checkers
      ensures r ==> equalityCheck != NoEqualityCheck
      ensures r ==> IsImmutable(v) || equalityCheck == StrictEqualityCheckFactory
    {
      match equalityCheck
      case NoEqualityCheck => false
      case TheDefaultEqualityCheck => FastPathDrops(currentValue, v)
      case StrictEqualityCheckFactory =>
        strictChecker != null && strictChecker in Checkers && strictChecker.previous == Some(v)
      case WrappedDefaultEqualityCheck =>
        defaultChecker != null && defaultChecker in Checkers
        && IsImmutable(v) && defaultChecker.previous == Some(v)
    }

    /** What the checker's memory is once `update(v)` has consulted it. */
    twostate predicate CheckerConsulted(v: JsValue)
      reads this, Checkers
      requires old(Valid()) && Valid()
    {
      && (strictChecker != null ==> strictChecker.previous == Some(v))
      && (defaultChecker != null ==>
            defaultChecker.previous
              == if equalityCheck == WrappedDefaultEqualityCheck && IsImmutable(v) then Some(v)
                 else old(defaultChecker.previous))
    }

    /** The effect of `update(v)`: a dropped value changes nothing at all;
        an accepted one is stored, every pending cleanup runs once in list
        order, the pending list is emptied, every listener is called with it
        in insertion order, and the cleanups those calls return, in that
        order, are all that is then pending. */
    twostate predicate Updated(v: JsValue, behaviour: ListenerBehaviour)
      reads this, Checkers
      requires old(Valid()) && Valid()
    {
      && listeners == old(listeners)
      && hasSubscriptionCleanup == old(hasSubscriptionCleanup)
      && CheckerConsulted(v)
      && if old(Drops(v)) then
           && currentValue == old(currentValue)
           && listenerCleanups == old(listenerCleanups)
           && trace == old(trace)
         else
           && currentValue == Some(v)
           && listenerCleanups == Collected(listeners, v, behaviour)
           && trace == old(trace) + Flushed(old(listenerCleanups)) + Notifications(listeners, v)
    }

    /** The effect of `updateToNoValue()`: the value becomes `NO_VALUE` and
        every pending cleanup runs once, in order; no listener is called. */
    twostate predicate ClearedToNoValue()
      reads this, Checkers
      requires old(Valid()) && Valid()
    {
      && currentValue == NoValue
      && listenerCleanups == []
      && trace == old(trace) + Flushed(old(listenerCleanups))
      && listeners == old(listeners)
      && hasSubscriptionCleanup == old(hasSubscriptionCleanup)
      && (strictChecker != null ==> strictChecker.previous == old(strictChecker.previous))
      && (defaultChecker != null ==> defaultChecker.previous == old(defaultChecker.previous))
    }

    /** `createFacet({ initialValue, startSubscription, equalityCheck })`. */
    constructor (initialValue: Option<JsValue>, hasStartSubscription: bool, equalityCheck: EqualityCheckOption)
      ensures Valid() && fresh(Checkers)
      ensures this.initialValue == initialValue && this.hasStartSubscription == hasStartSubscription
      ensures this.equalityCheck == equalityCheck
      ensures currentValue == initialValue && listeners == [] && listenerCleanups == []
      ensures !hasSubscriptionCleanup && trace == []
      ensures |Checkers| == if equalityCheck == NoEqualityCheck then 0 else 1
      ensures strictChecker != null ==> strictChecker.previous == NoValue
      ensures defaultChecker != null ==> defaultChecker.previous == NoValue
    {
      this.initialValue := initialValue;
      this.hasStartSubscription := hasStartSubscription;
      this.equalityCheck := equalityCheck;
      currentValue := initialValue;
      listeners := [];
      listenerCleanups := [];
      hasSubscriptionCleanup := false;
      trace := [];
      if equalityCheck == NoEqualityCheck {
        strictChecker, defaultChecker, Checkers := null, null, {};
      } else if equalityCheck == StrictEqualityCheckFactory {
        var checker := new StrictEqualityCheck();
        strictChecker, defaultChecker, Checkers := checker, null, {checker};
      } else {
        var checker := new DefaultEqualityCheck();
        strictChecker, defaultChecker, Checkers := null, checker, {checker};
      }
    }

    /** `get()`: the current value; nothing changes. */
    method Get() returns (value: Option<JsValue>)
      ensures value == currentValue
    {
      value := currentValue;
    }

    /** Runs every pending cleanup once, in list order, and empties the list. */
    method FlushCleanups()
      modifies this`listenerCleanups, this`trace
      ensures listenerCleanups == []
      ensures trace == old(trace) + Flushed(old(listenerCleanups))
    {
      if |listenerCleanups| != 0 {
        var index := 0;
        while index < |listenerCleanups|
          invariant 0 <= index <= |listenerCleanups|
          invariant listenerCleanups == old(listenerCleanups)
          invariant trace == old(trace) + Flushed(listenerCleanups[..index])
        {
          var entry := listenerCleanups[index];
          trace := trace + [CleanupRan(entry.listener, entry.cleanup)];
          assert listenerCleanups[..index + 1] == listenerCleanups[..index] + [entry];
          FlushedAppend(listenerCleanups[..index], [entry]);
          index := index + 1;
        }
        listenerCleanups := [];
      }
    }

    /** Calls every listener with `v`, in insertion order, keeping each
        cleanup returned. */
    method NotifyListeners(v: JsValue, behaviour: ListenerBehaviour)
      modifies this`listenerCleanups, this`trace
      ensures listenerCleanups == old(listenerCleanups) + Collected(listeners, v, behaviour)
      ensures trace == old(trace) + Notifications(listeners, v)
    {
      var ls := listeners;
      ghost var pending0, trace0 := listenerCleanups, trace;
      var i := 0;
      while i < |ls|
        invariant 0 <= i <= |ls|
        invariant listenerCleanups == pending0 + Collected(ls[..i], v, behaviour)
        invariant trace == trace0 + Notifications(ls[..i], v)
      {
        CollectedStep(ls, i, v, behaviour);
        Regrouped(pending0, Collected(ls[..i], v, behaviour), EntryFrom(ls[i], v, behaviour));
        Regrouped(trace0, Notifications(ls[..i], v), [Notified(ls[i], v)]);
        NotifyOne(ls[i], v, behaviour);
        i := i + 1;
      }
      assert ls[..i] == ls;
    }

    /** The equality check of `update(newValue)`: whether `v` is dropped. */
    method Consult(v: JsValue) returns (drop: bool)
      requires Valid()
      modifies Checkers
      ensures drop == old(Drops(v))
      ensures CheckerConsulted(v)
    {
      match equalityCheck {
        case NoEqualityCheck =>
          drop := false;
        case TheDefaultEqualityCheck =>
          drop := IsNumberStringOrBoolean(v) && currentValue == Some(v);
        case StrictEqualityCheckFactory =>
          drop := strictChecker.Check(v);
        case WrappedDefaultEqualityCheck =>
          drop := defaultChecker.Check(v);
      }
    }

    /** `update(newValue)` past its equality check. */
    method Propagate(v: JsValue, behaviour: ListenerBehaviour)
      modifies this
      ensures currentValue == Some(v)
      ensures listenerCleanups == Collected(listeners, v, behaviour)
      ensures trace == old(trace) + Flushed(old(listenerCleanups)) + Notifications(listeners, v)
      ensures listeners == old(listeners) && hasSubscriptionCleanup == old(hasSubscriptionCleanup)
    {
      currentValue := Some(v);
      FlushCleanups();
      NotifyListeners(v, behaviour);
    }

    /** `update(newValue)`, the path of `set(value)` and of the callback
        handed to `startSubscription`. */
    method Update(v: JsValue, behaviour: ListenerBehaviour)
      requires Valid()
      modifies this, Checkers
      ensures Valid()
      ensures Updated(v, behaviour)
    {
      var drop := Consult(v);
      if !drop {
        Propagate(v, behaviour);
      }
    }

    /** `updateToNoValue()`. */
    method UpdateToNoValue()
      requires Valid()
      modifies this
      ensures Valid()
      ensures ClearedToNoValue()
    {
      currentValue := NoValue;
      FlushCleanups();
    }

    /** `set(value)` with a value. */
    method SetValue(v: JsValue, behaviour: ListenerBehaviour)
      requires Valid()
      modifies this, Checkers
      ensures Valid()
      ensures Updated(v, behaviour)
    {
      Update(v, behaviour);
    }

    /** `set(updater)`: the updater is called with the current value; a
        `NO_VALUE` result clears the facet without calling any listener, any
        other result goes through `update`. */
    method SetWithUpdater(updater: Option<JsValue> -> Option<JsValue>, behaviour: ListenerBehaviour)
      requires Valid()
      modifies this, Checkers
      ensures Valid()
      ensures updater(old(currentValue)) == NoValue ==> ClearedToNoValue()
      ensures updater(old(currentValue)).Some? ==> Updated(updater(old(currentValue)).value, behaviour)
    {
      var value := updater(currentValue);
      if value == NoValue {
        UpdateToNoValue();
      } else {
        Update(value.value, behaviour);
      }
    }

    /** `observe(listener)`: the listener joins the set; if there is a value
        it is called at once and its cleanup, if any, is kept; and whenever
        the set then holds exactly one listener, `startSubscription` runs
        and its cleanup replaces any earlier one. */
    method Observe(l: nat, behaviour: ListenerBehaviour)
      requires Valid()
      modifies this
      ensures Valid()
      ensures listeners == Added(old(listeners), l)
      ensures currentValue == old(currentValue)
      ensures listenerCleanups
          == old(listenerCleanups) + (if currentValue.Some? then EntryFrom(l, currentValue.value, behaviour) else [])
      ensures var started := hasStartSubscription && |listeners| == 1;
        && hasSubscriptionCleanup == (old(hasSubscriptionCleanup) || started)
        && trace == old(trace)
                  + (if currentValue.Some? then [Notified(l, currentValue.value)] else [])
                  + (if started then [SubscriptionStarted] else [])
    {
      listeners := Added(listeners, l);
      CallNewListener(l, behaviour);
      StartIfSole();
    }

    /** `observe`'s last step: with exactly one listener in the set,
        `startSubscription` runs and its cleanup is kept. */
    method StartIfSole()
      modifies this`trace, this`hasSubscriptionCleanup
      ensures var started := hasStartSubscription && |listeners| == 1;
        && hasSubscriptionCleanup == (old(hasSubscriptionCleanup) || started)
        && trace == old(trace) + (if started then [SubscriptionStarted] else [])
    {
      if |listeners| == 1 && hasStartSubscription {
        trace := trace + [SubscriptionStarted];
        hasSubscriptionCleanup := true;
      }
    }

    /** The call `observe` makes to a newly added listener when there is a
        value, keeping the cleanup it returns. */
    method CallNewListener(l: nat, behaviour: ListenerBehaviour)
      modifies this`listenerCleanups, this`trace
      ensures listenerCleanups
          == old(listenerCleanups) + (if currentValue.Some? then EntryFrom(l, currentValue.value, behaviour) else [])
      ensures trace == old(trace) + (if currentValue.Some? then [Notified(l, currentValue.value)] else [])
    {
      if currentValue != NoValue {
        NotifyOne(l, currentValue.value, behaviour);
      }
    }

    /** One call of listener `l` with `v`; a cleanup it returns is kept. */
    method NotifyOne(l: nat, v: JsValue, behaviour: ListenerBehaviour)
      modifies this`listenerCleanups, this`trace
      ensures listenerCleanups == old(listenerCleanups) + EntryFrom(l, v, behaviour)
      ensures trace == old(trace) + [Notified(l, v)]
    {
      var result := behaviour(l, v);
      trace := trace + [Notified(l, v)];
      if result.ReturnsCleanup? {
        listenerCleanups := listenerCleanups + [CleanupEntry(l, result.cleanup)];
      }
    }

    /** The closure `observe(l)` returns: the first pending entry of `l`, if
        any, is run and removed; `l` leaves the set; and if the set is then
        empty while a subscription cleanup is held, the value goes back to
        `initialValue` and that cleanup runs. The cleanup is not forgotten. */
    method Unsubscribe(l: nat)
      requires Valid()
      modifies this
      ensures Valid()
      ensures listeners == Deleted(old(listeners), l)
      ensures hasSubscriptionCleanup == old(hasSubscriptionCleanup)
      ensures var i := FindIndex(old(listenerCleanups), l);
        && listenerCleanups == (if i == -1 then old(listenerCleanups) else Spliced(old(listenerCleanups), i))
        && var stopped := listeners == [] && hasSubscriptionCleanup;
        && currentValue == (if stopped then initialValue else old(currentValue))
        && trace == old(trace)
                  + (if i == -1 then [] else Flushed([old(listenerCleanups)[i]]))
                  + (if stopped then [SubscriptionStopped] else [])
    {
      var cleanupIndex := FindIndex(listenerCleanups, l);
      if cleanupIndex != -1 {
        var entry := listenerCleanups[cleanupIndex];
        trace := trace + [CleanupRan(entry.listener, entry.cleanup)];
        listenerCleanups := Spliced(listenerCleanups, cleanupIndex);
      }
      listeners := Deleted(listeners, l);
      if |listeners| == 0 && hasSubscriptionCleanup {
        currentValue := initialValue;
        trace := trace + [SubscriptionStopped];
      }
    }
  }
}
