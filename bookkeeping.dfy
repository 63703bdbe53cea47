/** The collections a facet keeps and the events its callbacks produce: the
    listener `Set` (kept in insertion order), the array of pending
    `{ listener, cleanup }` entries, and the trace of callback invocations.
    Listeners and cleanups are foreign code and appear only as ids. */
module Bookkeeping {
  import opened Values

  /** What a listener returns when it is called: nothing, or a cleanup. */
  datatype ListenerResult = NoCleanup | ReturnsCleanup(cleanup: nat)

  /** How every listener responds when it is called with a value. */
  type ListenerBehaviour = (nat, JsValue) -> ListenerResult

  /** A `ListenerCleanupEntry`: a cleanup returned by `listener`, pending. */
  datatype CleanupEntry = CleanupEntry(listener: nat, cleanup: nat)

  /** One invocation of foreign code by the facet. */
  datatype Event =
    | Notified(listener: nat, value: JsValue)
    | CleanupRan(listener: nat, cleanup: nat)
    | SubscriptionStarted
    | SubscriptionStopped

  predicate NoDuplicates(s: seq<nat>) {
    forall i, j :: 0 <= i < j < |s| ==> s[i] != s[j]
  }

  /** `listeners.add(l)`: a listener already present keeps its place; a new
      one goes last. */
  function Added(ls: seq<nat>, l: nat): (r: seq<nat>)
    ensures forall x :: x in r <==> x in ls || x == l
    ensures |ls| <= |r| <= |ls| + 1 && r[..|ls|] == ls
    ensures NoDuplicates(ls) ==> NoDuplicates(r)
  {
    if l in ls then ls else ls + [l]
  }

  /** `listeners.delete(l)`: the others keep their order. */
  function Deleted(ls: seq<nat>, l: nat): (r: seq<nat>)
    ensures forall x :: x in r <==> x in ls && x != l
    ensures l !in ls ==> r == ls
    ensures NoDuplicates(ls) ==> NoDuplicates(r) && |r| == if l in ls then |ls| - 1 else |ls|
    decreases ls
  {
    if ls == [] then []
    else
      var rest := Deleted(ls[1..], l);
      assert NoDuplicates(ls) ==> NoDuplicates(ls[1..]) && ls[0] !in ls[1..];
      if ls[0] == l then rest else [ls[0]] + rest
  }

  /** Deleting distributes over concatenation, so the order of the remaining
      listeners is the order they had. */
  lemma {:induction false} DeletedAppend(a: seq<nat>, b: seq<nat>, l: nat)
    ensures Deleted(a + b, l) == Deleted(a, l) + Deleted(b, l)
    decreases a
  {
    if a == [] {
      assert a + b == b;
    } else {
      assert (a + b)[1..] == a[1..] + b;
      DeletedAppend(a[1..], b, l);
    }
  }

  /** Deleting a listener that was just added for the first time gives back
      the listeners as they were, order included. */
  lemma DeleteUndoesAdd(ls: seq<nat>, l: nat)
    requires l !in ls
    ensures Deleted(Added(ls, l), l) == ls
  {
    DeletedAppend(ls, [l], l);
    assert Deleted([l], l) == [];
  }

  /** `entries.findIndex(entry => entry.listener === l)`. */
  function FindIndex(entries: seq<CleanupEntry>, l: nat): (r: int)
    ensures -1 <= r < |entries|
    ensures r == -1 <==> forall k :: 0 <= k < |entries| ==> entries[k].listener != l
    ensures r >= 0 ==> entries[r].listener == l && forall k :: 0 <= k < r ==> entries[k].listener != l
    decreases entries
  {
    if entries == [] then -1
    else if entries[0].listener == l then 0
    else
      var r := FindIndex(entries[1..], l);
      if r == -1 then -1 else r + 1
  }

  /** `entries.splice(i, 1)`. */
  function Spliced(entries: seq<CleanupEntry>, i: nat): (r: seq<CleanupEntry>)
    requires i < |entries|
    ensures |r| == |entries| - 1
    ensures forall k :: 0 <= k < i ==> r[k] == entries[k]
    ensures forall k :: i <= k < |r| ==> r[k] == entries[k + 1]
  {
    entries[..i] + entries[i + 1..]
  }

  /** The pending entries that belong to listener `l`, in order. */
  function EntriesOf(entries: seq<CleanupEntry>, l: nat): seq<CleanupEntry>
    decreases entries
  {
    if entries == [] then []
    else (if entries[0].listener == l then [entries[0]] else []) + EntriesOf(entries[1..], l)
  }

  lemma {:induction false} EntriesOfAppend(a: seq<CleanupEntry>, b: seq<CleanupEntry>, l: nat)
    ensures EntriesOf(a + b, l) == EntriesOf(a, l) + EntriesOf(b, l)
    decreases a
  {
    if a == [] {
      assert a + b == b;
    } else {
      var head := if a[0].listener == l then [a[0]] else [];
      assert (a + b)[0] == a[0];
      assert (a + b)[1..] == a[1..] + b;
      assert EntriesOf(a + b, l) == head + EntriesOf(a[1..] + b, l);
      EntriesOfAppend(a[1..], b, l);
      assert EntriesOf(a, l) == head + EntriesOf(a[1..], l);
    }
  }

  lemma {:induction false} EntriesOfNone(entries: seq<CleanupEntry>, l: nat)
    requires forall k :: 0 <= k < |entries| ==> entries[k].listener != l
    ensures EntriesOf(entries, l) == []
    decreases entries
  {
    if entries != [] {
      EntriesOfNone(entries[1..], l);
    }
  }

  lemma EntriesOfAround(entries: seq<CleanupEntry>, i: nat, x: nat)
    requires i < |entries|
    ensures EntriesOf(entries, x)
         == EntriesOf(entries[..i], x) + EntriesOf([entries[i]], x) + EntriesOf(entries[i + 1..], x)
    ensures EntriesOf(Spliced(entries, i), x) == EntriesOf(entries[..i], x) + EntriesOf(entries[i + 1..], x)
    ensures EntriesOf([entries[i]], x) == if entries[i].listener == x then [entries[i]] else []
  {
    assert entries == entries[..i] + ([entries[i]] + entries[i + 1..]);
    EntriesOfAppend(entries[..i], [entries[i]] + entries[i + 1..], x);
    EntriesOfAppend([entries[i]], entries[i + 1..], x);
    EntriesOfAppend(entries[..i], entries[i + 1..], x);
    assert [entries[i]][1..] == [];
  }

  /** Removing the first entry of `l`, as the unsubscribe closure does, drops
      exactly the oldest pending cleanup of `l` and leaves every other
      listener's entries as they were, in order. */
  lemma SpliceFirstEntry(entries: seq<CleanupEntry>, l: nat, other: nat)
    requires FindIndex(entries, l) >= 0
    ensures var i := FindIndex(entries, l);
      && EntriesOf(entries, l) == [entries[i]] + EntriesOf(Spliced(entries, i), l)
      && (other != l ==> EntriesOf(Spliced(entries, i), other) == EntriesOf(entries, other))
  {
    var i := FindIndex(entries, l);
    SpliceOwnEntry(entries, i, l);
    if other != l {
      SpliceOtherEntry(entries, i, other);
    }
  }

  lemma SpliceOwnEntry(entries: seq<CleanupEntry>, i: nat, l: nat)
    requires i < |entries| && entries[i].listener == l
    requires forall k :: 0 <= k < i ==> entries[k].listener != l
    ensures EntriesOf(entries, l) == [entries[i]] + EntriesOf(Spliced(entries, i), l)
  {
    var before := entries[..i];
    assert forall k :: 0 <= k < |before| ==> before[k].listener != l;
    EntriesOfNone(before, l);
    EntriesOfAround(entries, i, l);
  }

  lemma SpliceOtherEntry(entries: seq<CleanupEntry>, i: nat, other: nat)
    requires i < |entries| && entries[i].listener != other
    ensures EntriesOf(Spliced(entries, i), other) == EntriesOf(entries, other)
  {
    EntriesOfAround(entries, i, other);
  }

  /** The cleanups of `entries` run, one event each, in list order. */
  function Flushed(entries: seq<CleanupEntry>): seq<Event> {
    seq(|entries|, k requires 0 <= k < |entries| => CleanupRan(entries[k].listener, entries[k].cleanup))
  }

  /** The listeners `ls` called with `v`, one event each, in order. */
  function Notifications(ls: seq<nat>, v: JsValue): seq<Event> {
    seq(|ls|, k requires 0 <= k < |ls| => Notified(ls[k], v))
  }

  lemma FlushedAppend(a: seq<CleanupEntry>, b: seq<CleanupEntry>)
    ensures Flushed(a + b) == Flushed(a) + Flushed(b)
  {
    assert forall k :: 0 <= k < |b| ==> (a + b)[|a| + k] == b[k];
  }

  lemma NotificationsAppend(a: seq<nat>, b: seq<nat>, v: JsValue)
    ensures Notifications(a + b, v) == Notifications(a, v) + Notifications(b, v)
  {
    assert forall k :: 0 <= k < |b| ==> (a + b)[|a| + k] == b[k];
  }

  /** The entries one call of listener `l` with `v` adds to the pending list. */
  function EntryFrom(l: nat, v: JsValue, behaviour: ListenerBehaviour): (r: seq<CleanupEntry>)
    ensures |r| <= 1
    ensures r == [] <==> behaviour(l, v) == NoCleanup
    ensures r != [] ==> r[0].listener == l && behaviour(l, v) == ReturnsCleanup(r[0].cleanup)
  {
    match behaviour(l, v)
    case NoCleanup => []
    case ReturnsCleanup(c) => [CleanupEntry(l, c)]
  }

  /** The pending entries a notification pass over `ls` with `v` leaves
      behind: one for each listener whose call returned a cleanup. */
  function Collected(ls: seq<nat>, v: JsValue, behaviour: ListenerBehaviour): (r: seq<CleanupEntry>)
    ensures |r| <= |ls|
    decreases ls
  {
    if ls == [] then []
    else EntryFrom(ls[0], v, behaviour) + Collected(ls[1..], v, behaviour)
  }

  /** The entries a notification pass leaves are exactly the cleanups its
      listeners returned: every entry belongs to a listener of the pass and is
      the cleanup that listener returned, and every listener that returned a
      cleanup has its entry. */
  lemma {:induction false} CollectedMembers(ls: seq<nat>, v: JsValue, behaviour: ListenerBehaviour)
    ensures forall e :: e in Collected(ls, v, behaviour) ==>
      e.listener in ls && behaviour(e.listener, v) == ReturnsCleanup(e.cleanup)
    ensures forall l :: l in ls && behaviour(l, v).ReturnsCleanup? ==>
      CleanupEntry(l, behaviour(l, v).cleanup) in Collected(ls, v, behaviour)
    decreases ls
  {
    if ls != [] {
      CollectedMembers(ls[1..], v, behaviour);
    }
  }

  lemma CollectedOne(l: nat, v: JsValue, behaviour: ListenerBehaviour)
    ensures Collected([l], v, behaviour) == EntryFrom(l, v, behaviour)
  {
    assert [l][1..] == [];
  }

  /** One more listener of a notification pass: its entries and its event
      follow those of the listeners before it. */
  lemma CollectedStep(ls: seq<nat>, i: nat, v: JsValue, behaviour: ListenerBehaviour)
    requires i < |ls|
    ensures Collected(ls[..i + 1], v, behaviour) == Collected(ls[..i], v, behaviour) + EntryFrom(ls[i], v, behaviour)
    ensures Notifications(ls[..i + 1], v) == Notifications(ls[..i], v) + [Notified(ls[i], v)]
  {
    assert ls[..i + 1] == ls[..i] + [ls[i]];
    CollectedAppend(ls[..i], [ls[i]], v, behaviour);
    CollectedOne(ls[i], v, behaviour);
    NotificationsAppend(ls[..i], [ls[i]], v);
  }

  /** A notification pass over `a + b` collects the entries of `a`, then those of `b`. */
  lemma {:induction false} CollectedAppend(a: seq<nat>, b: seq<nat>, v: JsValue, behaviour: ListenerBehaviour)
    ensures Collected(a + b, v, behaviour) == Collected(a, v, behaviour) + Collected(b, v, behaviour)
    decreases a
  {
    if a == [] {
      assert a + b == b;
    } else {
      assert (a + b)[1..] == a[1..] + b;
      CollectedAppend(a[1..], b, v, behaviour);
    }
  }

  /** After a pass over distinct listeners, each listener has exactly one
      pending entry if its call returned a cleanup, and none otherwise. */
  lemma {:induction false} CollectedOncePerListener(ls: seq<nat>, v: JsValue, behaviour: ListenerBehaviour, l: nat)
    requires NoDuplicates(ls)
    ensures |EntriesOf(Collected(ls, v, behaviour), l)|
        == if l in ls && behaviour(l, v).ReturnsCleanup? then 1 else 0
    decreases ls
  {
    if ls != [] {
      assert NoDuplicates(ls[1..]);
      CollectedOncePerListener(ls[1..], v, behaviour, l);
      EntriesOfAppend(EntryFrom(ls[0], v, behaviour), Collected(ls[1..], v, behaviour), l);
      assert ls[0] !in ls[1..];
      assert l in ls <==> l == ls[0] || l in ls[1..];
      var head := EntryFrom(ls[0], v, behaviour);
      assert |head| <= 1;
      if |head| == 1 {
        assert head[1..] == [];
      }
    }
  }

  lemma {:induction false} FindIndexAppend(a: seq<CleanupEntry>, b: seq<CleanupEntry>, l: nat)
    ensures FindIndex(a + b, l)
        == if FindIndex(a, l) >= 0 then FindIndex(a, l)
           else if FindIndex(b, l) >= 0 then |a| + FindIndex(b, l)
           else -1
  {
    var r := FindIndex(a + b, l);
    if FindIndex(a, l) >= 0 {
      assert (a + b)[FindIndex(a, l)] == a[FindIndex(a, l)];
    } else if FindIndex(b, l) >= 0 {
      assert (a + b)[|a| + FindIndex(b, l)] == b[FindIndex(b, l)];
      assert forall k :: |a| <= k < |a| + FindIndex(b, l) ==> (a + b)[k] == b[k - |a|];
    } else {
      assert forall k :: |a| <= k < |a + b| ==> (a + b)[k] == b[k - |a|];
    }
  }

  lemma FindIndexFound(entries: seq<CleanupEntry>, e: CleanupEntry)
    requires e in entries
    ensures FindIndex(entries, e.listener) >= 0
  {
    var k :| 0 <= k < |entries| && entries[k] == e;
  }

  lemma FindIndexMissing(ls: seq<nat>, v: JsValue, behaviour: ListenerBehaviour, l: nat)
    requires l !in ls
    ensures FindIndex(Collected(ls, v, behaviour), l) == -1
  {
    var r := Collected(ls, v, behaviour);
    CollectedMembers(ls, v, behaviour);
    forall k | 0 <= k < |r| ensures r[k].listener != l {
      assert r[k] in r;
    }
  }

  lemma NotBefore(ls: seq<nat>, j: nat)
    requires NoDuplicates(ls) && j < |ls|
    ensures ls[j] !in ls[..j]
  {
  }

  lemma FindIndexSplit(ca: seq<CleanupEntry>, cb: seq<CleanupEntry>, x: nat, y: nat)
    requires FindIndex(ca, x) >= 0 && FindIndex(ca, y) == -1 && FindIndex(cb, y) == 0
    ensures 0 <= FindIndex(ca + cb, x) < FindIndex(ca + cb, y)
  {
    FindIndexAppend(ca, cb, x);
    FindIndexAppend(ca, cb, y);
  }

  lemma FirstOfPass(b: seq<nat>, v: JsValue, behaviour: ListenerBehaviour)
    requires b != [] && behaviour(b[0], v).ReturnsCleanup?
    ensures FindIndex(Collected(b, v, behaviour), b[0]) == 0
  {
  }

  /** Listeners are notified, and their cleanups pending, in the same order:
      of two distinct listeners that both returned a cleanup, the earlier
      one's entry comes first. */
  lemma CollectedInOrder(ls: seq<nat>, v: JsValue, behaviour: ListenerBehaviour, i: nat, j: nat)
    requires NoDuplicates(ls) && i < j < |ls|
    requires behaviour(ls[i], v).ReturnsCleanup? && behaviour(ls[j], v).ReturnsCleanup?
    ensures 0 <= FindIndex(Collected(ls, v, behaviour), ls[i]) < FindIndex(Collected(ls, v, behaviour), ls[j])
  {
    var a, b := ls[..j], ls[j..];
    assert ls == a + b;
    CollectedAppend(a, b, v, behaviour);
    CollectedMembers(a, v, behaviour);
    assert ls[i] in a by {
      assert a[i] == ls[i];
    }
    FindIndexFound(Collected(a, v, behaviour), CleanupEntry(ls[i], behaviour(ls[i], v).cleanup));
    NotBefore(ls, j);
    FindIndexMissing(a, v, behaviour, ls[j]);
    FirstOfPass(b, v, behaviour);
    FindIndexSplit(Collected(a, v, behaviour), Collected(b, v, behaviour), ls[i], ls[j]);
  }
}
