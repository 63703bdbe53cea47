/** The two equality-check strategies with logic of their own:
    `strictEqualityCheck` and `defaultEqualityCheck`. Each factory call
    yields a checker with one memory slot, `previous`, which starts as
    `NO_VALUE`; a call `check(current)` answers "unchanged?" and, when the
    answer is no, remembers `current`. */
module EqualityChecks {
  import opened Values
  import opened Sequences

  /** A checker made by `strictEqualityCheck`. */
  class StrictEqualityCheck {
    var previous: Option<JsValue>

    constructor ()
      ensures previous == NoValue
    {
      previous := NoValue;
    }

    /** `current` is unchanged iff it is `===` to the remembered value;
        afterwards the checker always remembers `current`. */
    method Check(current: JsValue) returns (same: bool)
      modifies this
      ensures same <==> old(previous) == Some(current)
      ensures previous == Some(current)
    {
      if previous != Some(current) {
        previous := Some(current);
        return false;
      }
      return true;
    }
  }

  /** A checker made by `defaultEqualityCheck`. */
  class DefaultEqualityCheck {
    var previous: Option<JsValue>

    constructor ()
      ensures previous == NoValue
    {
      previous := NoValue;
    }

    /** A value that is not a number, string, boolean, null or undefined is
        never unchanged and is not remembered; any other value is checked
        exactly as the strict checker does. */
    method Check(current: JsValue) returns (same: bool)
      modifies this
      ensures same <==> IsImmutable(current) && old(previous) == Some(current)
      ensures previous == if IsImmutable(current) then Some(current) else old(previous)
    {
      if !IsImmutable(current) {
        return false;
      }
      if previous != Some(current) {
        previous := Some(current);
        return false;
      }
      return true;
    }
  }

  // The answers a checker gives to a run of calls, and what it remembers
  // afterwards. Each step is the one `Check` above performs.

  /** The answers of a strict checker that remembers `previous`, call after call. */
  function StrictAnswers(previous: Option<JsValue>, inputs: seq<JsValue>): (answers: seq<bool>)
    ensures |answers| == |inputs|
    decreases inputs
  {
    if inputs == [] then []
    else [previous == Some(inputs[0])] + StrictAnswers(Some(inputs[0]), inputs[1..])
  }

  /** The answers of a default checker that remembers `previous`, call after call. */
  function DefaultAnswers(previous: Option<JsValue>, inputs: seq<JsValue>): (answers: seq<bool>)
    ensures |answers| == |inputs|
    decreases inputs
  {
    if inputs == [] then []
    else if !IsImmutable(inputs[0]) then [false] + DefaultAnswers(previous, inputs[1..])
    else [previous == Some(inputs[0])] + DefaultAnswers(Some(inputs[0]), inputs[1..])
  }

  /** What a default checker remembers after a run of calls. */
  function DefaultMemory(previous: Option<JsValue>, inputs: seq<JsValue>): (memory: Option<JsValue>)
    ensures memory == previous || (memory.Some? && memory.value in inputs && IsImmutable(memory.value))
    decreases inputs
  {
    if inputs == [] then previous
    else DefaultMemory(if IsImmutable(inputs[0]) then Some(inputs[0]) else previous, inputs[1..])
  }

  /** Feeds `inputs` to a strict checker one call at a time: the answers are
      the ones `StrictAnswers` gives from the checker's memory, and the
      checker then remembers the last input. */
  method RunStrict(c: StrictEqualityCheck, inputs: seq<JsValue>) returns (answers: seq<bool>)
    modifies c
    ensures answers == StrictAnswers(old(c.previous), inputs)
    ensures inputs != [] ==> c.previous == Some(inputs[|inputs| - 1])
    ensures inputs == [] ==> c.previous == old(c.previous)
  {
    answers := [];
    var i := 0;
    while i < |inputs|
      invariant 0 <= i <= |inputs|
      invariant StrictAnswers(old(c.previous), inputs) == answers + StrictAnswers(c.previous, inputs[i..])
      invariant i > 0 ==> c.previous == Some(inputs[i - 1])
      invariant i == 0 ==> c.previous == old(c.previous)
    {
      StrictStep(c.previous, inputs, i);
      var same := c.Check(inputs[i]);
      Regrouped(answers, [same], StrictAnswers(c.previous, inputs[i + 1..]));
      answers := answers + [same];
      i := i + 1;
    }
  }

  /** Feeds `inputs` to a default checker one call at a time: the answers
      are the ones `DefaultAnswers` gives from the checker's memory, and the
      checker then remembers `DefaultMemory` of the run. */
  method RunDefault(c: DefaultEqualityCheck, inputs: seq<JsValue>) returns (answers: seq<bool>)
    modifies c
    ensures answers == DefaultAnswers(old(c.previous), inputs)
    ensures c.previous == DefaultMemory(old(c.previous), inputs)
  {
    answers := [];
    var i := 0;
    while i < |inputs|
      invariant 0 <= i <= |inputs|
      invariant DefaultAnswers(old(c.previous), inputs) == answers + DefaultAnswers(c.previous, inputs[i..])
      invariant DefaultMemory(old(c.previous), inputs) == DefaultMemory(c.previous, inputs[i..])
    {
      DefaultStep(c.previous, inputs, i);
      ghost var next := if IsImmutable(inputs[i]) then Some(inputs[i]) else c.previous;
      var same := c.Check(inputs[i]);
      Regrouped(answers, [same], DefaultAnswers(next, inputs[i + 1..]));
      answers := answers + [same];
      i := i + 1;
    }
  }

  /** One call of a run, peeled off the front of what is left of it. */
  lemma StrictStep(previous: Option<JsValue>, inputs: seq<JsValue>, i: nat)
    requires i < |inputs|
    ensures StrictAnswers(previous, inputs[i..])
        == [previous == Some(inputs[i])] + StrictAnswers(Some(inputs[i]), inputs[i + 1..])
  {
    assert inputs[i..][1..] == inputs[i + 1..];
  }

  lemma DefaultStep(previous: Option<JsValue>, inputs: seq<JsValue>, i: nat)
    requires i < |inputs|
    ensures var next := if IsImmutable(inputs[i]) then Some(inputs[i]) else previous;
      && DefaultAnswers(previous, inputs[i..])
         == [IsImmutable(inputs[i]) && previous == Some(inputs[i])] + DefaultAnswers(next, inputs[i + 1..])
      && DefaultMemory(previous, inputs[i..]) == DefaultMemory(next, inputs[i + 1..])
  {
    assert inputs[i..][1..] == inputs[i + 1..];
  }

  /** A strict checker answers "unchanged" exactly to a repeated input: on the
      first call iff the input is the remembered one, later iff the input
      equals the one just before it. */
  lemma {:induction false} StrictAnswersAt(previous: Option<JsValue>, inputs: seq<JsValue>, i: nat)
    requires i < |inputs|
    ensures StrictAnswers(previous, inputs)[i]
        <==> if i == 0 then previous == Some(inputs[0]) else inputs[i - 1] == inputs[i]
    decreases i
  {
    if i > 0 {
      StrictAnswersAt(Some(inputs[0]), inputs[1..], i - 1);
    }
  }

  /** A fresh strict checker answers false on its first call, and afterwards
      "unchanged" iff the input repeats the previous one. */
  lemma {:induction false} FreshStrictAnswers(inputs: seq<JsValue>)
    ensures |inputs| > 0 ==> !StrictAnswers(NoValue, inputs)[0]
    ensures forall i :: 0 < i < |inputs| ==>
      (StrictAnswers(NoValue, inputs)[i] <==> inputs[i - 1] == inputs[i])
  {
    if |inputs| > 0 {
      StrictAnswersAt(NoValue, inputs, 0);
    }
    forall i | 0 < i < |inputs|
      ensures StrictAnswers(NoValue, inputs)[i] <==> inputs[i - 1] == inputs[i]
    {
      StrictAnswersAt(NoValue, inputs, i);
    }
  }

  /** A default checker answers "unchanged" iff the input is an immutable
      value equal to the last immutable value it has seen (or to its
      initial memory, when it has seen none). */
  lemma {:induction false} DefaultAnswersAt(previous: Option<JsValue>, inputs: seq<JsValue>, i: nat)
    requires i < |inputs|
    ensures DefaultAnswers(previous, inputs)[i]
        <==> IsImmutable(inputs[i]) && DefaultMemory(previous, inputs[..i]) == Some(inputs[i])
    decreases i
  {
    if i > 0 {
      var next := if IsImmutable(inputs[0]) then Some(inputs[0]) else previous;
      DefaultAnswersAt(next, inputs[1..], i - 1);
      assert inputs[..i][1..] == inputs[1..][..i - 1];
    }
  }

  /** Values the default checker does not compare always count as changed. */
  lemma DefaultNeverMatchesMutable(previous: Option<JsValue>, inputs: seq<JsValue>, i: nat)
    requires i < |inputs| && !IsImmutable(inputs[i])
    ensures !DefaultAnswers(previous, inputs)[i]
  {
    DefaultAnswersAt(previous, inputs, i);
  }

  /** On runs of immutable values the default checker answers exactly as the
      strict checker does. */
  lemma {:induction false} DefaultAgreesWithStrict(previous: Option<JsValue>, inputs: seq<JsValue>)
    requires forall i :: 0 <= i < |inputs| ==> IsImmutable(inputs[i])
    ensures DefaultAnswers(previous, inputs) == StrictAnswers(previous, inputs)
    decreases inputs
  {
    if inputs != [] {
      DefaultAgreesWithStrict(Some(inputs[0]), inputs[1..]);
    }
  }

  /** The default checker forgets nothing on a value it does not compare: its
      memory after a run is the last immutable value of the run, if any. */
  lemma {:induction false} DefaultMemoryIsLastImmutable(previous: Option<JsValue>, inputs: seq<JsValue>, k: nat)
    requires k < |inputs| && IsImmutable(inputs[k])
    requires forall j :: k < j < |inputs| ==> !IsImmutable(inputs[j])
    ensures DefaultMemory(previous, inputs) == Some(inputs[k])
    decreases k
  {
    var next := if IsImmutable(inputs[0]) then Some(inputs[0]) else previous;
    if k > 0 {
      DefaultMemoryIsLastImmutable(next, inputs[1..], k - 1);
    } else {
      DefaultMemoryUnchanged(next, inputs[1..]);
    }
  }

  /** A run of values the default checker does not compare leaves its memory as it was. */
  lemma {:induction false} DefaultMemoryUnchanged(previous: Option<JsValue>, inputs: seq<JsValue>)
    requires forall j :: 0 <= j < |inputs| ==> !IsImmutable(inputs[j])
    ensures DefaultMemory(previous, inputs) == previous
    decreases inputs
  {
    if inputs != [] {
      DefaultMemoryUnchanged(previous, inputs[1..]);
    }
  }
}
