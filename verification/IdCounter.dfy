/** `get_req_id` as threads execute it: nothing guards the counter, so one call is three steps.
    It loads the counter, stores the successor of what it loaded, and reads the counter once
    more for its result. */
module IdCounter {
  import opened Common

  datatype Progress = Loaded(value: nat) | Stored

  /** The counter, the calls under way by thread, and the ids returned so far in order. */
  datatype Counter = Counter(value: nat, calls: map<nat, Progress>, issued: seq<nat>)

  const Start := Counter(DEFAULT_SEQ_START_NUMBER, map[], [])

  datatype Step = Load(t: nat) | Store(t: nat) | Return(t: nat)

  /** At INT_MAX the increment overflows, which is not part of the model. */
  predicate Enabled(s: Counter, a: Step) {
    match a
    case Load(t) => t !in s.calls && s.value < INT_MAX
    case Store(t) => t in s.calls && s.calls[t].Loaded?
    case Return(t) => t in s.calls && s.calls[t].Stored?
  }

  function Apply(s: Counter, a: Step): Counter
    requires Enabled(s, a)
  {
    match a
    case Load(t) => s.(calls := s.calls[t := Loaded(s.value)])
    case Store(t) => s.(value := s.calls[t].value + 1, calls := s.calls[t := Stored])
    case Return(t) => s.(issued := s.issued + [s.value], calls := s.calls - {t})
  }

  ghost predicate IsRun(ss: seq<Counter>, steps: seq<Step>) {
    && |ss| == |steps| + 1 && ss[0] == Start
    && forall i :: 0 <= i < |steps| ==> Enabled(ss[i], steps[i]) && ss[i + 1] == Apply(ss[i], steps[i])
  }

  /** At most one call is under way. */
  ghost predicate Alone(s: Counter) { forall t, u :: t in s.calls && u in s.calls ==> t == u }

  /** No two calls overlap anywhere in the run. */
  ghost predicate Serial(ss: seq<Counter>) { forall i :: 0 <= i < |ss| ==> Alone(ss[i]) }

  /** The ids are the successors of the start number, and the call under way has the next one. */
  ghost predicate Consecutive(s: Counter) {
    && (forall i :: 0 <= i < |s.issued| ==> s.issued[i] == DEFAULT_SEQ_START_NUMBER + 1 + i)
    && (forall t :: t in s.calls ==>
          if s.calls[t].Loaded? then s.calls[t].value == s.value == DEFAULT_SEQ_START_NUMBER + |s.issued|
          else s.value == DEFAULT_SEQ_START_NUMBER + 1 + |s.issued|)
    && (s.calls == map[] ==> s.value == DEFAULT_SEQ_START_NUMBER + |s.issued|)
  }

  lemma {:induction false} StepKeepsConsecutive(s: Counter, a: Step)
    requires Consecutive(s) && Alone(s) && Enabled(s, a) && (a.Load? ==> Alone(Apply(s, a)))
    ensures Consecutive(Apply(s, a)) && Alone(Apply(s, a))
  {
    var s' := Apply(s, a);
    assert a.Return? || a.t in s'.calls;
    if a.Load? {
      assert forall t :: t in s.calls ==> t in s'.calls;
      assert s.calls == map[];
    }
  }

  /** Calls that never overlap return consecutive ids. */
  lemma {:induction false} SerialIds(ss: seq<Counter>, steps: seq<Step>, i: nat)
    requires IsRun(ss, steps) && i < |ss| && Serial(ss[..i + 1])
    ensures Consecutive(ss[i])
  {
    assert Alone(ss[..i + 1][i]);
    if i > 0 {
      assert forall k :: 0 <= k < i ==> ss[..i][k] == ss[..i + 1][k];
      SerialIds(ss, steps, i - 1);
      assert Alone(ss[..i][i - 1]);
      StepKeepsConsecutive(ss[i - 1], steps[i - 1]);
    }
  }

  /** The counter goes on to `s'`; no call begins while another is under way. */
  ghost predicate Proceeds(s: Counter, steps: seq<Step>, s': Counter)
    decreases |steps|
  {
    if steps == [] then s' == s
    else (steps[0].Load? ==> s.calls == map[]) && Enabled(s, steps[0]) && Proceeds(Apply(s, steps[0]), steps[1..], s')
  }

  lemma {:induction false} AloneStaysConsecutive(s: Counter, steps: seq<Step>, s': Counter)
    requires Consecutive(s) && Alone(s) && Proceeds(s, steps, s')
    ensures Consecutive(s')
    decreases |steps|
  {
    if steps != [] {
      StepKeepsConsecutive(s, steps[0]);
      AloneStaysConsecutive(Apply(s, steps[0]), steps[1..], s');
    }
  }

  lemma {:induction false} BothStored(s: Counter, t: nat, u: nat) returns (steps: seq<Step>, s': Counter)
    requires t in s.calls && u in s.calls && t != u && s.calls[t].Stored? && s.calls[u].Stored?
    ensures Proceeds(s, steps, s') && s'.issued == s.issued + [s.value, s.value]
  {
    var s1 := Apply(s, Return(t));
    s' := Apply(s1, Return(u));
    steps := [Return(t), Return(u)];
    assert steps[1..] == [Return(u)] && steps[1..][1..] == [];
    assert Proceeds(s', [], s');
    assert Proceeds(s1, [Return(u)], s');
  }

  lemma {:induction false} OneStored(s: Counter, t: nat, u: nat) returns (steps: seq<Step>, s': Counter)
    requires t in s.calls && u in s.calls && t != u && s.calls[t].Stored?
    ensures Proceeds(s, steps, s') && exists id :: s'.issued == s.issued + [id, id]
  {
    if s.calls[u].Stored? {
      steps, s' := BothStored(s, t, u);
    } else {
      var rest;
      rest, s' := BothStored(Apply(s, Store(u)), t, u);
      steps := [Store(u)] + rest;
      assert steps[1..] == rest;
    }
  }

  /** From every state with two calls under way they can return the same id: each stores, and
      then each reads the counter. */
  lemma {:induction false} OverlapClashes(s: Counter, t: nat, u: nat) returns (steps: seq<Step>, s': Counter)
    requires t in s.calls && u in s.calls && t != u
    ensures Proceeds(s, steps, s') && exists id :: s'.issued == s.issued + [id, id]
  {
    if s.calls[t].Stored? {
      steps, s' := OneStored(s, t, u);
    } else {
      var rest;
      rest, s' := OneStored(Apply(s, Store(t)), t, u);
      steps := [Store(t)] + rest;
      assert steps[1..] == rest;
    }
  }

  /** However the counter goes on without further overlaps, no id is returned twice. */
  ghost predicate Safe(s: Counter) {
    forall steps, s' :: Proceeds(s, steps, s') ==> Distinct(s'.issued)
  }

  /** After any history of calls that did not overlap, the ids stay distinct in every continuation
      without further overlaps, exactly if at most one call is under way now. */
  lemma {:induction false} SafeIffAlone(ss: seq<Counter>, steps: seq<Step>)
    requires IsRun(ss, steps) && Serial(ss[..|steps|])
    ensures Safe(ss[|steps|]) <==> Alone(ss[|steps|])
  {
    var s := ss[|steps|];
    if Alone(s) {
      assert Serial(ss[..|steps| + 1]);
      SerialIds(ss, steps, |steps|);
      forall more, s' | Proceeds(s, more, s') ensures Distinct(s'.issued) {
        AloneStaysConsecutive(s, more, s');
      }
    } else {
      var t, u :| t in s.calls && u in s.calls && t != u;
      var more, s' := OverlapClashes(s, t, u);
      var id :| s'.issued == s.issued + [id, id];
      assert s'.issued[|s.issued|] == s'.issued[|s.issued| + 1];
    }
  }
}
