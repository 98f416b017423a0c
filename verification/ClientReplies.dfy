/** A reply that finds its request in the list answers it, whatever the other threads do meanwhile. */
module ClientReplies {
  import opened Common
  import opened ClientTracking
  import opened ClientTrackingProofs
  import opened ClientExpiry
  import opened ClientTheorems

  /** The traversal for a reply with the key of `r` has not walked past `r`. */
  ghost predicate Ahead(s: State, r: Rid) {
    && r in s.reqs && s.spc == Scanning && s.job == Reply(s.reqs[r].key)
    && r in s.list && s.el.Some? && r !in s.list[..Min(s.pos, |s.list|)]
    && (s.loaded && s.tmp == None ==> r !in s.list[Min(s.pos + 1, |s.list|)..])
  }

  /** It is still to come to `r`, or has answered it. */
  ghost predicate Awaits(s: State, r: Rid) {
    (r in s.reqs && s.reqs[r].replies == 1) || Ahead(s, r)
  }

  lemma {:induction false} StartsAhead(s: State, r: Rid)
    requires Inv(s) && Enabled(s, SocketLockList) && r in s.list && r in s.reqs && s.job == Reply(s.reqs[r].key)
    ensures Ahead(Apply(s, SocketLockList), r)
  {
    hide Inv;
    assert s.list[..0] == [];
  }

  /** Nothing a requester does to an entry moves the traversal. */
  lemma {:induction false} PutAhead(s: State, t: State, x: Rid, r: Rid)
    requires Ahead(s, r) && x in t.reqs && t.reqs == s.reqs[x := t.reqs[x]]
    requires t == s.(reqs := t.reqs) && (x in s.reqs ==> t.reqs[x].key == s.reqs[x].key) && (x == r ==> x in s.reqs)
    ensures Ahead(t, r)
  {
  }

  lemma {:induction false} AppendAhead(s: State, x: Rid, r: Rid)
    requires Inv(s) && Ahead(s, r) && Enabled(s, Append(x))
    ensures Ahead(Apply(s, Append(x)), r)
  {
    assert x != r by { SoundIn(s, r); SoundIn(s, x); NotLocked(s, r); }
    AtCursor(s);
    hide Inv;
    var t := Apply(s, Append(x));
    assert t.list[..s.pos] == s.list[..s.pos];
    assert t.list[s.pos + 1..] == s.list[s.pos + 1..] + [x];
  }

  lemma {:induction false} NotLocked(s: State, r: Rid)
    requires Sound(s, r) && r in s.list
    ensures s.reqs[r].pc != Locked && Completions(s.reqs[r]) == 0 && s.reqs[r].pc != Done
  {
  }

  lemma {:induction false} AtCursor(s: State)
    requires Shape(s) && s.spc == Scanning && s.el.Some?
    ensures s.pos < |s.list| && s.list[s.pos] == s.el.value && s.el.value in s.reqs && s.holder == Socket
    ensures s.tmp.Some? ==> s.loaded && s.pos + 1 < |s.list| && s.list[s.pos + 1] == s.tmp.value
  {
    hide Distinct, DeleteOk;
  }

  lemma {:induction false} LoadAhead(s: State, r: Rid)
    requires Inv(s) && Ahead(s, r) && Enabled(s, LoadNext)
    ensures Ahead(Apply(s, LoadNext), r)
  {
    AtCursor(s);
    hide Inv;
    if s.pos + 1 >= |s.list| { assert s.list[Min(s.pos + 1, |s.list|)..] == []; }
  }

  /** At `r` the body answers it; elsewhere it goes on. */
  lemma {:induction false} BodyAhead(s: State, r: Rid)
    requires Inv(s) && DistinctKeys(s) && Ahead(s, r) && Enabled(s, SocketBody)
    ensures Awaits(Apply(s, SocketBody), r)
  {
    var x := s.el.value;
    AtCursor(s);
    assert x in s.list;
    SoundIn(s, r);
    SoundIn(s, x);
    NotLocked(s, r);
    NotLocked(s, x);
    assert x != r ==> s.reqs[x].key != s.reqs[r].key;
    hide Inv, Sound, DistinctKeys;
    if x != r {
      PastCursor(s.list, s.pos, r);
      hide Cut;
    }
  }

  predicate ElsewhereAction(a: Action) { OwnAction(a) || a.Start? }

  lemma {:induction false} ElsewhereAhead(s: State, a: Action, r: Rid)
    requires Ahead(s, r) && Enabled(s, a) && ElsewhereAction(a)
    ensures Ahead(Apply(s, a), r)
  {
    if OwnAction(a) {
      OwnStepIs(s, a);
      hide Enabled, Apply;
    }
    PutAhead(s, Apply(s, a), a.r, r);
  }

  /** The other steps cannot be taken while the socket thread scans the list. */
  lemma {:induction false} OthersBlocked(s: State, a: Action)
    requires Shape(s) && s.spc == Scanning && Enabled(s, a)
    ensures ElsewhereAction(a) || a.Append? || a.LoadNext? || a.SocketBody? || a.SocketFinish?
  {
    hide Distinct, DeleteOk, CursorOk;
  }

  lemma {:induction false} StepAwaits(s: State, a: Action, r: Rid)
    requires Inv(s) && DistinctKeys(s) && Awaits(s, r) && Enabled(s, a) && a != SocketFinish
    ensures Awaits(Apply(s, a), r)
  {
    if s.reqs[r].replies == 1 {
      SoundIn(s, r);
      AnsweredIsComplete(s, r);
      hide Inv, Sound, Enabled, Apply, DistinctKeys, Ahead;
      OutcomeStep(s, a, r);
    } else {
      OthersBlocked(s, a);
      hide Inv, DistinctKeys, Enabled, Apply, Ahead;
      match a
      case Append(x) => AppendAhead(s, x, r);
      case LoadNext => LoadAhead(s, r);
      case SocketBody => BodyAhead(s, r);
      case _ => ElsewhereAhead(s, a, r);
    }
  }

  lemma {:induction false} AnsweredIsComplete(s: State, r: Rid)
    requires Sound(s, r) && s.reqs[r].replies == 1
    ensures Completions(s.reqs[r]) == 1
  {
  }

  lemma {:induction false} AwaitsThroughout(ss: seq<State>, acts: seq<Action>, i: nat, j: nat, r: Rid)
    requires IsRun(ss, acts) && |ss| == |acts| + 1 && i < j < |ss| && acts[i] == SocketLockList
    requires r in ss[i].list && r in ss[i].reqs && ss[i].job == Reply(ss[i].reqs[r].key)
    requires forall k :: i < k < j ==> acts[k] != SocketFinish
    ensures Awaits(ss[j], r)
    decreases j
  {
    hide IsRun, Inv, Enabled, Apply, DistinctKeys, Awaits, Ahead;
    RunFacts(ss, acts, j - 1);
    if j == i + 1 {
      StartsAhead(ss[i], r);
      AheadAwaits(ss[j], r);
    } else {
      AwaitsThroughout(ss, acts, i, j - 1, r);
      StepAwaits(ss[j - 1], acts[j - 1], r);
    }
  }

  lemma {:induction false} RunFacts(ss: seq<State>, acts: seq<Action>, k: nat)
    requires IsRun(ss, acts) && k < |ss| - 1
    ensures |ss| == |acts| + 1 && Inv(ss[k]) && DistinctKeys(ss[k]) && Enabled(ss[k], acts[k])
    ensures ss[k + 1] == Apply(ss[k], acts[k])
  {
    RunInvariant(ss, acts, k);
    hide Inv, PassInv, Enabled, Apply, DistinctKeys;
  }

  lemma {:induction false} AheadAwaits(s: State, r: Rid)
    requires Ahead(s, r)
    ensures Awaits(s, r)
  {
  }

  /** In every run: when the traversal for a reply ends, a request that had the reply's key and was
      in the list when the traversal began has been answered, by this reply and once. */
  lemma {:induction false} ReplyAnswers(ss: seq<State>, acts: seq<Action>, i: nat, j: nat, r: Rid)
    requires IsRun(ss, acts) && i < j < |acts| && acts[i] == SocketLockList && acts[j] == SocketFinish
    requires forall k :: i < k < j ==> acts[k] != SocketFinish
    requires r in ss[i].list && r in ss[i].reqs && ss[i].job == Reply(ss[i].reqs[r].key)
    ensures r in ss[j].reqs && ss[j].reqs[r].replies == 1 && ss[j].reqs[r].rc == RETURN_OK && r !in ss[j].list
  {
    AwaitsThroughout(ss, acts, i, j, r);
    assert Enabled(ss[j], SocketFinish);
    RunInvariant(ss, acts, j);
    hide IsRun, Inv, PassInv;
    SoundIn(ss[j], r);
    AnsweredIsComplete(ss[j], r);
    AnsweredIsOk(ss[j], r);
  }

  lemma {:induction false} AnsweredIsOk(s: State, r: Rid)
    requires Sound(s, r) && s.reqs[r].replies == 1
    ensures s.reqs[r].rc == RETURN_OK && r !in s.list
  {
  }
}
