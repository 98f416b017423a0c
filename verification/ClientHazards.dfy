/** What goes wrong in the request tracking where one of its assumptions fails. */
module ClientHazards {
  import opened Common
  import opened ClientTracking
  import opened ClientTrackingProofs
  import opened ClientTheorems

  /** Steps of any threads lead from `s` to `t`, whatever keys are outstanding. */
  ghost predicate Leads(s: State, acts: seq<Action>, t: State)
    decreases |acts|
  {
    if acts == [] then t == s
    else
      var n := |acts| - 1;
      exists m :: Leads(s, acts[..n], m) && Enabled(m, acts[n]) && t == Apply(m, acts[n])
  }

  lemma {:induction false} Extend(s0: State, acts: seq<Action>, s: State, a: Action)
    returns (acts': seq<Action>, s': State)
    requires Leads(s0, acts, s) && Enabled(s, a)
    ensures Leads(s0, acts', s') && s' == Apply(s, a) && acts' == acts + [a]
  {
    acts', s' := acts + [a], Apply(s, a);
    assert acts'[..|acts|] == acts;
  }

  // ---------- walking to an entry ----------

  /** The traversal with body `b` passes every entry before `k`: none has the key it looks for. */
  ghost predicate Passing(s: State, b: Action, k: nat) {
    && k < |s.list| && (forall j :: 0 <= j <= k ==> s.list[j] in s.reqs)
    && match b
       case SocketBody =>
         s.spc == Scanning && s.job.Reply? && forall j :: 0 <= j < k ==> s.reqs[s.list[j]].key != s.job.id
       case DeleteBody(r) =>
         && s.holder == Requester(r) && At(s, r, Deleting)
         && forall j :: 0 <= j < k ==> s.reqs[s.list[j]].key != s.reqs[r].key
       case _ => false
  }

  lemma {:induction false} PassOne(s0: State, acts: seq<Action>, s: State, b: Action, k: nat)
    returns (acts': seq<Action>, s': State)
    requires Leads(s0, acts, s) && Passing(s, b, k) && s.pos < k
    requires s.el == Some(s.list[s.pos]) && !s.loaded && s.tmp == None
    ensures Leads(s0, acts', s') && s' == s.(pos := s.pos + 1, el := Some(s.list[s.pos + 1])) && acts <= acts'
  {
    hide Leads;
    acts', s' := Extend(s0, acts, s, LoadNext);
    acts', s' := Extend(s0, acts', s', b);
  }

  lemma {:induction false} WalkTo(s0: State, acts: seq<Action>, s: State, b: Action, k: nat)
    returns (acts': seq<Action>, s': State)
    requires Leads(s0, acts, s) && Passing(s, b, k) && s.pos <= k
    requires s.el == Some(s.list[s.pos]) && !s.loaded && s.tmp == None
    ensures Leads(s0, acts', s') && s' == s.(pos := k, el := Some(s.list[k])) && acts <= acts'
    decreases k - s.pos
  {
    hide Leads;
    if s.pos == k {
      acts', s' := acts, s;
    } else {
      acts', s' := PassOne(s0, acts, s, b, k);
      acts', s' := WalkTo(s0, acts', s', b, k);
    }
  }

  /** `r` stands at index `k`, and no entry before it shares its key. */
  ghost predicate FirstWithKey(s: State, r: Rid, k: nat) {
    && k < |s.list| && s.list[k] == r && (forall j :: 0 <= j <= k ==> s.list[j] in s.reqs)
    && forall j :: 0 <= j < k ==> s.reqs[s.list[j]].key != s.reqs[r].key
  }

  lemma {:induction false} BeginReply(s0: State, acts: seq<Action>, s: State, r: Rid, k: nat)
    returns (acts': seq<Action>, s': State)
    requires Leads(s0, acts, s) && s.spc == Idle && s.holder == Nobody && FirstWithKey(s, r, k)
    ensures Leads(s0, acts', s') && acts <= acts'
    ensures s' == s.(spc := Scanning, job := Reply(s.reqs[r].key), holder := Socket, el := Some(s.list[0]), tmp := None,
                     loaded := false, pos := 0)
  {
    hide Leads;
    acts', s' := Extend(s0, acts, s, Begin(Reply(s.reqs[r].key)));
    acts', s' := Extend(s0, acts', s', SocketLockList);
  }

  function Answered(e: Entry): Entry { e.(rc := RETURN_OK, replies := e.replies + 1, leaves := e.leaves + 1) }

  /** A reply with the key of `r` takes its entry out of the list. */
  lemma {:induction false} PickUp(s0: State, acts: seq<Action>, s: State, r: Rid, k: nat)
    returns (acts': seq<Action>, s': State)
    requires Leads(s0, acts, s) && s.spc == Idle && s.holder == Nobody && FirstWithKey(s, r, k)
    ensures Leads(s0, acts', s') && acts <= acts'
    ensures s'.reqs == s.reqs[r := Answered(s.reqs[r])] && s'.list == Cut(s.list, k)
    ensures s'.spc == LockReq && s'.el == Some(r) && s'.holder == Socket && s'.job.Reply?
  {
    hide Leads;
    acts', s' := BeginReply(s0, acts, s, r, k);
    acts', s' := WalkTo(s0, acts', s', SocketBody, k);
    acts', s' := Extend(s0, acts', s', LoadNext);
    acts', s' := Extend(s0, acts', s', SocketBody);
  }

  /** In every run, keys are distinct in the list, so an entry is the first with its key. */
  lemma {:induction false} ListedIsFirst(s: State, r: Rid) returns (k: nat)
    requires Inv(s) && DistinctKeys(s) && r in s.list
    ensures FirstWithKey(s, r, k)
    ensures forall j :: 0 <= j < |s.list| && j != k ==>
              s.list[j] in s.reqs && s.list[j] != r && s.reqs[s.list[j]].key != s.reqs[r].key
  {
    k :| 0 <= k < |s.list| && s.list[k] == r;
    forall j | 0 <= j < |s.list|
      ensures s.list[j] in s.reqs && (j != k ==> s.list[j] != r && s.reqs[s.list[j]].key != s.reqs[r].key)
    {
      assert s.list[j] in s.list;
      ListedNotDone(s, s.list[j]);
      ListedNotDone(s, r);
      hide Inv;
    }
  }

  lemma {:induction false} ListedNotDone(s: State, r: Rid)
    requires Inv(s) && r in s.list
    ensures r in s.reqs && s.reqs[r].pc != Done && Distinct(s.list)
  {
    SoundIn(s, r);
    hide Inv;
  }

  // ---------- a send that fails ----------

  /** From every state of every run in which a call is sending, the list lock is free and the
      socket thread idle, the send can fail so that the socket thread then takes up the entry
      although its mutex has been destroyed. */
  lemma {:induction false} FailingSendPickedUp(ss: seq<State>, acts: seq<Action>, i: nat, r: Rid)
    returns (more: seq<Action>, t: State)
    requires IsRun(ss, acts) && i < |ss| && ss[i].spc == Idle && ss[i].holder == Nobody && At(ss[i], r, Sending)
    ensures Leads(ss[i], more, t) && Picked(t, r) && r in t.reqs && MutexDestroyed(t.reqs[r].pc)
    ensures DistinctKeys(t)
  {
    RunInvariant(ss, acts, i);
    assert DistinctKeys(ss[i]);
    hide IsRun, Inv, DistinctKeys;
    more, t := FailureGoesOn(ss[i], r);
  }

  lemma {:induction false} FailureGoesOn(s: State, r: Rid) returns (more: seq<Action>, t: State)
    requires Inv(s) && DistinctKeys(s) && s.spc == Idle && s.holder == Nobody && At(s, r, Sending)
    ensures Leads(s, more, t) && Picked(t, r) && r in t.reqs && MutexDestroyed(t.reqs[r].pc) && DistinctKeys(t)
  {
    hide Inv, DistinctKeys, Sound, Leads;
    SoundIn(s, r);
    SendingIsListed(s, r);
    var k := ListedIsFirst(s, r);
    more, t := SendFails(s, r);
    StillFirst(s, t, r, k);
    hide FirstWithKey;
    more, t := PickUp(s, more, t, r, k);
    assert t.reqs == s.reqs[r := t.reqs[r]];
    SameKeysDistinct(s, t, r);
  }

  lemma {:induction false} StillFirst(s: State, t: State, r: Rid, k: nat)
    requires FirstWithKey(s, r, k) && r in t.reqs && t.reqs == s.reqs[r := t.reqs[r]] && t.reqs[r].key == s.reqs[r].key
    requires s.list <= t.list
    ensures FirstWithKey(t, r, k)
  {
  }

  lemma {:induction false} SendingIsListed(s: State, r: Rid)
    requires Sound(s, r) && s.spc == Idle && At(s, r, Sending)
    ensures r in s.list
  {
  }

  lemma {:induction false} SameKeysDistinct(s: State, t: State, r: Rid)
    requires DistinctKeys(s) && r in s.reqs && r in t.reqs && t.reqs == s.reqs[r := t.reqs[r]]
    requires t.reqs[r].key == s.reqs[r].key && s.reqs[r].pc != Done
    ensures DistinctKeys(t)
  {
  }

  lemma {:induction false} SendFails(s: State, r: Rid) returns (more: seq<Action>, t: State)
    requires At(s, r, Sending)
    ensures Leads(s, more, t) && t == Put(s, r, s.reqs[r].(pc := WantList, failed := true, own := Free))
  {
    assert Leads(s, [], s);
    DoesSendFail(s, r);
    hide Leads, Enabled, Apply;
    more, t := Extend(s, [], s, SendFail(r));
    more, t := Cleans(s, more, t, r);
    PutTwice(s, r, s.reqs[r].(pc := Failed, failed := true), t.reqs[r]);
  }

  lemma {:induction false} DoesSendFail(s: State, r: Rid)
    requires At(s, r, Sending)
    ensures Enabled(s, SendFail(r)) && Apply(s, SendFail(r)) == Put(s, r, s.reqs[r].(pc := Failed, failed := true))
  {
  }

  lemma {:induction false} PutTwice(s: State, r: Rid, e: Entry, f: Entry)
    ensures Put(Put(s, r, e), r, f) == Put(s, r, f)
  {
    assert s.reqs[r := e][r := f] == s.reqs[r := f];
  }

  /** A call that is over unlocks and destroys its mutex. */
  lemma {:induction false} Cleans(s0: State, acts: seq<Action>, s: State, r: Rid)
    returns (acts': seq<Action>, s': State)
    requires Leads(s0, acts, s) && (At(s, r, Failed) || At(s, r, Returning))
    ensures Leads(s0, acts', s') && acts <= acts' && s' == Put(s, r, s.reqs[r].(pc := WantList, own := Free))
  {
    hide Leads, Enabled, Apply;
    DoesUnlock(s, r);
    acts', s' := Extend(s0, acts, s, Unlock(r));
    DoesDestroy(s', r);
    PutTwice(s, r, s'.reqs[r], s.reqs[r].(pc := WantList, own := Free));
    acts', s' := Extend(s0, acts', s', Destroy(r));
  }

  lemma {:induction false} DoesUnlock(s: State, r: Rid)
    requires At(s, r, Failed) || At(s, r, Returning)
    ensures Enabled(s, Unlock(r)) && Apply(s, Unlock(r)) == Put(s, r, s.reqs[r].(pc := Unlocked, own := Free))
  {
  }

  lemma {:induction false} DoesDestroy(s: State, r: Rid)
    requires At(s, r, Unlocked)
    ensures Enabled(s, Destroy(r)) && Apply(s, Destroy(r)) == Put(s, r, s.reqs[r].(pc := WantList))
  {
  }

  // ---------- two requests with one key ----------

  /** A request that waits for a signal nobody is left to give. */
  predicate Abandoned(s: State, r: Rid) {
    r in s.reqs && s.reqs[r].pc == Waiting && r !in s.list && s.el != Some(r) && s.tmp != Some(r)
  }

  lemma {:induction false} AbandonedStep(s: State, a: Action, r: Rid)
    requires Abandoned(s, r) && Enabled(s, a)
    ensures Abandoned(Apply(s, a), r)
  {
    if OwnAction(a) {
      OwnStepIs(s, a);
      hide Enabled, Apply;
    } else if ServingAction(a) {
      AbandonedServing(s, a, r);
    } else if ControlAction(a) {
      AbandonedControl(s, a, r);
    } else if a.SocketBody? {
      VisitIs(s);
      hide Enabled, VisitEntry, VisitEffect;
    } else if a.DeleteBody? {
      AbandonedDelete(s, a.r, r);
    } else {
      AbandonedPut(s, a, r);
    }
  }

  lemma {:induction false} AbandonedServing(s: State, a: Action, r: Rid)
    requires Abandoned(s, r) && Enabled(s, a) && ServingAction(a)
    ensures Abandoned(Apply(s, a), r)
  {
  }

  lemma {:induction false} AbandonedControl(s: State, a: Action, r: Rid)
    requires Abandoned(s, r) && Enabled(s, a) && ControlAction(a)
    ensures Abandoned(Apply(s, a), r)
  {
  }

  lemma {:induction false} AbandonedDelete(s: State, q: Rid, r: Rid)
    requires Abandoned(s, r) && Enabled(s, DeleteBody(q))
    ensures Abandoned(Apply(s, DeleteBody(q)), r)
  {
  }

  lemma {:induction false} AbandonedPut(s: State, a: Action, r: Rid)
    requires Abandoned(s, r) && Enabled(s, a) && (a.Start? || a.Append? || a.LockList? || a.UnlockList?)
    ensures Abandoned(Apply(s, a), r)
  {
  }

  /** Such a request waits forever, whatever all the threads do. */
  lemma {:induction false} AbandonedForever(s: State, acts: seq<Action>, t: State, r: Rid)
    requires Abandoned(s, r) && Leads(s, acts, t)
    ensures Abandoned(t, r)
    decreases |acts|
  {
    hide Abandoned, Enabled, Apply;
    if acts != [] {
      var n := |acts| - 1;
      var m :| Leads(s, acts[..n], m) && Enabled(m, acts[n]) && t == Apply(m, acts[n]);
      AbandonedForever(s, acts[..n], m, r);
      AbandonedStep(m, acts[n], r);
    }
  }

  /** From every state of every run in which a call waits, the list lock is free and the socket
      thread idle, a new call with the same key can end up waiting forever: the reply goes to the
      first call, whose clean-up then removes the second call's entry. */
  lemma {:induction false} SharedKeyAbandons(ss: seq<State>, acts: seq<Action>, i: nat, r: Rid, q: Rid, budget: int)
    returns (more: seq<Action>, t: State)
    requires IsRun(ss, acts) && i < |ss| && ss[i].spc == Idle && ss[i].holder == Nobody
    requires At(ss[i], r, Waiting) && q !in ss[i].reqs && 40 <= budget <= 480
    ensures Leads(ss[i], more, t) && Abandoned(t, q)
    ensures more != [] && more[0] == Start(q, ss[i].reqs[r].key, budget)
  {
    RunInvariant(ss, acts, i);
    assert DistinctKeys(ss[i]);
    hide IsRun, Inv, DistinctKeys, Abandoned, Leads;
    more, t := SharingGoesOn(ss[i], r, q, budget);
  }

  lemma {:induction false} SharingGoesOn(s: State, r: Rid, q: Rid, budget: int) returns (more: seq<Action>, t: State)
    requires Inv(s) && DistinctKeys(s) && s.spc == Idle && s.holder == Nobody
    requires At(s, r, Waiting) && q !in s.reqs && 40 <= budget <= 480
    ensures Leads(s, more, t) && Abandoned(t, q) && more != [] && more[0] == Start(q, s.reqs[r].key, budget)
  {
    hide Inv, DistinctKeys, Sound, Leads, Abandoned;
    SoundIn(s, r);
    WaitingIsListed(s, r);
    var k := ListedIsFirst(s, r);
    ListedNotDone(s, r);
    var acts, u := SecondCall(s, r, q, budget, k);
    more, t := PickUp(s, acts, u, r, k);
    more, t := FirstReturns(s, more, t, r);
    OnlySecondLeft(s, t, r, q, k);
    hide FirstWithKey, Put, Cut;
    more, t := SecondDeleted(s, more, t, r, q);
  }

  lemma {:induction false} OnlySecondLeft(s: State, t: State, r: Rid, q: Rid, k: nat)
    requires k < |s.list| && q !in s.list && q !in s.reqs && r in s.reqs && Distinct(s.list)
             && t.list == Cut(s.list + [q], k)
    requires forall j :: 0 <= j < |s.list| && j != k ==>
               s.list[j] in s.reqs && s.list[j] != r && s.reqs[s.list[j]].key != s.reqs[r].key
    requires q in t.reqs && r in t.reqs && t.reqs[q].key == t.reqs[r].key == s.reqs[r].key
    requires forall x :: x in s.reqs && x != r ==> x in t.reqs && t.reqs[x] == s.reqs[x]
    ensures t.list != [] && FirstWithKey(t, q, |t.list| - 1) && Distinct(t.list)
  {
    CutTail(s, q, k);
    hide Cut;
  }

  lemma {:induction false} WaitingIsListed(s: State, r: Rid)
    requires Sound(s, r) && s.spc == Idle && At(s, r, Waiting)
    ensures r in s.list && s.reqs[r].own == Free
  {
  }

  lemma {:induction false} SecondCall(s: State, r: Rid, q: Rid, budget: int, k: nat)
    returns (more: seq<Action>, t: State)
    requires FirstWithKey(s, r, k) && q !in s.reqs && 40 <= budget <= 480
    ensures Leads(s, more, t) && more != [] && more[0] == Start(q, s.reqs[r].key, budget)
    ensures q in t.reqs && t == Put(s, q, t.reqs[q]).(list := s.list + [q])
    ensures t.reqs[q].pc == Waiting && t.reqs[q].key == s.reqs[r].key && FirstWithKey(t, r, k)
  {
    var e := Entry(s.reqs[r].key, Locked, ByRequester, RETURN_ERR, budget, false, budget, 0, 0, 0, 0, 0, 0, false);
    assert Leads(s, [], s);
    DoesStart(s, q, e);
    hide Leads, Enabled, Apply;
    more, t := Extend(s, [], s, Start(q, e.key, budget));
    more, t := Sends(s, more, t, q);
    PutTwice(s, q, e, t.reqs[q]);
  }

  lemma {:induction false} DoesStart(s: State, q: Rid, e: Entry)
    requires q !in s.reqs && 40 <= e.budget <= 480
    requires e == Entry(e.key, Locked, ByRequester, RETURN_ERR, e.budget, false, e.budget, 0, 0, 0, 0, 0, 0, false)
    ensures Enabled(s, Start(q, e.key, e.budget)) && Apply(s, Start(q, e.key, e.budget)) == Put(s, q, e)
  {
  }

  /** A call appends its entry and sends. */
  lemma {:induction false} Sends(s0: State, acts: seq<Action>, s: State, q: Rid) returns (acts': seq<Action>, s': State)
    requires Leads(s0, acts, s) && At(s, q, Locked)
    ensures Leads(s0, acts', s') && acts <= acts'
    ensures q in s'.reqs && s' == Put(s, q, s'.reqs[q]).(list := s.list + [q])
    ensures s'.reqs[q].pc == Waiting && s'.reqs[q].key == s.reqs[q].key
  {
    hide Leads, Enabled, Apply;
    DoesAppend(s, q);
    acts', s' := Extend(s0, acts, s, Append(q));
    DoesSendOk(s', q);
    PutTwice(s, q, s'.reqs[q], s'.reqs[q].(pc := Waiting, own := Free));
    acts', s' := Extend(s0, acts', s', SendOk(q));
  }

  lemma {:induction false} DoesAppend(s: State, q: Rid)
    requires At(s, q, Locked)
    ensures Enabled(s, Append(q))
    ensures Apply(s, Append(q)) == Put(s, q, s.reqs[q].(pc := Sending, birth := s.passes)).(list := s.list + [q])
  {
  }

  lemma {:induction false} DoesSendOk(s: State, q: Rid)
    requires At(s, q, Sending)
    ensures Enabled(s, SendOk(q)) && Apply(s, SendOk(q)) == Put(s, q, s.reqs[q].(pc := Waiting, own := Free))
  {
  }

  /** Without `r`, the new entry is the only one left with the key, at the end of the list. */
  lemma {:induction false} CutTail(s: State, q: Rid, k: nat)
    requires k < |s.list|
    ensures var c := Cut(s.list + [q], k);
            && |c| == |s.list| && c[|c| - 1] == q
            && forall j :: 0 <= j < |c| - 1 ==> c[j] == s.list[if j < k then j else j + 1]
  {
  }

  /** The reply is signalled to `r`, which returns from its wait and asks for the list lock. */
  lemma {:induction false} FirstReturns(s0: State, acts: seq<Action>, s: State, r: Rid)
    returns (acts': seq<Action>, s': State)
    requires Leads(s0, acts, s) && s.spc == LockReq && s.el == Some(r) && s.job.Reply?
    requires At(s, r, Waiting) && s.reqs[r].own == Free
    ensures Leads(s0, acts', s') && acts <= acts'
    ensures s'.reqs == s.reqs[r := s.reqs[r].(pc := WantList)] && s'.list == s.list && s'.holder == Nobody
  {
    hide Leads, Enabled, Apply;
    acts', s' := Signals(s0, acts, s, r);
    DoesWake(s', r);
    acts', s' := Extend(s0, acts', s', Wake(r));
    acts', s' := Cleans(s0, acts', s', r);
  }

  lemma {:induction false} DoesWake(s: State, r: Rid)
    requires At(s, r, Signalled) && s.reqs[r].own == Free
    ensures Enabled(s, Wake(r)) && Apply(s, Wake(r)) == Put(s, r, s.reqs[r].(pc := Returning, own := ByRequester))
  {
  }

  /** The states in which the socket thread signals `r` a reply. */
  function AtStage(s: State, r: Rid, own: Owner, pc: Pc, spc: SocketPc): State
    requires r in s.reqs
  {
    Put(s, r, s.reqs[r].(own := own, pc := pc)).(spc := spc, el := Some(r))
  }

  lemma {:induction false} DoesLockReq(s: State, r: Rid)
    requires At(s, r, Waiting)
    ensures var t := AtStage(s, r, Free, Waiting, LockReq);
            Enabled(t, SocketLockReq) && Apply(t, SocketLockReq) == AtStage(s, r, BySocket, Waiting, Signal)
  {
    PutTwice(s, r, s.reqs[r].(own := Free), s.reqs[r].(own := BySocket));
  }

  lemma {:induction false} DoesSignal(s: State, r: Rid)
    requires At(s, r, Waiting)
    ensures var t := AtStage(s, r, BySocket, Waiting, Signal);
            Enabled(t, SocketSignal) && Apply(t, SocketSignal) == AtStage(s, r, BySocket, Signalled, UnlockReq)
  {
    PutTwice(s, r, s.reqs[r].(own := BySocket), s.reqs[r].(own := BySocket, pc := Signalled));
  }

  lemma {:induction false} DoesUnlockReq(s: State, r: Rid)
    requires At(s, r, Waiting) && s.job.Reply?
    ensures var t := AtStage(s, r, BySocket, Signalled, UnlockReq);
            && Enabled(t, SocketUnlockReq)
            && Apply(t, SocketUnlockReq)
               == AtStage(s, r, Free, Signalled, Scanning).(el := None, tmp := None, loaded := false)
  {
    PutTwice(s, r, s.reqs[r].(own := BySocket, pc := Signalled), s.reqs[r].(own := Free, pc := Signalled));
  }

  /** The state in which the reply has been signalled and the socket thread is idle again. */
  function Served(s: State, r: Rid): State
    requires r in s.reqs
  {
    Put(s, r, s.reqs[r].(own := Free, pc := Signalled))
      .(spc := Idle, holder := Nobody, el := None, tmp := None, loaded := false)
  }

  lemma {:induction false} DoesFinish(s: State, r: Rid)
    requires At(s, r, Waiting)
    ensures var t := AtStage(s, r, Free, Signalled, Scanning).(el := None, tmp := None, loaded := false);
            Enabled(t, SocketFinish) && Apply(t, SocketFinish) == Served(s, r)
  {
  }

  lemma {:induction false} SignalStarts(s: State, r: Rid)
    requires s.spc == LockReq && s.el == Some(r) && At(s, r, Waiting) && s.reqs[r].own == Free
    ensures s == AtStage(s, r, Free, Waiting, LockReq)
  {
    assert s.reqs[r := s.reqs[r]] == s.reqs;
  }

  lemma {:induction false} Signals(s0: State, acts: seq<Action>, s: State, r: Rid)
    returns (acts': seq<Action>, s': State)
    requires Leads(s0, acts, s) && s.spc == LockReq && s.el == Some(r) && s.job.Reply?
    requires At(s, r, Waiting) && s.reqs[r].own == Free
    ensures Leads(s0, acts', s') && acts <= acts' && s' == Served(s, r)
  {
    hide Leads, Enabled, Apply, AtStage, Served;
    SignalStarts(s, r);
    DoesLockReq(s, r);
    acts', s' := Extend(s0, acts, s, SocketLockReq);
    DoesSignal(s, r);
    acts', s' := Extend(s0, acts', s', SocketSignal);
    DoesUnlockReq(s, r);
    acts', s' := Extend(s0, acts', s', SocketUnlockReq);
    DoesFinish(s, r);
    acts', s' := Extend(s0, acts', s', SocketFinish);
  }

  lemma {:induction false} SecondDeleted(s0: State, acts: seq<Action>, s: State, r: Rid, q: Rid)
    returns (acts': seq<Action>, s': State)
    requires Leads(s0, acts, s) && At(s, r, WantList) && s.holder == Nobody && At(s, q, Waiting)
    requires s.list != [] && FirstWithKey(s, q, |s.list| - 1)
    requires s.reqs[r].key == s.reqs[q].key && r != q && Distinct(s.list)
    ensures Leads(s0, acts', s') && acts <= acts' && Abandoned(s', q)
  {
    hide Leads, Enabled, Apply, Abandoned, Distinct;
    DoesLockList(s, r);
    acts', s' := Extend(s0, acts, s, LockList(r));
    acts', s' := WalkTo(s0, acts', s', DeleteBody(r), |s.list| - 1);
    hide FirstWithKey;
    acts', s' := DeletesLast(s0, acts', s', r, q);
  }

  lemma {:induction false} DoesLockList(s: State, r: Rid)
    requires At(s, r, WantList) && s.holder == Nobody
    ensures Enabled(s, LockList(r))
    ensures Apply(s, LockList(r)) == Put(s, r, s.reqs[r].(pc := Deleting))
              .(holder := Requester(r), el := Front(s.list), tmp := None, loaded := false, pos := 0)
  {
  }

  /** The clean-up of `r` stands at the entry of `q` and takes it for its own. */
  lemma {:induction false} DeletesLast(s0: State, acts: seq<Action>, s: State, r: Rid, q: Rid)
    returns (acts': seq<Action>, s': State)
    requires Leads(s0, acts, s) && At(s, r, Deleting) && s.holder == Requester(r) && At(s, q, Waiting)
    requires s.list != [] && s.pos == |s.list| - 1 && s.list[s.pos] == q && s.el == Some(q) && !s.loaded
    requires s.reqs[r].key == s.reqs[q].key && r != q && Distinct(s.list)
    ensures Leads(s0, acts', s') && acts <= acts' && Abandoned(s', q)
  {
    hide Leads;
    acts', s' := Extend(s0, acts, s, LoadNext);
    acts', s' := Extend(s0, acts', s', DeleteBody(r));
  }
}
