/** Every step keeps the invariant of the request-tracking protocol. */
module ClientTrackingProofs {
  import opened Common
  import opened ClientTracking

  lemma {:induction false} CutMembers(list: seq<Rid>, i: nat)
    requires i < |list| && Distinct(list)
    ensures Distinct(Cut(list, i))
    ensures forall r :: r in Cut(list, i) <==> r in list && r != list[i]
    ensures forall j :: 0 <= j < |list| - 1 ==> Cut(list, i)[j] == if j < i then list[j] else list[j + 1]
  {
    var c := Cut(list, i);
    forall r | r in list && r != list[i] ensures r in c {
      var j :| 0 <= j < |list| && list[j] == r;
      assert c[if j < i then j else j - 1] == r;
    }
  }

  // ---------- one entry changes, the others cannot tell ----------

  /** Only entry `r` may differ, and no other entry can tell the two states apart. */
  ghost predicate OnlyTouches(s: State, t: State, r: Rid) {
    && r in t.reqs && t.reqs == s.reqs[r := t.reqs[r]]
    && (forall q :: q in s.reqs && q != r ==>
          && (q in t.list <==> q in s.list)
          && Stage(t, q) == Stage(s, q)
          && (t.holder == Requester(q) <==> s.holder == Requester(q)))
  }

  ghost predicate Sound(s: State, r: Rid) {
    r in s.reqs && EntryOk(s.reqs[r]) && TicksOk(s.reqs[r]) && LinkOk(s, r)
  }

  lemma {:induction false} OthersKept(s: State, t: State, r: Rid)
    requires Inv(s) && OnlyTouches(s, t, r) && Sound(t, r) && Shape(t)
    ensures Inv(t)
  {
    hide EntryOk, TicksOk, LinkFacts, Shape, Stage;
    forall q | q in t.reqs && q != r ensures EntryOk(t.reqs[q]) && TicksOk(t.reqs[q]) && LinkOk(t, q) {
      assert LinkOk(s, q);
    }
  }

  lemma {:induction false} SoundIn(s: State, r: Rid)
    requires Inv(s) && r in s.reqs
    ensures Sound(s, r)
  {
    hide EntryOk, TicksOk, LinkFacts, Shape, Stage;
    assert LinkOk(s, r);
  }

  /** Changing a single entry outside the holder's reach. */
  lemma {:induction false} PutKeeps(s: State, r: Rid, e: Entry)
    requires Inv(s) && s.holder != Requester(r)
    requires Sound(Put(s, r, e), r)
    ensures Inv(Put(s, r, e))
  {
    hide Shape, Sound;
    PutShape(s, r, e);
    OthersKept(s, Put(s, r, e), r);
  }

  lemma {:induction false} PutShape(s: State, r: Rid, e: Entry)
    requires Shape(s) && s.holder != Requester(r)
    ensures Shape(Put(s, r, e))
  {
    assert Traversing(Put(s, r, e)) == Traversing(s);
  }

  // ---------- steps of a requester on its own entry ----------

  predicate OwnAction(a: Action) {
    a.SendOk? || a.SendFail? || a.Wake? || a.Unlock? || a.Destroy? || a.Release?
  }

  /** What these steps do to the entry. */
  predicate OwnEffect(e: Entry, f: Entry) {
    || (e.pc == Sending && f == e.(pc := Waiting, own := Free))
    || (e.pc == Sending && f == e.(pc := Failed, failed := true))
    || (e.pc == Signalled && e.own == Free && f == e.(pc := Returning, own := ByRequester))
    || ((e.pc == Returning || e.pc == Failed) && f == e.(pc := Unlocked, own := Free))
    || (e.pc == Unlocked && f == e.(pc := WantList))
    || (e.pc == Freeing && f == e.(pc := Done))
  }

  lemma {:induction false} OwnEffectOk(e: Entry, f: Entry, listed: bool, stage: SocketPc, holds: bool)
    requires EntryOk(e) && TicksOk(e) && LinkFacts(e, listed, stage, holds) && OwnEffect(e, f)
    ensures EntryOk(f) && TicksOk(f) && LinkFacts(f, listed, stage, holds) && !holds
  {
  }

  lemma {:induction false} OwnStepIs(s: State, a: Action)
    requires Enabled(s, a) && OwnAction(a)
    ensures a.r in s.reqs && a.r in Apply(s, a).reqs && Apply(s, a) == Put(s, a.r, Apply(s, a).reqs[a.r])
    ensures OwnEffect(s.reqs[a.r], Apply(s, a).reqs[a.r])
  {
  }

  lemma {:induction false} OwnSteps(s: State, a: Action)
    requires Inv(s) && Enabled(s, a) && OwnAction(a)
    ensures Inv(Apply(s, a))
  {
    OwnStepIs(s, a);
    hide Enabled, Apply, Shape, EntryOk, TicksOk, LinkFacts, OwnEffect;
    var r, f := a.r, Apply(s, a).reqs[a.r];
    assert LinkOk(s, r);
    OwnEffectOk(s.reqs[r], f, r in s.list, Stage(s, r), s.holder == Requester(r));
    PutKeeps(s, r, f);
  }

  // ---------- a new call, and its append ----------

  lemma {:induction false} StartStep(s: State, r: Rid, key: int, budget: int)
    requires Inv(s) && Enabled(s, Start(r, key, budget))
    ensures Inv(Apply(s, Start(r, key, budget)))
  {
    StartEntry(s, r, key, budget);
    hide Shape, Sound;
    var t := Apply(s, Start(r, key, budget));
    PutShape(s, r, t.reqs[r]);
    OthersKept(s, t, r);
  }

  lemma {:induction false} StartEntry(s: State, r: Rid, key: int, budget: int)
    requires Shape(s) && Enabled(s, Start(r, key, budget))
    ensures Sound(Apply(s, Start(r, key, budget)), r) && s.holder != Requester(r)
  {
  }

  lemma {:induction false} AppendStep(s: State, r: Rid)
    requires Inv(s) && Enabled(s, Append(r))
    ensures Inv(Apply(s, Append(r)))
  {
    SoundIn(s, r);
    AppendShape(s, r);
    AppendTouches(s, r);
    hide Inv, Shape, Sound, OnlyTouches, Enabled, Apply;
    OthersKept(s, Apply(s, Append(r)), r);
  }

  lemma {:induction false} AppendTouches(s: State, r: Rid)
    requires Sound(s, r) && Enabled(s, Append(r))
    ensures Sound(Apply(s, Append(r)), r) && OnlyTouches(s, Apply(s, Append(r)), r)
  {
    hide EntryOk, TicksOk, LinkFacts;
    AppendEntry(s.reqs[r], s.passes, r in s.list, Stage(s, r), s.holder == Requester(r));
  }

  lemma {:induction false} AppendEntry(e: Entry, passes: nat, listed: bool, stage: SocketPc, holds: bool)
    requires EntryOk(e) && TicksOk(e) && LinkFacts(e, listed, stage, holds) && e.pc == Locked
    ensures var f := e.(pc := Sending, birth := passes);
            EntryOk(f) && TicksOk(f) && LinkFacts(f, true, stage, holds)
  {
  }

  lemma {:induction false} AppendShape(s: State, r: Rid)
    requires Shape(s) && Sound(s, r) && Enabled(s, Append(r))
    ensures Shape(Apply(s, Append(r)))
  {
    hide EntryOk, TicksOk;
    var t := Apply(s, Append(r));
    assert r !in s.list && s.holder != Requester(r);
    hide LinkFacts, Sound;
    assert Traversing(t) == Traversing(s);
    assert forall i :: 0 <= i < |s.list| ==> t.list[i] == s.list[i];
    AppendDeleteOk(s, r, t);
  }

  lemma {:induction false} AppendDeleteOk(s: State, r: Rid, t: State)
    requires DeleteOk(s) && CursorOk(s) && s.holder != Requester(r) && r in s.reqs
    requires s.holder.Requester? ==> s.holder.r in s.reqs
    requires t.reqs.Keys == s.reqs.Keys && forall q :: q in s.reqs && q != r ==> t.reqs[q] == s.reqs[q]
    requires t == s.(reqs := t.reqs, list := s.list + [r])
    ensures DeleteOk(t)
  {
    if s.holder.Requester? && At(s, s.holder.r, Deleting) && s.reqs[s.holder.r].leaves == 0 {
      assert s.pos < |s.list|;
      assert t.list[..s.pos] == s.list[..s.pos];
      assert t.list[s.pos + 1..] == s.list[s.pos + 1..] + [r];
    }
  }

  // ---------- the clean-up under the list lock ----------

  lemma {:induction false} LockListStep(s: State, r: Rid)
    requires Inv(s) && Enabled(s, LockList(r))
    ensures Inv(Apply(s, LockList(r)))
  {
    SoundIn(s, r);
    LockListShape(s, r);
    LockListTouches(s, r);
    hide Inv, Shape, Sound, OnlyTouches, Enabled, Apply;
    OthersKept(s, Apply(s, LockList(r)), r);
  }

  lemma {:induction false} LockListTouches(s: State, r: Rid)
    requires Shape(s) && Sound(s, r) && Enabled(s, LockList(r))
    ensures Sound(Apply(s, LockList(r)), r) && OnlyTouches(s, Apply(s, LockList(r)), r)
  {
    assert !Away(s.spc);
    hide Shape, EntryOk, TicksOk, LinkFacts;
    LockListEntry(s.reqs[r], r in s.list, Stage(s, r), s.holder == Requester(r));
  }

  lemma {:induction false} LockListEntry(e: Entry, listed: bool, stage: SocketPc, holds: bool)
    requires EntryOk(e) && TicksOk(e) && LinkFacts(e, listed, stage, holds) && e.pc == WantList && !Away(stage)
    ensures var f := e.(pc := Deleting);
            EntryOk(f) && TicksOk(f) && LinkFacts(f, listed, stage, true)
  {
  }

  lemma {:induction false} LockListShape(s: State, r: Rid)
    requires Shape(s) && Sound(s, r) && Enabled(s, LockList(r))
    ensures Shape(Apply(s, LockList(r)))
  {
    hide EntryOk, TicksOk;
    assert s.reqs[r].leaves == 0 ==> r in s.list;
    hide LinkFacts, Sound;
    assert s.list[..0] == [];
  }

  lemma {:induction false} UnlockListStep(s: State, r: Rid)
    requires Inv(s) && Enabled(s, UnlockList(r))
    ensures Inv(Apply(s, UnlockList(r)))
  {
    SoundIn(s, r);
    UnlockListShape(s, r);
    UnlockListTouches(s, r);
    hide Inv, Shape, Sound, OnlyTouches, Enabled, Apply;
    OthersKept(s, Apply(s, UnlockList(r)), r);
  }

  lemma {:induction false} UnlockListTouches(s: State, r: Rid)
    requires Sound(s, r) && Enabled(s, UnlockList(r))
    ensures Sound(Apply(s, UnlockList(r)), r) && OnlyTouches(s, Apply(s, UnlockList(r)), r)
  {
    hide EntryOk, TicksOk, LinkFacts;
    UnlockListEntry(s.reqs[r], r in s.list, Stage(s, r), s.holder == Requester(r));
  }

  lemma {:induction false} UnlockListShape(s: State, r: Rid)
    requires Shape(s) && Enabled(s, UnlockList(r))
    ensures Shape(Apply(s, UnlockList(r)))
  {
    hide Distinct;
  }

  lemma {:induction false} UnlockListEntry(e: Entry, listed: bool, stage: SocketPc, holds: bool)
    requires EntryOk(e) && TicksOk(e) && LinkFacts(e, listed, stage, holds) && e.pc == Leaving
    ensures var f := e.(pc := Freeing);
            EntryOk(f) && TicksOk(f) && LinkFacts(f, listed, stage, false)
  {
  }

  /** With distinct keys, `request_delete_cb` finds its own entry and no other. */
  lemma {:induction false} DeletesOwnEntry(s: State, r: Rid)
    requires Inv(s) && Enabled(s, DeleteBody(r)) && DistinctKeys(s) && s.el.Some?
    requires s.reqs[s.el.value].key == s.reqs[r].key
    ensures s.el.value == r && s.reqs[r].leaves == 0 && s.list[s.pos] == r
  {
    var x := s.el.value;
    assert s.list[s.pos] == x && x in s.list;
    SoundIn(s, x);
    hide Shape;
  }

  lemma {:induction false} DeleteStep(s: State, r: Rid)
    requires Inv(s) && Enabled(s, DeleteBody(r)) && DistinctKeys(s)
    ensures Inv(Apply(s, DeleteBody(r)))
  {
    hide Inv, DistinctKeys, Apply;
    if s.el == None {
      DeleteMissing(s, r);
    } else if s.reqs[s.el.value].key == s.reqs[r].key {
      DeleteFound(s, r);
    } else {
      DeleteGoesOn(s, r);
    }
  }

  lemma {:induction false} DeleteGoesOn(s: State, r: Rid)
    requires Inv(s) && Enabled(s, DeleteBody(r)) && s.el.Some? && s.reqs[s.el.value].key != s.reqs[r].key
    ensures Inv(Apply(s, DeleteBody(r)))
  {
    SoundIn(s, r);
    DeleteSkips(s, r);
    HolderTellsSocket(s, r);
    hide Shape, EntryOk, TicksOk, LinkFacts;
    OthersKept(s, Apply(s, DeleteBody(r)), r);
  }

  lemma {:induction false} HolderTellsSocket(s: State, r: Rid)
    requires Shape(s) && s.holder == Requester(r)
    ensures s.spc != Scanning && !Away(s.spc)
  {
  }

  lemma {:induction false} DeleteMissing(s: State, r: Rid)
    requires Inv(s) && Enabled(s, DeleteBody(r)) && s.el == None
    ensures Inv(Apply(s, DeleteBody(r)))
  {
    SoundIn(s, r);
    assert s.reqs[r].leaves == 1;
    LeavingEntry(s.reqs[r], s.reqs[r].(pc := Leaving), r in s.list, Stage(s, r), true);
    hide Shape, EntryOk, TicksOk, LinkFacts;
    DeleteEnds(s, s, r, s.reqs[r].(pc := Leaving));
  }

  lemma {:induction false} DeleteFound(s: State, r: Rid)
    requires Inv(s) && Enabled(s, DeleteBody(r)) && DistinctKeys(s)
    requires s.el.Some? && s.reqs[s.el.value].key == s.reqs[r].key
    ensures Inv(Apply(s, DeleteBody(r)))
  {
    DeletesOwnEntry(s, r);
    SoundIn(s, r);
    hide DistinctKeys;
    CutMembers(s.list, s.pos);
    var t := s.(list := Cut(s.list, s.pos), el := None, tmp := None, loaded := false);
    var e := s.reqs[r].(pc := Leaving, leaves := 1);
    LeavingEntry(s.reqs[r], e, r in s.list, Stage(s, r), true);
    FoundIs(s, t, r, e);
    assert Distinct(t.list) && forall q :: q in t.list ==> q in s.reqs;
    hide Shape, EntryOk, TicksOk, LinkFacts, Apply, Enabled, Distinct, Cut;
    DeleteEnds(s, t, r, e);
  }

  lemma {:induction false} FoundIs(s: State, t: State, r: Rid, e: Entry)
    requires Enabled(s, DeleteBody(r)) && s.el == Some(r) && s.reqs[r].leaves == 0
    requires t == s.(list := Cut(s.list, s.pos), el := None, tmp := None, loaded := false)
    requires e == s.reqs[r].(pc := Leaving, leaves := 1)
    ensures Apply(s, DeleteBody(r)) == Put(t, r, e)
  {
    assert Apply(s, DeleteBody(r)).reqs == Put(t, r, e).reqs;
  }

  lemma {:induction false} LeavingEntry(e: Entry, f: Entry, listed: bool, stage: SocketPc, holds: bool)
    requires EntryOk(e) && TicksOk(e) && LinkFacts(e, listed, stage, holds) && e.pc == Deleting
    requires f == e.(pc := Leaving, leaves := 1)
    ensures EntryOk(f) && TicksOk(f) && LinkFacts(f, false, stage, holds) && !Away(stage)
  {
  }

  /** The traversal of `request_delete_cb` ends; its entry is no longer in the list. */
  lemma {:induction false} DeleteEnds(s: State, t: State, r: Rid, e: Entry)
    requires Inv(s) && At(s, r, Deleting) && s.holder == Requester(r)
    requires t == s.(list := t.list, el := None, tmp := t.tmp, loaded := t.loaded) && (t.tmp == s.tmp || t.tmp == None)
    requires Distinct(t.list) && r !in t.list && forall q :: q in s.reqs && q != r ==> (q in t.list <==> q in s.list)
    requires forall q :: q in t.list ==> q in s.reqs
    requires e.pc == Leaving && EntryOk(e) && TicksOk(e) && LinkFacts(e, false, Stage(s, r), true)
    ensures Inv(Put(t, r, e))
  {
    HolderTellsSocket(s, r);
    DeleteEndsShape(s, t, r, e);
    DeleteEndsTouches(s, t, r, e);
    hide Inv, Shape, Sound, OnlyTouches, Put;
    OthersKept(s, Put(t, r, e), r);
  }

  lemma {:induction false} DeleteEndsTouches(s: State, t: State, r: Rid, e: Entry)
    requires r in s.reqs && s.holder == Requester(r) && !Away(s.spc)
    requires t == s.(list := t.list, el := None, tmp := t.tmp, loaded := t.loaded)
    requires r !in t.list && forall q :: q in s.reqs && q != r ==> (q in t.list <==> q in s.list)
    requires EntryOk(e) && TicksOk(e) && LinkFacts(e, false, Stage(s, r), true)
    ensures Sound(Put(t, r, e), r) && OnlyTouches(s, Put(t, r, e), r)
  {
    hide EntryOk, TicksOk, LinkFacts;
  }

  lemma {:induction false} DeleteEndsShape(s: State, t: State, r: Rid, e: Entry)
    requires Shape(s) && s.holder == Requester(r) && e.pc == Leaving
    requires t == s.(list := t.list, el := None, tmp := t.tmp, loaded := t.loaded) && (t.tmp == s.tmp || t.tmp == None)
    requires Distinct(t.list) && forall q :: q in t.list ==> q in s.reqs
    ensures Shape(Put(t, r, e))
  {
    hide Distinct;
  }

  lemma {:induction false} DeleteSkips(s: State, r: Rid)
    requires Shape(s) && Sound(s, r) && Enabled(s, DeleteBody(r)) && s.el.Some?
             && s.reqs[s.el.value].key != s.reqs[r].key
    ensures Shape(Apply(s, DeleteBody(r)))
  {
    assert s.list[s.pos] == s.el.value != r;
    if s.reqs[r].leaves == 0 {
      PastCursor(s.list, s.pos, r);
    }
    hide EntryOk, TicksOk, LinkFacts, Distinct;
  }

  lemma {:induction false} PastCursor(list: seq<Rid>, pos: nat, r: Rid)
    requires pos < |list| && list[pos] != r && r in list && r !in list[..pos]
    ensures r in list[pos + 1..] && r !in list[..pos + 1]
  {
    assert list == list[..pos + 1] + list[pos + 1..];
    assert list[..pos + 1] == list[..pos] + [list[pos]];
  }

  // ---------- the socket thread ----------

  predicate ControlAction(a: Action) {
    a.Begin? || a.SocketLockList? || a.LoadNext? || a.SocketLog? || a.SocketFinish?
  }

  lemma {:induction false} SocketControlShape(s: State, a: Action)
    requires Shape(s) && Enabled(s, a) && ControlAction(a)
    ensures Shape(Apply(s, a))
  {
    hide Distinct;
  }

  lemma {:induction false} SocketControlFrame(s: State, a: Action, q: Rid)
    requires Shape(s) && Enabled(s, a) && ControlAction(a) && q in s.reqs
    ensures var t := Apply(s, a);
            && t.reqs == s.reqs && t.list == s.list && (t.holder == Requester(q) <==> s.holder == Requester(q))
            && (Stage(t, q) == Stage(s, q) || (Stage(s, q) == Logging && Stage(t, q) == Idle))
  {
    hide Distinct, CursorOk, DeleteOk;
  }

  /** Once the log is written, the entry needs the socket thread no more. */
  lemma {:induction false} LoggedEntry(e: Entry, listed: bool, holds: bool)
    requires LinkFacts(e, listed, Logging, holds)
    ensures LinkFacts(e, listed, Idle, holds)
  {
  }

  lemma {:induction false} SocketControlSteps(s: State, a: Action)
    requires Inv(s) && Enabled(s, a) && ControlAction(a)
    ensures Inv(Apply(s, a))
  {
    SocketControlShape(s, a);
    hide Enabled, Apply, Shape, EntryOk, TicksOk, LinkFacts, Stage;
    var t := Apply(s, a);
    forall q | q in s.reqs ensures q in t.reqs && t.reqs == s.reqs && LinkOk(t, q) {
      SocketControlFrame(s, a, q);
      assert LinkOk(s, q);
      if Stage(s, q) == Logging {
        LoggedEntry(s.reqs[q], q in s.list, s.holder == Requester(q));
      }
    }
    assert t.reqs == s.reqs by { SameEntries(s, a); }
  }

  lemma {:induction false} SameEntries(s: State, a: Action)
    requires Enabled(s, a) && ControlAction(a)
    ensures Apply(s, a).reqs == s.reqs
  {
  }

  predicate ServingAction(a: Action) { a.SocketLockReq? || a.SocketSignal? || a.SocketUnlockReq? }

  /** What these steps do to the entry, and where they leave the socket thread with it. */
  predicate ServingEffect(e: Entry, f: Entry, stage: SocketPc, stage': SocketPc) {
    || (stage == LockReq && e.own == Free && f == e.(own := BySocket) && stage' == Signal)
    || (stage == Signal && f == (if e.pc == Waiting then e.(pc := Signalled) else e) && stage' == UnlockReq)
    || (stage == UnlockReq && f == e.(own := Free) && (stage' == Logging || stage' == Idle))
  }

  lemma {:induction false} ServingEffectOk(e: Entry, f: Entry, listed: bool, stage: SocketPc, stage': SocketPc,
                                           holds: bool)
    requires EntryOk(e) && TicksOk(e) && LinkFacts(e, listed, stage, holds) && ServingEffect(e, f, stage, stage')
    ensures EntryOk(f) && TicksOk(f) && LinkFacts(f, listed, stage', holds)
  {
  }

  lemma {:induction false} ServingStepIs(s: State, a: Action)
    requires Enabled(s, a) && ServingAction(a)
    ensures var r, t := s.el.value, Apply(s, a);
            && r in s.reqs && r in t.reqs && t.reqs == s.reqs[r := t.reqs[r]]
            && t.list == s.list && t.holder == s.holder
            && (t.el == s.el || t.el == None)
            && ServingEffect(s.reqs[r], t.reqs[r], Stage(s, r), Stage(t, r))
            && OnlyTouches(s, t, r)
  {
  }

  lemma {:induction false} SocketSignalSteps(s: State, a: Action)
    requires Inv(s) && Enabled(s, a) && ServingAction(a)
    ensures Inv(Apply(s, a))
  {
    SocketSignalShape(s, a);
    ServingStepIs(s, a);
    var r, t := s.el.value, Apply(s, a);
    hide Enabled, Apply, Shape, EntryOk, TicksOk, LinkFacts, ServingEffect, OnlyTouches, Stage;
    assert LinkOk(s, r);
    ServingEffectOk(s.reqs[r], t.reqs[r], r in s.list, Stage(s, r), Stage(t, r), s.holder == Requester(r));
    OthersKept(s, t, r);
  }

  lemma {:induction false} SocketSignalShape(s: State, a: Action)
    requires Shape(s) && Enabled(s, a) && ServingAction(a)
    ensures Shape(Apply(s, a))
  {
    hide Distinct;
    assert s.holder == Socket;
  }

  /** What the body of a socket-thread traversal does to the entry it stands at. */
  predicate VisitEffect(e: Entry, f: Entry, listed': bool, stage': SocketPc) {
    || (f == e && listed' && stage' == Idle)
    || (f == e.(rc := RETURN_OK, replies := e.replies + 1, leaves := e.leaves + 1) && !listed' && stage' == LockReq)
    || (var t := e.(ticker := e.ticker - 1, ticks := e.ticks + 1, last := f.last, early := f.early);
        if t.ticker <= 0 then
          f == t.(rc := RETURN_ERR, expiries := e.expiries + 1, leaves := e.leaves + 1) && !listed' && stage' == LockReq
        else f == t && listed' && stage' == Idle)
  }

  lemma {:induction false} VisitEffectOk(e: Entry, f: Entry, listed': bool, stage': SocketPc, holds: bool)
    requires EntryOk(e) && TicksOk(e) && LinkFacts(e, true, Idle, holds) && !holds && VisitEffect(e, f, listed', stage')
    ensures EntryOk(f) && TicksOk(f) && LinkFacts(f, listed', stage', holds)
  {
  }

  /** Where the body leaves the list and the traversal. */
  ghost predicate VisitMoves(s: State, t: State)
    requires s.pos < |s.list|
  {
    && t.holder == s.holder && t.reqs.Keys == s.reqs.Keys
    && if t.spc == LockReq then t.list == Cut(s.list, s.pos) && t.el == s.el && t.tmp == s.tmp && t.pos == s.pos
       else t.spc == Scanning && t.list == s.list && t.el == s.tmp && t.tmp == None && !t.loaded && t.pos == s.pos + 1
  }

  lemma {:induction false} VisitIs(s: State)
    requires Enabled(s, SocketBody)
    ensures var r, t := s.el.value, VisitEntry(s);
            && VisitMoves(s, t)
            && r in t.reqs && t.reqs == s.reqs[r := t.reqs[r]]
            && VisitEffect(s.reqs[r], t.reqs[r], t.spc == Scanning, if t.spc == Scanning then Idle else LockReq)
  {
    hide Cut;
  }

  lemma {:induction false} SocketBodyStep(s: State)
    requires Inv(s) && Enabled(s, SocketBody)
    ensures Inv(Apply(s, SocketBody))
  {
    VisitIs(s);
    var r, t := s.el.value, VisitEntry(s);
    assert s.holder == Socket && s.list[s.pos] == r && Distinct(s.list);
    SoundIn(s, r);
    SocketBodyShape(s, t);
    hide Inv, Shape, Sound, OnlyTouches, VisitEntry, VisitMoves, VisitEffect;
    VisitTouches(s, t);
    OthersKept(s, t, r);
  }

  lemma {:induction false} VisitTouches(s: State, t: State)
    requires s.spc == Scanning && Pointed(s) && s.holder == Socket && s.list[s.pos] == s.el.value && Distinct(s.list)
    requires Sound(s, s.el.value) && VisitMoves(s, t) && s.el.value in t.reqs
             && t.reqs == s.reqs[s.el.value := t.reqs[s.el.value]]
    requires VisitEffect(s.reqs[s.el.value], t.reqs[s.el.value], t.spc == Scanning,
                         if t.spc == Scanning then Idle else LockReq)
    ensures Sound(t, s.el.value) && OnlyTouches(s, t, s.el.value)
  {
    var r := s.el.value;
    assert r in s.list;
    CutMembers(s.list, s.pos);
    hide EntryOk, TicksOk, LinkFacts, VisitEffect, Cut, Distinct;
    VisitEffectOk(s.reqs[r], t.reqs[r], t.spc == Scanning, Stage(t, r), false);
  }

  lemma {:induction false} SocketBodyShape(s: State, t: State)
    requires Shape(s) && s.spc == Scanning && Pointed(s) && s.loaded && VisitMoves(s, t)
    ensures Shape(t)
  {
    CutMembers(s.list, s.pos);
    hide Distinct, Cut;
  }

  lemma {:induction false} StepKeepsInv(s: State, a: Action)
    requires Inv(s) && DistinctKeys(s) && Enabled(s, a)
    ensures Inv(Apply(s, a))
  {
    hide Inv, DistinctKeys, Enabled, Apply;
    match a
    case Start(r, key, budget) => StartStep(s, r, key, budget);
    case Append(r) => AppendStep(s, r);
    case LockList(r) => LockListStep(s, r);
    case DeleteBody(r) => DeleteStep(s, r);
    case UnlockList(r) => UnlockListStep(s, r);
    case SocketBody => SocketBodyStep(s);
    case _ =>
      if ServingAction(a) {
        SocketSignalSteps(s, a);
      } else if ControlAction(a) {
        SocketControlSteps(s, a);
      } else {
        OwnSteps(s, a);
      }
  }
}
