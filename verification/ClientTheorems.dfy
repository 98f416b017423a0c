/** What holds in every run of the client's request tracking. */
module ClientTheorems {
  import opened Common
  import opened ClientTracking
  import opened ClientTrackingProofs
  import opened ClientExpiry
  import RequestKeys
  import IdCounter

  /** A run: steps of any threads in any order, with distinct keys outstanding throughout. */
  ghost predicate IsRun(ss: seq<State>, acts: seq<Action>) {
    && |ss| == |acts| + 1 && ss[0] == Init
    && (forall i :: 0 <= i < |acts| ==> Enabled(ss[i], acts[i]) && ss[i + 1] == Apply(ss[i], acts[i]))
    && (forall i :: 0 <= i < |ss| ==> DistinctKeys(ss[i]))
  }

  lemma {:induction false} RunInvariant(ss: seq<State>, acts: seq<Action>, i: nat)
    requires IsRun(ss, acts) && i < |ss|
    ensures Inv(ss[i]) && PassInv(ss[i])
  {
    if i > 0 {
      RunInvariant(ss, acts, i - 1);
      assert Enabled(ss[i - 1], acts[i - 1]) && ss[i] == Apply(ss[i - 1], acts[i - 1]);
      assert DistinctKeys(ss[i - 1]);
      hide Inv, PassInv, Enabled, Apply, DistinctKeys;
      StepKeepsInv(ss[i - 1], acts[i - 1]);
      StepKeepsPassInv(ss[i - 1], acts[i - 1]);
    }
  }

  /** The library's own ids meet the assumption on keys where calls of `get_req_id` do not
      overlap: each outstanding request carries the id of its own call, and the calls lie within a
      window of 10^8. */
  lemma {:induction false} LibraryIdsSuffice(s: State, cs: seq<IdCounter.Counter>, steps: seq<IdCounter.Step>,
                                             call: map<Rid, nat>, first: nat)
    requires IdCounter.IsRun(cs, steps) && IdCounter.Serial(cs)
    requires forall r :: r in s.reqs ==>
               && r in call && call[r] < |cs[|steps|].issued|
               && s.reqs[r].key == RequestKeys.Key(cs[|steps|].issued[call[r]])
    requires forall r :: r in s.reqs && !s.reqs[r].pc.Done? ==> first <= call[r] < first + 100000000
    requires forall r, q :: r in s.reqs && q in s.reqs && r != q ==> call[r] != call[q]
    ensures DistinctKeys(s)
  {
    assert cs[..|steps| + 1] == cs;
    IdCounter.SerialIds(cs, steps, |steps|);
    var ids := cs[|steps|].issued;
    forall r, q | r in s.reqs && q in s.reqs && r != q && !s.reqs[r].pc.Done? && !s.reqs[q].pc.Done?
      ensures s.reqs[r].key != s.reqs[q].key
    {
      var a, b := ids[call[r]], ids[call[q]];
      if a < b {
        RequestKeys.WindowDistinct(a, a, b);
      } else {
        RequestKeys.WindowDistinct(b, b, a);
      }
    }
  }

  // ---------- exactly-once completion ----------

  /** A request completes at most once, by reply or expiry but not both; a call that has
      returned after a successful send completed exactly once, its entry left the list exactly
      once, and its return code tells which of the two it was. */
  lemma {:induction false} ExactlyOnce(ss: seq<State>, acts: seq<Action>, i: nat, r: Rid)
    requires IsRun(ss, acts) && i < |ss| && r in ss[i].reqs
    ensures var e := ss[i].reqs[r];
            && Completions(e) <= 1 && e.leaves <= 1
            && (e.pc == Done ==> e.leaves == 1)
            && (e.pc == Done && !e.failed ==> Completions(e) == 1)
            && (e.rc == RETURN_OK <==> e.replies == 1)
            && (e.leaves == 1 ==> r !in ss[i].list)
  {
    RunInvariant(ss, acts, i);
    assert EntryOk(ss[i].reqs[r]) && LinkOk(ss[i], r);
  }

  /** How a step may change the entry of `r`, given whether a traversal `stands` at it. */
  ghost predicate Changes(a: Action, stands: bool, r: Rid, e: Entry, f: Entry) {
    && e.leaves <= f.leaves && (e.pc != Locked ==> f.pc != Locked) && (f.failed ==> e.failed || a == SendFail(r))
    && (!(a.SocketBody? && stands) ==> f.replies == e.replies && f.expiries == e.expiries && f.rc == e.rc)
    && (!((a.SocketBody? || a.DeleteBody?) && stands) ==> f.leaves == e.leaves)
  }

  lemma {:induction false} StepChanges(s: State, a: Action, r: Rid)
    requires Enabled(s, a) && r in s.reqs
    ensures r in Apply(s, a).reqs && Changes(a, s.el == Some(r), r, s.reqs[r], Apply(s, a).reqs[r])
  {
    if OwnAction(a) {
      OwnChanges(s, a, r);
    } else if ServingAction(a) {
      ServingStepIs(s, a);
      hide Enabled, Apply, Stage, OnlyTouches;
    } else if ControlAction(a) {
      SameEntries(s, a);
      hide Enabled, Apply;
    } else {
      match a
      case SocketBody =>
        VisitIs(s);
        hide Enabled, VisitEntry, VisitMoves;
      case DeleteBody(q) => DeleteChanges(s, q, r);
      case _ => PutChanges(s, a, r);
    }
  }

  lemma {:induction false} OwnChanges(s: State, a: Action, r: Rid)
    requires Enabled(s, a) && OwnAction(a) && r in s.reqs
    ensures r in Apply(s, a).reqs && Changes(a, s.el == Some(r), r, s.reqs[r], Apply(s, a).reqs[r])
  {
    OwnStepIs(s, a);
    FailureIs(s, a);
    hide Enabled, Apply;
  }

  lemma {:induction false} FailureIs(s: State, a: Action)
    requires Enabled(s, a) && OwnAction(a)
    ensures a.r in s.reqs && a.r in Apply(s, a).reqs
    ensures Apply(s, a).reqs[a.r].failed ==> s.reqs[a.r].failed || a.SendFail?
  {
  }

  lemma {:induction false} PutChanges(s: State, a: Action, r: Rid)
    requires Enabled(s, a) && r in s.reqs && (a.Start? || a.Append? || a.LockList? || a.UnlockList?)
    ensures r in Apply(s, a).reqs && Changes(a, s.el == Some(r), r, s.reqs[r], Apply(s, a).reqs[r])
  {
  }

  lemma {:induction false} DeleteChanges(s: State, q: Rid, r: Rid)
    requires Enabled(s, DeleteBody(q)) && r in s.reqs
    ensures var t := Apply(s, DeleteBody(q));
            r in t.reqs && Changes(DeleteBody(q), s.el == Some(r), r, s.reqs[r], t.reqs[r])
  {
    hide Cut;
  }

  /** A request is answered only by a reply that carries its key, and expired only by a pass that
      brings its ticker to zero. */
  lemma {:induction false} CompletesOnlyBy(ss: seq<State>, acts: seq<Action>, i: nat, r: Rid)
    requires IsRun(ss, acts) && i < |acts| && r in ss[i].reqs && r in ss[i + 1].reqs
    requires Completions(ss[i + 1].reqs[r]) != Completions(ss[i].reqs[r])
    ensures var s, e, f := ss[i], ss[i].reqs[r], ss[i + 1].reqs[r];
            && acts[i] == SocketBody && s.el == Some(r) && r in s.list
            && (if s.job.Tick? then f.expiries == 1 && f.replies == 0 && e.ticker == 1
                else s.job.id == e.key && f.replies == 1 && f.expiries == 0)
  {
    RunInvariant(ss, acts, i);
    var s := ss[i];
    assert Enabled(s, acts[i]) && ss[i + 1] == Apply(s, acts[i]);
    hide IsRun, Inv, PassInv, Enabled, Apply;
    StepChanges(s, acts[i], r);
    SoundIn(s, r);
    BodyCompletes(s, ss[i + 1], r);
  }

  lemma {:induction false} BodyCompletes(s: State, t: State, r: Rid)
    requires Inv(s) && Enabled(s, SocketBody) && s.el == Some(r) && Sound(s, r) && t == Apply(s, SocketBody)
    requires r in t.reqs && Completions(t.reqs[r]) != Completions(s.reqs[r])
    ensures r in s.list
    ensures var e, f := s.reqs[r], t.reqs[r];
            if s.job.Tick? then f.expiries == 1 && f.replies == 0 && e.ticker == 1
            else s.job.id == e.key && f.replies == 1 && f.expiries == 0
  {
    StandsInList(s, SocketBody);
    hide Inv, Cut;
  }

  /** No step changes the outcome of a completed request or puts it back in the list. */
  lemma {:induction false} OutcomeStep(s: State, a: Action, r: Rid)
    requires Inv(s) && DistinctKeys(s) && Enabled(s, a) && r in s.reqs && Completions(s.reqs[r]) == 1
    ensures var t := Apply(s, a);
            && r in t.reqs && t.reqs[r].replies == s.reqs[r].replies && t.reqs[r].expiries == s.reqs[r].expiries
            && t.reqs[r].rc == s.reqs[r].rc && r !in t.list
  {
    CompletedNotListed(s, r);
    if (a.SocketBody? || a.DeleteBody?) && s.el.Some? { StandsInList(s, a); }
    hide Inv, Apply, Enabled, DistinctKeys;
    StepChanges(s, a, r);
    StepKeepsInv(s, a);
    CompletedNotListed(Apply(s, a), r);
  }

  lemma {:induction false} StandsInList(s: State, a: Action)
    requires Inv(s) && Enabled(s, a) && (a.SocketBody? || a.DeleteBody?) && s.el.Some?
    ensures s.el.value in s.list
  {
    assert s.list[s.pos] == s.el.value;
  }

  lemma {:induction false} OutcomeFixed(ss: seq<State>, acts: seq<Action>, i: nat, j: nat, r: Rid)
    requires IsRun(ss, acts) && i <= j < |ss| && r in ss[i].reqs && Completions(ss[i].reqs[r]) == 1
    ensures && r in ss[j].reqs && ss[j].reqs[r].replies == ss[i].reqs[r].replies
            && ss[j].reqs[r].expiries == ss[i].reqs[r].expiries && ss[j].reqs[r].rc == ss[i].reqs[r].rc
            && r !in ss[j].list
    decreases j
  {
    hide Enabled, Apply, DistinctKeys, Inv, PassInv;
    RunInvariant(ss, acts, i);
    if i < j {
      OutcomeFixed(ss, acts, i, j - 1, r);
      RunInvariant(ss, acts, j - 1);
      OutcomeStep(ss[j - 1], acts[j - 1], r);
      assert ss[j] == Apply(ss[j - 1], acts[j - 1]);
    } else {
      CompletedNotListed(ss[i], r);
    }
  }

  lemma {:induction false} CompletedNotListed(s: State, r: Rid)
    requires Inv(s) && r in s.reqs && Completions(s.reqs[r]) == 1
    ensures r !in s.list
  {
    assert EntryOk(s.reqs[r]) && LinkOk(s, r);
  }

  // ---------- wake-ups and deadlock ----------

  /** A waiting request is in the list, where a pass will expire it, or the socket thread has
      taken it out and its signal is still to come. */
  lemma {:induction false} NoLostWakeup(ss: seq<State>, acts: seq<Action>, i: nat, r: Rid)
    requires IsRun(ss, acts) && i < |ss| && r in ss[i].reqs && ss[i].reqs[r].pc == Waiting
    ensures var s := ss[i];
            if Completions(s.reqs[r]) == 0 then r in s.list
            else s.el == Some(r) && (s.spc == LockReq || s.spc == Signal)
  {
    RunInvariant(ss, acts, i);
    assert EntryOk(ss[i].reqs[r]) && LinkOk(ss[i], r);
  }

  /** The steps that neither start a call nor bring the socket thread new work. */
  predicate Internal(a: Action) { !a.Start? && !a.Begin? }

  /** When no thread can take a step of its own, all locks are free, the socket thread is idle,
      and every unfinished call is an unanswered request that waits in the list. */
  ghost predicate Quiescent(s: State) {
    && s.spc == Idle && s.holder == Nobody
    && forall r :: r in s.reqs ==>
         && s.reqs[r].own == Free
         && (s.reqs[r].pc == Done || (s.reqs[r].pc == Waiting && r in s.list && Completions(s.reqs[r]) == 0))
  }

  /** The step that a thread in mid-flight can take, unless it waits for a lock. */
  lemma {:induction false} SocketMoves(s: State) returns (a: Action)
    requires Inv(s) && s.spc != Idle
    ensures Internal(a)
    ensures Enabled(s, a) || (s.spc == Want && s.holder != Nobody)
            || (s.spc == LockReq && s.reqs[s.el.value].own == ByRequester)
  {
    match s.spc
    case Want => a := SocketLockList;
    case Scanning => a := ScanMoves(s);
    case _ => a := ServeMoves(s);
  }

  lemma {:induction false} ScanMoves(s: State) returns (a: Action)
    requires Inv(s) && s.spc == Scanning
    ensures Internal(a) && Enabled(s, a)
  {
    hide EntryOk, TicksOk, LinkFacts, DeleteOk, Distinct;
    a := if s.el == None then SocketFinish else if s.loaded then SocketBody else LoadNext;
  }

  lemma {:induction false} ServeMoves(s: State) returns (a: Action)
    requires Inv(s) && Away(s.spc)
    ensures Internal(a) && s.el.Some? && s.el.value in s.reqs
    ensures Enabled(s, a) || (s.spc == LockReq && s.reqs[s.el.value].own == ByRequester)
  {
    var r := s.el.value;
    assert r in s.reqs by { hide EntryOk, TicksOk, LinkFacts, DeleteOk, Distinct; }
    SoundIn(s, r);
    hide Inv;
    match s.spc
    case LockReq => a := SocketLockReq;
    case Signal => a := SocketSignal;
    case UnlockReq => a := SocketUnlockReq;
    case _ => a := SocketLog;
  }

  lemma {:induction false} RequesterMoves(s: State, r: Rid) returns (a: Action)
    requires Inv(s) && r in s.reqs && s.reqs[r].pc != Done && s.reqs[r].pc != Waiting
    ensures Internal(a)
    ensures Enabled(s, a) || (s.reqs[r].pc == WantList && s.holder != Nobody)
            || (s.reqs[r].pc == Signalled && s.spc == UnlockReq)
  {
    SoundIn(s, r);
    if s.reqs[r].pc == Deleting {
      a := DeleteMoves(s, r);
    } else {
      RequesterFacts(s, r);
      hide Inv, Sound, Enabled;
      if HoldsOwn(s.reqs[r].pc) || s.reqs[r].pc == Signalled || s.reqs[r].pc == Unlocked {
        a := CallMoves(s, r);
      } else {
        a := CleanUpMoves(s, r);
      }
    }
  }

  lemma {:induction false} CallMoves(s: State, r: Rid) returns (a: Action)
    requires r in s.reqs && (HoldsOwn(s.reqs[r].pc) || s.reqs[r].pc == Signalled || s.reqs[r].pc == Unlocked)
    ensures Internal(a) && (Enabled(s, a) || (s.reqs[r].pc == Signalled && s.reqs[r].own != Free))
  {
    match s.reqs[r].pc
    case Locked => a := Append(r);
    case Sending => a := SendOk(r);
    case Signalled => a := Wake(r);
    case Unlocked => a := Destroy(r);
    case _ => a := Unlock(r);
  }

  lemma {:induction false} CleanUpMoves(s: State, r: Rid) returns (a: Action)
    requires r in s.reqs && (s.reqs[r].pc == WantList || s.reqs[r].pc == Leaving || s.reqs[r].pc == Freeing)
    requires s.reqs[r].pc == Leaving ==> s.holder == Requester(r)
    ensures Internal(a) && (Enabled(s, a) || (s.reqs[r].pc == WantList && s.holder != Nobody))
  {
    match s.reqs[r].pc
    case WantList => a := LockList(r);
    case Leaving => a := UnlockList(r);
    case _ => a := Release(r);
  }

  lemma {:induction false} RequesterFacts(s: State, r: Rid)
    requires Sound(s, r)
    ensures s.reqs[r].pc == Leaving ==> s.holder == Requester(r)
    ensures s.reqs[r].pc == Signalled ==> s.reqs[r].own == Free || s.spc == UnlockReq
  {
  }

  lemma {:induction false} DeleteMoves(s: State, r: Rid) returns (a: Action)
    requires Inv(s) && Sound(s, r) && s.reqs[r].pc == Deleting
    ensures Internal(a) && Enabled(s, a)
  {
    assert s.holder == Requester(r);
    hide EntryOk, TicksOk, LinkFacts, DeleteOk, Distinct;
    a := if s.el.Some? && !s.loaded then LoadNext else DeleteBody(r);
  }

  /** Every chain of blocked threads ends at one that can move, so nothing is deadlocked. */
  lemma {:induction false} SomeoneMoves(s: State) returns (a: Action)
    requires Inv(s) && !Quiescent(s)
    ensures Internal(a) && Enabled(s, a)
  {
    if s.holder.Requester? {
      assert LinkOk(s, s.holder.r);
      a := RequesterMoves(s, s.holder.r);
    } else if s.spc != Idle {
      a := SocketMoves(s);
      if !Enabled(s, a) {
        var r := s.el.value;
        assert EntryOk(s.reqs[r]) && LinkOk(s, r);
        a := RequesterMoves(s, r);
      }
    } else {
      var r :| r in s.reqs && !(s.reqs[r].own == Free
        && (s.reqs[r].pc == Done || (s.reqs[r].pc == Waiting && r in s.list && Completions(s.reqs[r]) == 0)));
      assert LinkOk(s, r) && EntryOk(s.reqs[r]);
      a := RequesterMoves(s, r);
    }
  }

  lemma {:induction false} NoDeadlock(ss: seq<State>, acts: seq<Action>, i: nat)
    requires IsRun(ss, acts) && i < |ss|
    requires forall a :: Internal(a) ==> !Enabled(ss[i], a)
    ensures Quiescent(ss[i])
  {
    RunInvariant(ss, acts, i);
    if !Quiescent(ss[i]) {
      var a := SomeoneMoves(ss[i]);
    }
  }

  // ---------- lifetime of entries ----------

  /** Entries that the holder of the list lock may still dereference. The socket thread reads an
      expired entry for its log after it has released that entry's lock. */
  predicate Touchable(s: State, r: Rid) {
    || r in s.list
    || (Traversing(s) && (s.el == Some(r) || s.tmp == Some(r)))
    || (Away(s.spc) && (s.el == Some(r) || s.tmp == Some(r)))
  }

  /** No entry is freed, or about to be, while a traversal, a signaller or the log can touch it. */
  lemma {:induction false} TouchedIsAlive(ss: seq<State>, acts: seq<Action>, i: nat, r: Rid)
    requires IsRun(ss, acts) && i < |ss| && Touchable(ss[i], r)
    ensures r in ss[i].reqs && ss[i].reqs[r].pc != Done && ss[i].reqs[r].pc != Freeing
  {
    RunInvariant(ss, acts, i);
    assert EntryOk(ss[i].reqs[r]) && LinkOk(ss[i], r);
  }

  /** The requester has destroyed its mutex. */
  predicate MutexDestroyed(pc: Pc) { pc.WantList? || pc.Deleting? || Gone(pc) }

  /** The socket thread works on the lock of `r` after that lock was destroyed only if the
      send of `r` failed while the socket thread was picking its entry up. */
  lemma {:induction false} MutexOutlivesSignal(ss: seq<State>, acts: seq<Action>, i: nat, r: Rid)
    requires IsRun(ss, acts) && i < |ss| && Picked(ss[i], r)
    ensures r in ss[i].reqs
    ensures !ss[i].reqs[r].failed ==> !MutexDestroyed(ss[i].reqs[r].pc)
  {
    RunInvariant(ss, acts, i);
    assert EntryOk(ss[i].reqs[r]) && LinkOk(ss[i], r);
  }

  lemma {:induction false} FailsOnlyBySendFail(s: State, a: Action, r: Rid)
    requires Enabled(s, a) && r in Apply(s, a).reqs && Apply(s, a).reqs[r].failed
    ensures a == SendFail(r) || (r in s.reqs && s.reqs[r].failed)
  {
    if r in s.reqs {
      hide Enabled, Apply;
      StepChanges(s, a, r);
    } else if a.Start? {
    } else {
      NoNewEntries(s, a);
    }
  }

  lemma {:induction false} NoNewEntries(s: State, a: Action)
    requires Enabled(s, a) && !a.Start?
    ensures Apply(s, a).reqs.Keys == s.reqs.Keys
  {
    hide Cut;
  }

  lemma {:induction false} NoSendFailed(ss: seq<State>, acts: seq<Action>, i: nat, r: Rid)
    requires IsRun(ss, acts) && i < |ss| && r in ss[i].reqs && forall k :: 0 <= k < i ==> acts[k] != SendFail(r)
    ensures !ss[i].reqs[r].failed
  {
    hide Enabled, Apply, DistinctKeys;
    if i > 0 && ss[i].reqs[r].failed {
      assert ss[i] == Apply(ss[i - 1], acts[i - 1]);
      FailsOnlyBySendFail(ss[i - 1], acts[i - 1], r);
      NoSendFailed(ss, acts, i - 1, r);
    }
  }

  /** Where a request's send does not fail, its mutex is never touched after its destruction. */
  lemma {:induction false} SentMutexSafe(ss: seq<State>, acts: seq<Action>, i: nat, r: Rid)
    requires IsRun(ss, acts) && i < |ss| && Picked(ss[i], r) && forall k :: 0 <= k < i ==> acts[k] != SendFail(r)
    ensures r in ss[i].reqs && !MutexDestroyed(ss[i].reqs[r].pc)
  {
    hide IsRun, Picked, MutexDestroyed;
    MutexOutlivesSignal(ss, acts, i, r);
    NoSendFailed(ss, acts, i, r);
  }

  // ---------- expiry ----------

  /** Between passes, an unanswered request has seen fewer passes than its budget; one that
      expired did so in the pass that brought its decrements to exactly the budget. */
  lemma {:induction false} ExpiresOnTime(ss: seq<State>, acts: seq<Action>, i: nat, r: Rid)
    requires IsRun(ss, acts) && i < |ss| && r in ss[i].reqs
    ensures var s := ss[i];
            var e := s.reqs[r];
            && (r in s.list && !InPass(s) ==> s.passes - e.birth + Flag(e.early) == e.ticks < e.budget)
            && (e.expiries == 1 ==> e.last - e.birth + Flag(e.early) == e.ticks == e.budget)
            && (e.replies == 1 ==> e.ticks < e.budget)
  {
    RunInvariant(ss, acts, i);
    var e := ss[i].reqs[r];
    assert EntryOk(e) && TicksOk(e) && LinkOk(ss[i], r) && ExpiryOk(e);
    assert r in ss[i].list ==> CountOk(ss[i], e);
  }
}
