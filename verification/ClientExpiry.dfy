/** Timeouts: how tracking passes, deletions during a traversal and concurrent appends
    add up to the promise that an unanswered request expires on its T-th pass. */
module ClientExpiry {
  import opened Common
  import opened ClientTracking
  import opened ClientTrackingProofs

  const LOOP_TIMEOUT := 250000
  const SEND_MSG_TICKER_TIMEOUT := 40

  /** Division in C rounds towards zero. */
  function CDiv(a: int, b: int): int
    requires b > 0
  {
    if a >= 0 then a / b else -((-a) / b)
  }

  /** The tick budget `json_hal_client_send_and_get_reply_with_timeout` derives from seconds. */
  function TickBudget(timeout: int): (tick: int)
    requires -0x8000_0000 <= timeout * 1000000 <= 0x7fff_ffff
    ensures tick == if 4 * timeout < 40 then 40 else if 4 * timeout > 480 then 480 else 4 * timeout
  {
    var tick := CDiv(timeout * 1000000, LOOP_TIMEOUT);
    if tick < SEND_MSG_TICKER_TIMEOUT then SEND_MSG_TICKER_TIMEOUT else if tick > 480 then 480 else tick
  }

  /** The socket thread is inside a tracking pass. */
  predicate InPass(s: State) { s.holder == Socket && s.job.Tick? }

  /** The pass under way still has to reach `e`. */
  predicate Pending(s: State, e: Entry) { InPass(s) && e.birth < s.passes && e.last < s.passes }

  /** The pass under way has no saved entry left to go to. */
  predicate AtEnd(s: State) {
    (s.spc == Scanning && s.el == None) || (Away(s.spc) && s.tmp == None)
  }

  function Flag(b: bool): nat { if b then 1 else 0 }

  /** The decrements an entry has had are the passes since its append, give or take the one in
      which it was appended and the one that is under way. */
  ghost predicate CountOk(s: State, e: Entry) {
    && e.birth <= s.passes && e.last <= s.passes && (e.early ==> e.birth <= e.last)
    && e.ticks + Flag(Pending(s, e)) == s.passes - e.birth + Flag(e.early)
  }

  /** A pass has decremented everything before its position and nothing from it on. */
  ghost predicate CoverAt(s: State, i: nat)
    requires i < |s.list| && s.list[i] in s.reqs
  {
    var e := s.reqs[s.list[i]];
    && ((i < s.pos || AtEnd(s)) && e.birth < s.passes ==> e.last == s.passes)
    && (i >= s.pos ==> e.last < s.passes)
    && (s.spc == Scanning && s.loaded && s.tmp == None && i > s.pos ==> e.birth == s.passes)
  }

  /** An expired entry was decremented by every pass from its append to its last one. */
  ghost predicate ExpiryOk(e: Entry) {
    e.expiries > 0 ==> e.ticks == e.last - e.birth + Flag(e.early)
  }

  ghost predicate PassInv(s: State) {
    && (forall r :: r in s.list ==> r in s.reqs)
    && (forall r :: r in s.list ==> CountOk(s, s.reqs[r]))
    && (forall r :: r in s.reqs && s.reqs[r].pc == Locked ==>
          s.reqs[r].ticks == s.reqs[r].last == 0 && !s.reqs[r].early)
    && (forall r :: r in s.reqs ==> ExpiryOk(s.reqs[r]))
    && (InPass(s) ==> s.passes > 0 && forall i :: 0 <= i < |s.list| ==> CoverAt(s, i))
  }

  // ---------- the steps keep it ----------

  predicate SameTicks(d: Entry, e: Entry) {
    && d.ticks == e.ticks && d.birth == e.birth && d.last == e.last && d.early == e.early && d.expiries == e.expiries
    && (e.pc.Locked? ==> d.pc.Locked?)
  }

  /** Two states that no pass can tell apart. */
  ghost predicate SamePass(s: State, t: State) {
    && t.passes == s.passes && InPass(t) == InPass(s)
    && (forall r :: r in s.reqs ==> r in t.reqs && SameTicks(s.reqs[r], t.reqs[r]))
    && (forall r :: r in t.list ==> r in s.list)
    && (InPass(s) ==>
          && t.list == s.list && t.pos == s.pos && AtEnd(t) == AtEnd(s)
          && (t.spc == Scanning ==> s.spc == Scanning && t.loaded == s.loaded && t.tmp == s.tmp))
  }

  lemma {:induction false} SamePassKeeps(s: State, t: State)
    requires PassInv(s) && SamePass(s, t) && NewUntouched(s, t)
    ensures PassInv(t)
  {
    forall r | r in t.list ensures r in t.reqs && CountOk(t, t.reqs[r]) {
      assert CountOk(s, s.reqs[r]);
    }
    if InPass(t) {
      forall i | 0 <= i < |t.list| ensures CoverAt(t, i) {
        assert CoverAt(s, i);
      }
    }
  }

  predicate QuietAction(a: Action) {
    OwnAction(a) || a.LockList? || a.UnlockList? || a.Start? || a.DeleteBody? || ServingAction(a)
  }

  lemma {:induction false} QuietSteps(s: State, a: Action)
    requires Inv(s) && PassInv(s) && Enabled(s, a) && QuietAction(a)
    ensures PassInv(Apply(s, a))
  {
    QuietSame(s, a);
    hide Inv, PassInv;
    SamePassKeeps(s, Apply(s, a));
  }

  /** New entries have not been decremented. */
  ghost predicate NewUntouched(s: State, t: State) {
    forall r :: r in t.reqs && r !in s.reqs ==>
      t.reqs[r].ticks == t.reqs[r].last == 0 && !t.reqs[r].early && t.reqs[r].expiries == 0
  }

  lemma {:induction false} QuietSame(s: State, a: Action)
    requires Inv(s) && Enabled(s, a) && QuietAction(a)
    ensures SamePass(s, Apply(s, a)) && NewUntouched(s, Apply(s, a))
  {
    hide Inv, SamePass, NewUntouched, Enabled, Apply;
    match a
    case DeleteBody(r) => DeleteSame(s, r);
    case LockList(r) => LockSame(s, r);
    case UnlockList(r) => UnlockSame(s, r);
    case Start(r, key, budget) => StartSame(s, r, key, budget);
    case _ => if ServingAction(a) { ServingSame(s, a); } else { OwnSame(s, a); }
  }

  /** One entry changes in nothing a pass looks at. */
  lemma {:induction false} PutSame(s: State, t: State, r: Rid)
    requires r in s.reqs && r in t.reqs && t.reqs == s.reqs[r := t.reqs[r]] && SameTicks(s.reqs[r], t.reqs[r])
    requires t.passes == s.passes && InPass(t) == InPass(s) && t.list == s.list
    requires InPass(s) ==> t.pos == s.pos && AtEnd(t) == AtEnd(s)
    requires InPass(s) && t.spc == Scanning ==> s.spc == Scanning && t.loaded == s.loaded && t.tmp == s.tmp
    ensures SamePass(s, t) && NewUntouched(s, t)
  {
    hide InPass, AtEnd;
  }

  lemma {:induction false} StartSame(s: State, r: Rid, key: int, budget: int)
    requires Enabled(s, Start(r, key, budget))
    ensures SamePass(s, Apply(s, Start(r, key, budget))) && NewUntouched(s, Apply(s, Start(r, key, budget)))
  {
  }

  lemma {:induction false} OwnSame(s: State, a: Action)
    requires Enabled(s, a) && OwnAction(a)
    ensures SamePass(s, Apply(s, a)) && NewUntouched(s, Apply(s, a))
  {
    OwnStepIs(s, a);
    hide Enabled, Apply;
    PutSame(s, Apply(s, a), a.r);
  }

  lemma {:induction false} ServingSame(s: State, a: Action)
    requires Enabled(s, a) && ServingAction(a)
    ensures SamePass(s, Apply(s, a)) && NewUntouched(s, Apply(s, a))
  {
    ServingStepIs(s, a);
    ServingCursor(s, a);
    hide Enabled, Apply, OnlyTouches, Stage;
    PutSame(s, Apply(s, a), s.el.value);
  }

  lemma {:induction false} ServingCursor(s: State, a: Action)
    requires Enabled(s, a) && ServingAction(a)
    ensures var t := Apply(s, a);
            && t.passes == s.passes && t.pos == s.pos && InPass(t) == InPass(s)
            && (s.job.Tick? ==> t.tmp == s.tmp && Away(s.spc) && Away(t.spc))
  {
  }

  lemma {:induction false} LockSame(s: State, r: Rid)
    requires Enabled(s, LockList(r))
    ensures SamePass(s, Apply(s, LockList(r))) && NewUntouched(s, Apply(s, LockList(r)))
  {
    PutSame(s, Apply(s, LockList(r)), r);
  }

  lemma {:induction false} UnlockSame(s: State, r: Rid)
    requires Enabled(s, UnlockList(r))
    ensures SamePass(s, Apply(s, UnlockList(r))) && NewUntouched(s, Apply(s, UnlockList(r)))
  {
    PutSame(s, Apply(s, UnlockList(r)), r);
  }

  lemma {:induction false} DeleteSame(s: State, r: Rid)
    requires Inv(s) && Enabled(s, DeleteBody(r))
    ensures SamePass(s, Apply(s, DeleteBody(r))) && NewUntouched(s, Apply(s, DeleteBody(r)))
  {
    var t := Apply(s, DeleteBody(r));
    assert Distinct(s.list) && s.holder == Requester(r);
    hide Inv, Enabled, Apply, Cut, Distinct;
    DeleteFrame(s, r);
    if s.pos < |s.list| { CutMembers(s.list, s.pos); }
    forall q | q in s.reqs ensures q in t.reqs && SameTicks(s.reqs[q], t.reqs[q]) {
      DeleteTicks(s, r, q);
    }
  }

  lemma {:induction false} DeleteFrame(s: State, r: Rid)
    requires Enabled(s, DeleteBody(r))
    ensures var t := Apply(s, DeleteBody(r));
            && t.holder == s.holder && t.passes == s.passes && t.reqs.Keys == s.reqs.Keys
            && (t.list == s.list || (s.pos < |s.list| && t.list == Cut(s.list, s.pos)))
  {
    hide Cut;
  }

  lemma {:induction false} DeleteTicks(s: State, r: Rid, q: Rid)
    requires Enabled(s, DeleteBody(r)) && q in s.reqs
    ensures q in Apply(s, DeleteBody(r)).reqs && SameTicks(s.reqs[q], Apply(s, DeleteBody(r)).reqs[q])
  {
    hide Cut;
  }

  lemma {:induction false} LockedNotExpired(e: Entry)
    requires EntryOk(e) && e.pc == Locked
    ensures e.expiries == 0
  {
  }

  lemma {:induction false} AppendPass(s: State, r: Rid)
    requires Inv(s) && PassInv(s) && Enabled(s, Append(r))
    ensures PassInv(Apply(s, Append(r)))
  {
    SoundIn(s, r);
    LockedNotExpired(s.reqs[r]);
    assert r !in s.list;
    hide Inv, Sound;
    AppendAlone(s, r, Apply(s, Append(r)));
  }

  lemma {:induction false} AppendAlone(s: State, r: Rid, t: State)
    requires PassInv(s) && At(s, r, Locked) && r !in s.list && s.reqs[r].expiries == 0
    requires t == Put(s, r, s.reqs[r].(pc := Sending, birth := s.passes)).(list := s.list + [r])
    ensures PassInv(t)
  {
    forall q | q in t.list ensures q in t.reqs && CountOk(t, t.reqs[q]) {
      assert q != r ==> q in s.list && CountOk(s, s.reqs[q]);
    }
    if InPass(t) {
      forall i | 0 <= i < |t.list| ensures CoverAt(t, i) {
        hide CountOk, ExpiryOk;
        if i < |s.list| {
          assert s.list[i] in s.list && CoverAt(s, i);
        }
      }
    }
  }

  lemma {:induction false} BeginPass(s: State)
    requires Inv(s) && PassInv(s) && Enabled(s, SocketLockList)
    ensures PassInv(Apply(s, SocketLockList))
  {
    hide Inv;
    var t := Apply(s, SocketLockList);
    forall r | r in t.list ensures r in t.reqs && CountOk(t, t.reqs[r]) {
      assert CountOk(s, s.reqs[r]);
    }
    if InPass(t) {
      forall i | 0 <= i < |t.list| ensures CoverAt(t, i) {
        assert CountOk(s, s.reqs[s.list[i]]);
      }
    }
  }

  lemma {:induction false} LoadPass(s: State)
    requires Inv(s) && PassInv(s) && Enabled(s, LoadNext)
    ensures PassInv(Apply(s, LoadNext))
  {
    hide EntryOk, TicksOk, DeleteOk, LinkOk;
    var t := Apply(s, LoadNext);
    forall r | r in t.list ensures r in t.reqs && CountOk(t, t.reqs[r]) {
      assert CountOk(s, s.reqs[r]);
    }
    if InPass(t) {
      forall i | 0 <= i < |t.list| ensures CoverAt(t, i) {
        assert CoverAt(s, i);
      }
    }
  }

  lemma {:induction false} ResumePass(s: State)
    requires PassInv(s) && Enabled(s, SocketLog)
    ensures PassInv(Apply(s, SocketLog))
  {
    ResumeSame(s);
    hide PassInv, Enabled, Apply;
    ResumeKeeps(s, Apply(s, SocketLog));
  }

  lemma {:induction false} ResumeKeeps(s: State, t: State)
    requires PassInv(s) && SamePassBut(s, t)
    ensures PassInv(t)
  {
    forall r | r in t.list ensures r in t.reqs && CountOk(t, t.reqs[r]) {
      assert CountOk(s, s.reqs[r]);
    }
    if InPass(t) {
      forall i | 0 <= i < |t.list| ensures CoverAt(t, i) {
        assert CoverAt(s, i);
      }
    }
  }

  lemma {:induction false} ResumeSame(s: State)
    requires Enabled(s, SocketLog)
    ensures SamePassBut(s, Apply(s, SocketLog))
  {
  }

  /** The same entries and list; the pass goes on to its saved entry. */
  ghost predicate SamePassBut(s: State, t: State) {
    && t.passes == s.passes && InPass(t) == InPass(s) && t.list == s.list
    && t.reqs.Keys == s.reqs.Keys
    && (forall r :: r in s.reqs ==> SameTicks(s.reqs[r], t.reqs[r]))
    && (InPass(s) ==> t.pos == s.pos && t.spc == Scanning && !t.loaded && AtEnd(t) == AtEnd(s))
  }

  /** A pass that ends has reached every entry that was there when it began. */
  lemma {:induction false} EndPass(s: State)
    requires Inv(s) && PassInv(s) && Enabled(s, SocketFinish)
    ensures PassInv(Apply(s, SocketFinish))
    ensures InPass(s) ==> forall r :: r in s.list && s.reqs[r].birth < s.passes ==> s.reqs[r].last == s.passes
  {
    hide Inv;
    var t := Apply(s, SocketFinish);
    forall r | r in t.list
      ensures r in t.reqs && CountOk(t, t.reqs[r])
      ensures InPass(s) && s.reqs[r].birth < s.passes ==> s.reqs[r].last == s.passes
    {
      assert CountOk(s, s.reqs[r]);
      var i :| 0 <= i < |s.list| && s.list[i] == r;
      assert InPass(s) ==> CoverAt(s, i);
    }
  }

  lemma {:induction false} BodyPass(s: State)
    requires Inv(s) && PassInv(s) && Enabled(s, SocketBody)
    ensures PassInv(Apply(s, SocketBody))
  {
    hide Inv, VisitEntry, VisitEffect, VisitMoves, Distinct, PassInv, Ticked, CountOk, CoverAt, ExpiryOk;
    var x, t := s.el.value, VisitEntry(s);
    BodyStands(s);
    VisitIs(s);
    TickEffect(s);
    BodyCount(s, t);
    BodyExpiry(s, t);
    if InPass(s) { BodyCover(s, t); }
    BodyTogether(s, t, x);
  }

  lemma {:induction false} BodyStands(s: State)
    requires Inv(s) && Enabled(s, SocketBody)
    ensures s.list[s.pos] == s.el.value && s.holder == Socket && Distinct(s.list)
    ensures Completions(s.reqs[s.el.value]) == 0 && s.reqs[s.el.value].pc != Locked
  {
    assert s.list[s.pos] == s.el.value && s.el.value in s.list;
    hide DeleteOk;
    SoundIn(s, s.el.value);
    hide Inv;
  }

  /** What the body does to the counters of the entry it stands at. */
  ghost predicate Ticked(s: State, t: State)
    requires s.el.Some? && s.el.value in s.reqs && s.el.value in t.reqs
  {
    var e, f := s.reqs[s.el.value], t.reqs[s.el.value];
    && t.passes == s.passes && InPass(t) == InPass(s) && f.pc == e.pc && f.birth == e.birth
    && if s.job.Tick? then f.ticks == e.ticks + 1 && f.last == s.passes && f.early == (e.early || e.birth == s.passes)
       else f.ticks == e.ticks && f.last == e.last && f.early == e.early && f.expiries == e.expiries
  }

  lemma {:induction false} TickEffect(s: State)
    requires Enabled(s, SocketBody)
    ensures s.el.value in VisitEntry(s).reqs && Ticked(s, VisitEntry(s))
  {
    hide Cut;
  }

  lemma {:induction false} BodyTogether(s: State, t: State, x: Rid)
    requires PassInv(s) && x in s.reqs && x in t.reqs && t.reqs == s.reqs[x := t.reqs[x]]
    requires s.el == Some(x) && Ticked(s, t) && s.reqs[x].pc != Locked && ExpiryOk(t.reqs[x])
    requires forall r :: r in t.list ==> r in t.reqs && r in s.list && CountOk(t, t.reqs[r])
    requires InPass(s) ==> forall i :: 0 <= i < |t.list| ==> CoverAt(t, i)
    ensures PassInv(t)
  {
    hide CountOk, CoverAt;
    forall r | r in t.reqs ensures ExpiryOk(t.reqs[r]) {
      assert r != x ==> t.reqs[r] == s.reqs[r] && ExpiryOk(s.reqs[r]);
    }
  }

  lemma {:induction false} BodyExpiry(s: State, t: State)
    requires PassInv(s) && s.holder == Socket && Pointed(s) && s.list[s.pos] == s.el.value && s.el.value in t.reqs
             && Ticked(s, t)
    requires Completions(s.reqs[s.el.value]) == 0
    ensures ExpiryOk(t.reqs[s.el.value]) && CountOk(t, t.reqs[s.el.value])
  {
    var x := s.el.value;
    assert x in s.list && CountOk(s, s.reqs[x]) && ExpiryOk(s.reqs[x]);
    assert InPass(s) ==> CoverAt(s, s.pos);
  }

  lemma {:induction false} BodyCount(s: State, t: State)
    requires PassInv(s) && s.holder == Socket && Pointed(s) && s.list[s.pos] == s.el.value && Distinct(s.list)
    requires Completions(s.reqs[s.el.value]) == 0
    requires VisitMoves(s, t) && s.el.value in t.reqs && t.reqs == s.reqs[s.el.value := t.reqs[s.el.value]]
             && Ticked(s, t)
    ensures forall r :: r in t.list ==> r in t.reqs && r in s.list && CountOk(t, t.reqs[r])
  {
    CutMembers(s.list, s.pos);
    BodyExpiry(s, t);
    hide Cut, Distinct, CoverAt, ExpiryOk;
    forall r | r in t.list ensures r in t.reqs && r in s.list && CountOk(t, t.reqs[r]) {
      assert r in s.list;
      assert r != s.el.value ==> CountOk(s, s.reqs[r]) && t.reqs[r] == s.reqs[r];
    }
  }

  lemma {:induction false} BodyCover(s: State, t: State)
    requires PassInv(s) && InPass(s) && s.spc == Scanning && s.loaded && Pointed(s) && s.list[s.pos] == s.el.value
             && Distinct(s.list)
    requires VisitMoves(s, t) && s.el.value in t.reqs && t.reqs == s.reqs[s.el.value := t.reqs[s.el.value]]
             && Ticked(s, t)
    requires forall r :: r in t.list ==> r in t.reqs
    ensures forall i :: 0 <= i < |t.list| ==> CoverAt(t, i)
  {
    CutMembers(s.list, s.pos);
    forall i | 0 <= i < |t.list| ensures CoverAt(t, i) {
      var j := if t.spc == LockReq && i >= s.pos then i + 1 else i;
      assert t.list[i] == s.list[j] && t.list[i] in t.list && s.list[j] in s.list && CoverAt(s, j);
      assert j != s.pos ==> s.list[j] != s.el.value;
      hide PassInv, Cut, Distinct;
      CoverMoves(s, t, i, j);
    }
  }

  lemma {:induction false} CoverMoves(s: State, t: State, i: nat, j: nat)
    requires InPass(s) && s.spc == Scanning && s.loaded && Pointed(s)
    requires VisitMoves(s, t) && s.el.value in t.reqs && t.reqs == s.reqs[s.el.value := t.reqs[s.el.value]]
             && Ticked(s, t)
    requires i < |t.list| && j < |s.list| && t.list[i] == s.list[j] && s.list[j] in s.reqs && CoverAt(s, j)
    requires j == (if t.spc == LockReq && i >= s.pos then i + 1 else i) && (s.list[j] == s.el.value <==> j == s.pos)
    ensures CoverAt(t, i)
  {
    hide Cut;
  }

  lemma {:induction false} WakePass(s: State, job: Job)
    requires Inv(s) && PassInv(s) && Enabled(s, Begin(job))
    ensures PassInv(Apply(s, Begin(job)))
  {
    SamePassKeeps(s, Apply(s, Begin(job)));
  }

  lemma {:induction false} StepKeepsPassInv(s: State, a: Action)
    requires Inv(s) && PassInv(s) && Enabled(s, a)
    ensures PassInv(Apply(s, a))
  {
    hide Inv, PassInv, Apply;
    if QuietAction(a) {
      QuietSteps(s, a);
    } else {
      match a
      case Append(r) => AppendPass(s, r);
      case SocketLockList => BeginPass(s);
      case LoadNext => LoadPass(s);
      case SocketBody => BodyPass(s);
      case SocketLog => ResumePass(s);
      case SocketFinish => EndPass(s);
      case Begin(job) => WakePass(s, job);
    }
  }
}
