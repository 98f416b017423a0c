/** Progress of the request tracking: no thread is stuck, and activity that is not fed with new
    calls or new socket work dies down. */
module ClientProgress {
  import opened Common
  import opened ClientTracking
  import opened ClientTrackingProofs
  import opened ClientExpiry
  import opened ClientTheorems

  /** Steps a requester has left, at most, apart from a traversal it is inside; `b` bounds the list. */
  function Rank(pc: Pc, b: nat): nat {
    match pc
    case Locked => 7 * b + 30
    case Sending => 7 * b + 20
    case Waiting => 7 * b + 19
    case Signalled => 7 * b + 18
    case Returning => 7 * b + 17
    case Failed => 7 * b + 17
    case Unlocked => 7 * b + 16
    case WantList => 7 * b + 15
    case Deleting => 10
    case Leaving => 9
    case Freeing => 8
    case Done => 0
  }

  /** The sum of the ranks of the requests below `n`. */
  function Ranks(reqs: map<Rid, Entry>, b: nat, n: nat): nat {
    if n == 0 then 0 else Ranks(reqs, b, n - 1) + if n - 1 in reqs then Rank(reqs[n - 1].pc, b) else 0
  }

  /** Steps left in the traversal under way. */
  function Walk(s: State): int {
    var left := 7 * (|s.list| - s.pos);
    match s.spc
    case LockReq => left + 6
    case Signal => left + 5
    case UnlockReq => left + 4
    case Logging => left + 3
    case _ =>
      if !Traversing(s) then 0
      else if s.el == None then 1
      else if s.loaded then left + 1
      else left + 2
  }

  function Work(s: State, b: nat): int {
    Ranks(s.reqs, b, b) + Load(s, b)
  }

  /** What the traversal under way, or one the socket thread has asked for, adds. */
  function Load(s: State, b: nat): int { Walk(s) + if s.spc == Want then 7 * b + 6 else 0 }

  ghost predicate Below(s: State, b: nat) { forall r :: r in s.reqs ==> r < b }

  lemma {:induction false} RanksPut(reqs: map<Rid, Entry>, b: nat, n: nat, r: Rid, e: Entry)
    requires r in reqs
    ensures Ranks(reqs[r := e], b, n) == Ranks(reqs, b, n) + if r < n then Rank(e.pc, b) - Rank(reqs[r].pc, b) else 0
    decreases n
  {
    if n > 0 { RanksPut(reqs, b, n - 1, r, e); }
  }

  /** Distinct requests below `b` are at most `b`. */
  lemma {:induction false} ListBound(list: seq<Rid>, b: nat)
    requires Distinct(list) && forall r :: r in list ==> r < b
    ensures |list| <= b
    decreases b
  {
    if list == [] {
    } else if b > 0 && b - 1 in list {
      var i :| 0 <= i < |list| && list[i] == b - 1;
      CutMembers(list, i);
      ListBound(Cut(list, i), b - 1);
    } else {
      assert list[0] in list;
      ListBound(list, b - 1);
    }
  }

  /** The traversal's cost is never negative and never exceeds that of the whole list. */
  lemma {:induction false} WalkBounds(s: State)
    requires Shape(s)
    ensures 0 <= Walk(s) <= 7 * |s.list| + 6
  {
  }

  // ---------- every internal step reduces the work ----------

  /** A step that changes one entry does less than it costs. */
  lemma {:induction false} PutWork(s: State, t: State, r: Rid, b: nat)
    requires r in s.reqs && r in t.reqs && t.reqs == s.reqs[r := t.reqs[r]] && Below(s, b)
    requires Rank(t.reqs[r].pc, b) + Load(t, b) < Rank(s.reqs[r].pc, b) + Load(s, b)
    ensures Work(t, b) < Work(s, b)
  {
    hide Rank, Load;
    RanksPut(s.reqs, b, b, r, t.reqs[r]);
  }

  lemma {:induction false} OwnWork(s: State, a: Action, b: nat)
    requires Inv(s) && Below(s, b) && Enabled(s, a) && OwnAction(a)
    ensures Work(Apply(s, a), b) < Work(s, b)
  {
    hide Inv, Enabled, Apply, Work, Rank, Load, Sound, OwnEffect;
    OwnStepIs(s, a);
    OwnRank(s, a, b);
    SoundIn(s, a.r);
    OwnLoad(s, a.r, Apply(s, a).reqs[a.r], b);
    PutWork(s, Apply(s, a), a.r, b);
  }

  lemma {:induction false} OwnLoad(s: State, r: Rid, f: Entry, b: nat)
    requires Sound(s, r) && OwnEffect(s.reqs[r], f)
    ensures Load(Put(s, r, f), b) == Load(s, b)
  {
    OwnEffectOk(s.reqs[r], f, r in s.list, Stage(s, r), s.holder == Requester(r));
    hide Sound, OwnEffect, EntryOk, TicksOk, LinkFacts;
    assert Traversing(Put(s, r, f)) == Traversing(s);
  }

  lemma {:induction false} OwnRank(s: State, a: Action, b: nat)
    requires Enabled(s, a) && OwnAction(a)
    ensures a.r in s.reqs && a.r in Apply(s, a).reqs && Rank(Apply(s, a).reqs[a.r].pc, b) < Rank(s.reqs[a.r].pc, b)
  {
  }

  lemma {:induction false} AppendWork(s: State, r: Rid, b: nat)
    requires Inv(s) && Below(s, b) && Enabled(s, Append(r))
    ensures Work(Apply(s, Append(r)), b) < Work(s, b)
  {
    hide EntryOk, TicksOk, DeleteOk;
    var t := Apply(s, Append(r));
    assert LinkOk(s, r);
    RanksPut(s.reqs, b, b, r, t.reqs[r]);
    assert Traversing(t) == Traversing(s);
  }

  lemma {:induction false} LockListWork(s: State, r: Rid, b: nat)
    requires Inv(s) && Below(s, b) && Enabled(s, LockList(r))
    ensures Work(Apply(s, LockList(r)), b) < Work(s, b)
  {
    var t := Apply(s, LockList(r));
    ListBound(s.list, b);
    assert s.spc != Scanning && !Away(s.spc);
    hide Inv, Work;
    PutWork(s, t, r, b);
  }

  lemma {:induction false} UnlockListWork(s: State, r: Rid, b: nat)
    requires Inv(s) && Below(s, b) && Enabled(s, UnlockList(r))
    ensures Work(Apply(s, UnlockList(r)), b) < Work(s, b)
  {
    HolderTellsSocket(s, r);
    hide Inv, Work;
    PutWork(s, Put(s, r, s.reqs[r].(pc := Freeing)).(holder := Nobody), r, b);
  }

  lemma {:induction false} SocketListWork(s: State, a: Action, b: nat)
    requires Inv(s) && Below(s, b) && Enabled(s, a) && (a.SocketLockList? || a.SocketFinish?)
    ensures Work(Apply(s, a), b) < Work(s, b)
  {
    ListBound(s.list, b);
    assert s.spc == Scanning ==> s.holder == Socket;
    hide Inv, Ranks;
  }

  lemma {:induction false} LoadWork(s: State, b: nat)
    requires Inv(s) && Below(s, b) && Enabled(s, LoadNext)
    ensures Work(Apply(s, LoadNext), b) < Work(s, b)
  {
    hide EntryOk, TicksOk, DeleteOk, LinkFacts, Ranks;
  }

  lemma {:induction false} LogWork(s: State, b: nat)
    requires Inv(s) && Enabled(s, SocketLog)
    ensures Work(Apply(s, SocketLog), b) < Work(s, b)
  {
    hide EntryOk, TicksOk, DeleteOk, LinkFacts, Ranks;
  }

  lemma {:induction false} DeleteWork(s: State, r: Rid, b: nat)
    requires Inv(s) && DistinctKeys(s) && Below(s, b) && Enabled(s, DeleteBody(r))
    ensures Work(Apply(s, DeleteBody(r)), b) < Work(s, b)
  {
    var t := Apply(s, DeleteBody(r));
    if s.el.Some? && s.reqs[s.el.value].key == s.reqs[r].key { DeletesOwnEntry(s, r); }
    HolderTellsSocket(s, r);
    assert s.tmp.Some? ==> s.pos + 1 < |s.list|;
    hide Inv, DistinctKeys;
    DeleteWalk(s, r);
    hide Apply, Walk, Work;
    PutWork(s, t, r, b);
  }

  lemma {:induction false} DeleteWalk(s: State, r: Rid)
    requires Enabled(s, DeleteBody(r)) && s.spc != Scanning && !Away(s.spc) && (s.tmp.Some? ==> s.pos + 1 < |s.list|)
    requires s.el.Some? && s.reqs[s.el.value].key == s.reqs[r].key ==> s.el.value == r
    ensures var t := Apply(s, DeleteBody(r));
            && r in t.reqs && t.reqs == s.reqs[r := t.reqs[r]] && (t.reqs[r].pc == Leaving || t.reqs[r].pc == Deleting)
            && Walk(t) < Walk(s) && t.spc == s.spc
  {
    hide Cut;
  }

  lemma {:induction false} ServeWork(s: State, a: Action, b: nat)
    requires Inv(s) && Below(s, b) && Enabled(s, a) && ServingAction(a)
    ensures Work(Apply(s, a), b) < Work(s, b)
  {
    ServeWalk(s, a);
    hide Inv, Enabled, Apply, Walk, OnlyTouches, Stage, Work, Rank, ServingEffect;
    ServingStepIs(s, a);
    var r, t := s.el.value, Apply(s, a);
    ServeRank(s.reqs[r], t.reqs[r], Stage(s, r), Stage(t, r), b);
    PutWork(s, t, r, b);
  }

  lemma {:induction false} ServeRank(e: Entry, f: Entry, stage: SocketPc, stage': SocketPc, b: nat)
    requires ServingEffect(e, f, stage, stage')
    ensures Rank(f.pc, b) <= Rank(e.pc, b)
  {
  }

  lemma {:induction false} ServeWalk(s: State, a: Action)
    requires Shape(s) && Enabled(s, a) && ServingAction(a)
    ensures Walk(Apply(s, a)) < Walk(s) && s.spc != Want && Apply(s, a).spc != Want
  {
    hide Distinct, DeleteOk;
  }

  lemma {:induction false} BodyWork(s: State, b: nat)
    requires Inv(s) && Below(s, b) && Enabled(s, SocketBody)
    ensures Work(Apply(s, SocketBody), b) < Work(s, b)
  {
    BodyIs(s);
    BodyTmp(s);
    hide Inv, Apply, Enabled, VisitEntry, VisitMoves, VisitEffect, Ticked, Walk, Work, Rank, Distinct;
    VisitIs(s);
    TickEffect(s);
    var r, t := s.el.value, VisitEntry(s);
    SamePc(s, t);
    BodyWalk(s, t);
    PutWork(s, t, r, b);
  }

  lemma {:induction false} BodyIs(s: State)
    requires Enabled(s, SocketBody)
    ensures Apply(s, SocketBody) == VisitEntry(s) && s.spc == Scanning && Pointed(s) && s.loaded
  {
  }

  lemma {:induction false} SamePc(s: State, t: State)
    requires s.el.Some? && s.el.value in s.reqs && s.el.value in t.reqs && Ticked(s, t)
    ensures t.reqs[s.el.value].pc == s.reqs[s.el.value].pc
  {
  }

  lemma {:induction false} BodyTmp(s: State)
    requires Shape(s) && s.spc == Scanning
    ensures s.tmp.Some? ==> s.pos + 1 < |s.list|
  {
    hide Distinct, DeleteOk;
  }

  lemma {:induction false} BodyWalk(s: State, t: State)
    requires s.spc == Scanning && Pointed(s) && s.loaded && VisitMoves(s, t)
    requires s.tmp.Some? ==> s.pos + 1 < |s.list|
    ensures Walk(t) < Walk(s) && t.spc != Want
  {
  }

  lemma {:induction false} InternalStepReducesWork(s: State, a: Action, b: nat)
    requires Inv(s) && DistinctKeys(s) && Below(s, b) && Enabled(s, a) && Internal(a)
    ensures Work(Apply(s, a), b) < Work(s, b)
  {
    hide Inv, DistinctKeys, Below, Work, Apply, Enabled;
    match a
    case Append(r) => AppendWork(s, r, b);
    case DeleteBody(r) => DeleteWork(s, r, b);
    case LockList(r) => LockListWork(s, r, b);
    case UnlockList(r) => UnlockListWork(s, r, b);
    case LoadNext => LoadWork(s, b);
    case SocketBody => BodyWork(s, b);
    case SocketLog => LogWork(s, b);
    case _ =>
      if ServingAction(a) {
        ServeWork(s, a, b);
      } else if OwnAction(a) {
        OwnWork(s, a, b);
      } else {
        SocketListWork(s, a, b);
      }
  }

  lemma {:induction false} WorkNonNegative(s: State, b: nat)
    requires Shape(s)
    ensures Work(s, b) >= 0
  {
    WalkBounds(s);
  }

  /** Internal steps start no calls. */
  lemma {:induction false} InternalKeepsBelow(s: State, a: Action, b: nat)
    requires Enabled(s, a) && Internal(a) && Below(s, b)
    ensures Below(Apply(s, a), b)
  {
  }

  /** In every run, a stretch of internal steps is no longer than the work it started with: the
      threads settle unless new calls or new socket work keep arriving. */
  lemma {:induction false} InternalStretchBounded(ss: seq<State>, acts: seq<Action>, i: nat, j: nat, b: nat)
    requires IsRun(ss, acts) && i <= j < |ss| && Below(ss[i], b)
    requires forall k :: i <= k < j ==> Internal(acts[k])
    ensures Below(ss[j], b) && 0 <= Work(ss[j], b) <= Work(ss[i], b) - (j - i)
    decreases j
  {
    hide Enabled, Apply, DistinctKeys, Work, Below;
    RunInvariant(ss, acts, j);
    WorkNonNegative(ss[j], b);
    if i < j {
      InternalStretchBounded(ss, acts, i, j - 1, b);
      RunInvariant(ss, acts, j - 1);
      hide Inv;
      InternalStepReducesWork(ss[j - 1], acts[j - 1], b);
      InternalKeepsBelow(ss[j - 1], acts[j - 1], b);
      assert ss[j] == Apply(ss[j - 1], acts[j - 1]);
    }
  }

  /** Once the threads have settled, a request that has seen as many passes as its budget since
      its append has been answered or has expired, and its call has returned. */
  lemma {:induction false} CallReturnsInTime(ss: seq<State>, acts: seq<Action>, i: nat, r: Rid)
    requires IsRun(ss, acts) && i < |ss| && r in ss[i].reqs && Quiescent(ss[i])
    requires ss[i].passes - ss[i].reqs[r].birth >= ss[i].reqs[r].budget
    ensures ss[i].reqs[r].pc == Done
  {
    hide IsRun;
    ExpiresOnTime(ss, acts, i, r);
  }

  // ---------- order ----------

  lemma {:induction false} StepKeepsOrder(s: State, a: Action, r: Rid, q: Rid)
    requires Inv(s) && Enabled(s, a) && Precedes(s.list, r, q) && r in Apply(s, a).list && q in Apply(s, a).list
    ensures Precedes(Apply(s, a).list, r, q)
  {
    ListChange(s, a);
    hide Inv, Enabled, Apply, Precedes;
    ChangeKeepsOrder(s.list, Apply(s, a).list, s.pos, r, q);
  }

  /** An entry is in the list for one uninterrupted stretch of the run. */
  lemma {:induction false} ListedThroughout(ss: seq<State>, acts: seq<Action>, i: nat, k: nat, j: nat, r: Rid)
    requires IsRun(ss, acts) && i <= k <= j < |ss| && r in ss[i].list && r in ss[j].list
    ensures r in ss[k].list
  {
    RunInvariant(ss, acts, i);
    RunInvariant(ss, acts, k);
    RunInvariant(ss, acts, j);
    assert LinkOk(ss[i], r);
    LeavesGrow(ss, acts, i, k, r);
    LeavesGrow(ss, acts, k, j, r);
    assert LinkOk(ss[k], r) && LinkOk(ss[j], r) && EntryOk(ss[k].reqs[r]);
  }

  lemma {:induction false} LeavesGrow(ss: seq<State>, acts: seq<Action>, i: nat, j: nat, r: Rid)
    requires IsRun(ss, acts) && i <= j < |ss| && r in ss[i].reqs
    ensures r in ss[j].reqs && ss[i].reqs[r].leaves <= ss[j].reqs[r].leaves
    ensures ss[i].reqs[r].pc != Locked ==> ss[j].reqs[r].pc != Locked
    decreases j
  {
    hide Enabled, Apply, DistinctKeys;
    if i < j {
      LeavesGrow(ss, acts, i, j - 1, r);
      StepChanges(ss[j - 1], acts[j - 1], r);
      assert ss[j] == Apply(ss[j - 1], acts[j - 1]);
    }
  }

  /** No run reorders the list: deletions in the middle of a traversal and concurrent appends
      keep the relative order of all entries that stay. */
  lemma {:induction false} OrderKept(ss: seq<State>, acts: seq<Action>, i: nat, j: nat, r: Rid, q: Rid)
    requires IsRun(ss, acts) && |ss| == |acts| + 1 && i <= j < |ss|
    requires Precedes(ss[i].list, r, q) && r in ss[j].list && q in ss[j].list
    ensures Precedes(ss[j].list, r, q)
    decreases j
  {
    hide IsRun, Inv, PassInv, Enabled, Apply, Precedes;
    if i < j {
      PrecedesMembers(ss[i].list, r, q);
      ListedThroughout(ss, acts, i, j - 1, j, r);
      ListedThroughout(ss, acts, i, j - 1, j, q);
      OrderKept(ss, acts, i, j - 1, r, q);
      RunInvariant(ss, acts, j - 1);
      RunStep(ss, acts, j - 1);
      StepKeepsOrder(ss[j - 1], acts[j - 1], r, q);
    }
  }

  lemma {:induction false} PrecedesMembers(list: seq<Rid>, r: Rid, q: Rid)
    requires Precedes(list, r, q)
    ensures r in list && q in list
  {
  }

  lemma {:induction false} RunStep(ss: seq<State>, acts: seq<Action>, i: nat)
    requires IsRun(ss, acts) && i < |acts|
    ensures |ss| == |acts| + 1 && Enabled(ss[i], acts[i]) && ss[i + 1] == Apply(ss[i], acts[i])
  {
  }

  lemma {:induction false} ChangeKeepsOrder(list: seq<Rid>, list': seq<Rid>, pos: nat, r: Rid, q: Rid)
    requires Distinct(list) && Precedes(list, r, q) && r in list' && q in list'
    requires list' == list || list <= list' || (pos < |list| && list' == Cut(list, pos))
    ensures Precedes(list', r, q)
  {
    if list <= list' {
      var i, j :| 0 <= i < j < |list| && list[i] == r && list[j] == q;
      assert list'[i] == r && list'[j] == q;
    } else {
      CutKeepsOrder(list, pos, r, q);
    }
  }

  lemma {:induction false} CutKeepsOrder(list: seq<Rid>, pos: nat, r: Rid, q: Rid)
    requires Distinct(list) && Precedes(list, r, q) && pos < |list| && r in Cut(list, pos) && q in Cut(list, pos)
    ensures Precedes(Cut(list, pos), r, q)
  {
    var i, j :| 0 <= i < j < |list| && list[i] == r && list[j] == q;
    CutMembers(list, pos);
    assert i != pos && j != pos;
    hide Distinct;
    var i', j' := if i < pos then i else i - 1, if j < pos then j else j - 1;
    assert Cut(list, pos)[i'] == r && Cut(list, pos)[j'] == q;
  }

  lemma {:induction false} ListChange(s: State, a: Action)
    requires Inv(s) && Enabled(s, a)
    ensures var t := Apply(s, a);
            && Distinct(s.list)
            && (t.list == s.list || s.list <= t.list || (s.pos < |s.list| && t.list == Cut(s.list, s.pos)))
  {
    hide EntryOk, TicksOk, LinkOk, CursorOk, DeleteOk;
  }
}
