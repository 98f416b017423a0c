/** Request tracking in the client, as a step system.

    Any number of requester threads (`client_send_and_get_reply`) and the one socket thread
    (`response_parse_cb`, `request_tracking_cb`) share the list of outstanding requests. A
    step is one lock operation, one list operation or one piece of code that runs under a
    lock; steps of different threads interleave freely.

    As in the code, `LL_APPEND` runs outside the list lock (here one atomic step, also in the
    middle of another thread's traversal), a requester owns its own lock from before the
    append until it waits, and a traversal saves the next pointer before it runs its body.
    A condition wait ends only by a signal. */
module ClientTracking {
  import opened Common

  /** Identity of one call of `client_send_and_get_reply`, and of the entry it allocates. */
  type Rid = nat

  /** Where a requester stands. */
  datatype Pc =
    | Locked      // entry filled in, own lock held, not yet in the list
    | Sending     // appended, own lock held, send under way
    | Waiting     // inside the condition wait, own lock given up
    | Signalled   // woken, has to take its own lock again
    | Returning   // the wait has returned, own lock held
    | Failed      // the send failed, own lock held
    | Unlocked    // own lock released, mutex not yet destroyed
    | WantList    // mutex destroyed, asks for the list lock
    | Deleting    // list lock held, inside the traversal of `request_delete_cb`
    | Leaving     // traversal over, list lock held
    | Freeing     // list lock released, entry not yet freed
    | Done        // entry freed, call returned

  datatype Owner = Free | ByRequester | BySocket

  /** One entry. The fields from `failed` on are history: no step reads them, except that
      `ticker` is kept as `budget - ticks`. */
  datatype Entry = Entry(
    key: int, pc: Pc, own: Owner, rc: int, ticker: int,
    failed: bool, budget: int,
    replies: nat, expiries: nat,  // completions of either kind
    leaves: nat,                  // times the entry left the list
    ticks: nat,                   // tracking passes that decremented it
    birth: nat, last: nat,        // pass count at the append and at the last decrement
    early: bool)                  // decremented by the very pass it was appended in

  datatype Job = Tick | Reply(id: int)

  datatype SocketPc =
    | Idle
    | Want        // asks for the list lock
    | Scanning    // list lock held, inside a traversal
    | LockReq     // entry taken out of the list, asks for its lock
    | Signal      // entry's lock held
    | UnlockReq   // signal given, entry's lock still held
    | Logging     // entry's lock released, its sequence number still to be logged

  datatype Holder = Nobody | Socket | Requester(r: Rid)

  /** `el`, `tmp` and `loaded` belong to the holder of the list lock: the loop variable of its
      traversal, the saved successor, and whether the latter is set for this round. `pos` is
      the index at which the traversal stands; `passes` counts tracking passes. */
  datatype State = State(
    reqs: map<Rid, Entry>, list: seq<Rid>, holder: Holder,
    spc: SocketPc, job: Job,
    el: Option<Rid>, tmp: Option<Rid>, loaded: bool, pos: nat, passes: nat)

  const Init := State(map[], [], Nobody, Idle, Tick, None, None, false, 0, 0)

  datatype Action =
    | Start(r: Rid, key: int, budget: int) | Append(r: Rid) | SendOk(r: Rid) | SendFail(r: Rid)
    | Wake(r: Rid) | Unlock(r: Rid) | Destroy(r: Rid)
    | LockList(r: Rid) | DeleteBody(r: Rid) | UnlockList(r: Rid) | Release(r: Rid)
    | Begin(job: Job) | SocketLockList | LoadNext | SocketBody
    | SocketLockReq | SocketSignal | SocketUnlockReq | SocketLog | SocketFinish

  // ---------- the steps ----------

  predicate At(s: State, r: Rid, pc: Pc) { r in s.reqs && s.reqs[r].pc == pc }

  function Put(s: State, r: Rid, e: Entry): State { s.(reqs := s.reqs[r := e]) }

  function Front(list: seq<Rid>): Option<Rid> { if list == [] then None else Some(list[0]) }

  function Cut(list: seq<Rid>, i: nat): seq<Rid>
    requires i < |list|
  {
    list[..i] + list[i + 1..]
  }

  predicate Traversing(s: State) {
    s.spc == Scanning || (s.holder.Requester? && At(s, s.holder.r, Deleting))
  }

  /** The traversal's loop variable points at the entry `pos` of the list. */
  predicate Pointed(s: State) { s.el.Some? && s.pos < |s.list| && s.el.value in s.reqs }

  predicate Enabled(s: State, a: Action) {
    match a
    case Start(r, _, budget) => r !in s.reqs && 40 <= budget <= 480
    case Append(r) => At(s, r, Locked)
    case SendOk(r) => At(s, r, Sending)
    case SendFail(r) => At(s, r, Sending)
    case Wake(r) => At(s, r, Signalled) && s.reqs[r].own == Free
    case Unlock(r) => At(s, r, Returning) || At(s, r, Failed)
    case Destroy(r) => At(s, r, Unlocked)
    case LockList(r) => At(s, r, WantList) && s.holder == Nobody
    case DeleteBody(r) => At(s, r, Deleting) && s.holder == Requester(r) && (s.el == None || (Pointed(s) && s.loaded))
    case UnlockList(r) => At(s, r, Leaving) && s.holder == Requester(r)
    case Release(r) => At(s, r, Freeing)
    case Begin(_) => s.spc == Idle
    case SocketLockList => s.spc == Want && s.holder == Nobody
    case LoadNext => Traversing(s) && Pointed(s) && !s.loaded
    case SocketBody => s.spc == Scanning && Pointed(s) && s.loaded
    case SocketLockReq => s.spc == LockReq && s.el.Some? && s.el.value in s.reqs && s.reqs[s.el.value].own == Free
    case SocketSignal => s.spc == Signal && s.el.Some? && s.el.value in s.reqs
    case SocketUnlockReq => s.spc == UnlockReq && s.el.Some? && s.el.value in s.reqs
    case SocketLog => s.spc == Logging && s.el.Some? && s.el.value in s.reqs
    case SocketFinish => s.spc == Scanning && s.el == None
  }

  /** The loop's step expression: the saved pointer becomes the loop variable. */
  function Advance(s: State, pos: nat): State {
    s.(el := s.tmp, tmp := None, loaded := false, pos := pos)
  }

  /** The body of the two socket-thread traversals. */
  function VisitEntry(s: State): State
    requires Enabled(s, SocketBody)
  {
    var r := s.el.value;
    var e := s.reqs[r];
    match s.job
    case Reply(id) =>
      if e.key == id then
        Put(s, r, e.(rc := RETURN_OK, replies := e.replies + 1, leaves := e.leaves + 1))
          .(list := Cut(s.list, s.pos), spc := LockReq)
      else Advance(s, s.pos + 1)
    case Tick =>
      var t := e.(ticker := e.ticker - 1, ticks := e.ticks + 1, last := s.passes,
                  early := e.early || e.birth == s.passes);
      if t.ticker <= 0 then
        Put(s, r, t.(rc := RETURN_ERR, expiries := e.expiries + 1, leaves := e.leaves + 1))
          .(list := Cut(s.list, s.pos), spc := LockReq)
      else Advance(Put(s, r, t), s.pos + 1)
  }

  function Apply(s: State, a: Action): State
    requires Enabled(s, a)
  {
    match a
    case Start(r, key, budget) =>
      Put(s, r, Entry(key, Locked, ByRequester, RETURN_ERR, budget, false, budget, 0, 0, 0, 0, 0, 0, false))
    case Append(r) => Put(s, r, s.reqs[r].(pc := Sending, birth := s.passes)).(list := s.list + [r])
    case SendOk(r) => Put(s, r, s.reqs[r].(pc := Waiting, own := Free))
    case SendFail(r) => Put(s, r, s.reqs[r].(pc := Failed, failed := true))
    case Wake(r) => Put(s, r, s.reqs[r].(pc := Returning, own := ByRequester))
    case Unlock(r) => Put(s, r, s.reqs[r].(pc := Unlocked, own := Free))
    case Destroy(r) => Put(s, r, s.reqs[r].(pc := WantList))
    case LockList(r) =>
      Put(s, r, s.reqs[r].(pc := Deleting))
        .(holder := Requester(r), el := Front(s.list), tmp := None, loaded := false, pos := 0)
    case DeleteBody(r) =>
      if s.el == None then Put(s, r, s.reqs[r].(pc := Leaving))
      else if s.reqs[s.el.value].key == s.reqs[r].key then
        var x := s.el.value;
        var t := Put(s, x, s.reqs[x].(leaves := s.reqs[x].leaves + 1)).(list := Cut(s.list, s.pos));
        Put(t, r, t.reqs[r].(pc := Leaving)).(el := None, tmp := None, loaded := false)
      else Advance(s, s.pos + 1)
    case UnlockList(r) => Put(s, r, s.reqs[r].(pc := Freeing)).(holder := Nobody)
    case Release(r) => Put(s, r, s.reqs[r].(pc := Done))
    case Begin(job) => s.(spc := Want, job := job)
    case SocketLockList =>
      s.(spc := Scanning, holder := Socket, el := Front(s.list), tmp := None, loaded := false, pos := 0,
         passes := if s.job.Tick? then s.passes + 1 else s.passes)
    case LoadNext =>
      s.(loaded := true, tmp := if s.pos + 1 < |s.list| then Some(s.list[s.pos + 1]) else None)
    case SocketBody => VisitEntry(s)
    case SocketLockReq => Put(s, s.el.value, s.reqs[s.el.value].(own := BySocket)).(spc := Signal)
    case SocketSignal =>
      var e := s.reqs[s.el.value];
      Put(s, s.el.value, if e.pc == Waiting then e.(pc := Signalled) else e).(spc := UnlockReq)
    case SocketUnlockReq =>
      var t := Put(s, s.el.value, s.reqs[s.el.value].(own := Free));
      if s.job.Tick? then t.(spc := Logging)
      else t.(spc := Scanning, el := None, tmp := None, loaded := false)
    case SocketLog => Advance(s, s.pos).(spc := Scanning)
    case SocketFinish => s.(spc := Idle, holder := Nobody)
  }

  /** What the code asks of its callers: outstanding requests have distinct keys. */
  ghost predicate DistinctKeys(s: State) {
    forall r, q :: r in s.reqs && q in s.reqs && r != q && !s.reqs[r].pc.Done? && !s.reqs[q].pc.Done?
      ==> s.reqs[r].key != s.reqs[q].key
  }

  // ---------- the invariant ----------

  function Completions(e: Entry): nat { e.replies + e.expiries }

  /** What the socket thread is doing with `r`, which it has taken out of the list; Idle if nothing. */
  function Stage(s: State, r: Rid): SocketPc {
    if Away(s.spc) && s.el == Some(r) then s.spc else Idle
  }

  /** The socket thread is about to signal `r`, or has just done so and still holds its lock. */
  predicate Picked(s: State, r: Rid) { Serving(Stage(s, r)) }

  predicate Gone(pc: Pc) { pc.Leaving? || pc.Freeing? || pc.Done? }

  /** The requester owns its own lock. */
  predicate HoldsOwn(pc: Pc) { pc.Locked? || pc.Sending? || pc.Returning? || pc.Failed? }

  /** The call is past its wait, or past its failed send. */
  predicate Finishing(pc: Pc) { pc.Unlocked? || pc.WantList? || pc.Deleting? || Gone(pc) }

  /** The socket thread is busy with an entry it has taken out of the list. */
  predicate Serving(spc: SocketPc) { spc.LockReq? || spc.Signal? || spc.UnlockReq? }

  /** The traversal's loop variable points at an entry that is out of the list. */
  predicate Away(spc: SocketPc) { Serving(spc) || spc.Logging? }

  /** Facts about one entry that speak of nothing else. */
  ghost predicate EntryOk(e: Entry) {
    && Completions(e) <= 1 && e.leaves <= 1
    && (Completions(e) == 1 ==> e.leaves == 1)
    && (e.rc == RETURN_OK <==> e.replies == 1) && (e.rc == RETURN_OK || e.rc == RETURN_ERR)
    && (e.own == ByRequester <==> HoldsOwn(e.pc))
    && (e.pc == Locked ==> e.leaves == 0)
    && (e.pc.Signalled? || e.pc.Returning? ==> Completions(e) == 1)
    && (Finishing(e.pc) && !e.failed ==> Completions(e) == 1)
    && (e.failed ==> e.pc.Failed? || Finishing(e.pc))
    && (e.pc == Failed ==> e.failed)
    && (Gone(e.pc) ==> e.leaves == 1)
    && (e.leaves == 1 && Completions(e) == 0 ==> Gone(e.pc))
  }

  ghost predicate TicksOk(e: Entry) {
    && e.ticker == e.budget - e.ticks && e.budget >= 40
    && (e.expiries == 0 ==> e.ticks < e.budget)
    && (e.expiries == 1 ==> e.ticks == e.budget)
  }

  /** How one entry relates to the list, to the socket thread and to the list lock. */
  ghost predicate LinkFacts(e: Entry, listed: bool, stage: SocketPc, holds: bool) {
    && (listed <==> e.pc != Locked && e.leaves == 0)
    && (e.own == BySocket <==> stage.Signal? || stage.UnlockReq?)
    && ((e.pc.Sending? || e.pc.Failed?) && Completions(e) == 1 ==> stage.LockReq?)
    && (e.pc == Waiting && Completions(e) == 1 ==> stage.LockReq? || stage.Signal?)
    && (Away(stage) ==> Completions(e) == 1 && !e.pc.Locked? && !e.pc.Deleting? && !Gone(e.pc))
    && (Serving(stage) ==> !e.pc.Returning? && (Finishing(e.pc) ==> e.failed) && (e.pc.Signalled? ==> stage.UnlockReq?))
    && (holds <==> e.pc == Deleting || e.pc == Leaving)
  }

  ghost predicate LinkOk(s: State, r: Rid)
    requires r in s.reqs
  {
    LinkFacts(s.reqs[r], r in s.list, Stage(s, r), s.holder == Requester(r))
  }

  /** Where the traversal of the list's holder stands. */
  ghost predicate CursorOk(s: State) {
    && (Traversing(s) && s.el.Some? ==> s.pos < |s.list| && s.list[s.pos] == s.el.value)
    && (Traversing(s) && s.loaded ==> s.el.Some?)
    && (Traversing(s) && !s.loaded ==> s.tmp == None)
    && (Traversing(s) && s.tmp.Some? ==> s.pos + 1 < |s.list| && s.list[s.pos + 1] == s.tmp.value)
    && (Away(s.spc) ==> s.el.Some? && s.pos <= |s.list|)
    && (Away(s.spc) && s.tmp.Some? ==> s.pos < |s.list| && s.list[s.pos] == s.tmp.value)
  }

  /** `request_delete_cb` has not walked past the entry it looks for. */
  ghost predicate DeleteOk(s: State) {
    s.holder.Requester? && At(s, s.holder.r, Deleting) && s.reqs[s.holder.r].leaves == 0
    ==> && s.el.Some?
        && s.holder.r !in s.list[..Min(s.pos, |s.list|)]
        && (s.loaded && s.tmp == None ==> s.holder.r !in s.list[Min(s.pos + 1, |s.list|)..])
  }

  ghost predicate Shape(s: State) {
    && Distinct(s.list)
    && (forall r :: r in s.list ==> r in s.reqs)
    && (s.el.Some? ==> s.el.value in s.reqs) && (s.tmp.Some? ==> s.tmp.value in s.reqs)
    && (s.holder == Socket <==> s.spc == Scanning || Away(s.spc))
    && (s.holder.Requester? ==> s.holder.r in s.reqs)
    && CursorOk(s)
    && DeleteOk(s)
  }

  ghost predicate Inv(s: State) {
    && Shape(s)
    && (forall r :: r in s.reqs ==> EntryOk(s.reqs[r]) && TicksOk(s.reqs[r]))
    && (forall r :: r in s.reqs ==> LinkOk(s, r))
  }
}
