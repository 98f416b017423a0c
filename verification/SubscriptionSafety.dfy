/** The server thread and any number of publishing threads share the subscription list.

    The server thread accepts connections, runs the process callback (which may append a
    subscription for the connection it serves), and on a hang-up first runs the disconnect
    callback, which removes the connection's subscriptions under the subscription mutex, and
    only then closes the descriptor. A publisher sends while it holds that mutex. Descriptors
    are re-used, so every connection also carries a generation that never repeats. */
module SubscriptionSafety {
  import opened Common

  datatype Sub = Sub(fd: int, gen: nat)

  datatype Holder = Nobody | ServerThread | Publisher(p: nat)

  datatype ServerPc =
    | Idle
    | Processing(fd: int)      // inside the process callback
    | WantAdd(fd: int)         // asks for the mutex to append a subscription
    | Adding(fd: int)          // holds the mutex
    | WantRemove(fd: int)      // inside the disconnect callback, asks for the mutex
    | Removing(fd: int)        // holds the mutex
    | Removed(fd: int)         // subscriptions gone, mutex still held
    | Closing(fd: int)         // callback returned, descriptor not yet closed

  /** A publisher that holds the mutex stands at index `at` of the list. */
  datatype State = State(
    open: map<int, nat>, gens: nat, subs: seq<Sub>, holder: Holder, pc: ServerPc, at: nat)

  const Init := State(map[], 0, [], Nobody, Idle, 0)

  datatype Step =
    | Accept(fd: int) | Receive(fd: int) | Return
    | AskAdd | LockAdd | AddUnlock
    | HangUp(fd: int) | LockRemove | RemoveAll | UnlockRemove | Close
    | LockPublish(p: nat) | Skip(p: nat) | Send(p: nat) | UnlockPublish(p: nat)

  function Fd(sub: Sub): int { sub.fd }

  predicate Enabled(s: State, a: Step) {
    match a
    case Accept(fd) => s.pc == Idle && fd !in s.open
    case Receive(fd) => s.pc == Idle && fd in s.open
    case Return => s.pc.Processing?
    case AskAdd => s.pc.Processing?
    case LockAdd => s.pc.WantAdd? && s.holder == Nobody
    case AddUnlock => s.pc.Adding? && s.pc.fd in s.open
    case HangUp(fd) => s.pc == Idle && fd in s.open
    case LockRemove => s.pc.WantRemove? && s.holder == Nobody
    case RemoveAll => s.pc.Removing?
    case UnlockRemove => s.pc.Removed?
    case Close => s.pc.Closing?
    case LockPublish(p) => s.holder == Nobody
    case Skip(p) => s.holder == Publisher(p) && s.at < |s.subs|
    case Send(p) => s.holder == Publisher(p) && s.at < |s.subs|
    case UnlockPublish(p) => s.holder == Publisher(p) && s.at == |s.subs|
  }

  function Apply(s: State, a: Step): State
    requires Enabled(s, a)
  {
    match a
    case Accept(fd) => s.(open := s.open[fd := s.gens], gens := s.gens + 1)
    case Receive(fd) => s.(pc := Processing(fd))
    case Return => s.(pc := Idle)
    case AskAdd => s.(pc := WantAdd(s.pc.fd))
    case LockAdd => s.(pc := Adding(s.pc.fd), holder := ServerThread)
    case AddUnlock => s.(subs := s.subs + [Sub(s.pc.fd, s.open[s.pc.fd])], pc := Processing(s.pc.fd), holder := Nobody)
    case HangUp(fd) => s.(pc := WantRemove(fd))
    case LockRemove => s.(pc := Removing(s.pc.fd), holder := ServerThread)
    case RemoveAll => s.(pc := Removed(s.pc.fd), subs := WithoutFd(Fd, s.subs, s.pc.fd))
    case UnlockRemove => s.(pc := Closing(s.pc.fd), holder := Nobody)
    case Close => s.(open := s.open - {s.pc.fd}, pc := Idle)
    case LockPublish(p) => s.(holder := Publisher(p), at := 0)
    case Skip(p) => s.(at := s.at + 1)
    case Send(p) => s.(at := s.at + 1)
    case UnlockPublish(p) => s.(holder := Nobody)
  }

  ghost predicate IsRun(ss: seq<State>, acts: seq<Step>) {
    && |ss| == |acts| + 1 && ss[0] == Init
    && forall i :: 0 <= i < |acts| ==> Enabled(ss[i], acts[i]) && ss[i + 1] == Apply(ss[i], acts[i])
  }

  /** A subscription whose descriptor is open and still the connection that subscribed. */
  predicate Live(s: State, sub: Sub) { sub.fd in s.open && s.open[sub.fd] == sub.gen }

  ghost predicate Inv(s: State) {
    && (forall sub :: sub in s.subs ==> Live(s, sub))
    && (forall fd :: fd in s.open ==> s.open[fd] < s.gens)
    && (forall f, g :: f in s.open && g in s.open && f != g ==> s.open[f] != s.open[g])
    && (!s.pc.Idle? ==> s.pc.fd in s.open)
    && (s.pc.Removed? || s.pc.Closing? ==> forall sub :: sub in s.subs ==> sub.fd != s.pc.fd)
    && (s.holder == ServerThread <==> s.pc.Adding? || s.pc.Removing? || s.pc.Removed?)
    && (s.holder.Publisher? ==> s.at <= |s.subs|)
  }

  lemma {:induction false} StepKeepsInv(s: State, a: Step)
    requires Inv(s) && Enabled(s, a)
    ensures Inv(Apply(s, a))
  {
    var t := Apply(s, a);
    forall sub | sub in t.subs ensures Live(t, sub) {
      assert sub in s.subs || (a.AddUnlock? && sub == Sub(s.pc.fd, s.open[s.pc.fd]));
    }
  }

  lemma {:induction false} RunInvariant(ss: seq<State>, acts: seq<Step>, i: nat)
    requires IsRun(ss, acts) && i < |ss|
    ensures Inv(ss[i])
  {
    if i > 0 {
      RunInvariant(ss, acts, i - 1);
      StepKeepsInv(ss[i - 1], acts[i - 1]);
    }
  }

  /** Whatever the interleaving, a publisher sends only on open descriptors, and the peer is the
      connection that subscribed, not a later one that got the same descriptor. */
  lemma {:induction false} SendsReachSubscribers(ss: seq<State>, acts: seq<Step>, i: nat)
    requires IsRun(ss, acts) && i < |acts| && acts[i].Send?
    ensures ss[i].at < |ss[i].subs| && Live(ss[i], ss[i].subs[ss[i].at])
  {
    RunInvariant(ss, acts, i);
    assert Enabled(ss[i], acts[i]);
  }

  /** While a publisher holds the mutex, none of the descriptors it may send on is closed under it. */
  lemma {:induction false} OpenUntilUnlocked(ss: seq<State>, acts: seq<Step>, i: nat, j: nat, p: nat)
    requires IsRun(ss, acts) && i <= j < |ss| && forall k :: i <= k <= j ==> ss[k].holder == Publisher(p)
    ensures ss[j].subs == ss[i].subs
    ensures forall sub :: sub in ss[i].subs ==> Live(ss[j], sub)
    decreases j
  {
    RunInvariant(ss, acts, j);
    if i < j {
      OpenUntilUnlocked(ss, acts, i, j - 1, p);
      RunInvariant(ss, acts, j - 1);
      assert Enabled(ss[j - 1], acts[j - 1]) && ss[j] == Apply(ss[j - 1], acts[j - 1]);
    }
  }

  // ---------- what becomes of a subscription ----------

  /** A subscription leaves the list only by the hang-up of its own connection. */
  lemma {:induction false} LeavesOnlyByHangUp(ss: seq<State>, acts: seq<Step>, i: nat, sub: Sub)
    requires IsRun(ss, acts) && i < |acts| && sub in ss[i].subs && sub !in ss[i + 1].subs
    ensures acts[i] == RemoveAll && ss[i].pc == Removing(sub.fd)
  {
    var s := ss[i];
    assert Enabled(s, acts[i]) && ss[i + 1] == Apply(s, acts[i]);
    if acts[i].RemoveAll? && sub.fd != s.pc.fd { WithoutFdKeeps(Fd, s.subs, s.pc.fd, sub); }
  }

  /** It joins, at the end, only as its own connection subscribes, and then it does. */
  lemma {:induction false} JoinsBySubscribing(ss: seq<State>, acts: seq<Step>, i: nat)
    requires IsRun(ss, acts) && i < |acts|
    ensures acts[i] == AddUnlock ==>
              && ss[i].pc.Adding? && ss[i].pc.fd in ss[i].open
              && ss[i + 1].subs == ss[i].subs + [Sub(ss[i].pc.fd, ss[i].open[ss[i].pc.fd])]
    ensures forall sub :: sub in ss[i + 1].subs && sub !in ss[i].subs ==> acts[i] == AddUnlock
  {
    assert Enabled(ss[i], acts[i]) && ss[i + 1] == Apply(ss[i], acts[i]);
  }

  /** After the hang-up of a connection none of its subscriptions is left. */
  lemma {:induction false} GoneAfterHangUp(ss: seq<State>, acts: seq<Step>, i: nat, sub: Sub)
    requires IsRun(ss, acts) && i < |acts| && acts[i] == RemoveAll && sub in ss[i + 1].subs
    ensures ss[i].pc.Removing? && sub.fd != ss[i].pc.fd && sub in ss[i].subs
  {
    assert Enabled(ss[i], acts[i]) && ss[i + 1] == Apply(ss[i], acts[i]);
  }

  /** No step from `i` to `j` removes the subscriptions of `fd`. */
  ghost predicate Undisturbed(ss: seq<State>, acts: seq<Step>, i: nat, j: nat, fd: int)
    requires IsRun(ss, acts) && j < |ss|
  {
    forall k :: i <= k < j && acts[k] == RemoveAll ==> ss[k].pc != Removing(fd)
  }

  lemma {:induction false} StepKeepsOrder(s: State, act: Step, a: Sub, b: Sub)
    requires Enabled(s, act) && Precedes(s.subs, a, b)
    requires act == RemoveAll ==> s.pc != Removing(a.fd) && s.pc != Removing(b.fd)
    ensures Precedes(Apply(s, act).subs, a, b)
  {
    if act.RemoveAll? {
      WithoutFdOrder(Fd, s.subs, s.pc.fd, a, b);
    } else if act.AddUnlock? {
      var i, j :| 0 <= i < j < |s.subs| && s.subs[i] == a && s.subs[j] == b;
      var t := Apply(s, act);
      assert t.subs[i] == a && t.subs[j] == b;
    }
  }

  /** In every run, subscriptions stay, and in their order, as long as their connections do not
      hang up. */
  lemma {:induction false} KeptUntilHangUp(ss: seq<State>, acts: seq<Step>, i: nat, j: nat, a: Sub, b: Sub)
    requires IsRun(ss, acts) && i <= j < |ss| && Undisturbed(ss, acts, i, j, a.fd) && Undisturbed(ss, acts, i, j, b.fd)
    ensures a in ss[i].subs ==> a in ss[j].subs
    ensures Precedes(ss[i].subs, a, b) ==> Precedes(ss[j].subs, a, b)
    decreases j
  {
    hide Precedes, Enabled, Apply;
    if i < j {
      KeptUntilHangUp(ss, acts, i, j - 1, a, b);
      assert Enabled(ss[j - 1], acts[j - 1]) && ss[j] == Apply(ss[j - 1], acts[j - 1]);
      if a in ss[j - 1].subs && a !in ss[j].subs { LeavesOnlyByHangUp(ss, acts, j - 1, a); }
      if Precedes(ss[j - 1].subs, a, b) { StepKeepsOrder(ss[j - 1], acts[j - 1], a, b); }
    }
  }

  /** A connection ends only by the close that follows its own hang-up. */
  lemma {:induction false} EndsOnlyByHangUp(ss: seq<State>, acts: seq<Step>, i: nat, fd: int)
    requires IsRun(ss, acts) && i < |acts| && fd in ss[i].open
    requires fd !in ss[i + 1].open || ss[i + 1].open[fd] != ss[i].open[fd]
    ensures acts[i] == Close && ss[i].pc == Closing(fd)
  {
    assert Enabled(ss[i], acts[i]) && ss[i + 1] == Apply(ss[i], acts[i]);
  }

  /** The steps in which publisher `p` deals with one subscription. */
  predicate Visits(a: Step, p: nat) { a == Send(p) || a == Skip(p) }

  lemma {:induction false} CursorMoves(s: State, a: Step, p: nat)
    requires Enabled(s, a) && s.holder == Publisher(p) && Apply(s, a).holder == Publisher(p)
    ensures Apply(s, a).at == s.at + if Visits(a, p) then 1 else 0
  {
  }

  lemma {:induction false} CursorPasses(ss: seq<State>, acts: seq<Step>, i: nat, j: nat, p: nat, n: nat)
    returns (k: nat)
    requires IsRun(ss, acts) && i <= j < |ss| && (forall m :: i <= m <= j ==> ss[m].holder == Publisher(p))
    requires ss[i].at <= n < ss[j].at
    ensures i <= k < j && Visits(acts[k], p) && ss[k].at == n
    decreases j
  {
    var m := j - 1;
    assert Enabled(ss[m], acts[m]) && ss[j] == Apply(ss[m], acts[m]);
    hide Enabled, Apply;
    CursorMoves(ss[m], acts[m], p);
    if n < ss[m].at {
      k := CursorPasses(ss, acts, i, m, p, n);
    } else {
      k := m;
    }
  }

  /** Between taking and releasing the mutex, a publisher deals with every subscription of the list. */
  lemma {:induction false} PublisherVisitsAll(ss: seq<State>, acts: seq<Step>, i: nat, j: nat, p: nat, n: nat)
    returns (k: nat)
    requires IsRun(ss, acts) && i < j < |acts| && acts[i] == LockPublish(p) && acts[j] == UnlockPublish(p)
    requires (forall m :: i < m <= j ==> ss[m].holder == Publisher(p)) && n < |ss[i + 1].subs|
    ensures i < k < j && Visits(acts[k], p) && ss[k].at == n && ss[k].subs == ss[i + 1].subs
  {
    assert Enabled(ss[i], acts[i]) && ss[i + 1] == Apply(ss[i], acts[i]) && Enabled(ss[j], acts[j]);
    assert ss[i + 1].at == 0 && ss[j].at == |ss[j].subs|;
    hide Enabled, Apply;
    OpenUntilUnlocked(ss, acts, i + 1, j, p);
    k := CursorPasses(ss, acts, i + 1, j, p, n);
    OpenUntilUnlocked(ss, acts, i + 1, k, p);
  }
}
