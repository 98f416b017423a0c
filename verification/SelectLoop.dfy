/** The server's select loop: `rpc_server_handler`, with the effect of its callbacks on the list of
    subscriptions. */
module SelectLoop {
  import opened Common

  datatype Recv = Error | Closed | Data

  /** The descriptor `accept` returns, given those in use; negative when it fails. */
  type Acceptor = set<int> -> int

  /** A new connection gets a descriptor that is not in use. */
  ghost predicate AcceptContract(accept: Acceptor) {
    forall used: set<int> :: accept(used) < 0 || accept(used) !in used
  }

  /** What the environment answers in one pass: which descriptors are ready, the results of the
      calls made on them, and how many subscriptions the process callback adds for a client whose
      data it is given. `select` also returns how many descriptors are ready. */
  datatype Answers = Answers(ready: set<int>, accept: Acceptor, recv: int -> Recv, subscribes: int -> nat)

  function Rest(ready: set<int>, i: int): set<int> { set j | j in ready && j >= i }

  function Seen(s: seq<int>): set<int> { set x | x in s }

  /** A set of descriptors after client `i` answered `r`: it leaves when its connection is closed. */
  function Left(fds: set<int>, i: int, r: Recv): set<int> { if r == Closed then fds - {i} else fds }

  ghost predicate Ascending(s: seq<int>) { forall i, j :: 0 <= i < j < |s| ==> s[i] < s[j] }

  function Self(fd: int): int { fd }

  /** A descriptor as a list; none where it is negative. */
  function Listed(fd: int): (r: seq<int>) { if fd < 0 then [] else [fd] }

  lemma {:induction false} DropMembers(s: seq<int>, fd: int)
    ensures Seen(WithoutFd(Self, s, fd)) == Seen(s) - {fd}
    ensures Distinct(s) ==> Distinct(WithoutFd(Self, s, fd))
    decreases |s|
  {
    if s != [] {
      DropMembers(s[1..], fd);
      var r := WithoutFd(Self, s[1..], fd);
      assert Seen(s) == {s[0]} + Seen(s[1..]);
      assert s[0] != fd ==> Seen([s[0]] + r) == {s[0]} + Seen(r);
      assert forall x :: x in r ==> x in s[1..];
    }
  }

  lemma {:induction false} AppendMember(s: seq<int>, fd: int)
    requires Distinct(s) && fd !in Seen(s)
    ensures Distinct(s + [fd]) && Seen(s + [fd]) == Seen(s) + {fd}
  {
    assert forall x :: x in s + [fd] <==> x in s || x == fd;
  }

  lemma {:induction false} AddMembers(s: seq<int>, fd: int, n: nat)
    ensures Seen(s + seq(n, _ => fd)) == if n > 0 then Seen(s) + {fd} else Seen(s)
  {
    if n > 0 { assert (s + seq(n, _ => fd))[|s|] == fd; }
  }

  lemma {:induction false} RestStep(ready: set<int>, i: int)
    ensures i in ready ==> i in Rest(ready, i) && |Rest(ready, i)| == |Rest(ready, i + 1)| + 1
    ensures i !in ready ==> Rest(ready, i) == Rest(ready, i + 1)
  {
    if i in ready {
      assert Rest(ready, i) == Rest(ready, i + 1) + {i};
    }
  }

  lemma {:induction false} RestAll(ready: set<int>)
    requires forall fd :: fd in ready ==> 0 <= fd
    ensures Rest(ready, 0) == ready
  {
  }

  /** Nothing is left to serve beyond the largest descriptor. */
  lemma {:induction false} RestNone(ready: set<int>, i: int, all: set<int>, max: int)
    requires Rest(ready, i) <= all && (forall fd :: fd in all ==> fd <= max)
    requires i > max || |Rest(ready, i)| == 0
    ensures Rest(ready, i) == {}
  {
  }

  class Server {
    const listenSd: int
    var masterSet: set<int>
    var maxSd: int
    var clients: seq<int>        // g_client_list
    var subscriptions: seq<int>  // the descriptors in g_event_subscriptions_list

    /** `maxSd` is the largest member of the set, the client list is the rest of it, and every
        subscription belongs to a client. */
    ghost predicate Valid()
      reads this
    {
      && 0 <= listenSd && listenSd in masterSet
      && maxSd in masterSet && (forall fd :: fd in masterSet ==> 0 <= fd <= maxSd)
      && Distinct(clients) && Seen(clients) == masterSet - {listenSd}
      && Seen(subscriptions) <= masterSet - {listenSd}
    }

    constructor (listenSd: int)
      requires 0 <= listenSd
      ensures Valid() && masterSet == {listenSd} && this.listenSd == listenSd && subscriptions == []
    {
      this.listenSd := listenSd;
      maxSd := listenSd;
      masterSet := {listenSd};
      clients := [];
      subscriptions := [];
    }

    /** The listening socket is ready: at most one connection is accepted. */
    method Accept(accept: Acceptor) returns (accepted: set<int>)
      requires Valid() && AcceptContract(accept)
      modifies this`masterSet, this`maxSd, this`clients
      ensures Valid()
      ensures masterSet == old(masterSet) + accepted && accepted !! old(masterSet)
      ensures clients == old(clients) + Listed(accept(old(masterSet)))
      ensures accepted == (var fd := accept(old(masterSet)); if fd < 0 then {} else {fd}) && |accepted| <= 1
      ensures accepted == Seen(Listed(accept(old(masterSet))))
    {
      var newSd := accept(masterSet);
      assert Seen(Listed(newSd)) == if newSd < 0 then {} else {newSd};
      if newSd < 0 {
        return {};
      }
      AppendMember(clients, newSd);
      hide Seen, Distinct;
      clients := clients + [newSd];
      masterSet := masterSet + {newSd};
      if newSd > maxSd {
        maxSd := newSd;
      }
      accepted := {newSd};
    }

    /** The disconnect callback: the subscriptions of client `i` go. */
    method Disconnect(i: int)
      requires Valid()
      modifies this`subscriptions
      ensures Valid() && subscriptions == WithoutFd(Self, old(subscriptions), i) && i !in Seen(subscriptions)
    {
      DropMembers(subscriptions, i);
      subscriptions := WithoutFd(Self, subscriptions, i);
    }

    /** Descriptor `i` is closed; no subscription may still name it. */
    method CloseClient(i: int)
      requires Valid() && i in masterSet && i != listenSd && i !in Seen(subscriptions)
      modifies this`masterSet, this`maxSd, this`clients
      ensures Valid() && masterSet == old(masterSet) - {i}
      ensures maxSd <= old(maxSd) && clients == WithoutFd(Self, old(clients), i)
    {
      masterSet := masterSet - {i};
      if i == maxSd {
        while maxSd !in masterSet
          invariant masterSet == old(masterSet) - {i} && clients == old(clients)
          invariant listenSd <= maxSd <= old(maxSd) && forall fd :: fd in masterSet ==> 0 <= fd <= maxSd
          decreases maxSd
        {
          maxSd := maxSd - 1;
        }
      }
      DropMembers(clients, i);
      clients := WithoutFd(Self, clients, i);
    }

    /** The peer of client `i` has closed its connection. */
    method Hangup(i: int)
      requires Valid() && i in masterSet && i != listenSd
      modifies this`masterSet, this`maxSd, this`clients, this`subscriptions
      ensures Valid() && masterSet == old(masterSet) - {i}
      ensures maxSd <= old(maxSd) && clients == WithoutFd(Self, old(clients), i)
      ensures subscriptions == WithoutFd(Self, old(subscriptions), i)
              && Seen(subscriptions) == old(Seen(subscriptions)) - {i}
    {
      DropMembers(subscriptions, i);
      hide Seen, Distinct;
      Disconnect(i);
      CloseClient(i);
    }

    /** The process callback, which may add subscriptions for the client it serves. */
    method Process(i: int, n: nat)
      requires Valid() && i in masterSet && i != listenSd
      modifies this`subscriptions
      ensures Valid() && subscriptions == old(subscriptions) + seq(n, _ => i)
      ensures Seen(subscriptions) == if n > 0 then old(Seen(subscriptions)) + {i} else old(Seen(subscriptions))
    {
      AddMembers(subscriptions, i, n);
      hide Seen, Distinct;
      subscriptions := subscriptions + seq(n, _ => i);
    }

    /** A ready descriptor is served. */
    method Serve(i: int, answers: Answers) returns (data: bool, accepted: set<int>)
      requires Valid() && i in masterSet && AcceptContract(answers.accept)
      modifies this
      ensures Valid()
      ensures masterSet == if i == listenSd then old(masterSet) + accepted else Left(old(masterSet), i, answers.recv(i))
      ensures data <==> i != listenSd && answers.recv(i) == Data
      ensures accepted !! old(masterSet) && |accepted| <= 1 && (i != listenSd ==> accepted == {})
      ensures accepted == if i == listenSd then Seen(Listed(answers.accept(old(masterSet)))) else {}
      ensures clients ==
                if i == listenSd then old(clients) + Listed(answers.accept(old(masterSet)))
                else if answers.recv(i) == Closed then WithoutFd(Self, old(clients), i)
                else old(clients)
      ensures subscriptions ==
                if i == listenSd then old(subscriptions)
                else if answers.recv(i) == Closed then WithoutFd(Self, old(subscriptions), i)
                else if answers.recv(i) == Data then old(subscriptions) + seq(answers.subscribes(i), _ => i)
                else old(subscriptions)
      ensures Seen(subscriptions) ==
                if data && answers.subscribes(i) > 0 then old(Seen(subscriptions)) + {i}
                else if i == listenSd then old(Seen(subscriptions))
                else Left(old(Seen(subscriptions)), i, answers.recv(i))
    {
      hide Seen, Distinct, AcceptContract;
      data, accepted := false, {};
      if i == listenSd {
        accepted := Accept(answers.accept);
      } else {
        match answers.recv(i)
        case Error =>
        case Closed => Hangup(i);
        case Data =>
          data := true;
          Process(i, answers.subscribes(i));
      }
    }

    /** One pass: every ready descriptor is served exactly once, in ascending order, although
        `maxSd` moves while the pass is under way. Clients that hung up leave the set and the list.
        If the listening socket is ready, the descriptor that `accept` gives for the set as it is
        then joins both; the list keeps its order. Subscriptions of clients that hung up go, and
        those made in the pass follow the others in the order in which the clients were served. */
    method Pass(answers: Answers) returns (served: seq<int>, processed: seq<int>, accepted: set<int>)
      requires Valid() && answers.ready <= masterSet && AcceptContract(answers.accept)
      modifies this
      ensures Valid()
      ensures Ascending(served) && Seen(served) == answers.ready
      ensures Ascending(processed) && Seen(processed) == Answering(listenSd, answers, Data)
      ensures masterSet == old(masterSet) - Answering(listenSd, answers, Closed) + accepted
      ensures accepted ==
                if listenSd in answers.ready then Seen(Listed(NewSd(listenSd, answers, old(masterSet)))) else {}
      ensures clients == Outside(old(clients), Answering(listenSd, answers, Closed))
              + if listenSd in answers.ready then Listed(NewSd(listenSd, answers, old(masterSet))) else []
      ensures subscriptions == Outside(old(subscriptions), Answering(listenSd, answers, Closed))
              + Copies(processed, answers.subscribes)
      ensures Seen(subscriptions) == old(Seen(subscriptions)) - Answering(listenSd, answers, Closed)
              + Subscribing(listenSd, answers)
    {
      hide Ascending, Answering, Subscribing, Halfway, Lists, Rest, Seen, Distinct, AcceptContract, Upto, Joined;
      hide Outside, Copies, Listed;
      var ready := answers.ready;
      RestAll(ready);
      var descReady := |ready|;
      served, processed, accepted := [], [], {};
      var i := 0;
      PassStarts(listenSd, answers, masterSet);
      SubscribersStart(listenSd, answers, Seen(subscriptions));
      ListsStart(listenSd, answers, masterSet, clients, subscriptions);
      while i <= maxSd && descReady > 0
        invariant 0 <= i && Valid()
        invariant descReady == |Rest(ready, i)| && Rest(ready, i) <= masterSet
        invariant Halfway(listenSd, answers, i, served, processed, accepted, old(masterSet), masterSet)
        invariant Lists(listenSd, answers, i, old(masterSet), old(clients), old(subscriptions), processed, clients,
                        subscriptions)
        invariant Seen(subscriptions) == Subscribers(listenSd, answers, i, old(Seen(subscriptions)))
        decreases descReady, maxSd - i
      {
        RestStep(ready, i);
        SubscribersStep(listenSd, answers, i, old(Seen(subscriptions)));
        if i in ready {
          descReady := descReady - 1;
          ghost var before := masterSet;
          ghost var clients1, subs1 := clients, subscriptions;
          var data, joined := Serve(i, answers);
          ListsServe(listenSd, answers, i, served, processed, accepted, old(masterSet), before, old(clients),
                     old(subscriptions), clients1, subs1, clients, subscriptions);
          PassServes(listenSd, answers, i, served, processed, accepted, old(masterSet), before, data, joined,
                     masterSet);
          served := served + [i];
          accepted := accepted + joined;
          if data { processed := processed + [i]; }
        } else {
          PassSkips(listenSd, answers, i, served, processed, accepted, old(masterSet), masterSet);
          ListsSkip(listenSd, answers, i, old(masterSet), old(clients), old(subscriptions), processed, clients,
                    subscriptions);
        }
        i := i + 1;
      }
      RestNone(ready, i, masterSet, maxSd);
      PassEnds(listenSd, answers, i, served, processed, accepted, old(masterSet), masterSet);
      SubscribersEnd(listenSd, answers, i, old(Seen(subscriptions)));
      ListsEnd(listenSd, answers, i, accepted, old(masterSet), old(clients), old(subscriptions), processed, clients,
               subscriptions);
    }

    /** Any number of passes keeps the tables in agreement. */
    method Run(history: seq<Answers>) returns (done: nat)
      requires Valid() && forall k :: 0 <= k < |history| ==> AcceptContract(history[k].accept)
      modifies this
      ensures Valid() && done <= |history|
      ensures done < |history| ==> !(history[done].ready <= masterSet)
    {
      done := 0;
      while done < |history|
        invariant done <= |history| && Valid()
      {
        if !(history[done].ready <= masterSet) {
          return;
        }
        var served, processed, accepted := Pass(history[done]);
        done := done + 1;
      }
    }
  }

  // ---------- the state of a pass before descriptor `i` ----------

  /** The ready clients for which `recv` gives the answer `r`. */
  ghost function Answering(listenSd: int, answers: Answers, r: Recv): set<int> {
    set fd | fd in answers.ready && fd != listenSd && answers.recv(fd) == r
  }

  /** The ready clients for which the process callback adds a subscription. */
  ghost function Subscribing(listenSd: int, answers: Answers): set<int> {
    set fd | fd in Answering(listenSd, answers, Data) && answers.subscribes(fd) > 0
  }

  ghost function Upto(wanted: set<int>, i: int): set<int> { set j | j in wanted && j < i }

  lemma {:induction false} UptoNext(wanted: set<int>, i: int)
    ensures Upto(wanted, i + 1) == Upto(wanted, i) + if i in wanted then {i} else {}
  {
  }

  /** The descriptors with subscriptions when the pass has come to `i`. */
  ghost function Subscribers(listenSd: int, answers: Answers, i: int, before: set<int>): set<int> {
    before - Upto(Answering(listenSd, answers, Closed), i) + Upto(Subscribing(listenSd, answers), i)
  }

  lemma {:induction false} SubscribersStart(listenSd: int, answers: Answers, before: set<int>)
    requires forall fd :: fd in answers.ready ==> 0 <= fd
    ensures Subscribers(listenSd, answers, 0, before) == before
  {
  }

  lemma {:induction false} SubscribersStep(listenSd: int, answers: Answers, i: int, before: set<int>)
    ensures var joins := i in answers.ready && i != listenSd && answers.recv(i) == Data && answers.subscribes(i) > 0;
            var leaves := i in answers.ready && i != listenSd && answers.recv(i) == Closed;
            Subscribers(listenSd, answers, i + 1, before) ==
              if leaves then Subscribers(listenSd, answers, i, before) - {i}
              else if joins then Subscribers(listenSd, answers, i, before) + {i}
              else Subscribers(listenSd, answers, i, before)
  {
    UptoNext(Answering(listenSd, answers, Closed), i);
    UptoNext(Subscribing(listenSd, answers), i);
  }

  lemma {:induction false} SubscribersEnd(listenSd: int, answers: Answers, i: int, before: set<int>)
    requires Rest(answers.ready, i) == {}
    ensures Subscribers(listenSd, answers, i, before) == before - Answering(listenSd, answers, Closed)
            + Subscribing(listenSd, answers)
  {
    UptoAll(answers.ready, Answering(listenSd, answers, Closed), i);
    assert forall fd :: fd in Subscribing(listenSd, answers) ==> fd in Answering(listenSd, answers, Data);
    UptoAll(answers.ready, Subscribing(listenSd, answers), i);
  }

  /** `s` lists exactly the members of `wanted` below `i`, in ascending order. */
  ghost predicate ListsBelow(s: seq<int>, wanted: set<int>, i: int) {
    Ascending(s) && Seen(s) == Upto(wanted, i)
  }

  lemma {:induction false} ListsNext(s: seq<int>, wanted: set<int>, i: int)
    requires ListsBelow(s, wanted, i)
    ensures i in wanted ==> ListsBelow(s + [i], wanted, i + 1)
    ensures i !in wanted ==> ListsBelow(s, wanted, i + 1)
  {
    UptoNext(wanted, i);
    if i in wanted {
      assert Seen(s + [i]) == Seen(s) + {i};
      assert forall k :: 0 <= k < |s| ==> s[k] in Seen(s);
    }
  }

  /** The descriptor that `accept` gives in a pass: the clients below the listening socket that have
      hung up are no longer in use then. */
  ghost function NewSd(listenSd: int, answers: Answers, before: set<int>): int {
    answers.accept(before - set fd | fd in answers.ready && fd < listenSd && answers.recv(fd) == Closed)
  }

  /** What the pass has added to the client list when it has come to `i`. */
  ghost function Joined(listenSd: int, answers: Answers, i: int, before: set<int>): seq<int> {
    if listenSd in answers.ready && listenSd < i then Listed(NewSd(listenSd, answers, before)) else []
  }

  ghost predicate Halfway(listenSd: int, answers: Answers, i: int, served: seq<int>, processed: seq<int>,
                          accepted: set<int>, before: set<int>, now: set<int>) {
    && ListsBelow(served, answers.ready, i)
    && ListsBelow(processed, Answering(listenSd, answers, Data), i)
    && now == before - Upto(Answering(listenSd, answers, Closed), i) + accepted
    && accepted !! Rest(answers.ready, i)
    && accepted == Seen(Joined(listenSd, answers, i, before))
  }

  lemma {:induction false} PassStarts(listenSd: int, answers: Answers, before: set<int>)
    requires forall fd :: fd in answers.ready ==> 0 <= fd
    ensures Halfway(listenSd, answers, 0, [], [], {}, before, before)
  {
    assert Upto(answers.ready, 0) == {} && Joined(listenSd, answers, 0, before) == [];
    assert Upto(Answering(listenSd, answers, Data), 0) == {} && Upto(Answering(listenSd, answers, Closed), 0) == {};
  }

  lemma {:induction false} PassSkips(listenSd: int, answers: Answers, i: int, served: seq<int>, processed: seq<int>,
                                     accepted: set<int>, before: set<int>, now: set<int>)
    requires i !in answers.ready && Halfway(listenSd, answers, i, served, processed, accepted, before, now)
    ensures Halfway(listenSd, answers, i + 1, served, processed, accepted, before, now)
  {
    ListsNext(served, answers.ready, i);
    ListsNext(processed, Answering(listenSd, answers, Data), i);
    UptoNext(Answering(listenSd, answers, Closed), i);
  }

  lemma {:induction false} PassServes(listenSd: int, answers: Answers, i: int, served: seq<int>, processed: seq<int>,
                                      accepted: set<int>, before: set<int>, now: set<int>, data: bool, joined: set<int>,
                                      after: set<int>)
    requires i in answers.ready && Halfway(listenSd, answers, i, served, processed, accepted, before, now)
    requires after == if i == listenSd then now + joined else Left(now, i, answers.recv(i))
    requires data <==> i != listenSd && answers.recv(i) == Data
    requires joined !! now && Rest(answers.ready, i) <= now
    requires joined == if i == listenSd then Seen(Listed(answers.accept(now))) else {}
    ensures Halfway(listenSd, answers, i + 1, served + [i], if data then processed + [i] else processed,
                    accepted + joined, before, after)
    ensures Rest(answers.ready, i + 1) <= after
  {
    var closed := Answering(listenSd, answers, Closed);
    var leaves := if i != listenSd && answers.recv(i) == Closed then {i} else {};
    assert leaves == if i in closed then {i} else {};
    assert after == now - leaves + joined;
    ListsNext(served, answers.ready, i);
    ListsNext(processed, Answering(listenSd, answers, Data), i);
    assert i in Answering(listenSd, answers, Data) <==> data;
    assert i == listenSd ==> Joined(listenSd, answers, i, before) == [] && accepted == {};
    if i == listenSd { AcceptsNow(listenSd, answers, before, now); }
    assert Seen(Joined(listenSd, answers, i + 1, before)) == accepted + joined;
    hide Joined, Seen, Listed, NewSd;
    hide ListsBelow, Upto, Answering, Rest;
    UptoNext(closed, i);
    RestServed(answers.ready, i, accepted, now, leaves, joined, after);
    SetStep(before, Upto(closed, i), accepted, leaves, joined);
  }

  /** The set of descriptors in use when the listening socket is served. */
  lemma {:induction false} AcceptsNow(listenSd: int, answers: Answers, before: set<int>, now: set<int>)
    requires now == before - Upto(Answering(listenSd, answers, Closed), listenSd) + {}
    ensures answers.accept(now) == NewSd(listenSd, answers, before)
  {
    assert now == before - set fd | fd in answers.ready && fd < listenSd && answers.recv(fd) == Closed;
  }

  // ---------- the two lists, in order ----------

  /** The members of `s` that are not `gone`, in order. */
  function Outside(s: seq<int>, gone: set<int>): (r: seq<int>)
    ensures forall x :: x in r <==> x in s && x !in gone
  {
    if s == [] then [] else (if s[0] in gone then [] else [s[0]]) + Outside(s[1..], gone)
  }

  /** Each member of `s` as often as `n` says, in the order of `s`. */
  function Copies(s: seq<int>, n: int -> nat): (r: seq<int>)
    ensures forall x :: x in r ==> x in s
  {
    if s == [] then []
    else
      var last := s[|s| - 1];
      Copies(s[..|s| - 1], n) + seq(n(last), _ => last)
  }

  lemma {:induction false} CopiesNext(s: seq<int>, n: int -> nat, x: int)
    ensures Copies(s + [x], n) == Copies(s, n) + seq(n(x), _ => x)
  {
    assert (s + [x])[..|s|] == s;
  }

  /** Dropping members one at a time drops the set, and order stays. */
  lemma {:induction false} OutsideNext(s: seq<int>, gone: set<int>, i: int)
    ensures Outside(s, gone + {i}) == WithoutFd(Self, Outside(s, gone), i)
    ensures Outside(s, {}) == s
    decreases |s|
  {
    if s != [] {
      OutsideNext(s[1..], gone, i);
      WithoutFdConcat(Self, if s[0] in gone then [] else [s[0]], Outside(s[1..], gone), i);
    }
  }

  ghost predicate Lists(listenSd: int, answers: Answers, i: int, before: set<int>, clients0: seq<int>, subs0: seq<int>,
                        processed: seq<int>, clients: seq<int>, subs: seq<int>) {
    var gone := Upto(Answering(listenSd, answers, Closed), i);
    && clients == Outside(clients0, gone) + Joined(listenSd, answers, i, before)
    && subs == Outside(subs0, gone) + Copies(processed, answers.subscribes)
  }

  lemma {:induction false} ListsStart(listenSd: int, answers: Answers, before: set<int>, clients0: seq<int>,
                                      subs0: seq<int>)
    requires 0 <= listenSd && forall fd :: fd in answers.ready ==> 0 <= fd
    ensures Lists(listenSd, answers, 0, before, clients0, subs0, [], clients0, subs0)
  {
    assert Upto(Answering(listenSd, answers, Closed), 0) == {};
    OutsideNext(clients0, {}, 0);
    OutsideNext(subs0, {}, 0);
  }

  lemma {:induction false} ListsSkip(listenSd: int, answers: Answers, i: int, before: set<int>, clients0: seq<int>,
                                     subs0: seq<int>, processed: seq<int>, clients: seq<int>, subs: seq<int>)
    requires i !in answers.ready && Lists(listenSd, answers, i, before, clients0, subs0, processed, clients, subs)
    ensures Lists(listenSd, answers, i + 1, before, clients0, subs0, processed, clients, subs)
  {
    var closed := Answering(listenSd, answers, Closed);
    UptoNext(closed, i);
    assert i !in closed && Upto(closed, i + 1) == Upto(closed, i);
    assert i != listenSd || listenSd !in answers.ready;
  }

  /** A client that hangs up leaves a list that ends in others. */
  lemma {:induction false} Leaves(s: seq<int>, gone: set<int>, rest: seq<int>, i: int)
    requires i !in rest
    ensures WithoutFd(Self, Outside(s, gone) + rest, i) == Outside(s, gone + {i}) + rest
  {
    WithoutFdConcat(Self, Outside(s, gone), rest, i);
    WithoutFdAbsent(Self, rest, i);
    OutsideNext(s, gone, i);
  }

  /** What is still to be served stays in the set, and is none of the newcomers. */
  lemma {:induction false} RestServed(ready: set<int>, i: int, accepted: set<int>, now: set<int>,
                                      leaves: set<int>, joined: set<int>, after: set<int>)
    requires i in ready && accepted !! Rest(ready, i) && Rest(ready, i) <= now
    requires leaves <= {i} && joined !! now && after == now - leaves + joined
    ensures Rest(ready, i + 1) <= after && accepted + joined !! Rest(ready, i + 1) && leaves !! accepted
  {
    assert i in Rest(ready, i) && i !in Rest(ready, i + 1) && Rest(ready, i + 1) <= Rest(ready, i);
    hide Rest;
  }

  lemma {:induction false} SetStep(before: set<int>, gone: set<int>, accepted: set<int>, leaves: set<int>,
                                   joined: set<int>)
    requires leaves !! accepted
    ensures before - gone + accepted - leaves + joined == before - (gone + leaves) + (accepted + joined)
  {
  }

  lemma {:induction false} PassEnds(listenSd: int, answers: Answers, i: int, served: seq<int>, processed: seq<int>,
                                    accepted: set<int>, before: set<int>, now: set<int>)
    requires Halfway(listenSd, answers, i, served, processed, accepted, before, now) && Rest(answers.ready, i) == {}
    ensures Ascending(served) && Seen(served) == answers.ready
    ensures Ascending(processed) && Seen(processed) == Answering(listenSd, answers, Data)
    ensures now == before - Answering(listenSd, answers, Closed) + accepted
    ensures accepted == Seen(Joined(listenSd, answers, i, before))
  {
    UptoAll(answers.ready, answers.ready, i);
    UptoAll(answers.ready, Answering(listenSd, answers, Data), i);
    UptoAll(answers.ready, Answering(listenSd, answers, Closed), i);
  }

  lemma {:induction false} UptoAll(ready: set<int>, wanted: set<int>, i: int)
    requires wanted <= ready && Rest(ready, i) == {}
    ensures Upto(wanted, i) == wanted
  {
    assert forall fd :: fd in ready ==> (fd in Rest(ready, i) <==> fd >= i);
  }

  lemma {:induction false} ListsServe(listenSd: int, answers: Answers, i: int, served: seq<int>, processed: seq<int>,
                                      accepted: set<int>, before: set<int>, now: set<int>, clients0: seq<int>,
                                      subs0: seq<int>, clients: seq<int>, subs: seq<int>, clients': seq<int>,
                                      subs': seq<int>)
    requires i in answers.ready && Halfway(listenSd, answers, i, served, processed, accepted, before, now)
    requires Lists(listenSd, answers, i, before, clients0, subs0, processed, clients, subs)
    requires clients' == if i == listenSd then clients + Listed(answers.accept(now))
                         else if answers.recv(i) == Closed then WithoutFd(Self, clients, i) else clients
    requires subs' == if i == listenSd then subs
                      else if answers.recv(i) == Closed then WithoutFd(Self, subs, i)
                      else if answers.recv(i) == Data then subs + seq(answers.subscribes(i), _ => i) else subs
    ensures var data := i != listenSd && answers.recv(i) == Data;
            Lists(listenSd, answers, i + 1, before, clients0, subs0, if data then processed + [i] else processed,
                  clients', subs')
  {
    var closed := Answering(listenSd, answers, Closed);
    var gone := Upto(closed, i);
    UptoNext(closed, i);
    assert i in closed <==> i != listenSd && answers.recv(i) == Closed;
    assert i !in closed ==> Upto(closed, i + 1) == gone;
    var joined := Joined(listenSd, answers, i, before);
    assert i !in joined by { assert i in Rest(answers.ready, i); }
    assert i !in processed by { assert i !in Seen(processed); }
    if i == listenSd {
      assert joined == [] && accepted == {};
      AcceptsNow(listenSd, answers, before, now);
    } else if answers.recv(i) == Closed {
      Leaves(clients0, gone, joined, i);
      Leaves(subs0, gone, Copies(processed, answers.subscribes), i);
    } else if answers.recv(i) == Data {
      CopiesNext(processed, answers.subscribes, i);
    }
  }

  lemma {:induction false} ListsEnd(listenSd: int, answers: Answers, i: int, accepted: set<int>, before: set<int>,
                                    clients0: seq<int>, subs0: seq<int>, processed: seq<int>, clients: seq<int>,
                                    subs: seq<int>)
    requires Lists(listenSd, answers, i, before, clients0, subs0, processed, clients, subs)
    requires Rest(answers.ready, i) == {} && accepted == Seen(Joined(listenSd, answers, i, before))
    ensures clients == Outside(clients0, Answering(listenSd, answers, Closed))
            + if listenSd in answers.ready then Listed(NewSd(listenSd, answers, before)) else []
    ensures subs == Outside(subs0, Answering(listenSd, answers, Closed)) + Copies(processed, answers.subscribes)
    ensures accepted == if listenSd in answers.ready then Seen(Listed(NewSd(listenSd, answers, before))) else {}
  {
    UptoAll(answers.ready, Answering(listenSd, answers, Closed), i);
    assert listenSd in answers.ready && listenSd >= i ==> listenSd in Rest(answers.ready, i);
  }
}
