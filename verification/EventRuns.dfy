/** What publishing means, and what holds over every history of subscriptions, publishes,
    acknowledgements and hang-ups. */
module EventRuns {
  import opened Common
  import opened Decimal
  import opened Events

  /** How many matching subscriptions stand before index `i`. */
  function Rank(subs: seq<Sub>, name: string, i: nat): nat
    requires i <= |subs|
  {
    Matching(subs[..i], name)
  }

  lemma {:induction false} RankStep(subs: seq<Sub>, name: string, i: nat)
    requires 0 < i <= |subs|
    ensures Rank(subs, name, i) == Rank(subs[1..], name, i - 1) + if Matches(subs[0], name) then 1 else 0
  {
    assert subs[..i][1..] == subs[1..][..i - 1];
  }

  /** Each match gets exactly one message, to its own descriptor; the k-th match gets the k-th
      message and the k-th id. Only matching synchronous subscriptions change, and they wait for
      exactly the id of the message that was sent to them. */
  lemma {:induction false} PublishMeaning(subs: seq<Sub>, name: string, value: string, id: int, i: nat)
    requires id >= 0 && i < |subs|
    ensures |Sends(subs, name, value, id)| == Matching(subs, name)
    ensures name <= subs[i].event ==>
              var k := Rank(subs, name, i);
              && k < Matching(subs, name)
              && Sends(subs, name, value, id)[k] == Send(subs[i].fd, id + k, name, value)
              && (subs[i].ntype.OnChangeSync? || subs[i].ntype.OnChangeSyncTimeout? ==>
                    Published(subs, name, id)[i] == subs[i].(reqId := Text(id + k, 1), status := WaitReply))
    ensures !(name <= subs[i].event && (subs[i].ntype.OnChangeSync? || subs[i].ntype.OnChangeSyncTimeout?)) ==>
              Published(subs, name, id)[i] == subs[i]
    decreases |subs|
  {
    hide Text;
    SendsCount(subs, name, value, id);
    if i == 0 {
      assert subs[..0] == [];
    } else {
      RankStep(subs, name, i);
      PublishMeaning(subs[1..], name, value, if Matches(subs[0], name) then id + 1 else id, i - 1);
    }
  }

  /** The indices of the subscriptions whose event begins with `name`. */
  function Indices(subs: seq<Sub>, name: string): set<int> { set i | 0 <= i < |subs| && name <= subs[i].event }

  /** Matching counts them, and so a rank counts those before its index. */
  lemma {:induction false} MatchingCount(subs: seq<Sub>, name: string)
    ensures Matching(subs, name) == |Indices(subs, name)|
    decreases |subs|
  {
    if subs == [] {
      assert Indices(subs, name) == {};
    } else {
      var n := |subs| - 1;
      var front := subs[..n];
      MatchingCount(front, name);
      assert subs == front + [subs[n]];
      MatchingSnoc(front, name, subs[n]);
      hide Matching;
      assert Indices(subs, name) == if name <= subs[n].event then Indices(front, name) + {n} else Indices(front, name);
    }
  }

  lemma {:induction false} MatchingSnoc(subs: seq<Sub>, name: string, last: Sub)
    ensures Matching(subs + [last], name) == Matching(subs, name) + if name <= last.event then 1 else 0
    decreases |subs|
  {
    if subs == [] {
      assert (subs + [last])[1..] == [];
    } else {
      assert (subs + [last])[1..] == subs[1..] + [last];
      MatchingSnoc(subs[1..], name, last);
    }
  }

  lemma {:induction false} SendsCount(subs: seq<Sub>, name: string, value: string, id: int)
    ensures |Sends(subs, name, value, id)| == Matching(subs, name)
    decreases |subs|
  {
    if subs != [] { SendsCount(subs[1..], name, value, if Matches(subs[0], name) then id + 1 else id); }
  }

  /** Ids grow strictly along the messages of one publish. */
  lemma {:induction false} SendIds(subs: seq<Sub>, name: string, value: string, id: int, k: nat)
    requires k < |Sends(subs, name, value, id)|
    ensures Sends(subs, name, value, id)[k].id == id + k
    decreases |subs|
  {
    if Matches(subs[0], name) {
      if k > 0 { SendIds(subs[1..], name, value, id + 1, k - 1); }
    } else {
      SendIds(subs[1..], name, value, id, k);
    }
  }

  /** Earlier matches have smaller ranks, so no two of them share a message or an id. */
  lemma {:induction false} RankGrows(subs: seq<Sub>, name: string, i: nat, j: nat)
    requires i < j <= |subs|
    ensures Rank(subs, name, i) <= Rank(subs, name, j)
    ensures Matches(subs[i], name) ==> Rank(subs, name, i) < Rank(subs, name, j)
    decreases i
  {
    RankStep(subs, name, j);
    if i > 0 {
      RankStep(subs, name, i);
      RankGrows(subs[1..], name, i - 1, j - 1);
    } else {
      assert subs[..0] == [];
    }
  }

  /** Publishing waits exactly when some synchronous match is followed, itself included, by
      successful sends only. */
  lemma {:induction false} WaitMeaning(subs: seq<Sub>, name: string, sendOk: nat -> bool, k: nat)
    ensures MustWait(subs, name, sendOk, k) <==>
              exists i :: WaitsFor(subs, name, sendOk, k, i)
    decreases |subs|
  {
    if subs != [] {
      var tail := subs[1..];
      var k' := if Matches(subs[0], name) then k + 1 else k;
      WaitMeaning(tail, name, sendOk, k');
      assert subs[..0] == [];
      assert WaitsFor(subs, name, sendOk, k, 0) <==>
               Matches(subs[0], name) && Synchronous(subs[0]) && AllSent(sendOk, k, 1 + Matching(tail, name));
      forall i | 0 < i < |subs|
        ensures WaitsFor(subs, name, sendOk, k, i) <==> WaitsFor(tail, name, sendOk, k', i - 1)
      {
        RankStep(subs, name, i);
      }
      if MustWait(tail, name, sendOk, k') {
        var i :| WaitsFor(tail, name, sendOk, k', i);
        assert WaitsFor(subs, name, sendOk, k, i + 1);
      }
    }
  }

  ghost predicate WaitsFor(subs: seq<Sub>, name: string, sendOk: nat -> bool, k: nat, i: int) {
    && 0 <= i < |subs| && name <= subs[i].event && (subs[i].ntype.OnChangeSync? || subs[i].ntype.OnChangeSyncTimeout?)
    && Rank(subs, name, i) <= Matching(subs, name)
    && AllSent(sendOk, k + Rank(subs, name, i), Matching(subs, name) - Rank(subs, name, i))
  }

  // ---------- histories ----------

  datatype Table = Table(subs: seq<Sub>, seqno: int)

  const Empty := Table([], DEFAULT_SEQ_START_NUMBER)

  datatype Op =
    | Publish(name: string)
    | Ack(fd: int, event: string, id: string, success: bool)
    | Subscribe(fd: int, event: string, ntype: Notify)
    | Unsubscribe(fd: int)

  /** The operations of the event server, on values. */
  function Do(t: Table, op: Op): (r: Table)
    requires t.seqno >= 0
    ensures r.seqno >= 0
  {
    match op
    case Publish(name) => Table(Published(t.subs, name, t.seqno + 1), t.seqno + Matching(t.subs, name))
    case Ack(fd, event, id, success) =>
      t.(subs := Acked(t.subs, fd, event, id, if success then ReplySuccess else ReplyError))
    case Subscribe(fd, event, ntype) => t.(subs := t.subs + [Sub(fd, event, ntype, "", NoEvent)])
    case Unsubscribe(fd) => t.(subs := WithoutFd(Fd, t.subs, fd))
  }

  /** `n` is the id of the message this subscription waits for. */
  ghost predicate WaitsOn(sub: Sub, n: int) {
    sub.status == WaitReply && Synchronous(sub) && n >= 0 && sub.reqId == Text(n, 1)
  }

  /** Outstanding subscriptions wait for ids that were given out, and for different ones. */
  ghost predicate IdsDistinct(t: Table) {
    && t.seqno >= 0
    && (forall i :: 0 <= i < |t.subs| && t.subs[i].status == WaitReply ==>
          exists n :: n <= t.seqno && WaitsOn(t.subs[i], n))
    && (forall i, j :: 0 <= i < j < |t.subs| && t.subs[i].status == WaitReply && t.subs[j].status == WaitReply
          ==> t.subs[i].reqId != t.subs[j].reqId)
  }

  /** After a publish, an outstanding subscription is an old one that did not match, or waits for
      the id of its own message. */
  lemma {:induction false} OutstandingAfter(t: Table, name: string, i: nat) returns (n: int, renewed: bool)
    requires IdsDistinct(t) && i < |t.subs| && Published(t.subs, name, t.seqno + 1)[i].status == WaitReply
    ensures WaitsOn(Published(t.subs, name, t.seqno + 1)[i], n)
    ensures renewed ==>
              Matches(t.subs[i], name) && n == t.seqno + 1 + Rank(t.subs, name, i) <= t.seqno + Matching(t.subs, name)
    ensures !renewed ==> n <= t.seqno && t.subs[i] == Published(t.subs, name, t.seqno + 1)[i]
  {
    hide Text;
    PublishMeaning(t.subs, name, "", t.seqno + 1, i);
    if Matches(t.subs[i], name) && Synchronous(t.subs[i]) {
      n, renewed := t.seqno + 1 + Rank(t.subs, name, i), true;
    } else {
      n :| n <= t.seqno && WaitsOn(t.subs[i], n);
      renewed := false;
    }
  }

  lemma {:induction false} PublishKeepsIds(t: Table, name: string)
    requires IdsDistinct(t)
    ensures IdsDistinct(Do(t, Publish(name)))
  {
    hide Text, Published;
    var r := Published(t.subs, name, t.seqno + 1);
    forall i | 0 <= i < |r| && r[i].status == WaitReply
      ensures exists n :: n <= t.seqno + Matching(t.subs, name) && WaitsOn(r[i], n)
    {
      var n, renewed := OutstandingAfter(t, name, i);
    }
    forall i, j | 0 <= i < j < |r| && r[i].status == WaitReply && r[j].status == WaitReply
      ensures r[i].reqId != r[j].reqId
    {
      var m, f := OutstandingAfter(t, name, i);
      var n, g := OutstandingAfter(t, name, j);
      RankGrows(t.subs, name, i, j);
      if f || g {
        assert m != n;
        DifferentIds(m, n);
      }
    }
  }

  lemma {:induction false} DifferentIds(m: int, n: int)
    requires m >= 0 && n >= 0 && m != n
    ensures Text(m, 1) != Text(n, 1)
  {
    if Text(m, 1) == Text(n, 1) { TextInjective(m, n, 1); }
  }

  /** A subscription that waits for an id that was given out, and for none that `rest` waits for. */
  ghost predicate OwnId(sub: Sub, rest: seq<Sub>, seqno: int) {
    sub.status == WaitReply ==>
      && (exists n :: n <= seqno && WaitsOn(sub, n))
      && (forall other :: other in rest && other.status == WaitReply ==> other.reqId != sub.reqId)
  }

  lemma {:induction false} IdsCons(sub: Sub, rest: seq<Sub>, seqno: int)
    ensures IdsDistinct(Table([sub] + rest, seqno)) <==> IdsDistinct(Table(rest, seqno)) && OwnId(sub, rest, seqno)
  {
    hide WaitsOn;
    var all := [sub] + rest;
    assert all[0] == sub && forall i :: 0 <= i < |rest| ==> all[i + 1] == rest[i];
    if IdsDistinct(Table(all, seqno)) {
      forall i | 0 <= i < |rest| && rest[i].status == WaitReply ensures exists n :: n <= seqno && WaitsOn(rest[i], n) {
        assert all[i + 1].status == WaitReply;
      }
      forall i, j | 0 <= i < j < |rest| && rest[i].status == WaitReply && rest[j].status == WaitReply
        ensures rest[i].reqId != rest[j].reqId
      {
        assert all[i + 1].reqId != all[j + 1].reqId;
      }
    }
  }

  lemma {:induction false} UnsubscribeKeepsIds(subs: seq<Sub>, seqno: int, fd: int)
    requires IdsDistinct(Table(subs, seqno))
    ensures IdsDistinct(Table(WithoutFd(Fd, subs, fd), seqno))
    decreases |subs|
  {
    if subs != [] {
      var x, tail := subs[0], subs[1..];
      assert subs == [x] + tail;
      hide IdsDistinct;
      IdsCons(x, tail, seqno);
      UnsubscribeKeepsIds(tail, seqno, fd);
      IdsCons(x, WithoutFd(Fd, tail, fd), seqno);
    }
  }

  /** In every history, outstanding synchronous subscriptions have pairwise distinct ids. */
  lemma {:induction false} StepKeepsIds(t: Table, op: Op)
    requires IdsDistinct(t)
    ensures IdsDistinct(Do(t, op))
  {
    hide Text;
    match op
    case Publish(name) => PublishKeepsIds(t, name);
    case Unsubscribe(fd) => UnsubscribeKeepsIds(t.subs, t.seqno, fd);
    case Ack(_, _, _, _) =>
    case Subscribe(_, _, _) =>
  }

  function After(ops: seq<Op>): (t: Table)
    ensures t.seqno >= 0
  {
    if ops == [] then Empty else Do(After(ops[..|ops| - 1]), ops[|ops| - 1])
  }

  lemma {:induction false} HistoryIds(ops: seq<Op>)
    ensures IdsDistinct(After(ops))
    decreases |ops|
  {
    if ops != [] {
      HistoryIds(ops[..|ops| - 1]);
      StepKeepsIds(After(ops[..|ops| - 1]), ops[|ops| - 1]);
    }
  }

  // ---------- leaving the waiting state ----------

  /** While its connection lives, an outstanding subscription stops waiting exactly when a reply
      arrives on its own descriptor whose event text prefixes the subscribed event and whose id
      text prefixes the outstanding id. */
  lemma {:induction false} StopsWaitingIff(ops: seq<Op>, op: Op, i: nat)
    requires i < |After(ops).subs| && After(ops).subs[i].status == WaitReply && !op.Unsubscribe?
    ensures i < |Do(After(ops), op).subs|
    ensures var sub, sub' := After(ops).subs[i], Do(After(ops), op).subs[i];
            && (sub'.status != WaitReply <==>
                  op.Ack? && op.fd == sub.fd && op.event <= sub.event && op.id <= sub.reqId)
            && (sub'.status != WaitReply ==> sub' == sub.(status := if op.success then ReplySuccess else ReplyError))
  {
    hide Text;
    if op.Publish? {
      PublishMeaning(After(ops).subs, op.name, "", After(ops).seqno + 1, i);
    }
  }

  lemma {:induction false} PrefixOfEqualLength(s: string, t: string)
    requires s <= t && |s| == |t|
    ensures s == t
  {
    assert t[..|t|] == t;
  }

  /** A reply whose id has as many digits as the outstanding one must carry that very id. */
  lemma {:induction false} SameDigitsSameId(ops: seq<Op>, fd: int, event: string, m: nat, i: nat)
    requires i < |After(ops).subs| && After(ops).subs[i].status == WaitReply
    requires After(ops).subs[i].fd == fd && event <= After(ops).subs[i].event
    requires Text(m, 1) <= After(ops).subs[i].reqId && |Text(m, 1)| == |After(ops).subs[i].reqId|
    ensures WaitsOn(After(ops).subs[i], m)
  {
    HistoryIds(ops);
    var t := After(ops);
    var n :| n <= t.seqno && WaitsOn(t.subs[i], n);
    SameId(t.subs[i], m, n);
  }

  lemma {:induction false} SameId(sub: Sub, m: nat, n: nat)
    requires WaitsOn(sub, n) && Text(m, 1) <= sub.reqId && |Text(m, 1)| == |sub.reqId|
    ensures WaitsOn(sub, m)
  {
    PrefixOfEqualLength(Text(m, 1), sub.reqId);
  }

  /** With ids of one digit count, a reply therefore ends at most one wait. */
  lemma {:induction false} ReplyEndsOneWait(ops: seq<Op>, fd: int, event: string, id: string, success: bool,
                                            i: nat, j: nat)
    requires i < j < |After(ops).subs|
    requires var t := After(ops); t.subs[i].status == WaitReply && t.subs[j].status == WaitReply
    requires var t := After(ops); |t.subs[i].reqId| == |id| && |t.subs[j].reqId| == |id|
    ensures var t := Do(After(ops), Ack(fd, event, id, success));
            i < |t.subs| && j < |t.subs| && (t.subs[i].status == WaitReply || t.subs[j].status == WaitReply)
  {
    HistoryIds(ops);
  }

  /** With unequal digit counts it may end two waits, and it does after this history: two
      subscriptions on one connection, a publish that reaches both (messages 101 and 102), and
      then `n` publishes that reach only the second. */
  function History(fd: int, first: string, second: string, common: string, n: nat): (ops: seq<Op>)
    ensures |ops| == n + 3
  {
    if n == 0 then [Subscribe(fd, first, OnChangeSync), Subscribe(fd, second, OnChangeSync), Publish(common)]
    else History(fd, first, second, common, n - 1) + [Publish(second)]
  }

  function Outstanding(fd: int, event: string, id: nat): Sub { Sub(fd, event, OnChangeSync, Text(id, 1), WaitReply) }

  /** What a publish makes of a synchronous subscription that is to get the id `id` if it matches. */
  function Renewed(sub: Sub, name: string, id: nat): Sub {
    if Matches(sub, name) then sub.(reqId := Text(id, 1), status := WaitReply) else sub
  }

  lemma {:induction false} PairPublished(a: Sub, b: Sub, name: string, id: nat)
    requires a.ntype.OnChangeSync? && b.ntype.OnChangeSync?
    ensures Published([a, b], name, id)
         == [Renewed(a, name, id), Renewed(b, name, if Matches(a, name) then id + 1 else id)]
    ensures Matching([a, b], name) == (if Matches(a, name) then 1 else 0) + if Matches(b, name) then 1 else 0
  {
    hide Text;
    assert [a, b][1..] == [b] && [b][1..] == [];
    assert Matching([], name) == 0;
    assert Matching([b], name) == if Matches(b, name) then 1 else 0;
    OnePublished(b, name, id);
    OnePublished(b, name, id + 1);
  }

  lemma {:induction false} OnePublished(b: Sub, name: string, id: nat)
    requires b.ntype.OnChangeSync?
    ensures Published([b], name, id) == [Renewed(b, name, id)]
  {
    hide Text;
    assert [b][1..] == [] && Published([], name, id + 1) == [] && Published([], name, id) == [];
  }

  lemma {:induction false} HistoryTable(fd: int, first: string, second: string, common: string, n: nat)
    requires common <= first && common <= second && !(second <= first)
    ensures After(History(fd, first, second, common, n))
         == Table([Outstanding(fd, first, 101), Outstanding(fd, second, 102 + n)], 102 + n)
    decreases n
  {
    hide Text, After, Do, Outstanding;
    if n == 0 {
      HistoryBegins(fd, first, second, common);
    } else {
      AfterSnoc(History(fd, first, second, common, n - 1), Publish(second));
      HistoryTable(fd, first, second, common, n - 1);
      SecondPublished(fd, first, second, n - 1);
    }
  }

  lemma {:induction false} AfterSnoc(ops: seq<Op>, op: Op)
    ensures After(ops + [op]) == Do(After(ops), op)
  {
    assert (ops + [op])[..|ops|] == ops;
  }

  lemma {:induction false} SecondPublished(fd: int, first: string, second: string, n: nat)
    requires !(second <= first)
    ensures Do(Table([Outstanding(fd, first, 101), Outstanding(fd, second, 102 + n)], 102 + n), Publish(second))
         == Table([Outstanding(fd, first, 101), Outstanding(fd, second, 103 + n)], 103 + n)
  {
    hide Text, Published, Matching;
    PairPublished(Outstanding(fd, first, 101), Outstanding(fd, second, 102 + n), second, 103 + n);
  }

  lemma {:induction false} HistoryBegins(fd: int, first: string, second: string, common: string)
    requires common <= first && common <= second
    ensures After(History(fd, first, second, common, 0))
         == Table([Outstanding(fd, first, 101), Outstanding(fd, second, 102)], 102)
  {
    hide Text, Published, Matching;
    var ops := History(fd, first, second, common, 0);
    var a, b := Sub(fd, first, OnChangeSync, "", NoEvent), Sub(fd, second, OnChangeSync, "", NoEvent);
    var one, two := [ops[0]], [ops[0], ops[1]];
    assert one[..0] == [] && two[..1] == one && ops[..2] == two;
    assert After(one) == Table([a], 100);
    assert After(two) == Table([a, b], 100);
    PairPublished(a, b, common, 101);
  }

  /** The acknowledgement of message 101 also ends the wait for message 1010. */
  lemma {:induction false} PrefixCrossTalk(fd: int, first: string, second: string, common: string)
    requires common <= first && common <= second && !(second <= first)
    ensures var t := After(History(fd, first, second, common, 908));
            && t.subs == [Outstanding(fd, first, 101), Outstanding(fd, second, 1010)]
            && Do(t, Ack(fd, common, Text(101, 1), true)).subs
               == [Outstanding(fd, first, 101).(status := ReplySuccess),
                   Outstanding(fd, second, 1010).(status := ReplySuccess)]
  {
    LongerIdStartsAlike();
    hide Text, History;
    HistoryTable(fd, first, second, common, 908);
  }

  lemma {:induction false} LongerIdStartsAlike()
    ensures Text(101, 1) <= Text(1010, 1)
  {
    assert Text(1010, 1) == Text(101, 0) + [Digit(0)];
    assert Text(101, 1) == Text(10, 0) + [Digit(1)];
    assert Text(101, 0) == Text(10, 0) + [Digit(1)];
  }

  /** Two events to which this applies, and the name that reaches both. */
  lemma {:induction false} CrossTalkExists(fd: int) returns (ops: seq<Op>, reply: Op)
    ensures reply.Ack? && |After(ops).subs| == 2
    ensures forall i :: 0 <= i < 2 ==>
              After(ops).subs[i].status == WaitReply && Do(After(ops), reply).subs[i].status == ReplySuccess
  {
    assert "a." <= "a.b" && "a." <= "a.c" && !("a.c" <= "a.b") by { assert "a.c"[2] != "a.b"[2]; }
    PrefixCrossTalk(fd, "a.b", "a.c", "a.");
    ops, reply := History(fd, "a.b", "a.c", "a.", 908), Ack(fd, "a.", Text(101, 1), true);
  }
}
