/** Event subscriptions on the server: publishing, acknowledgements and request ids, with
    synchronous notification enabled. */
module Events {
  import opened Common
  import opened Decimal

  datatype Notify = OnChange | OnChangeSync | OnChangeSyncTimeout | Invalid

  datatype Status = NoEvent | WaitReply | ReplySuccess | ReplyError

  datatype Sub = Sub(fd: int, event: string, ntype: Notify, reqId: string, status: Status)

  predicate Synchronous(sub: Sub) { sub.ntype.OnChangeSync? || sub.ntype.OnChangeSyncTimeout? }

  /** `strncmp(subs->event, name, strlen(name)) == 0`: the subscribed event starts with `name`. */
  predicate Matches(sub: Sub, name: string) { name <= sub.event }

  /** A publish-event message handed to a client's socket. */
  datatype Send = Send(fd: int, id: int, name: string, value: string)

  // ---------- what each operation does to the list ----------

  /** The messages one publish hands out: one per matching subscription, in list order, with
      consecutive ids from `id` on. */
  function Sends(subs: seq<Sub>, name: string, value: string, id: int): (r: seq<Send>) {
    if subs == [] then []
    else if Matches(subs[0], name) then [Send(subs[0].fd, id, name, value)] + Sends(subs[1..], name, value, id + 1)
    else Sends(subs[1..], name, value, id)
  }

  /** Matching synchronous subscriptions now wait for the reply to their own message. */
  function Published(subs: seq<Sub>, name: string, id: int): (r: seq<Sub>)
    requires id >= 0
    ensures |r| == |subs|
  {
    if subs == [] then []
    else if !Matches(subs[0], name) then [subs[0]] + Published(subs[1..], name, id)
    else if Synchronous(subs[0]) then
      [subs[0].(reqId := Text(id, 1), status := WaitReply)] + Published(subs[1..], name, id + 1)
    else [subs[0]] + Published(subs[1..], name, id + 1)
  }

  /** A reply on `fd` meets a subscription when its event text prefixes the subscribed event and
      its id prefixes the id of the last message sent for it. */
  predicate Answers(sub: Sub, fd: int, event: string, id: string) {
    event <= sub.event && sub.fd == fd && id <= sub.reqId
  }

  function Acked(subs: seq<Sub>, fd: int, event: string, id: string, status: Status): (r: seq<Sub>) {
    seq(|subs|, i requires 0 <= i < |subs| =>
      if Answers(subs[i], fd, event, id) then subs[i].(status := status) else subs[i])
  }

  function Fd(sub: Sub): int { sub.fd }

  function Matching(subs: seq<Sub>, name: string): (n: nat) {
    if subs == [] then 0 else Matching(subs[1..], name) + if Matches(subs[0], name) then 1 else 0
  }

  // ---------- the server's tables ----------

  class EventServer {
    var subs: seq<Sub>     // g_event_subscriptions_list
    var seqno: int         // g_seqnumber
    var locked: bool       // gm_subscription_mutex is held
    var sent: seq<Send>    // messages handed to `socket_send`, in order

    constructor ()
      ensures subs == [] && seqno == DEFAULT_SEQ_START_NUMBER && !locked && sent == []
    {
      subs, seqno, locked, sent := [], DEFAULT_SEQ_START_NUMBER, false, [];
    }

    /** Below the counter's limit every id is new. */
    method GetSequenceNumber() returns (id: int)
      requires 0 <= seqno < INT_MAX
      modifies this`seqno
      ensures id == seqno == old(seqno) + 1 <= INT_MAX
    {
      seqno := seqno + 1;
      id := seqno;
    }

    /** `sendOk(k)` tells whether the k-th send of this call succeeds. A null value makes the
        message builder fail at the first match, and the call returns with the mutex held. */
    method Publish(name: string, value: Option<string>, sendOk: nat -> bool) returns (ret: int, blocking: bool)
      requires !locked && 0 <= seqno && seqno + |subs| <= INT_MAX
      modifies this
      ensures value.Some? ==>
                && sent == old(sent) + Sends(old(subs), name, value.value, old(seqno) + 1)
                && subs == Published(old(subs), name, old(seqno) + 1)
                && seqno == old(seqno) + Matching(old(subs), name)
                && (ret == RETURN_ERR <==> exists k :: 0 <= k < Matching(old(subs), name) && !sendOk(k))
                && (blocking <==> MustWait(old(subs), name, sendOk, 0))
      ensures value.None? ==>
                && sent == old(sent) && subs == old(subs) && seqno == old(seqno) && !blocking
                && (ret == RETURN_ERR <==> Matching(subs, name) > 0)
      ensures locked <==> value.None? && Matching(old(subs), name) > 0
      ensures ret == RETURN_OK || ret == RETURN_ERR
    {
      hide Sends, Published, Matching, MustWait, AllSent, Halfway;
      ret, blocking := RETURN_OK, false;
      locked := true;
      var i, k := 0, 0;
      HalfwayStarts(subs, name, value, sendOk, seqno, sent);
      while i < |subs|
        invariant i <= |subs| == |old(subs)| && 0 <= k <= i && locked && seqno == old(seqno) + k
        invariant Halfway(old(subs), name, value, sendOk, old(seqno), old(sent), i, k, subs, sent, ret, blocking)
      {
        HalfwayStep(old(subs), name, value, sendOk, old(seqno), old(sent), i, k, subs, sent, ret, blocking);
        if name <= subs[i].event {
          if value.None? {
            return RETURN_ERR, false;
          }
          var id := GetSequenceNumber();
          if Synchronous(subs[i]) {
            blocking := true;
            subs := subs[i := subs[i].(reqId := Text(id, 1), status := WaitReply)];
          }
          sent := sent + [Send(subs[i].fd, id, name, value.value)];
          if !sendOk(k) {
            ret, blocking := RETURN_ERR, false;
          }
          k := k + 1;
        }
        i := i + 1;
      }
      HalfwayEnds(old(subs), name, value, sendOk, old(seqno), old(sent), k, subs, sent, ret, blocking);
      locked := false;
    }

    /** `add_event_subscription_to_list` */
    method Subscribe(fd: int, event: string, ntype: Notify)
      requires !locked
      modifies this
      ensures subs == old(subs) + [Sub(fd, event, ntype, "", NoEvent)]
      ensures seqno == old(seqno) && sent == old(sent) && !locked
    {
      locked := true;
      subs := subs + [Sub(fd, event, ntype, "", NoEvent)];
      locked := false;
    }

    /** `remove_event_subscription_from_list` */
    method Unsubscribe(fd: int)
      requires !locked
      modifies this
      ensures subs == WithoutFd(Fd, old(subs), fd)
      ensures forall x :: x in subs <==> x in old(subs) && x.fd != fd
      ensures forall a, b :: Precedes(old(subs), a, b) && a.fd != fd && b.fd != fd ==> Precedes(subs, a, b)
      ensures seqno == old(seqno) && sent == old(sent) && !locked
    {
      locked := true;
      var i := 0;
      while i < |subs|
        invariant 0 <= i <= |subs| && locked && seqno == old(seqno) && sent == old(sent)
        invariant subs[..i] + WithoutFd(Fd, subs[i..], fd) == WithoutFd(Fd, old(subs), fd)
        decreases |subs| - i
      {
        WithoutFdStep(Fd, subs, i, fd);
        hide WithoutFd;
        if subs[i].fd == fd {
          subs := subs[..i] + subs[i + 1..];
        } else {
          i := i + 1;
        }
      }
      assert subs[..i] == subs;
      UnsubscribeMeaning(old(subs), fd);
      locked := false;
    }

    /** A "result" message from a client: the loop that records its status in the subscriptions of
        that client whose event and outstanding id begin as the message says, and in no other. */
    method Acknowledge(fd: int, event: string, id: string, status: Status)
      requires !locked
      modifies this
      ensures subs == Acked(old(subs), fd, event, id, status)
      ensures |subs| == |old(subs)|
      ensures forall i :: 0 <= i < |subs| ==>
                var sub := old(subs)[i];
                subs[i] == if sub.fd == fd && event <= sub.event && id <= sub.reqId then sub.(status := status) else sub
      ensures seqno == old(seqno) && sent == old(sent) && !locked
    {
      locked := true;
      for i := 0 to |subs|
        invariant |subs| == |old(subs)| && locked && seqno == old(seqno) && sent == old(sent)
        invariant forall j :: 0 <= j < i ==> subs[j] == Acked(old(subs), fd, event, id, status)[j]
        invariant forall j :: i <= j < |subs| ==> subs[j] == old(subs)[j]
      {
        if event <= subs[i].event {
          if subs[i].fd == fd {
            if id <= subs[i].reqId {
              subs := subs[i := subs[i].(status := status)];
            }
          }
        }
      }
      locked := false;
    }
  }

  /** Exactly the subscriptions of the descriptor go, and the others keep their order. */
  lemma {:induction false} UnsubscribeMeaning(subs: seq<Sub>, fd: int)
    ensures forall x :: x in WithoutFd(Fd, subs, fd) <==> x in subs && x.fd != fd
    ensures forall a, b :: Precedes(subs, a, b) && a.fd != fd && b.fd != fd ==> Precedes(WithoutFd(Fd, subs, fd), a, b)
  {
    forall x | x in subs && x.fd != fd ensures x in WithoutFd(Fd, subs, fd) {
      WithoutFdKeeps(Fd, subs, fd, x);
    }
    forall a, b | Precedes(subs, a, b) && a.fd != fd && b.fd != fd ensures Precedes(WithoutFd(Fd, subs, fd), a, b) {
      WithoutFdOrder(Fd, subs, fd, a, b);
    }
  }

  /** All of the sends from the k-th to the (k + n - 1)-th succeed. */
  ghost predicate AllSent(sendOk: nat -> bool, k: nat, n: nat) {
    forall j :: k <= j < k + n ==> sendOk(j)
  }

  /** Some synchronous match is sent with no failed send at or after it; `k` sends came before. */
  ghost predicate MustWait(subs: seq<Sub>, name: string, sendOk: nat -> bool, k: nat) {
    if subs == [] then false
    else if !Matches(subs[0], name) then MustWait(subs[1..], name, sendOk, k)
    else || (Synchronous(subs[0]) && AllSent(sendOk, k, 1 + Matching(subs[1..], name)))
         || MustWait(subs[1..], name, sendOk, k + 1)
  }

  // ---------- the publish loop ----------

  /** The publish loop before element `i`, after `k` sends. */
  ghost predicate Halfway(all: seq<Sub>, name: string, value: Option<string>, sendOk: nat -> bool, seq0: int,
                          sent0: seq<Send>, i: nat, k: nat, subs: seq<Sub>, sent: seq<Send>, ret: int, blocking: bool) {
    && i <= |all| == |subs| && 0 <= seq0
    && subs[i..] == all[i..]
    && k + Matching(all[i..], name) == Matching(all, name)
    && (ret == RETURN_OK || ret == RETURN_ERR)
    && (value.None? ==> k == 0 && sent == sent0 && subs == all && !blocking && ret == RETURN_OK)
    && (value.Some? ==>
          && sent + Sends(all[i..], name, value.value, seq0 + k + 1) == sent0 + Sends(all, name, value.value, seq0 + 1)
          && subs[..i] + Published(all[i..], name, seq0 + k + 1) == Published(all, name, seq0 + 1)
          && (ret == RETURN_ERR <==> exists j :: 0 <= j < k && !sendOk(j))
          && (MustWait(all, name, sendOk, 0) <==>
                MustWait(all[i..], name, sendOk, k) || (blocking && AllSent(sendOk, k, Matching(all[i..], name)))))
  }

  lemma {:induction false} HalfwayStarts(all: seq<Sub>, name: string, value: Option<string>, sendOk: nat -> bool,
                                         seq0: int, sent0: seq<Send>)
    requires 0 <= seq0
    ensures Halfway(all, name, value, sendOk, seq0, sent0, 0, 0, all, sent0, RETURN_OK, false)
  {
    assert all[0..] == all && all[..0] == [];
  }

  /** The effect of one round of the loop on its variables. */
  lemma {:induction false} HalfwayStep(all: seq<Sub>, name: string, value: Option<string>, sendOk: nat -> bool,
                                       seq0: int, sent0: seq<Send>, i: nat, k: nat, subs: seq<Sub>, sent: seq<Send>,
                                       ret: int, blocking: bool)
    requires i < |all| && Halfway(all, name, value, sendOk, seq0, sent0, i, k, subs, sent, ret, blocking)
    ensures subs[i] == all[i]
    ensures !Matches(subs[i], name) ==>
              Halfway(all, name, value, sendOk, seq0, sent0, i + 1, k, subs, sent, ret, blocking)
    ensures value.None? && Matches(subs[i], name) ==> Matching(all, name) > 0 && sent == sent0 && subs == all && k == 0
    ensures value.Some? && Matches(subs[i], name) ==>
              var id := seq0 + k + 1;
              var subs' := if Synchronous(subs[i])
                           then subs[i := subs[i].(reqId := Text(id, 1), status := WaitReply)] else subs;
              var wait := (blocking || Synchronous(subs[i])) && sendOk(k);
              Halfway(all, name, value, sendOk, seq0, sent0, i + 1, k + 1, subs',
                      sent + [Send(subs[i].fd, id, name, value.value)],
                      if sendOk(k) then ret else RETURN_ERR, wait)
  {
    AtElement(all, name, value, sendOk, seq0, sent0, i, k, subs, sent, ret, blocking);
    hide Halfway;
    if !Matches(subs[i], name) {
      StepSkip(all, name, value, sendOk, seq0, sent0, i, k, subs, sent, ret, blocking);
    } else if value.Some? {
      StepSome(all, name, value, sendOk, seq0, sent0, i, k, subs, sent, ret, blocking);
    }
  }

  lemma {:induction false} AtElement(all: seq<Sub>, name: string, value: Option<string>, sendOk: nat -> bool, seq0: int,
                                     sent0: seq<Send>, i: nat, k: nat, subs: seq<Sub>, sent: seq<Send>, ret: int,
                                     blocking: bool)
    requires i < |all| && Halfway(all, name, value, sendOk, seq0, sent0, i, k, subs, sent, ret, blocking)
    ensures |subs| == |all| && subs[i] == all[i]
    ensures value.None? && Matches(subs[i], name) ==> Matching(all, name) > 0 && sent == sent0 && subs == all && k == 0
  {
    hide Sends, Published, MustWait, AllSent;
    assert subs[i..][0] == all[i..][0] == all[i];
  }

  lemma {:induction false} StepSkip(all: seq<Sub>, name: string, value: Option<string>, sendOk: nat -> bool, seq0: int,
                                    sent0: seq<Send>, i: nat, k: nat, subs: seq<Sub>, sent: seq<Send>, ret: int,
                                    blocking: bool)
    requires i < |all| && Halfway(all, name, value, sendOk, seq0, sent0, i, k, subs, sent, ret, blocking)
    requires subs[i] == all[i] && !Matches(subs[i], name)
    ensures Halfway(all, name, value, sendOk, seq0, sent0, i + 1, k, subs, sent, ret, blocking)
  {
    SliceStep(all, subs, i);
    hide Sends, Published, Matching, MustWait, AllSent;
    SkipElement(all[i..], name, value, sendOk, seq0 + k + 1, k);
    Joins(subs[..i], [subs[i]], Published(all[i + 1..], name, seq0 + k + 1));
  }

  lemma {:induction false} SliceStep(all: seq<Sub>, subs: seq<Sub>, i: nat)
    requires i < |all| == |subs| && subs[i..] == all[i..]
    ensures all[i..][0] == all[i] == subs[i] && all[i..][1..] == all[i + 1..] == subs[i + 1..]
            && subs[..i + 1] == subs[..i] + [subs[i]]
  {
    assert subs[i] == subs[i..][0];
    assert subs[i + 1..] == subs[i..][1..];
  }

  lemma {:induction false} SkipElement(rest: seq<Sub>, name: string, value: Option<string>, sendOk: nat -> bool,
                                       id: int, k: nat)
    requires rest != [] && !Matches(rest[0], name) && id >= 0
    ensures Matching(rest, name) == Matching(rest[1..], name)
    ensures value.Some? ==> Sends(rest, name, value.value, id) == Sends(rest[1..], name, value.value, id)
    ensures Published(rest, name, id) == [rest[0]] + Published(rest[1..], name, id)
    ensures MustWait(rest, name, sendOk, k) <==> MustWait(rest[1..], name, sendOk, k)
  {
  }

  lemma {:induction false} StepSome(all: seq<Sub>, name: string, value: Option<string>, sendOk: nat -> bool, seq0: int,
                                    sent0: seq<Send>, i: nat, k: nat, subs: seq<Sub>, sent: seq<Send>, ret: int,
                                    blocking: bool)
    requires i < |all| && Halfway(all, name, value, sendOk, seq0, sent0, i, k, subs, sent, ret, blocking)
    requires value.Some? && Matches(subs[i], name) && subs[i] == all[i]
    ensures var id := seq0 + k + 1;
            var subs' := if Synchronous(subs[i])
                         then subs[i := subs[i].(reqId := Text(id, 1), status := WaitReply)] else subs;
            var wait := (blocking || Synchronous(subs[i])) && sendOk(k);
            Halfway(all, name, value, sendOk, seq0, sent0, i + 1, k + 1, subs',
                    sent + [Send(subs[i].fd, id, name, value.value)],
                    if sendOk(k) then ret else RETURN_ERR, wait)
  {
    hide Sends, Published, Matching, MustWait, AllSent, Text;
    var id := seq0 + k + 1;
    var x := if Synchronous(subs[i]) then subs[i].(reqId := Text(id, 1), status := WaitReply) else subs[i];
    var subs' := if Synchronous(subs[i]) then subs[i := x] else subs;
    var rest, tail := all[i..], all[i + 1..];
    assert rest[0] == all[i] && rest[1..] == tail;
    assert subs'[i + 1..] == subs[i..][1..] == tail;
    assert subs'[..i + 1] == subs[..i] + [x];
    var m := Send(subs[i].fd, id, name, value.value);
    assert sent + ([m] + Sends(tail, name, value.value, id + 1)) == sent + [m] + Sends(tail, name, value.value, id + 1);
    assert subs[..i] + ([x] + Published(tail, name, id + 1)) == subs'[..i + 1] + Published(tail, name, id + 1);
    MatchStep(rest, name, value.value, id);
    AllSentStep(sendOk, k, Matching(tail, name));
    WaitStep(rest, name, sendOk, k);
  }

  lemma {:induction false} MatchStep(rest: seq<Sub>, name: string, value: string, id: int)
    requires rest != [] && Matches(rest[0], name) && id >= 0
    ensures Sends(rest, name, value, id) == [Send(rest[0].fd, id, name, value)] + Sends(rest[1..], name, value, id + 1)
    ensures Published(rest, name, id)
         == [if Synchronous(rest[0]) then rest[0].(reqId := Text(id, 1), status := WaitReply) else rest[0]]
            + Published(rest[1..], name, id + 1)
  {
  }

  lemma {:induction false} AllSentStep(sendOk: nat -> bool, k: nat, n: nat)
    ensures AllSent(sendOk, k, 1 + n) <==> sendOk(k) && AllSent(sendOk, k + 1, n)
  {
  }

  lemma {:induction false} WaitStep(rest: seq<Sub>, name: string, sendOk: nat -> bool, k: nat)
    requires rest != [] && Matches(rest[0], name)
    ensures Matching(rest, name) == 1 + Matching(rest[1..], name)
    ensures MustWait(rest, name, sendOk, k) <==>
              || (Synchronous(rest[0]) && AllSent(sendOk, k, 1 + Matching(rest[1..], name)))
              || MustWait(rest[1..], name, sendOk, k + 1)
  {
  }

  lemma {:induction false} HalfwayEnds(all: seq<Sub>, name: string, value: Option<string>, sendOk: nat -> bool,
                                       seq0: int, sent0: seq<Send>, k: nat, subs: seq<Sub>, sent: seq<Send>, ret: int,
                                       blocking: bool)
    requires Halfway(all, name, value, sendOk, seq0, sent0, |all|, k, subs, sent, ret, blocking)
    ensures k == Matching(all, name) && (ret == RETURN_OK || ret == RETURN_ERR)
    ensures value.None? ==> k == 0 && sent == sent0 && subs == all && !blocking && ret == RETURN_OK
    ensures value.Some? ==>
              && sent == sent0 + Sends(all, name, value.value, seq0 + 1)
              && subs == Published(all, name, seq0 + 1)
              && (ret == RETURN_ERR <==> exists j :: 0 <= j < Matching(all, name) && !sendOk(j))
              && (blocking <==> MustWait(all, name, sendOk, 0))
  {
    assert all[|all|..] == [] && subs[..|all|] == subs;
  }
}
