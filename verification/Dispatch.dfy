/** `message_process_cb`: requests glued in one receive buffer, their handlers and replies. */
module Dispatch {
  import opened Common
  import opened Events

  const BUF_64 := 64
  const BUF_512 := 512

  /** The fields of a request the dispatcher looks at, as text; None where a field is missing. */
  datatype Request = Request(
    id: Option<string>, action: Option<string>,
    params: Option<First>,             // first element of the params array
    status: Option<Option<string>>)    // the Result object and its Status

  datatype First = First(name: Option<string>, ntype: Option<string>)

  datatype Token = Parsed(req: Request, end: nat) | More | Bad

  type Tokenizer = string -> Token

  /** What is known of the JSON tokenizer: an object takes at least one of the characters given. */
  ghost predicate TokenContract(parse: Tokenizer) {
    forall s: string :: parse(s).Parsed? && s != "" ==> 0 < parse(s).end <= |s|
  }

  /** What a text reads as after strncpy into an array of `size` bytes: one that fills the array is
      not terminated, and whatever bytes follow the array are read as its `tail`. */
  function Copied(size: nat, s: string, tail: string): (r: string) { if |s| < size then s else s[..size] + tail }

  /** The requests in a buffer, in order, up to its end or the first parse error. */
  function Tokens(parse: Tokenizer, buffer: string): (r: seq<Request>)
    decreases |buffer|
  {
    if buffer == "" then []
    else
      var t := parse(buffer);
      if t.Parsed? && 0 < t.end <= |buffer| then [t.req] + Tokens(parse, buffer[t.end..]) else []
  }

  /** The buffer ends in a parse error. */
  predicate Spoilt(parse: Tokenizer, buffer: string)
    decreases |buffer|
  {
    if buffer == "" then false
    else
      var t := parse(buffer);
      if t.Parsed? && 0 < t.end <= |buffer| then Spoilt(parse, buffer[t.end..]) else t.Bad?
  }

  // ---------- handlers and replies ----------

  datatype Handler = Handler(name: string, present: bool)

  /** What a callback returned, whether its reply passed schema validation, and the bytes behind
      the arrays that hold the request's id, its action, the id of an acknowledgement and the name
      of an event. */
  datatype Outcome = Outcome(
    rc: int, valid: bool, idTail: string, actionTail: string, ackTail: string, eventTail: string)

  function ActionOf(req: Request, outcome: Outcome): string
    requires req.action.Some?
  {
    Copied(BUF_64, req.action.value, outcome.actionTail)
  }

  datatype Answer = NotSupported | Failure | FromHandler(action: string)

  /** A reply attempt. */
  datatype Reply = Reply(fd: int, id: string, answer: Answer)

  /** No name is registered twice. */
  ghost predicate UniqueNames(handlers: seq<Handler>) {
    forall i, j :: 0 <= i < j < |handlers| ==> handlers[i].name != handlers[j].name
  }

  function Find(handlers: seq<Handler>, name: string): (h: Option<Handler>) {
    if handlers == [] then None
    else if handlers[0].name == name then Some(handlers[0])
    else Find(handlers[1..], name)
  }

  function ResponseAction(action: string): string {
    if "getParameters" <= action then "getParametersResponse"
    else if "getSchema" <= action then "getSchemaResponse"
    else "result"
  }

  function ParseNotify(s: string): Notify {
    if s == "onChange" then OnChange
    else if s == "onChangeSync" then OnChangeSync
    else if s == "onChangeSyncTimeout" then OnChangeSyncTimeout
    else OnChange
  }

  /** `get_event_subscription_data_from_msg` */
  function Subscription(req: Request, fd: int, outcome: Outcome): (r: Option<Sub>) {
    if req.params.Some? && req.params.value.name.Some? && req.params.value.ntype.Some?
    then Some(Sub(fd, Copied(BUF_512, req.params.value.name.value, outcome.eventTail),
                  ParseNotify(req.params.value.ntype.value), "", NoEvent))
    else None
  }

  datatype Ack = Ack(event: string, id: string, status: Status)

  /** `get_event_reply_data_from_msg`; without params the event text is empty. */
  function AckData(req: Request, outcome: Outcome): (r: Option<Ack>) {
    if req.status.None? || req.status.value.None? then None
    else if req.params.Some? && req.params.value.name.None? then None
    else if req.id.None? then None
    else Some(Ack(if req.params.Some? then Copied(BUF_512, req.params.value.name.value, outcome.eventTail) else "",
                  Copied(BUF_64, req.id.value, outcome.ackTail),
                  if "Success" <= req.status.value.value then ReplySuccess else ReplyError))
  }

  class Dispatcher {
    var handlers: seq<Handler>   // g_hal_functions_list
    var subs: seq<Sub>           // g_event_subscriptions_list
    var replies: seq<Reply>      // reply attempts, in order

    constructor ()
      ensures handlers == [] && subs == [] && replies == []
    {
      handlers, subs, replies := [], [], [];
    }

    /** Registration refuses a name that is taken. */
    method Register(name: string, present: bool) returns (rc: int)
      modifies this`handlers
      ensures rc == RETURN_OK <==> Find(old(handlers), name).None?
      ensures rc == RETURN_OK <==> forall i :: 0 <= i < |old(handlers)| ==> old(handlers)[i].name != name
      ensures UniqueNames(old(handlers)) ==> UniqueNames(handlers)
      ensures handlers == old(handlers) + if rc == RETURN_OK then [Handler(name, present)] else []
      ensures rc == RETURN_OK || rc == RETURN_ERR
    {
      for i := 0 to |handlers|
        invariant handlers == old(handlers) && Find(handlers, name) == Find(handlers[i..], name)
        invariant forall j :: 0 <= j < i ==> handlers[j].name != name
      {
        if handlers[i].name == name {
          return RETURN_ERR;
        }
      }
      handlers := handlers + [Handler(name, present)];
      rc := RETURN_OK;
    }

    /** One request: its reply, its effect on the subscriptions, and whether the loop ends here. */
    method HandleRequest(fd: int, req: Request, outcome: Outcome) returns (stop: bool)
      modifies this`subs, this`replies
      ensures replies == old(replies) + Replied(handlers, fd, req, outcome)
      ensures subs == Subscribed(old(subs), handlers, fd, req, outcome)
      ensures stop <==> Stops(handlers, fd, req, outcome)
    {
      stop := false;
      if req.id.None? {
        return;
      }
      var reqId := Copied(BUF_64, req.id.value, outcome.idTail);
      if req.action.None? {
        return;
      }
      var action := Copied(BUF_64, req.action.value, outcome.actionTail);
      var rpc := Find(handlers, action);
      if rpc.None? {
        if "result" <= action {
          var ack := AckData(req, outcome);
          if ack.None? {
            return;
          }
          subs := Acked(subs, fd, ack.value.event, ack.value.id, ack.value.status);
        } else {
          replies := replies + [Reply(fd, reqId, NotSupported)];
        }
      } else if rpc.value.present {
        if outcome.rc == RETURN_OK {
          if !outcome.valid {
            replies := replies + [Reply(fd, reqId, NotSupported)];
            return;
          }
          replies := replies + [Reply(fd, reqId, FromHandler(ResponseAction(action)))];
        } else {
          replies := replies + [Reply(fd, reqId, Failure)];
          return;
        }
        if "subscribeEvent" <= action {
          var sub := Subscription(req, fd, outcome);
          if sub.None? {
            return true;
          }
          subs := subs + [sub.value];
        }
      } else {
        replies := replies + [Reply(fd, reqId, NotSupported)];
      }
    }

    /** The whole callback; `outcome(k)` belongs to the k-th request of the buffer. The requests
        handled are those of the buffer in order, up to one whose subscription cannot be parsed. */
    method ProcessMessage(fd: int, buffer: string, parse: Tokenizer, outcome: nat -> Outcome)
      returns (rc: int, handled: nat)
      requires TokenContract(parse)
      modifies this`subs, this`replies
      ensures handled == HandledCount(handlers, fd, Tokens(parse, buffer), outcome, 0)
      ensures replies == old(replies) + Replies(handlers, fd, Tokens(parse, buffer)[..handled], outcome, 0)
      ensures subs == SubsAfter(old(subs), handlers, fd, Tokens(parse, buffer)[..handled], outcome)
      ensures rc == RETURN_ERR <==> handled == |Tokens(parse, buffer)| && Spoilt(parse, buffer)
                                    && !StoppedEarly(handlers, fd, Tokens(parse, buffer), outcome, 0)
      ensures rc == RETURN_OK || rc == RETURN_ERR
    {
      hide Tokens, Spoilt, HandledCount, StoppedEarly, Replies, SubsAfter, Underway, Replied, Subscribed, Stops,
           TokenContract;
      ghost var all := Tokens(parse, buffer);
      var start := 0;
      handled := 0;
      LoopStarts(handlers, fd, parse, buffer, outcome, replies, subs);
      while start < |buffer|
        invariant 0 <= start <= |buffer| && handled <= |all|
        invariant Underway(handlers, fd, parse, buffer, outcome, old(replies), old(subs), start, handled, replies, subs)
        decreases |buffer| - start
      {
        var t := parse(buffer[start..]);
        if !t.Parsed? {
          LoopStops(handlers, fd, parse, buffer, outcome, old(replies), old(subs), start, handled, replies, subs);
          return if t.Bad? then RETURN_ERR else RETURN_OK, handled;
        }
        LoopStep(handlers, fd, parse, buffer, outcome, old(replies), old(subs), start, handled, replies, subs);
        var stop := HandleRequest(fd, t.req, outcome(handled));
        handled := handled + 1;
        if stop {
          return RETURN_OK, handled;
        }
        start := start + t.end;
      }
      LoopEnds(handlers, fd, parse, buffer, outcome, old(replies), old(subs), start, handled, replies, subs);
      rc := RETURN_OK;
    }
  }

  // ---------- what the dispatcher is to do ----------

  /** The reply attempts for one request: at most one. */
  function Replied(handlers: seq<Handler>, fd: int, req: Request, outcome: Outcome): (r: seq<Reply>)
    ensures |r| == if Answerable(handlers, req, outcome) then 1 else 0
    ensures r != [] ==> r[0].fd == fd && r[0].id == Copied(BUF_64, req.id.value, outcome.idTail)
  {
    if !Answerable(handlers, req, outcome) then []
    else
      var h := Find(handlers, ActionOf(req, outcome));
      [Reply(fd, Copied(BUF_64, req.id.value, outcome.idTail),
             if h.None? || !h.value.present then NotSupported
             else if outcome.rc != RETURN_OK then Failure
             else if !outcome.valid then NotSupported
             else FromHandler(ResponseAction(ActionOf(req, outcome))))]
  }

  /** A request is answered if it names its id and an action, unless it is the acknowledgement of
      an event, for which no handler is registered. */
  predicate Answerable(handlers: seq<Handler>, req: Request, outcome: Outcome) {
    && req.id.Some? && req.action.Some?
    && (Find(handlers, ActionOf(req, outcome)).Some? || !("result" <= ActionOf(req, outcome)))
  }

  predicate Accepted(handlers: seq<Handler>, req: Request, outcome: Outcome) {
    && req.id.Some? && req.action.Some?
    && var h := Find(handlers, ActionOf(req, outcome));
       && h.Some? && h.value.present && outcome.rc == RETURN_OK && outcome.valid
       && "subscribeEvent" <= ActionOf(req, outcome)
  }

  predicate Stops(handlers: seq<Handler>, fd: int, req: Request, outcome: Outcome) {
    Accepted(handlers, req, outcome) && Subscription(req, fd, outcome).None?
  }

  function Subscribed(subs: seq<Sub>, handlers: seq<Handler>, fd: int, req: Request, outcome: Outcome): seq<Sub> {
    if Accepted(handlers, req, outcome) && Subscription(req, fd, outcome).Some?
    then subs + [Subscription(req, fd, outcome).value]
    else if req.id.Some? && req.action.Some? && !Answerable(handlers, req, outcome) && AckData(req, outcome).Some?
    then
      var ack := AckData(req, outcome).value;
      Acked(subs, fd, ack.event, ack.id, ack.status)
    else subs
  }

  function Replies(handlers: seq<Handler>, fd: int, reqs: seq<Request>, outcome: nat -> Outcome,
                   k: nat): (r: seq<Reply>) {
    if reqs == [] then []
    else Replied(handlers, fd, reqs[0], outcome(k)) + Replies(handlers, fd, reqs[1..], outcome, k + 1)
  }

  /** The subscriptions after a sequence of requests. */
  function SubsAfter(subs: seq<Sub>, handlers: seq<Handler>, fd: int, reqs: seq<Request>,
                     outcome: nat -> Outcome): seq<Sub> {
    if reqs == [] then subs
    else
      var n := |reqs| - 1;
      Subscribed(SubsAfter(subs, handlers, fd, reqs[..n], outcome), handlers, fd, reqs[n], outcome(n))
  }

  /** How many of the requests are handled: all, or up to the first one that stops the loop. */
  function HandledCount(handlers: seq<Handler>, fd: int, reqs: seq<Request>, outcome: nat -> Outcome, k: nat): (n: nat)
    ensures n <= |reqs|
  {
    if reqs == [] then 0
    else if Stops(handlers, fd, reqs[0], outcome(k)) then 1
    else 1 + HandledCount(handlers, fd, reqs[1..], outcome, k + 1)
  }

  ghost predicate StoppedEarly(handlers: seq<Handler>, fd: int, reqs: seq<Request>, outcome: nat -> Outcome, k: nat) {
    exists i :: 0 <= i < |reqs| && Stops(handlers, fd, reqs[i], outcome(k + i))
  }

  lemma {:induction false} RepliesSplit(handlers: seq<Handler>, fd: int, reqs: seq<Request>, outcome: nat -> Outcome,
                                        k: nat, n: nat)
    requires n < |reqs|
    ensures Replies(handlers, fd, reqs[..n + 1], outcome, k)
         == Replies(handlers, fd, reqs[..n], outcome, k) + Replied(handlers, fd, reqs[n], outcome(k + n))
    decreases n
  {
    hide Replied;
    if n == 0 {
      assert reqs[..1][1..] == [] && reqs[..0] == [];
    } else {
      RepliesSplit(handlers, fd, reqs[1..], outcome, k + 1, n - 1);
      assert reqs[..n + 1][1..] == reqs[1..][..n] && reqs[..n][1..] == reqs[1..][..n - 1];
    }
  }

  lemma {:induction false} HandledSnoc(handlers: seq<Handler>, fd: int, all: seq<Request>, outcome: nat -> Outcome,
                                       n: nat)
    requires n < |all|
    ensures HandledCount(handlers, fd, all[n..], outcome, n)
         == if Stops(handlers, fd, all[n], outcome(n)) then 1
            else 1 + HandledCount(handlers, fd, all[n + 1..], outcome, n + 1)
  {
    hide Stops;
    assert all[n..][0] == all[n] && all[n..][1..] == all[n + 1..];
  }

  lemma {:induction false} StoppedSnoc(handlers: seq<Handler>, fd: int, all: seq<Request>, outcome: nat -> Outcome,
                                       n: nat)
    requires n < |all|
    ensures StoppedEarly(handlers, fd, all[n..], outcome, n)
       <==> Stops(handlers, fd, all[n], outcome(n)) || StoppedEarly(handlers, fd, all[n + 1..], outcome, n + 1)
  {
    hide Stops;
    var rest, tail := all[n..], all[n + 1..];
    if StoppedEarly(handlers, fd, rest, outcome, n) {
      var i :| 0 <= i < |rest| && Stops(handlers, fd, rest[i], outcome(n + i));
      if i > 0 { assert tail[i - 1] == rest[i] && n + 1 + (i - 1) == n + i; }
    }
    if StoppedEarly(handlers, fd, tail, outcome, n + 1) {
      var i :| 0 <= i < |tail| && Stops(handlers, fd, tail[i], outcome(n + 1 + i));
      assert rest[i + 1] == tail[i] && n + (i + 1) == n + 1 + i;
    }
    assert rest[0] == all[n] && outcome(n + 0) == outcome(n);
  }

  // ---------- the loop over the buffer ----------

  /** The replies and subscriptions that the first `n` requests leave. */
  ghost predicate Effects(handlers: seq<Handler>, fd: int, all: seq<Request>, outcome: nat -> Outcome,
                          replies0: seq<Reply>, subs0: seq<Sub>, n: nat, replies: seq<Reply>, subs: seq<Sub>) {
    && n <= |all| && replies == replies0 + Replies(handlers, fd, all[..n], outcome, 0)
    && subs == SubsAfter(subs0, handlers, fd, all[..n], outcome)
  }

  /** None of the first `n` requests has stopped the loop. */
  ghost predicate Unstopped(handlers: seq<Handler>, fd: int, all: seq<Request>, outcome: nat -> Outcome, n: nat) {
    && n <= |all|
    && HandledCount(handlers, fd, all, outcome, 0) == n + HandledCount(handlers, fd, all[n..], outcome, n)
    && StoppedEarly(handlers, fd, all, outcome, 0) == StoppedEarly(handlers, fd, all[n..], outcome, n)
  }

  /** The loop at offset `start`, after `n` requests. */
  ghost predicate Underway(handlers: seq<Handler>, fd: int, parse: Tokenizer, buffer: string, outcome: nat -> Outcome,
                          replies0: seq<Reply>, subs0: seq<Sub>, start: nat, n: nat, replies: seq<Reply>,
                          subs: seq<Sub>) {
    var all := Tokens(parse, buffer);
    && start <= |buffer| && n <= |all|
    && Tokens(parse, buffer[start..]) == all[n..]
    && Spoilt(parse, buffer[start..]) == Spoilt(parse, buffer)
    && Unstopped(handlers, fd, all, outcome, n)
    && Effects(handlers, fd, all, outcome, replies0, subs0, n, replies, subs)
  }

  lemma {:induction false} LoopStarts(handlers: seq<Handler>, fd: int, parse: Tokenizer, buffer: string,
                                      outcome: nat -> Outcome, replies0: seq<Reply>, subs0: seq<Sub>)
    ensures Underway(handlers, fd, parse, buffer, outcome, replies0, subs0, 0, 0, replies0, subs0)
  {
    var all := Tokens(parse, buffer);
    assert buffer[0..] == buffer && all[0..] == all && all[..0] == [];
  }

  lemma {:induction false} TokensStep(parse: Tokenizer, here: string)
    requires TokenContract(parse) && here != ""
    ensures parse(here).Parsed? ==>
              && Tokens(parse, here) == [parse(here).req] + Tokens(parse, here[parse(here).end..])
              && Spoilt(parse, here) == Spoilt(parse, here[parse(here).end..])
    ensures !parse(here).Parsed? ==> Tokens(parse, here) == [] && Spoilt(parse, here) == parse(here).Bad?
  {
  }

  /** The tokenizer finds no further request. */
  lemma {:induction false} LoopStops(handlers: seq<Handler>, fd: int, parse: Tokenizer, buffer: string,
                                     outcome: nat -> Outcome, replies0: seq<Reply>, subs0: seq<Sub>, start: nat, n: nat,
                                     replies: seq<Reply>, subs: seq<Sub>)
    requires TokenContract(parse) && start < |buffer| && !parse(buffer[start..]).Parsed?
    requires Underway(handlers, fd, parse, buffer, outcome, replies0, subs0, start, n, replies, subs)
    ensures var all := Tokens(parse, buffer);
            && n == |all| && Spoilt(parse, buffer) == parse(buffer[start..]).Bad?
            && Finished(handlers, fd, all, outcome, replies0, subs0, n, replies, subs)
            && !StoppedEarly(handlers, fd, all, outcome, 0)
  {
    hide Tokens, Spoilt, HandledCount, Replies, SubsAfter, StoppedEarly;
    TokensStep(parse, buffer[start..]);
    NoneLeft(handlers, fd, outcome, n);
  }

  /** The next request is that of the tokenizer. */
  lemma {:induction false} NextToken(parse: Tokenizer, buffer: string, start: nat, n: nat)
    requires TokenContract(parse) && start < |buffer| && parse(buffer[start..]).Parsed?
    requires n <= |Tokens(parse, buffer)| && Tokens(parse, buffer[start..]) == Tokens(parse, buffer)[n..]
    ensures var all, t := Tokens(parse, buffer), parse(buffer[start..]);
            && 0 < t.end <= |buffer| - start && n < |all| && all[n] == t.req
            && Tokens(parse, buffer[start + t.end..]) == all[n + 1..]
            && Spoilt(parse, buffer[start + t.end..]) == Spoilt(parse, buffer[start..])
  {
    hide Tokens, Spoilt;
    var all, here := Tokens(parse, buffer), buffer[start..];
    var t := parse(here);
    TokensStep(parse, here);
    assert all[n..][0] == t.req && all[n + 1..] == all[n..][1..];
    assert here[t.end..] == buffer[start + t.end..];
  }

  /** A request is handled. */
  lemma {:induction false} LoopStep(handlers: seq<Handler>, fd: int, parse: Tokenizer, buffer: string,
                                    outcome: nat -> Outcome, replies0: seq<Reply>, subs0: seq<Sub>, start: nat, n: nat,
                                    replies: seq<Reply>, subs: seq<Sub>)
    requires TokenContract(parse) && start < |buffer| && parse(buffer[start..]).Parsed?
    requires Underway(handlers, fd, parse, buffer, outcome, replies0, subs0, start, n, replies, subs)
    ensures var all, t := Tokens(parse, buffer), parse(buffer[start..]);
            var replies' := replies + Replied(handlers, fd, t.req, outcome(n));
            var subs' := Subscribed(subs, handlers, fd, t.req, outcome(n));
            && 0 < t.end <= |buffer| - start && n < |all|
            && if Stops(handlers, fd, t.req, outcome(n))
               then Finished(handlers, fd, all, outcome, replies0, subs0, n + 1, replies', subs')
                    && StoppedEarly(handlers, fd, all, outcome, 0)
               else Underway(handlers, fd, parse, buffer, outcome, replies0, subs0, start + t.end, n + 1, replies',
                             subs')
  {
    hide Tokens, Spoilt, HandledCount, Replied, Subscribed, Stops, StoppedEarly, TokenContract, Effects, Unstopped;
    var all := Tokens(parse, buffer);
    NextToken(parse, buffer, start, n);
    EffectsStep(handlers, fd, all, outcome, replies0, subs0, n, replies, subs);
    UnstoppedStep(handlers, fd, all, outcome, n);
  }

  lemma {:induction false} EffectsStep(handlers: seq<Handler>, fd: int, all: seq<Request>, outcome: nat -> Outcome,
                                       replies0: seq<Reply>, subs0: seq<Sub>, n: nat, replies: seq<Reply>,
                                       subs: seq<Sub>)
    requires n < |all| && Effects(handlers, fd, all, outcome, replies0, subs0, n, replies, subs)
    ensures Effects(handlers, fd, all, outcome, replies0, subs0, n + 1,
                    replies + Replied(handlers, fd, all[n], outcome(n)),
                    Subscribed(subs, handlers, fd, all[n], outcome(n)))
  {
    hide Replies, Replied, Subscribed, SubsAfter;
    RepliesSplit(handlers, fd, all, outcome, 0, n);
    SubsSnoc(subs0, handlers, fd, all, outcome, n);
  }

  lemma {:induction false} UnstoppedStep(handlers: seq<Handler>, fd: int, all: seq<Request>, outcome: nat -> Outcome,
                                         n: nat)
    requires n < |all| && Unstopped(handlers, fd, all, outcome, n)
    ensures if Stops(handlers, fd, all[n], outcome(n))
            then HandledCount(handlers, fd, all, outcome, 0) == n + 1 && StoppedEarly(handlers, fd, all, outcome, 0)
            else Unstopped(handlers, fd, all, outcome, n + 1)
  {
    hide HandledCount, StoppedEarly, Stops;
    HandledSnoc(handlers, fd, all, outcome, n);
    StoppedSnoc(handlers, fd, all, outcome, n);
  }

  lemma {:induction false} NoneLeft(handlers: seq<Handler>, fd: int, outcome: nat -> Outcome, n: nat)
    ensures HandledCount(handlers, fd, [], outcome, n) == 0 && !StoppedEarly(handlers, fd, [], outcome, n)
  {
  }

  lemma {:induction false} SubsSnoc(subs0: seq<Sub>, handlers: seq<Handler>, fd: int, all: seq<Request>,
                                    outcome: nat -> Outcome, n: nat)
    requires n < |all|
    ensures SubsAfter(subs0, handlers, fd, all[..n + 1], outcome)
         == Subscribed(SubsAfter(subs0, handlers, fd, all[..n], outcome), handlers, fd, all[n], outcome(n))
  {
    assert all[..n + 1][..n] == all[..n] && all[..n + 1][n] == all[n];
  }

  ghost predicate Finished(handlers: seq<Handler>, fd: int, all: seq<Request>, outcome: nat -> Outcome,
                           replies0: seq<Reply>, subs0: seq<Sub>, n: nat, replies: seq<Reply>, subs: seq<Sub>) {
    && n == HandledCount(handlers, fd, all, outcome, 0)
    && Effects(handlers, fd, all, outcome, replies0, subs0, n, replies, subs)
  }

  lemma {:induction false} LoopEnds(handlers: seq<Handler>, fd: int, parse: Tokenizer, buffer: string,
                                    outcome: nat -> Outcome, replies0: seq<Reply>, subs0: seq<Sub>, start: nat, n: nat,
                                    replies: seq<Reply>, subs: seq<Sub>)
    requires start == |buffer|
    requires Underway(handlers, fd, parse, buffer, outcome, replies0, subs0, start, n, replies, subs)
    ensures Finished(handlers, fd, Tokens(parse, buffer), outcome, replies0, subs0, n, replies, subs)
    ensures !Spoilt(parse, buffer)
  {
    assert buffer[start..] == "";
  }
}
