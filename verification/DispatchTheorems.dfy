/** Conservation of replies, and the order in which glued requests are served. */
module DispatchTheorems {
  import opened Common
  import opened Events
  import opened Dispatch

  /** How many of the requests are to be answered; outcome(k) belongs to the first. */
  function Owed(handlers: seq<Handler>, reqs: seq<Request>, outcome: nat -> Outcome, k: nat): (n: nat) {
    if reqs == [] then 0
    else (if Answerable(handlers, reqs[0], outcome(k)) then 1 else 0) + Owed(handlers, reqs[1..], outcome, k + 1)
  }

  lemma {:induction false} OwedStep(handlers: seq<Handler>, reqs: seq<Request>, outcome: nat -> Outcome, k: nat, i: nat)
    requires 0 < i <= |reqs|
    ensures Owed(handlers, reqs[..i], outcome, k)
         == (if Answerable(handlers, reqs[0], outcome(k)) then 1 else 0)
            + Owed(handlers, reqs[1..][..i - 1], outcome, k + 1)
  {
    assert reqs[..i][1..] == reqs[1..][..i - 1];
  }

  /** The replies are as many as the answerable requests, and the one owed to a request stands
      behind those owed to the requests before it, on the request's descriptor and with its id,
      which is the whole id if that is shorter than 64 characters. */
  lemma {:induction false} RepliesConserved(handlers: seq<Handler>, fd: int, reqs: seq<Request>,
                                            outcome: nat -> Outcome, k: nat, i: nat)
    requires i < |reqs|
    ensures var r := Replies(handlers, fd, reqs, outcome, k);
            && |r| == Owed(handlers, reqs, outcome, k)
            && (Answerable(handlers, reqs[i], outcome(k + i)) ==>
                  var p := Owed(handlers, reqs[..i], outcome, k);
                  && p < |r| && r[p].fd == fd && r[p].id == Copied(BUF_64, reqs[i].id.value, outcome(k + i).idTail)
                  && (|reqs[i].id.value| < BUF_64 ==> r[p].id == reqs[i].id.value)
                  && r[p] == Replied(handlers, fd, reqs[i], outcome(k + i))[0])
    decreases |reqs|
  {
    hide Answerable, Replied, Replies, Owed, Copied;
    RepliesCount(handlers, fd, reqs, outcome, k);
    RepliesCons(handlers, fd, reqs, outcome, k);
    FirstReply(handlers, fd, reqs[0], outcome(k));
    if i == 0 {
      assert Owed(handlers, reqs[..0], outcome, k) == 0 by { NoneOwed(handlers, reqs, outcome, k); }
      WholeId(reqs[0], outcome(k));
    } else {
      OwedStep(handlers, reqs, outcome, k, i);
      RepliesConserved(handlers, fd, reqs[1..], outcome, k + 1, i - 1);
      assert k + 1 + (i - 1) == k + i && reqs[1..][i - 1] == reqs[i];
    }
  }

  lemma {:induction false} WholeId(req: Request, outcome: Outcome)
    ensures req.id.Some? && |req.id.value| < BUF_64 ==> Copied(BUF_64, req.id.value, outcome.idTail) == req.id.value
  {
  }

  lemma {:induction false} NoneOwed(handlers: seq<Handler>, reqs: seq<Request>, outcome: nat -> Outcome, k: nat)
    ensures Owed(handlers, reqs[..0], outcome, k) == 0
  {
    assert reqs[..0] == [];
  }

  lemma {:induction false} RepliesCons(handlers: seq<Handler>, fd: int, reqs: seq<Request>, outcome: nat -> Outcome,
                                       k: nat)
    requires reqs != []
    ensures Replies(handlers, fd, reqs, outcome, k)
         == Replied(handlers, fd, reqs[0], outcome(k)) + Replies(handlers, fd, reqs[1..], outcome, k + 1)
  {
  }

  lemma {:induction false} FirstReply(handlers: seq<Handler>, fd: int, req: Request, outcome: Outcome)
    ensures var r := Replied(handlers, fd, req, outcome);
            && |r| == (if Answerable(handlers, req, outcome) then 1 else 0)
            && (Answerable(handlers, req, outcome) ==>
                  req.id.Some? && r[0].fd == fd && r[0].id == Copied(BUF_64, req.id.value, outcome.idTail))
  {
  }

  lemma {:induction false} RepliesCount(handlers: seq<Handler>, fd: int, reqs: seq<Request>, outcome: nat -> Outcome,
                                        k: nat)
    ensures |Replies(handlers, fd, reqs, outcome, k)| == Owed(handlers, reqs, outcome, k)
    decreases |reqs|
  {
    if reqs != [] { RepliesCount(handlers, fd, reqs[1..], outcome, k + 1); }
  }

  /** The loop handles every request unless a subscription that its handler accepted cannot be
      parsed; that request is the last one handled. */
  lemma {:induction false} HandledMeaning(handlers: seq<Handler>, fd: int, reqs: seq<Request>, outcome: nat -> Outcome,
                                          k: nat)
    ensures var n := HandledCount(handlers, fd, reqs, outcome, k);
            && n <= |reqs|
            && (forall i :: 0 <= i < n - 1 ==> !Stops(handlers, fd, reqs[i], outcome(k + i)))
            && (n < |reqs| ==> n > 0 && Stops(handlers, fd, reqs[n - 1], outcome(k + n - 1)))
    decreases |reqs|
  {
    hide Stops;
    if reqs != [] && !Stops(handlers, fd, reqs[0], outcome(k)) {
      var n := HandledCount(handlers, fd, reqs, outcome, k);
      HandledMeaning(handlers, fd, reqs[1..], outcome, k + 1);
      forall i | 0 <= i < n - 1 ensures !Stops(handlers, fd, reqs[i], outcome(k + i)) {
        if i > 0 { assert reqs[i] == reqs[1..][i - 1] && k + i == k + 1 + (i - 1); }
      }
    }
  }

  // ---------- what is answered, stored and recorded ----------

  ghost predicate Registered(handlers: seq<Handler>, name: string) {
    exists i :: 0 <= i < |handlers| && handlers[i].name == name
  }

  /** A callback is there for the name. */
  ghost predicate Handles(handlers: seq<Handler>, name: string) {
    exists i :: 0 <= i < |handlers| && handlers[i].name == name && handlers[i].present
  }

  lemma {:induction false} FoundPresent(handlers: seq<Handler>, name: string)
    requires UniqueNames(handlers)
    ensures Find(handlers, name).Some? <==> Registered(handlers, name)
    ensures Find(handlers, name).Some? && Find(handlers, name).value.present <==> Handles(handlers, name)
    decreases |handlers|
  {
    if handlers != [] {
      var tail := handlers[1..];
      FoundPresent(tail, name);
      assert forall i :: 0 < i < |handlers| ==> handlers[i] == tail[i - 1];
      if Registered(tail, name) {
        var i :| 0 <= i < |tail| && tail[i].name == name;
        assert handlers[i + 1].name == name;
      }
      if Handles(tail, name) {
        var i :| 0 <= i < |tail| && tail[i].name == name && tail[i].present;
        assert handlers[i + 1].name == name && handlers[i + 1].present;
      }
    }
  }

  /** The reply owed to a request: there is one if the request has an id and an action, unless it is
      a result nobody is registered for. It is the handler's exactly when a callback is there,
      returned OK and produced a valid message; Failure exactly when the callback failed; and
      NotSupported otherwise. */
  lemma {:induction false} AnswerMeaning(handlers: seq<Handler>, fd: int, reqs: seq<Request>, outcome: nat -> Outcome,
                                         k: nat, i: nat)
    requires i < |reqs| && UniqueNames(handlers) && reqs[i].id.Some? && reqs[i].action.Some?
    ensures var o, reply := outcome(k + i), ReplyTo(handlers, fd, reqs, outcome, k, i);
            var action := Copied(BUF_64, reqs[i].action.value, o.actionTail);
            && (reply.Some? <==> Registered(handlers, action) || !("result" <= action))
            && (reply.Some? ==>
                  var answer := reply.value.answer;
                  && (answer.FromHandler? <==> Handles(handlers, action) && o.rc == RETURN_OK && o.valid)
                  && (answer.Failure? <==> Handles(handlers, action) && o.rc != RETURN_OK)
                  && (answer.FromHandler? && "getParameters" <= action ==> answer.action == "getParametersResponse")
                  && (answer.FromHandler? && "getSchema" <= action ==> answer.action == "getSchemaResponse")
                  && (answer.FromHandler? && !("getParameters" <= action) && !("getSchema" <= action) ==>
                        answer.action == "result"))
  {
    RepliesConserved(handlers, fd, reqs, outcome, k, i);
    var action := Copied(BUF_64, reqs[i].action.value, outcome(k + i).actionTail);
    FoundPresent(handlers, action);
    TwoActions(action);
    hide Copied, Find, Replies, Owed, Registered, Handles, UniqueNames;
  }

  lemma {:induction false} TwoActions(action: string)
    ensures !("getParameters" <= action && "getSchema" <= action)
  {
    assert "getParameters" <= action ==> action[3] == 'P';
    assert "getSchema" <= action ==> action[3] == 'S';
  }

  /** No request without an id or an action is answered. */
  lemma {:induction false} NoAnswer(handlers: seq<Handler>, fd: int, reqs: seq<Request>, outcome: nat -> Outcome,
                                    k: nat, i: nat)
    requires i < |reqs| && (reqs[i].id.None? || reqs[i].action.None?)
    ensures ReplyTo(handlers, fd, reqs, outcome, k, i).None?
  {
  }

  /** The handler has accepted a request to subscribe. */
  ghost predicate AcceptsSubscription(handlers: seq<Handler>, req: Request, o: Outcome) {
    && req.id.Some? && req.action.Some? && o.rc == RETURN_OK && o.valid
    && var action := Copied(BUF_64, req.action.value, o.actionTail);
       Handles(handlers, action) && "subscribeEvent" <= action
  }

  ghost predicate NamesEvent(req: Request) {
    req.params.Some? && req.params.value.name.Some? && req.params.value.ntype.Some?
  }

  /** An accepted subscription is stored under the descriptor, event and type the request names; one
      that does not name them stops the loop; requests that are neither this nor an acknowledgement
      leave the subscriptions alone. */
  lemma {:induction false} SubscriptionMeaning(subs: seq<Sub>, handlers: seq<Handler>, fd: int, req: Request,
                                               o: Outcome)
    requires UniqueNames(handlers)
    ensures Stops(handlers, fd, req, o) <==> AcceptsSubscription(handlers, req, o) && !NamesEvent(req)
    ensures AcceptsSubscription(handlers, req, o) && NamesEvent(req) ==>
              var ntype := req.params.value.ntype.value;
              var stored := Subscribed(subs, handlers, fd, req, o);
              && |stored| == |subs| + 1 && stored[..|subs|] == subs
              && stored[|subs|].fd == fd && stored[|subs|].status == NoEvent && stored[|subs|].reqId == ""
              && stored[|subs|].event == Copied(BUF_512, req.params.value.name.value, o.eventTail)
              && (stored[|subs|].ntype == OnChangeSync <==> ntype == "onChangeSync")
              && (stored[|subs|].ntype == OnChangeSyncTimeout <==> ntype == "onChangeSyncTimeout")
              && stored[|subs|].ntype != Invalid
    ensures !(AcceptsSubscription(handlers, req, o) && NamesEvent(req)) && !Acknowledges(handlers, req, o) ==>
              Subscribed(subs, handlers, fd, req, o) == subs
  {
    if req.action.Some? { FoundPresent(handlers, Copied(BUF_64, req.action.value, o.actionTail)); }
    ResultIsNoSubscription(req, o);
    hide Copied, Find, Registered, Handles, UniqueNames;
  }

  lemma {:induction false} ResultIsNoSubscription(req: Request, o: Outcome)
    ensures req.action.Some? ==>
              var action := Copied(BUF_64, req.action.value, o.actionTail);
              !("result" <= action && "subscribeEvent" <= action)
  {
    if req.action.Some? {
      var action := Copied(BUF_64, req.action.value, o.actionTail);
      assert "result" <= action ==> action[0] == 'r';
      assert "subscribeEvent" <= action ==> action[0] == 's';
    }
  }

  /** The request is the acknowledgement of an event: a result, for which nobody is registered, with
      a status and, if it has params, the name of the event. */
  ghost predicate Acknowledges(handlers: seq<Handler>, req: Request, o: Outcome) {
    && req.id.Some? && req.action.Some? && req.status.Some? && req.status.value.Some?
    && (req.params.Some? ==> req.params.value.name.Some?)
    && var action := Copied(BUF_64, req.action.value, o.actionTail);
       !Registered(handlers, action) && "result" <= action
  }

  /** An acknowledgement records success or failure in the subscriptions on its own descriptor whose
      event and outstanding id begin as it says, and changes nothing else. */
  lemma {:induction false} AcknowledgementMeaning(subs: seq<Sub>, handlers: seq<Handler>, fd: int, req: Request,
                                                  o: Outcome, i: nat)
    requires UniqueNames(handlers) && Acknowledges(handlers, req, o) && i < |subs|
    ensures var event := if req.params.Some? then Copied(BUF_512, req.params.value.name.value, o.eventTail) else "";
            var id, after := Copied(BUF_64, req.id.value, o.ackTail), Subscribed(subs, handlers, fd, req, o);
            && |after| == |subs|
            && (subs[i].fd == fd && event <= subs[i].event && id <= subs[i].reqId ==>
                  && (after[i].status == ReplySuccess <==> "Success" <= req.status.value.value)
                  && (after[i].status == ReplyError <==> !("Success" <= req.status.value.value))
                  && after[i] == subs[i].(status := after[i].status))
            && (!(subs[i].fd == fd && event <= subs[i].event && id <= subs[i].reqId) ==>
                  after[i] == subs[i])
  {
    FoundPresent(handlers, Copied(BUF_64, req.action.value, o.actionTail));
    ResultIsNoSubscription(req, o);
    hide Copied, Find, Registered, Handles, UniqueNames;
  }

  // ---------- texts that fill their arrays ----------

  /** A copy reads as the text exactly when the text is shorter than the array, or the bytes behind
      the array happen to be the rest of it. */
  lemma {:induction false} CopiedIs(size: nat, s: string, tail: string)
    ensures Copied(size, s, tail) == s <==> |s| < size || tail == s[size..]
  {
    if |s| >= size {
      assert s == s[..size] + s[size..];
      assert Copied(size, s, tail)[size..] == tail;
    }
  }

  /** Whatever bytes follow the array, exactly when it is shorter. */
  lemma {:induction false} CopiedExact(size: nat, s: string)
    ensures (forall tail :: Copied(size, s, tail) == s) <==> |s| < size
  {
    if |s| >= size {
      CopiedIs(size, s, s[size..] + "x");
    }
  }

  /** The bytes behind the array that holds the id of the n-th request. */
  function IdBytes(outcome: nat -> Outcome, n: nat, tail: string): nat -> Outcome {
    (m: nat) => if m == n then outcome(m).(idTail := tail) else outcome(m)
  }

  /** The reply that is owed to request `i`. */
  function ReplyTo(handlers: seq<Handler>, fd: int, reqs: seq<Request>, outcome: nat -> Outcome, k: nat,
                   i: nat): Option<Reply>
    requires i < |reqs|
  {
    var r := Replies(handlers, fd, reqs, outcome, k);
    var p := Owed(handlers, reqs[..i], outcome, k);
    if Answerable(handlers, reqs[i], outcome(k + i)) && p < |r| then Some(r[p]) else None
  }

  /** Whatever bytes follow the array, the reply to a request carries the request's own id, exactly
      when that id is shorter than 64 characters. */
  lemma {:induction false} OwnIdIff(handlers: seq<Handler>, fd: int, reqs: seq<Request>, outcome: nat -> Outcome,
                                    k: nat, i: nat)
    requires i < |reqs| && Answerable(handlers, reqs[i], outcome(k + i))
    ensures (forall tail :: CarriesOwnId(handlers, fd, reqs, outcome, k, i, tail)) <==> |reqs[i].id.value| < BUF_64
  {
    var id := reqs[i].id.value;
    forall tail
      ensures CarriesOwnId(handlers, fd, reqs, outcome, k, i, tail) <==> Copied(BUF_64, id, tail) == id
    {
      RepliesConserved(handlers, fd, reqs, IdBytes(outcome, k + i, tail), k, i);
    }
    hide CarriesOwnId, Copied, Answerable;
    CopiedExact(BUF_64, id);
  }

  /** It does so with `tail` behind the array. */
  ghost predicate CarriesOwnId(handlers: seq<Handler>, fd: int, reqs: seq<Request>, outcome: nat -> Outcome,
                               k: nat, i: nat, tail: string)
    requires i < |reqs| && reqs[i].id.Some?
  {
    var reply := ReplyTo(handlers, fd, reqs, IdBytes(outcome, k + i, tail), k, i);
    reply.Some? && reply.value.id == reqs[i].id.value
  }

  lemma {:induction false} FindNamed(handlers: seq<Handler>, name: string)
    ensures Find(handlers, name).Some? <==> exists i :: 0 <= i < |handlers| && handlers[i].name == name
    ensures Find(handlers, name).Some? ==> Find(handlers, name).value.name == name
    decreases |handlers|
  {
    if handlers != [] {
      FindNamed(handlers[1..], name);
      if i :| 0 < i < |handlers| && handlers[i].name == name {
        assert handlers[1..][i - 1].name == name;
      }
      if Find(handlers[1..], name).Some? {
        var i :| 0 <= i < |handlers[1..]| && handlers[1..][i].name == name;
        assert handlers[i + 1].name == name;
      }
    }
  }

  /** A length that no registered name reaches. */
  function Beyond(handlers: seq<Handler>): (n: nat)
    ensures forall i :: 0 <= i < |handlers| ==> |handlers[i].name| < n
  {
    if handlers == [] then 0
    else
      var n := Beyond(handlers[1..]);
      assert forall i :: 0 < i < |handlers| ==> handlers[i] == handlers[1..][i - 1];
      if |handlers[0].name| < n then n else |handlers[0].name| + 1
  }

  /** Some registered name begins like `action`, as far as the array goes. */
  ghost predicate Confusable(handlers: seq<Handler>, action: string)
    requires |action| >= BUF_64
  {
    exists i :: 0 <= i < |handlers| && action[..BUF_64] <= handlers[i].name
  }

  /** Whatever bytes follow the array, the handler found is the one registered under the request's
      action, exactly when the action is shorter than 64 characters or no registered name begins
      with its first 64. */
  lemma {:induction false} HandlerFoundIff(handlers: seq<Handler>, action: string)
    ensures (forall tail :: Find(handlers, Copied(BUF_64, action, tail)) == Find(handlers, action))
       <==> |action| < BUF_64 || !Confusable(handlers, action)
  {
    if |action| >= BUF_64 {
      if Confusable(handlers, action) {
        var tail := Confusing(handlers, action);
      } else {
        NeverFound(handlers, action);
      }
    }
  }

  /** Bytes that make the dispatcher find another handler, or none. */
  lemma {:induction false} Confusing(handlers: seq<Handler>, action: string) returns (tail: string)
    requires |action| >= BUF_64 && Confusable(handlers, action)
    ensures Find(handlers, Copied(BUF_64, action, tail)) != Find(handlers, action)
  {
    if Find(handlers, action).Some? {
      tail := seq(Beyond(handlers), _ => 'x');
      FindNamed(handlers, Copied(BUF_64, action, tail));
    } else {
      var i :| 0 <= i < |handlers| && action[..BUF_64] <= handlers[i].name;
      tail := handlers[i].name[BUF_64..];
      assert Copied(BUF_64, action, tail) == handlers[i].name;
      FindNamed(handlers, handlers[i].name);
    }
  }

  lemma {:induction false} NeverFound(handlers: seq<Handler>, action: string)
    requires |action| >= BUF_64 && !Confusable(handlers, action)
    ensures Find(handlers, action).None?
    ensures forall tail :: Find(handlers, Copied(BUF_64, action, tail)).None?
  {
    forall name: string | action[..BUF_64] <= name ensures Find(handlers, name).None? {
      FindNamed(handlers, name);
    }
  }

  /** Whatever bytes follow the array, a subscription is stored under the event the request names,
      exactly when that name is shorter than 512 characters. */
  lemma {:induction false} OwnEventIff(req: Request, fd: int, outcome: Outcome)
    requires req.params.Some? && req.params.value.name.Some? && req.params.value.ntype.Some?
    ensures (forall tail ::
               Subscription(req, fd, outcome.(eventTail := tail)).value.event == req.params.value.name.value)
       <==> |req.params.value.name.value| < BUF_512
  {
    var name := req.params.value.name.value;
    assert forall tail :: Subscription(req, fd, outcome.(eventTail := tail)).value.event == Copied(BUF_512, name, tail);
    hide Copied, Subscription;
    CopiedExact(BUF_512, name);
  }

  // ---------- glued requests ----------

  type Encoder = Request -> string

  /** A tokenizer that accepts characters behind a complete object. */
  ghost predicate ReadsBack(encode: Encoder, parse: Tokenizer) {
    forall r: Request, rest: string :: encode(r) != "" && parse(encode(r) + rest) == Parsed(r, |encode(r)|)
  }

  function Glue(encode: Encoder, reqs: seq<Request>): (s: string) {
    if reqs == [] then "" else encode(reqs[0]) + Glue(encode, reqs[1..])
  }

  /** Requests sent back to back are all found, in order, whatever follows them; and what follows
      them decides whether the buffer ends in a parse error. */
  lemma {:induction false} GluedRequests(encode: Encoder, parse: Tokenizer, reqs: seq<Request>, rest: string)
    requires ReadsBack(encode, parse)
    ensures Tokens(parse, Glue(encode, reqs) + rest) == reqs + Tokens(parse, rest)
    ensures Spoilt(parse, Glue(encode, reqs) + rest) == Spoilt(parse, rest)
    ensures rest == "" || parse(rest).More? ==>
              Tokens(parse, Glue(encode, reqs) + rest) == reqs && !Spoilt(parse, Glue(encode, reqs) + rest)
    ensures rest != "" && parse(rest).Bad? ==>
              Tokens(parse, Glue(encode, reqs) + rest) == reqs && Spoilt(parse, Glue(encode, reqs) + rest)
    decreases |reqs|
  {
    NothingMore(parse, rest);
    hide Tokens, Spoilt;
    if reqs == [] {
      assert Glue(encode, reqs) + rest == rest && reqs + Tokens(parse, rest) == Tokens(parse, rest);
    } else {
      GluedRequests(encode, parse, reqs[1..], rest);
      GlueHead(encode, parse, reqs, rest);
      hide Glue, ReadsBack;
      assert [reqs[0]] + (reqs[1..] + Tokens(parse, rest)) == reqs + Tokens(parse, rest);
    }
  }

  /** A rest without a complete object has no requests, and is an error exactly if it is broken. */
  lemma {:induction false} NothingMore(parse: Tokenizer, rest: string)
    ensures rest == "" || !parse(rest).Parsed? ==> Tokens(parse, rest) == []
    ensures rest == "" || !parse(rest).Parsed? ==> (Spoilt(parse, rest) <==> rest != "" && parse(rest).Bad?)
  {
  }

  /** The first request is found, and then the rest of the buffer counts. */
  lemma {:induction false} GlueHead(encode: Encoder, parse: Tokenizer, reqs: seq<Request>, rest: string)
    requires ReadsBack(encode, parse) && reqs != []
    ensures var all, tail := Glue(encode, reqs) + rest, Glue(encode, reqs[1..]) + rest;
            Tokens(parse, all) == [reqs[0]] + Tokens(parse, tail) && Spoilt(parse, all) == Spoilt(parse, tail)
  {
    hide Tokens, Spoilt;
    var head, tail := encode(reqs[0]), Glue(encode, reqs[1..]) + rest;
    assert Glue(encode, reqs) + rest == head + tail && (head + tail)[|head|..] == tail;
    GlueStep(parse, head + tail, reqs[0], tail, |head|);
  }

  lemma {:induction false} GlueStep(parse: Tokenizer, all: string, req: Request, tail: string, n: nat)
    requires 0 < n <= |all| && parse(all) == Parsed(req, n) && all[n..] == tail
    ensures Tokens(parse, all) == [req] + Tokens(parse, tail) && Spoilt(parse, all) == Spoilt(parse, tail)
  {
  }

  /** A tokenizer that refuses characters behind a complete object. */
  ghost predicate ReadsBackStrict(encode: Encoder, parse: Tokenizer) {
    && (forall r: Request :: encode(r) != "" && parse(encode(r)) == Parsed(r, |encode(r)|))
    && (forall r: Request, q: Request, rest: string :: parse(encode(r) + (encode(q) + rest)).Bad?)
  }

  /** With a strict tokenizer a single request is found, and of several glued ones none: the buffer
      is a parse error from its beginning. */
  lemma {:induction false} StrictGluedRequests(encode: Encoder, parse: Tokenizer, reqs: seq<Request>)
    requires ReadsBackStrict(encode, parse)
    ensures Tokens(parse, Glue(encode, reqs)) == if |reqs| <= 1 then reqs else []
    ensures Spoilt(parse, Glue(encode, reqs)) <==> |reqs| >= 2
  {
    if |reqs| == 1 {
      var head := encode(reqs[0]);
      assert reqs == [reqs[0]] && reqs[1..] == [] && Glue(encode, reqs) == head + "" == head;
      assert head[|head|..] == "";
      GlueStep(parse, head, reqs[0], "", |head|);
    } else if |reqs| >= 2 {
      var head, rest := encode(reqs[0]), Glue(encode, reqs[2..]);
      assert reqs[1..][0] == reqs[1] && reqs[1..][1..] == reqs[2..];
      assert Glue(encode, reqs) == head + (encode(reqs[1]) + rest);
      assert head != "";
    }
  }

  /** Nothing of such a buffer is handled, and the callback reports an error. */
  method StrictServer(server: Dispatcher, fd: int, encode: Encoder, parse: Tokenizer, reqs: seq<Request>,
                      outcome: nat -> Outcome)
    returns (rc: int, handled: nat)
    requires TokenContract(parse) && ReadsBackStrict(encode, parse)
    modifies server
    ensures |reqs| >= 2 ==>
              && rc == RETURN_ERR && handled == 0
              && server.replies == old(server.replies) && server.subs == old(server.subs)
    ensures |reqs| == 1 ==> handled == 1 && rc == RETURN_OK
  {
    StrictGluedRequests(encode, parse, reqs);
    rc, handled := server.ProcessMessage(fd, Glue(encode, reqs), parse, outcome);
  }
}
