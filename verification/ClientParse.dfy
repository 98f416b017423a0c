/** `response_parse_cb` on a receive buffer in which several messages arrived glued together. */
module ClientParse {

  /** One complete message: whether it is the reply to a request (and not an event), its request
      id, and its length in characters, braces included. */
  datatype Msg = Msg(reply: bool, id: int, len: nat)

  /** Whether the JSON library can be told to accept characters behind a complete object. */
  datatype Tokenizer = Strict | AllowTrailing

  /** How the code computes the end of the retry window: as written it stores an offset
      relative to `start_pos` where an absolute one is meant. */
  datatype RetryEnd = Relative | Absolute

  /** What the code copies for a requester: as written the whole receive buffer. */
  datatype CopyRange = WholeBuffer | OwnMessage

  /** The loop as written is `Variant(_, Relative, WholeBuffer)`. */
  datatype Variant = Variant(tok: Tokenizer, retry: RetryEnd, copy: CopyRange)

  datatype Verdict = Object(end: nat) | Unexpected(end: nat) | Incomplete(end: nat) | Negative

  /** The tokenizer's contract: a token that has `left` characters of its message still to come,
      with another '{' or the end of the buffer behind them, is given `window` characters. */
  function Tokenize(tok: Tokenizer, left: nat, window: int): (v: Verdict) {
    if window < 0 then Negative
    else if window < left then Incomplete(window)
    else if window == left || tok == AllowTrailing then Object(left)
    else Unexpected(left)
  }

  function Total(msgs: seq<Msg>): (n: nat) {
    if msgs == [] then 0 else msgs[0].len + Total(msgs[1..])
  }

  ghost predicate NonEmpty(msgs: seq<Msg>) { forall i :: 0 <= i < |msgs| ==> msgs[i].len > 0 }

  lemma {:induction false} TotalSplit(msgs: seq<Msg>, k: nat)
    requires k < |msgs|
    ensures Total(msgs[..k + 1]) == Total(msgs[..k]) + msgs[k].len
    ensures Total(msgs) == Total(msgs[..k]) + msgs[k].len + Total(msgs[k + 1..])
    decreases |msgs|
  {
    if k == 0 {
      assert msgs[..1] == [msgs[0]] && msgs[..0] == [];
      assert Total([msgs[0]]) == msgs[0].len + Total([msgs[0]][1..]);
    } else {
      TotalSplit(msgs[1..], k - 1);
      assert msgs[..k + 1][1..] == msgs[1..][..k] && msgs[..k][1..] == msgs[1..][..k - 1];
      assert msgs[k + 1..] == msgs[1..][k..];
    }
  }

  /** Only the last message has nothing behind it. */
  lemma {:induction false} TotalBehind(msgs: seq<Msg>, k: nat)
    requires NonEmpty(msgs) && k < |msgs|
    ensures Total(msgs[..k]) + msgs[k].len <= Total(msgs)
    ensures Total(msgs[..k]) + msgs[k].len == Total(msgs) <==> k + 1 == |msgs|
  {
    TotalSplit(msgs, k);
    var behind := msgs[k + 1..];
    assert behind != [] ==> Total(behind) >= behind[0].len == msgs[k + 1].len;
  }

  // ---------- the loop ----------

  /** The requester that tracks `id` is handed a copy of `buffer`. */
  datatype Delivery = Delivery(id: int, buffer: seq<Msg>)

  /** What message `k` makes the loop deliver. */
  function Served(v: Variant, msgs: seq<Msg>, k: nat): (r: seq<Delivery>)
    requires k < |msgs|
  {
    if !msgs[k].reply then [] else [Delivery(msgs[k].id, if v.copy == WholeBuffer then msgs else [msgs[k]])]
  }

  /** The loop variables between two calls of the tokenizer, which stand in message `k`. The token
      holds the first `held` characters of it, or is a new one put there; the latter is `lost`. */
  datatype Cursor = Cursor(start: nat, expected: int, k: nat, held: nat, lost: bool)

  /** `Unknown`: a new token was to read from the middle of a message. */
  datatype Status = Running | Finished | NegativeWindow(window: int) | Unknown

  datatype Loop = Loop(at: Cursor, out: seq<Delivery>, status: Status)

  ghost predicate Placed(msgs: seq<Msg>, c: Cursor) {
    && c.k <= |msgs| && c.start == Total(msgs[..c.k]) + c.held
    && if c.k == |msgs| then c.held == 0 else c.held < msgs[c.k].len
  }

  function Begin(msgs: seq<Msg>): Loop { Loop(Cursor(0, Total(msgs), 0, 0, false), [], Running) }

  lemma {:induction false} PlacedInside(msgs: seq<Msg>, c: Cursor)
    requires NonEmpty(msgs) && Placed(msgs, c)
    ensures c.start != Total(msgs) <==> c.k < |msgs|
  {
    if c.k == |msgs| {
      assert msgs[..c.k] == msgs;
    } else {
      TotalBehind(msgs, c.k);
    }
  }

  /** One turn of the loop. */
  function Turn(v: Variant, msgs: seq<Msg>, l: Loop): (r: Loop)
    requires NonEmpty(msgs) && Placed(msgs, l.at)
    ensures Placed(msgs, r.at)
  {
    var c := l.at;
    var window := c.expected - c.start;
    PlacedInside(msgs, c);
    if l.status != Running then l
    else if c.start == Total(msgs) then l.(status := Finished)
    else if c.lost && window >= 0 then l.(status := Unknown)
    else
      match Tokenize(v.tok, msgs[c.k].len - c.held, window)
      case Negative => l.(status := NegativeWindow(window))
      case Unexpected(end) =>
        l.(at := c.(expected := if v.retry == Absolute then c.start + end else end, lost := c.held > 0))
      case Incomplete(end) => l.(at := Cursor(c.start + end, Total(msgs), c.k, c.held + end, false))
      case Object(end) =>
        TotalSplit(msgs, c.k);
        Loop(Cursor(c.start + end, Total(msgs), c.k + 1, 0, false), l.out + Served(v, msgs, c.k), Running)
  }

  function Turns(v: Variant, msgs: seq<Msg>, l: Loop, n: nat): (r: Loop)
    requires NonEmpty(msgs) && Placed(msgs, l.at)
    ensures Placed(msgs, r.at)
    decreases n
  {
    if n == 0 then l else Turns(v, msgs, Turn(v, msgs, l), n - 1)
  }

  /** What the first `k` messages deliver. */
  function Delivered(v: Variant, msgs: seq<Msg>, k: nat): (r: seq<Delivery>)
    requires k <= |msgs|
  {
    if k == 0 then [] else Delivered(v, msgs, k - 1) + Served(v, msgs, k - 1)
  }

  /** The buffer can be read to its end. */
  predicate Readable(v: Variant, msgs: seq<Msg>) {
    v.tok == AllowTrailing || v.retry == Absolute || |msgs| <= 2
  }

  /** The parse loop, watched for at most `turns` turns, since some buffers keep it forever. */
  method ParseBuffer(v: Variant, msgs: seq<Msg>, turns: nat) returns (out: seq<Delivery>, status: Status)
    requires NonEmpty(msgs)
    ensures Readable(v, msgs) && turns > 2 * |msgs| ==> status == Finished && out == Delivered(v, msgs, |msgs|)
    ensures !Readable(v, msgs) ==>
              var w := msgs[1].len - msgs[0].len;
              && status != Finished && (w == 0 ==> status == Running)
              && (w != 0 && turns >= 6 ==> status == NegativeWindow(if w < 0 then w else -w))
              && (turns >= 2 ==> out == Delivered(v, msgs, 1))
    ensures turns > 2 * |msgs| && DistinctReplies(msgs) ==>
              (OwnReplies(out) <==> v.copy == OwnMessage || !Readable(v, msgs) || NoReplyBehind(msgs, |msgs|))
  {
    hide Total, Placed, Turns, Delivered, Readable, Begin;
    BeginIs(msgs);
    var len := Total(msgs);
    var start, expected, k, held, lost := 0, len, 0, 0, false;
    out, status := [], Running;
    var n := 0;
    while n < turns && status == Running
      invariant n <= turns && Placed(msgs, Cursor(start, expected, k, held, lost))
      invariant Turns(v, msgs, Loop(Cursor(start, expected, k, held, lost), out, status), turns - n)
             == Turns(v, msgs, Begin(msgs), turns)
      decreases turns - n
    {
      ghost var l := Loop(Cursor(start, expected, k, held, lost), out, Running);
      PlacedInside(msgs, l.at);
      Inside(msgs, l.at);
      Unroll(v, msgs, l, turns - n);
      if start == len {
        status := Finished;
      } else if lost && expected - start >= 0 {
        status := Unknown;
      } else {
        match Tokenize(v.tok, msgs[k].len - held, expected - start) {
          case Negative =>
            status := NegativeWindow(expected - start);
          case Unexpected(end) =>
            expected := if v.retry == Absolute then start + end else end;
            lost := held > 0;
          case Incomplete(end) =>
            start, expected, held, lost := start + end, len, held + end, false;
          case Object(end) =>
            out := out + Served(v, msgs, k);
            start, expected, k, held, lost := start + end, len, k + 1, 0, false;
        }
      }
      assert Loop(Cursor(start, expected, k, held, lost), out, status) == Turn(v, msgs, l);
      n := n + 1;
    }
    ghost var end := Loop(Cursor(start, expected, k, held, lost), out, status);
    if status == Running {
      Unroll(v, msgs, end, 0);
    } else {
      Stays(v, msgs, end, turns - n);
    }
    Fate(v, msgs, turns);
    if !Readable(v, msgs) { NeverFinished(v, msgs, turns); }
    if turns > 2 * |msgs| && DistinctReplies(msgs) {
      ThirdMessage(v, msgs);
      WhoGetsItsOwn(v, msgs, out);
    }
  }

  lemma {:induction false} BeginIs(msgs: seq<Msg>)
    requires NonEmpty(msgs)
    ensures Begin(msgs) == Loop(Cursor(0, Total(msgs), 0, 0, false), [], Running) && Placed(msgs, Begin(msgs).at)
  {
    assert msgs[..0] == [];
  }

  lemma {:induction false} ThirdMessage(v: Variant, msgs: seq<Msg>)
    ensures !Readable(v, msgs) ==> |msgs| >= 3
  {
  }

  lemma {:induction false} Inside(msgs: seq<Msg>, c: Cursor)
    requires Placed(msgs, c)
    ensures c.k < |msgs| ==> c.held < msgs[c.k].len
  {
  }

  lemma {:induction false} Unroll(v: Variant, msgs: seq<Msg>, l: Loop, n: nat)
    requires NonEmpty(msgs) && Placed(msgs, l.at)
    ensures Turns(v, msgs, l, n) == if n == 0 then l else Turns(v, msgs, Turn(v, msgs, l), n - 1)
  {
  }

  // ---------- its fate ----------

  lemma {:induction false} Stays(v: Variant, msgs: seq<Msg>, l: Loop, n: nat)
    requires NonEmpty(msgs) && Placed(msgs, l.at) && l.status != Running
    ensures Turns(v, msgs, l, n) == l
    decreases n
  {
    if n > 0 { Stays(v, msgs, l, n - 1); }
  }

  /** The loop at the first character of message `k`, all before it read and delivered. */
  ghost function Ahead(v: Variant, msgs: seq<Msg>, k: nat): Loop
    requires k <= |msgs|
  {
    Loop(Cursor(Total(msgs[..k]), Total(msgs), k, 0, false), Delivered(v, msgs, k), Running)
  }

  /** One message is read in one turn, or in two where the strict tokenizer first reports the
      message behind it. */
  lemma {:induction false} ReadsOne(v: Variant, msgs: seq<Msg>, k: nat)
    requires NonEmpty(msgs) && k < |msgs| && (Readable(v, msgs) || k == 0)
    ensures var l := Turn(v, msgs, Ahead(v, msgs, k));
            l == Ahead(v, msgs, k + 1) || Turn(v, msgs, l) == Ahead(v, msgs, k + 1)
    ensures v.tok == Strict && k + 1 < |msgs| ==> Turn(v, msgs, Ahead(v, msgs, k)) != Ahead(v, msgs, k + 1)
  {
    TotalBehind(msgs, k);
    TotalSplit(msgs, k);
    if k == 0 { assert Total(msgs[..0]) == 0; }
    if k == 1 && |msgs| == 2 { assert Total(msgs[..2]) == Total(msgs) by { assert msgs[..2] == msgs; } }
  }

  lemma {:induction false} ReadsAll(v: Variant, msgs: seq<Msg>, k: nat, n: nat)
    requires NonEmpty(msgs) && k <= |msgs| && Readable(v, msgs) && n > 2 * (|msgs| - k)
    ensures Turns(v, msgs, Ahead(v, msgs, k), n).status == Finished
    ensures Turns(v, msgs, Ahead(v, msgs, k), n).out == Delivered(v, msgs, |msgs|)
    decreases |msgs| - k
  {
    hide Turn, Turns, Readable, Ahead, Delivered;
    AheadPlaced(v, msgs, k);
    if k == |msgs| {
      EndReached(v, msgs, n);
    } else {
      var l := Turn(v, msgs, Ahead(v, msgs, k));
      Unroll(v, msgs, Ahead(v, msgs, k), n);
      ReadsOne(v, msgs, k);
      if l == Ahead(v, msgs, k + 1) {
        ReadsAll(v, msgs, k + 1, n - 1);
      } else {
        Unroll(v, msgs, l, n - 1);
        ReadsAll(v, msgs, k + 1, n - 2);
      }
    }
  }

  lemma {:induction false} AheadPlaced(v: Variant, msgs: seq<Msg>, k: nat)
    requires NonEmpty(msgs) && k <= |msgs|
    ensures Placed(msgs, Ahead(v, msgs, k).at)
  {
  }

  lemma {:induction false} EndReached(v: Variant, msgs: seq<Msg>, n: nat)
    requires NonEmpty(msgs) && n > 0
    ensures var l := Turns(v, msgs, Ahead(v, msgs, |msgs|), n);
            l.status == Finished && l.out == Delivered(v, msgs, |msgs|)
  {
    assert msgs[..|msgs|] == msgs;
    Stays(v, msgs, Turn(v, msgs, Ahead(v, msgs, |msgs|)), n - 1);
  }

  /** The loop as written, with a strict tokenizer and a third message: message 1 is never read. */
  ghost predicate Stuck(v: Variant, msgs: seq<Msg>) {
    NonEmpty(msgs) && !Readable(v, msgs)
  }

  /** The retry window of message 1, set to its length where its end was meant. */
  ghost function Retrying(v: Variant, msgs: seq<Msg>): Loop
    requires |msgs| >= 3
  {
    Loop(Cursor(msgs[0].len, msgs[1].len, 1, 0, false), Delivered(v, msgs, 1), Running)
  }

  lemma {:induction false} TwoTotals(msgs: seq<Msg>)
    requires NonEmpty(msgs) && |msgs| >= 3
    ensures Total(msgs[..1]) == msgs[0].len && Total(msgs) > msgs[0].len + msgs[1].len
  {
    TotalSplit(msgs, 0);
    assert Total(msgs[..0]) == 0;
    TotalBehind(msgs, 1);
  }

  lemma {:induction false} RetryTurn(v: Variant, msgs: seq<Msg>)
    requires Stuck(v, msgs)
    ensures Turn(v, msgs, Ahead(v, msgs, 1)) == Retrying(v, msgs) && Placed(msgs, Retrying(v, msgs).at)
  {
    TwoTotals(msgs);
  }

  /** Equally long messages: the window is empty, and the loop is where it was. */
  lemma {:induction false} EmptyWindow(v: Variant, msgs: seq<Msg>)
    requires Stuck(v, msgs) && msgs[1].len == msgs[0].len
    ensures Placed(msgs, Retrying(v, msgs).at) && Turn(v, msgs, Retrying(v, msgs)) == Ahead(v, msgs, 1)
  {
    TwoTotals(msgs);
  }

  lemma {:induction false} LoopsForever(v: Variant, msgs: seq<Msg>, n: nat)
    requires Stuck(v, msgs) && msgs[1].len == msgs[0].len
    ensures Turns(v, msgs, Ahead(v, msgs, 1), n).status == Running
    ensures Turns(v, msgs, Ahead(v, msgs, 1), n).out == Delivered(v, msgs, 1)
    decreases n
  {
    RetryTurn(v, msgs);
    EmptyWindow(v, msgs);
    hide Turn;
    if n > 1 { LoopsForever(v, msgs, n - 2); }
  }

  /** Message 1 is shorter: the window is negative at once. */
  lemma {:induction false} ShorterSecond(v: Variant, msgs: seq<Msg>, n: nat)
    requires Stuck(v, msgs) && msgs[1].len < msgs[0].len
    ensures Placed(msgs, Retrying(v, msgs).at)
    ensures var l := Turns(v, msgs, Retrying(v, msgs), n);
            l.out == Delivered(v, msgs, 1) && (n >= 1 ==> l.status == NegativeWindow(msgs[1].len - msgs[0].len))
  {
    TwoTotals(msgs);
    var end := Retrying(v, msgs).(status := NegativeWindow(msgs[1].len - msgs[0].len));
    assert Turn(v, msgs, Retrying(v, msgs)) == end;
    hide Turn;
    if n >= 1 { Stays(v, msgs, end, n - 1); }
  }

  /** Message 1 is longer: the token takes the window, then the rest of the message, reports what
      follows, and the next window is negative. */
  lemma {:induction false} LongerSecond(v: Variant, msgs: seq<Msg>, n: nat)
    requires Stuck(v, msgs) && msgs[1].len > msgs[0].len
    ensures Placed(msgs, Retrying(v, msgs).at)
    ensures var l := Turns(v, msgs, Retrying(v, msgs), n);
            l.out == Delivered(v, msgs, 1) && (n >= 3 ==> l.status == NegativeWindow(msgs[0].len - msgs[1].len))
  {
    TwoTotals(msgs);
    var w, out := msgs[1].len - msgs[0].len, Delivered(v, msgs, 1);
    var taken := Loop(Cursor(msgs[1].len, Total(msgs), 1, w, false), out, Running);
    var again := Loop(Cursor(msgs[1].len, msgs[0].len, 1, w, true), out, Running);
    var end := again.(status := NegativeWindow(-w));
    assert Turn(v, msgs, Retrying(v, msgs)) == taken;
    assert Turn(v, msgs, taken) == again;
    assert Turn(v, msgs, again) == end;
    hide Turn;
    if n >= 1 {
      assert Turns(v, msgs, Retrying(v, msgs), n) == Turns(v, msgs, taken, n - 1);
      if n >= 2 {
        assert Turns(v, msgs, taken, n - 1) == Turns(v, msgs, again, n - 2);
        if n >= 3 {
          Stays(v, msgs, end, n - 3);
        }
      }
    }
  }

  /** What becomes of the loop after `n` turns, for every buffer. */
  lemma {:induction false} Fate(v: Variant, msgs: seq<Msg>, n: nat)
    requires NonEmpty(msgs)
    ensures Placed(msgs, Begin(msgs).at)
    ensures var l := Turns(v, msgs, Begin(msgs), n);
            && (Readable(v, msgs) && n > 2 * |msgs| ==> l.status == Finished && l.out == Delivered(v, msgs, |msgs|))
            && (!Readable(v, msgs) ==>
                  var w := msgs[1].len - msgs[0].len;
                  && (w == 0 ==> l.status == Running)
                  && (w != 0 && n >= 6 ==> l.status == NegativeWindow(if w < 0 then w else -w))
                  && (n >= 2 ==> l.out == Delivered(v, msgs, 1)))
  {
    assert msgs[..0] == [] && Begin(msgs) == Ahead(v, msgs, 0);
    if Readable(v, msgs) {
      if n > 2 * |msgs| { ReadsAll(v, msgs, 0, n); }
    } else {
      ReadsOne(v, msgs, 0);
      RetryTurn(v, msgs);
      var l := Turn(v, msgs, Ahead(v, msgs, 0));
      assert l.status == Running;
      hide Turn;
      if n >= 2 {
        assert Turns(v, msgs, Ahead(v, msgs, 0), n) == Turns(v, msgs, l, n - 1)
            == Turns(v, msgs, Ahead(v, msgs, 1), n - 2);
        FateOfSecond(v, msgs, n - 2);
      }
    }
  }

  lemma {:induction false} FateOfSecond(v: Variant, msgs: seq<Msg>, n: nat)
    requires Stuck(v, msgs)
    ensures var l := Turns(v, msgs, Ahead(v, msgs, 1), n);
            var w := msgs[1].len - msgs[0].len;
            && l.out == Delivered(v, msgs, 1) && (w == 0 ==> l.status == Running)
            && (w != 0 && n >= 4 ==> l.status == NegativeWindow(if w < 0 then w else -w))
  {
    RetryTurn(v, msgs);
    hide Turn, Stuck;
    if msgs[1].len == msgs[0].len {
      LoopsForever(v, msgs, n);
    } else if n > 0 {
      if msgs[1].len < msgs[0].len {
        ShorterSecond(v, msgs, n - 1);
      } else {
        LongerSecond(v, msgs, n - 1);
      }
    }
  }

  lemma {:induction false} TurnsAdd(v: Variant, msgs: seq<Msg>, l: Loop, m: nat, n: nat)
    requires NonEmpty(msgs) && Placed(msgs, l.at)
    ensures Turns(v, msgs, l, m + n) == Turns(v, msgs, Turns(v, msgs, l, m), n)
    decreases m
  {
    hide Turn;
    if m > 0 { TurnsAdd(v, msgs, Turn(v, msgs, l), m - 1, n); }
  }

  /** A loop that had finished would stay so. */
  lemma {:induction false} NeverFinished(v: Variant, msgs: seq<Msg>, n: nat)
    requires Stuck(v, msgs)
    ensures Placed(msgs, Begin(msgs).at) && Turns(v, msgs, Begin(msgs), n).status != Finished
  {
    hide Turn, Turns;
    Fate(v, msgs, n + 6);
    TurnsAdd(v, msgs, Begin(msgs), n, 6);
    var l := Turns(v, msgs, Begin(msgs), n);
    if l.status == Finished { Stays(v, msgs, l, 6); }
  }

  /** How many of the first `k` messages are replies. */
  function RepliesAmong(msgs: seq<Msg>, k: nat): nat
    requires k <= |msgs|
  {
    |ReplyIndices(msgs, k)|
  }

  function ReplyIndices(msgs: seq<Msg>, k: nat): set<int>
    requires k <= |msgs|
  {
    set j | 0 <= j < k && msgs[j].reply
  }

  lemma {:induction false} RepliesNext(msgs: seq<Msg>, k: nat)
    requires k < |msgs|
    ensures RepliesAmong(msgs, k + 1) == RepliesAmong(msgs, k) + if msgs[k].reply then 1 else 0
    ensures RepliesAmong(msgs, 0) == 0
  {
    var before := ReplyIndices(msgs, k);
    assert ReplyIndices(msgs, k + 1) == if msgs[k].reply then before + {k} else before;
    assert ReplyIndices(msgs, 0) == {};
  }

  /** Every reply read is delivered once, in order, to the requester with its id; events are not. */
  lemma {:induction false} DeliveredMeaning(v: Variant, msgs: seq<Msg>, k: nat, i: nat)
    requires i < k <= |msgs|
    ensures |Delivered(v, msgs, k)| == RepliesAmong(msgs, k) >= RepliesAmong(msgs, i)
    ensures msgs[i].reply ==>
              var p := RepliesAmong(msgs, i);
              && p < |Delivered(v, msgs, k)| && Delivered(v, msgs, k)[p].id == msgs[i].id
              && Delivered(v, msgs, k)[p].buffer == if v.copy == WholeBuffer then msgs else [msgs[i]]
    decreases k
  {
    RepliesNext(msgs, k - 1);
    DeliveredCount(v, msgs, k - 1);
    if i < k - 1 { DeliveredMeaning(v, msgs, k - 1, i); }
  }

  lemma {:induction false} DeliveredCount(v: Variant, msgs: seq<Msg>, k: nat)
    requires k <= |msgs|
    ensures |Delivered(v, msgs, k)| == RepliesAmong(msgs, k)
    decreases k
  {
    if k > 0 {
      DeliveredCount(v, msgs, k - 1);
      RepliesNext(msgs, k - 1);
    } else {
      assert ReplyIndices(msgs, 0) == {};
    }
  }

  // ---------- who gets its own reply ----------

  /** The requester parses the first message of the buffer it was handed. */
  function Obtained(d: Delivery): (m: Msg)
    requires d.buffer != []
  {
    d.buffer[0]
  }

  predicate GetsOwn(d: Delivery) { d.buffer != [] && Obtained(d).reply && Obtained(d).id == d.id }

  /** Every requester that was served obtains the reply to its own request. */
  ghost predicate OwnReplies(out: seq<Delivery>) { forall j :: 0 <= j < |out| ==> GetsOwn(out[j]) }

  /** No two replies in the buffer answer the same request. */
  ghost predicate DistinctReplies(msgs: seq<Msg>) {
    forall i, j :: 0 <= i < j < |msgs| && msgs[i].reply && msgs[j].reply ==> msgs[i].id != msgs[j].id
  }

  /** Among the first `k` messages no reply stands behind another message. */
  ghost predicate NoReplyBehind(msgs: seq<Msg>, k: nat)
    requires k <= |msgs|
  {
    forall j :: 0 < j < k ==> !msgs[j].reply
  }

  lemma {:induction false} OwnSplit(a: seq<Delivery>, b: seq<Delivery>)
    ensures OwnReplies(a + b) <==> OwnReplies(a) && OwnReplies(b)
  {
    assert forall j :: 0 <= j < |a| ==> (a + b)[j] == a[j];
    assert forall j :: 0 <= j < |b| ==> (a + b)[|a| + j] == b[j];
  }

  /** Whole buffers give everyone its own reply exactly when all replies read are the first message. */
  lemma {:induction false} OwnIffFirst(v: Variant, msgs: seq<Msg>, k: nat)
    requires k <= |msgs| && v.copy == WholeBuffer
    ensures OwnReplies(Delivered(v, msgs, k)) <==>
              forall j :: 0 <= j < k && msgs[j].reply ==> msgs[0].reply && msgs[0].id == msgs[j].id
    decreases k
  {
    if k > 0 {
      OwnIffFirst(v, msgs, k - 1);
      OwnSplit(Delivered(v, msgs, k - 1), Served(v, msgs, k - 1));
      var d := Delivery(msgs[k - 1].id, msgs);
      assert OwnReplies(Served(v, msgs, k - 1)) <==> (msgs[k - 1].reply ==> GetsOwn(d)) by {
        assert msgs[k - 1].reply ==> Served(v, msgs, k - 1)[0] == d;
      }
      hide OwnReplies, Served;
    }
  }

  /** Copies of single messages always do. */
  lemma {:induction false} OwnCopies(v: Variant, msgs: seq<Msg>, k: nat)
    requires k <= |msgs| && v.copy == OwnMessage
    ensures OwnReplies(Delivered(v, msgs, k))
    decreases k
  {
    if k > 0 {
      OwnCopies(v, msgs, k - 1);
      OwnSplit(Delivered(v, msgs, k - 1), Served(v, msgs, k - 1));
    }
  }

  /** With distinct ids: exactly when no reply was read behind another message. */
  lemma {:induction false} OwnReplyIff(v: Variant, msgs: seq<Msg>, k: nat)
    requires k <= |msgs| && DistinctReplies(msgs)
    ensures OwnReplies(Delivered(v, msgs, k)) <==> v.copy == OwnMessage || NoReplyBehind(msgs, k)
  {
    hide OwnReplies, Delivered;
    if v.copy == OwnMessage {
      OwnCopies(v, msgs, k);
    } else {
      OwnIffFirst(v, msgs, k);
    }
  }

  /** Over the result of the loop: the condition speaks of the buffer alone. */
  lemma {:induction false} WhoGetsItsOwn(v: Variant, msgs: seq<Msg>, out: seq<Delivery>)
    requires DistinctReplies(msgs)
    requires Readable(v, msgs) ==> out == Delivered(v, msgs, |msgs|)
    requires !Readable(v, msgs) ==> out == Delivered(v, msgs, 1)
    ensures OwnReplies(out) <==> v.copy == OwnMessage || !Readable(v, msgs) || NoReplyBehind(msgs, |msgs|)
  {
    hide OwnReplies, Delivered;
    OwnReplyIff(v, msgs, if Readable(v, msgs) then |msgs| else 1);
  }

  /** Two glued replies: the second requester obtains the reply to the first one's request. */
  lemma {:induction false} SecondGetsFirst(tok: Tokenizer, retry: RetryEnd, first: Msg, second: Msg, turns: nat)
    requires first.reply && second.reply && first.id != second.id && first.len > 0 && second.len > 0 && turns > 4
    ensures var v, msgs := Variant(tok, retry, WholeBuffer), [first, second];
            && Placed(msgs, Begin(msgs).at)
            && var l := Turns(v, msgs, Begin(msgs), turns);
               && l.status == Finished && |l.out| == 2
               && l.out[1].id == second.id && l.out[1].buffer != [] && Obtained(l.out[1]) == first
  {
    var v, msgs := Variant(tok, retry, WholeBuffer), [first, second];
    Fate(v, msgs, turns);
    hide Turns;
    assert Delivered(v, msgs, 0) == [] && Delivered(v, msgs, 1) == Served(v, msgs, 0);
    assert Delivered(v, msgs, 2) == Served(v, msgs, 0) + Served(v, msgs, 1);
  }
}
