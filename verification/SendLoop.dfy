/** `json_rpc_client_send_data` and `json_rpc_server_send_data`, which share one loop. */
module SendLoop {
  import opened Common

  /** What the k-th `send` answers when it is offered `n` bytes. */
  type Sender = (nat, nat) -> int

  /** A blocking `send` fails or takes some of the bytes it is offered. */
  ghost predicate SendContract(send: Sender) {
    forall k: nat, n: nat :: n > 0 ==> send(k, n) == RETURN_ERR || 1 <= send(k, n) <= n
  }

  datatype Guard = AsWritten | WhileLeft

  predicate Continues(guard: Guard, sent: nat, left: nat) {
    match guard
    case AsWritten => sent < left
    case WhileLeft => left > 0
  }

  datatype Outcome = Outcome(rc: int, sent: nat)

  /** The loop from its k-th round on. `WhileLeft` is the guard the interface comment calls for. */
  function Sending(guard: Guard, send: Sender, k: nat, sent: nat, left: nat): (o: Outcome)
    decreases left
  {
    if !Continues(guard, sent, left) then Outcome(RETURN_OK, sent)
    else
      var ret := send(k, left);
      if ret == RETURN_ERR || ret < 1 || ret > left then Outcome(RETURN_ERR, sent)
      else Sending(guard, send, k + 1, sent + ret, left - ret)
  }

  /** The loop as written. The bytes handed to the socket are a prefix of the message, in order
      and without duplicates. */
  method SendData(buffer: string, send: Sender) returns (rc: int, wire: string)
    requires SendContract(send)
    ensures wire <= buffer
    ensures Outcome(rc, |wire|) == Sending(AsWritten, send, 0, 0, |buffer|)
    ensures rc == RETURN_OK ==> |wire| >= |buffer| - |wire|
    ensures rc == RETURN_OK || (rc == RETURN_ERR && |wire| < |buffer| - |wire|)
    ensures rc == RETURN_ERR ==> exists j: nat, m: nat :: 0 < m <= |buffer| && send(j, m) == RETURN_ERR
  {
    var sent, left, k := 0, |buffer|, 0;
    wire := "";
    while sent < left
      invariant 0 <= left && sent + left == |buffer| && wire == buffer[..sent]
      invariant Sending(AsWritten, send, k, sent, left) == Sending(AsWritten, send, 0, 0, |buffer|)
      decreases left
    {
      assert left > 0;
      var ret := send(k, left);
      if ret == RETURN_ERR {
        return RETURN_ERR, wire;
      }
      wire := wire + buffer[sent..sent + ret];
      sent, left, k := sent + ret, left - ret, k + 1;
    }
    rc := RETURN_OK;
  }

  /** With the guard the interface comment calls for, OK means the whole message went out. */
  lemma {:induction false} WhileLeftSendsAll(send: Sender, k: nat, sent: nat, left: nat)
    requires SendContract(send)
    ensures var o := Sending(WhileLeft, send, k, sent, left);
            (o.rc == RETURN_OK ==> o.sent == sent + left) && (o.rc == RETURN_OK || o.rc == RETURN_ERR)
    decreases left
  {
    if left > 0 && send(k, left) != RETURN_ERR {
      WhileLeftSendsAll(send, k + 1, sent + send(k, left), left - send(k, left));
    }
  }

  /** A socket that always takes everything makes the loop as written send everything, too. */
  lemma {:induction false} AllAtOnce(send: Sender, n: nat)
    requires forall k: nat, m: nat :: send(k, m) == m
    ensures Sending(AsWritten, send, 0, 0, n) == Outcome(RETURN_OK, n)
  {
    if n > 0 {
      assert send(0, n) == n;
      assert Sending(AsWritten, send, 0, 0, n) == Sending(AsWritten, send, 1, n, 0);
    }
  }

  /** OK delivers the whole message of `n` bytes, whatever the socket does. */
  ghost predicate AlwaysWhole(guard: Guard, n: nat) {
    forall send: Sender :: SendContract(send) ==>
      var o := Sending(guard, send, 0, 0, n);
      o.rc == RETURN_OK ==> o.sent == n
  }

  /** A socket that takes the larger half of what it is offered. */
  function LargerHalf(k: nat, n: nat): int { n - n / 2 }

  /** The documented promise holds of the loop as written for messages of at most one byte,
      and for every longer message some socket breaks it. */
  lemma {:induction false} WholeMessageIff(n: nat)
    ensures AlwaysWhole(AsWritten, n) <==> n <= 1
    ensures AlwaysWhole(WhileLeft, n)
  {
    forall send: Sender | SendContract(send)
      ensures var o := Sending(WhileLeft, send, 0, 0, n); o.rc == RETURN_OK ==> o.sent == n
    {
      WhileLeftSendsAll(send, 0, 0, n);
    }
    if n <= 1 {
      forall send: Sender | SendContract(send)
        ensures var o := Sending(AsWritten, send, 0, 0, n); o.rc == RETURN_OK ==> o.sent == n
      {
        ShortMessage(send, n);
      }
    } else {
      assert SendContract(LargerHalf);
      HalfSent(n);
    }
  }

  lemma {:induction false} ShortMessage(send: Sender, n: nat)
    requires SendContract(send) && n <= 1
    ensures var o := Sending(AsWritten, send, 0, 0, n); o.rc == RETURN_OK ==> o.sent == n
  {
    if n == 1 && send(0, 1) != RETURN_ERR {
      assert send(0, 1) == 1;
      assert Sending(AsWritten, send, 0, 0, 1) == Sending(AsWritten, send, 1, 1, 0);
    }
  }

  /** The message is cut in half, and the caller is told that all is well. */
  lemma {:induction false} HalfSent(n: nat)
    requires n >= 2
    ensures Sending(AsWritten, LargerHalf, 0, 0, n) == Outcome(RETURN_OK, n - n / 2)
  {
    var h := n - n / 2;
    assert LargerHalf(0, n) == h;
    assert Sending(AsWritten, LargerHalf, 0, 0, n) == Sending(AsWritten, LargerHalf, 1, h, n - h);
  }

  /** An error is reported only when a send fails, and then at once. */
  lemma {:induction false} ErrorMeansFailure(guard: Guard, send: Sender, k: nat, sent: nat, left: nat)
    requires SendContract(send)
    ensures var o := Sending(guard, send, k, sent, left);
            o.rc != RETURN_OK ==>
              o.rc == RETURN_ERR && exists j: nat, m: nat :: 0 < m <= left && send(j, m) == RETURN_ERR
    ensures Continues(guard, sent, left) && left > 0 && send(k, left) == RETURN_ERR ==>
              Sending(guard, send, k, sent, left) == Outcome(RETURN_ERR, sent)
    decreases left
  {
    if Continues(guard, sent, left) && send(k, left) != RETURN_ERR {
      ErrorMeansFailure(guard, send, k + 1, sent + send(k, left), left - send(k, left));
    }
  }
}
