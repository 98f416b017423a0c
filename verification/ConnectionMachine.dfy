/** The client's socket thread: `rpc_client_handler` with the callbacks of `json_hal_client.c`. */
module ConnectionMachine {

  const INVALID_SOCKFD := -1

  datatype Stage = Init | Connect | Receive

  datatype Connecting = Succeeds | Fatal | Retry   // Fatal: EBADF, EISCONN or EADDRNOTAVAIL
  datatype Polling = SelectFails | TimesOut | NotReady | RecvFails | PeerClosed | Data

  /** What the environment answers in one round: whether the running flag is still set, and the
      results of the system calls that the round may make. */
  datatype Round = Round(running: bool, socket: int, connect: Connecting, poll: Polling)

  datatype Event = Opened(fd: int) | Closed(fd: int) | ConnectedCb(fd: int) | DisconnectedCb(fd: int) | ParseCb(fd: int)

  datatype Exit = Running | Normal | NoSocket

  class ClientThread {
    var stage: Stage
    var sock: int
    var connected: bool          // g_connected, set by the two connection callbacks
    var log: seq<Event>          // sockets opened and closed, callbacks made
    var idles: nat               // calls of the idle callback, which runs a tracking pass
    var exit: Exit

    /** Holds at every loop head. */
    ghost predicate Valid()
      reads this
    {
      && (sock == INVALID_SOCKFD <==> stage == Init) && (sock == INVALID_SOCKFD || sock >= 0)
      && (connected <==> stage == Receive)
      && exit == Running
      && After(log) == match stage case Init => Idle case Connect => Open(sock) case Receive => Live(sock)
    }

    constructor ()
      ensures Valid() && log == [] && stage == Init && idles == 0
    {
      stage, sock, connected, log, idles, exit := Init, INVALID_SOCKFD, false, [], 0, Running;
    }

    /** One round of the loop: the switch, and then the idle callback. */
    method Step(round: Round)
      requires Valid() && (round.socket == -1 || round.socket >= 0)
      modifies this
      ensures exit != Normal && (exit == NoSocket <==> old(stage) == Init && round.socket == -1)
      ensures exit == Running ==> Valid() && idles == old(idles) + 1
      ensures exit == Running ==> log == old(log) + Effect(old(stage), old(sock), round)
      ensures exit == Running ==> stage == NextStage(old(stage), round)
      ensures exit == Running ==> RoundLogged(old(log), round, log)
      ensures exit == NoSocket ==> log == old(log) && !connected && idles == old(idles)
    {
      match stage {
      case Init =>
        StepInit(round);
        if exit == NoSocket {
          return;
        }
      case Connect =>
        StepConnect(round);
      case Receive =>
        StepReceive(round);
      }
      idles := idles + 1;
    }

    method StepInit(round: Round)
      requires Valid() && stage == Init && (round.socket == -1 || round.socket >= 0)
      modifies this`sock, this`log, this`stage, this`exit
      ensures exit == (if round.socket == -1 then NoSocket else Running)
      ensures exit == NoSocket ==> log == old(log)
      ensures exit == Running ==> Valid() && stage == Connect && log == old(log) + [Opened(round.socket)]
    {
      hide After;
      sock := round.socket;
      if sock == -1 {
        exit := NoSocket;
        return;
      }
      Record(Opened(sock));
      stage := Connect;
    }

    method StepConnect(round: Round)
      requires Valid() && stage == Connect
      modifies this`sock, this`log, this`stage, this`connected
      ensures Valid() && stage == NextStage(Connect, round) && log == old(log) + Effect(Connect, old(sock), round)
    {
      hide After;
      if round.connect != Succeeds {
        if round.connect == Fatal {
          Record(Closed(sock));
          sock := INVALID_SOCKFD;
          stage := Init;
        }
      } else {
        Record(ConnectedCb(sock));
        connected := true;
        stage := Receive;
      }
    }

    method StepReceive(round: Round)
      requires Valid() && stage == Receive
      modifies this`sock, this`log, this`stage, this`connected
      ensures Valid() && stage == NextStage(Receive, round) && log == old(log) + Effect(Receive, old(sock), round)
    {
      hide After;
      if round.poll == PeerClosed {
        Record(DisconnectedCb(sock));
        connected := false;
        Record(Closed(sock));
        sock := INVALID_SOCKFD;
        stage := Init;
      } else if round.poll == Data {
        Record(ParseCb(sock));
      }
    }

    method Record(e: Event)
      modifies this`log
      ensures log == old(log) + [e] && After(log) == Next(old(After(log)), e)
    {
      log := log + [e];
      assert log[..|log| - 1] == old(log);
    }

    /** The whole thread, for any finite history of rounds. */
    method Run(rounds: seq<Round>) returns (ghost heads: seq<nat>)
      requires Valid() && log == [] && idles == 0
      requires forall i :: 0 <= i < |rounds| ==> rounds[i].socket == -1 || rounds[i].socket >= 0
      modifies this
      ensures exit == Running ==> Valid() && idles == |rounds|
      ensures exit == Normal ==> exists i :: 0 <= i < |rounds| && !rounds[i].running && idles == i
      ensures After(log) != Broken && Alternates(Callbacks(log))
      ensures exit != Running ==> Opens(log) == Closes(log)
      ensures idles <= |rounds| && Logged(log, heads, rounds, idles)
      ensures Parses(log) == |DataRounds(log, heads, rounds, idles)|
    {
      var i := 0;
      heads := [0];
      ghost var seen := log;
      while i < |rounds|
        invariant 0 <= i <= |rounds| && idles == i && Valid()
        invariant Logged(log, heads, rounds, i) && heads[i] == |log| && seen == log
      {
        ghost var before := log;
        if !rounds[i].running {
          if sock != INVALID_SOCKFD {
            Record(Closed(sock));
            LoggedLonger(before, log, heads, rounds, i);
            ParsesSnoc(before, Closed(sock));
          }
          sock := INVALID_SOCKFD;
          exit := Normal;
          break;
        }
        Step(rounds[i]);
        if exit == NoSocket {
          break;
        }
        LoggedStep(before, log, heads, rounds, i);
        heads, seen := heads + [|log|], log;
        i := i + 1;
      }
      assert heads[..idles + 1] == heads && log[..heads[idles]] == seen;
      ParsesCounted(log, heads, rounds, idles);
      OpenedSocketsClosed(log);
      CallbacksAlternate(log);
    }
  }

  /** What a round adds to the log. */
  function Effect(stage: Stage, sock: int, round: Round): seq<Event> {
    match stage
    case Init => [Opened(round.socket)]
    case Connect =>
      (match round.connect case Succeeds => [ConnectedCb(sock)] case Fatal => [Closed(sock)] case Retry => [])
    case Receive =>
      if round.poll == PeerClosed then [DisconnectedCb(sock), Closed(sock)]
      else if round.poll == Data then [ParseCb(sock)]
      else []
  }

  function NextStage(stage: Stage, round: Round): Stage {
    match stage
    case Init => Connect
    case Connect => (match round.connect case Succeeds => Receive case Fatal => Init case Retry => Connect)
    case Receive => if round.poll == PeerClosed then Init else Receive
  }

  // ---------- the protocol a log must follow ----------

  datatype Phase = Idle | Open(fd: int) | Live(fd: int) | Ending(fd: int) | Finished | Broken

  /** A socket is opened, may come alive with a connected callback, may end with a disconnected
      one, and is closed. A live socket may be closed without a callback only as the very last
      event. Anything else breaks the protocol. */
  function Next(p: Phase, e: Event): Phase {
    match (p, e)
    case (Idle, Opened(fd)) => Open(fd)
    case (Open(s), ConnectedCb(fd)) => if fd == s then Live(s) else Broken
    case (Open(s), Closed(fd)) => if fd == s then Idle else Broken
    case (Live(s), ParseCb(fd)) => if fd == s then p else Broken
    case (Live(s), DisconnectedCb(fd)) => if fd == s then Ending(s) else Broken
    case (Live(s), Closed(fd)) => if fd == s then Finished else Broken
    case (Ending(s), Closed(fd)) => if fd == s then Idle else Broken
    case _ => Broken
  }

  function After(log: seq<Event>): Phase {
    if log == [] then Idle else Next(After(log[..|log| - 1]), log[|log| - 1])
  }

  function Opens(log: seq<Event>): nat {
    if log == [] then 0 else Opens(log[..|log| - 1]) + if log[|log| - 1].Opened? then 1 else 0
  }

  function Closes(log: seq<Event>): nat {
    if log == [] then 0 else Closes(log[..|log| - 1]) + if log[|log| - 1].Closed? then 1 else 0
  }

  /** Every opened socket is closed exactly once: opens and closes alternate, and they are
      equal in number exactly when no socket is open. */
  lemma {:induction false} OpenedSocketsClosed(log: seq<Event>)
    requires After(log) != Broken
    ensures Opens(log) == Closes(log) + if After(log).Idle? || After(log).Finished? then 0 else 1
    decreases |log|
  {
    if log != [] { OpenedSocketsClosed(log[..|log| - 1]); }
  }

  /** The connection callbacks of a log, true for connected. */
  function Callbacks(log: seq<Event>): (r: seq<bool>) {
    if log == [] then []
    else
      var front := Callbacks(log[..|log| - 1]);
      match log[|log| - 1]
      case ConnectedCb(_) => front + [true]
      case DisconnectedCb(_) => front + [false]
      case _ => front
  }

  /** Strict alternation, starting with connected. */
  ghost predicate Alternates(calls: seq<bool>) {
    forall i :: 0 <= i < |calls| ==> calls[i] == (i % 2 == 0)
  }

  lemma {:induction false} CallbacksAlternate(log: seq<Event>)
    requires After(log) != Broken
    ensures Alternates(Callbacks(log))
    ensures |Callbacks(log)| % 2 == if After(log).Live? || After(log).Finished? then 1 else 0
    decreases |log|
  {
    if log != [] { CallbacksAlternate(log[..|log| - 1]); }
  }

  // ---------- what each round logs ----------

  /** The calls of one round, by where the log stands: a socket is opened when there is none, one
      that is open is connected, and on a live one every buffer received goes to the parser once. */
  ghost predicate RoundLogged(before: seq<Event>, round: Round, after: seq<Event>) {
    match After(before)
    case Idle => after == before + [Opened(round.socket)]
    case Open(fd) =>
      && (round.connect == Succeeds ==> after == before + [ConnectedCb(fd)])
      && (round.connect == Fatal ==> after == before + [Closed(fd)])
      && (round.connect == Retry ==> after == before)
    case Live(fd) =>
      && (round.poll == Data ==> after == before + [ParseCb(fd)])
      && (round.poll == PeerClosed ==> after == before + [DisconnectedCb(fd), Closed(fd)])
      && (round.poll != Data && round.poll != PeerClosed ==> after == before)
    case _ => false
  }

  /** `heads[k]` is the length of the log when round `k` begins. */
  ghost predicate Logged(log: seq<Event>, heads: seq<nat>, rounds: seq<Round>, n: nat) {
    && n <= |rounds| && |heads| == n + 1 && heads[0] == 0 && (forall k :: 0 <= k <= n ==> heads[k] <= |log|)
    && (forall k :: 0 <= k < n ==> RoundLogged(log[..heads[k]], rounds[k], log[..heads[k + 1]]))
  }

  lemma {:induction false} LoggedLonger(log: seq<Event>, log': seq<Event>, heads: seq<nat>, rounds: seq<Round>, n: nat)
    requires Logged(log, heads, rounds, n) && log <= log'
    ensures Logged(log', heads, rounds, n)
  {
    hide RoundLogged;
    forall k | 0 <= k < n ensures RoundLogged(log'[..heads[k]], rounds[k], log'[..heads[k + 1]]) {
      assert log'[..heads[k]] == log[..heads[k]] && log'[..heads[k + 1]] == log[..heads[k + 1]];
    }
  }

  lemma {:induction false} LoggedStep(log: seq<Event>, log': seq<Event>, heads: seq<nat>, rounds: seq<Round>, n: nat)
    requires Logged(log, heads, rounds, n) && n < |rounds| && heads[n] == |log| && log <= log'
    requires RoundLogged(log, rounds[n], log')
    ensures Logged(log', heads + [|log'|], rounds, n + 1)
  {
    LoggedLonger(log, log', heads, rounds, n);
    hide RoundLogged;
    assert log'[..|log|] == log && log'[..|log'|] == log';
  }

  function Parses(log: seq<Event>): nat {
    if log == [] then 0 else Parses(log[..|log| - 1]) + if log[|log| - 1].ParseCb? then 1 else 0
  }

  lemma {:induction false} ParsesSnoc(log: seq<Event>, e: Event)
    ensures Parses(log + [e]) == Parses(log) + if e.ParseCb? then 1 else 0
  {
    assert (log + [e])[..|log|] == log;
  }

  /** The rounds among the first `n` in which data arrived on a live connection. */
  ghost function DataRounds(log: seq<Event>, heads: seq<nat>, rounds: seq<Round>, n: nat): set<int>
    requires n <= |rounds| && n < |heads| && forall k :: 0 <= k <= n ==> heads[k] <= |log|
  {
    set k | 0 <= k < n && After(log[..heads[k]]).Live? && rounds[k].poll == Data
  }

  lemma {:induction false} RoundParses(before: seq<Event>, round: Round, after: seq<Event>)
    requires RoundLogged(before, round, after)
    ensures Parses(after) == Parses(before) + if After(before).Live? && round.poll == Data then 1 else 0
  {
    if After(before).Live? && round.poll == PeerClosed {
      var fd := After(before).fd;
      ParsesSnoc(before, DisconnectedCb(fd));
      ParsesSnoc(before + [DisconnectedCb(fd)], Closed(fd));
      assert after == before + [DisconnectedCb(fd)] + [Closed(fd)];
    } else if after != before {
      ParsesSnoc(before, after[|before|]);
      assert after == before + [after[|before|]];
    }
  }

  /** The parser is called once for every such round, and for nothing else. */
  lemma {:induction false} ParsesCounted(log: seq<Event>, heads: seq<nat>, rounds: seq<Round>, n: nat)
    requires n <= |rounds| && n < |heads| && Logged(log, heads[..n + 1], rounds, n)
    ensures (forall k :: 0 <= k <= n ==> heads[k] <= |log|)
    ensures Parses(log[..heads[n]]) == |DataRounds(log, heads, rounds, n)|
    decreases n
  {
    var hs := heads[..n + 1];
    assert forall k :: 0 <= k <= n ==> heads[k] == hs[k] <= |log|;
    if n == 0 {
      assert DataRounds(log, heads, rounds, 0) == {};
    } else {
      var before, after := log[..heads[n - 1]], log[..heads[n]];
      assert RoundLogged(log[..hs[n - 1]], rounds[n - 1], log[..hs[n]]);
      assert heads[..n] == hs[..n];
      LoggedShorter(log, hs, rounds, n);
      ParsesCounted(log, heads, rounds, n - 1);
      RoundParses(before, rounds[n - 1], after);
      hide RoundLogged, Logged, Parses, After, DataRounds;
      DataRoundsNext(log, heads, rounds, n - 1);
    }
  }

  lemma {:induction false} DataRoundsNext(log: seq<Event>, heads: seq<nat>, rounds: seq<Round>, n: nat)
    requires n < |rounds| && n + 1 < |heads| && forall k :: 0 <= k <= n + 1 ==> heads[k] <= |log|
    ensures |DataRounds(log, heads, rounds, n + 1)| == |DataRounds(log, heads, rounds, n)|
            + if After(log[..heads[n]]).Live? && rounds[n].poll == Data then 1 else 0
  {
    hide After;
    var live := After(log[..heads[n]]).Live? && rounds[n].poll == Data;
    var sofar := DataRounds(log, heads, rounds, n);
    assert DataRounds(log, heads, rounds, n + 1) == if live then sofar + {n} else sofar;
  }

  lemma {:induction false} LoggedShorter(log: seq<Event>, heads: seq<nat>, rounds: seq<Round>, n: nat)
    requires n > 0 && Logged(log, heads, rounds, n)
    ensures Logged(log, heads[..n], rounds, n - 1)
  {
    hide RoundLogged;
    var hs := heads[..n];
    forall k | 0 <= k < n - 1 ensures RoundLogged(log[..hs[k]], rounds[k], log[..hs[k + 1]]) {
      assert hs[k] == heads[k] && hs[k + 1] == heads[k + 1];
    }
  }
}
