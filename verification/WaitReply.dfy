/** `wait_publish_event_reply`: the poll loop of a synchronous publish. */
module WaitReply {
  import opened Common
  import opened Events

  const SEND_EVENT_SUBSCRIPTION_TIMEOUT := 10

  /** One list element as a scan finds it, with the clock (in seconds) read at that moment. */
  datatype Seen = Seen(sub: Sub, now: int)

  predicate Relevant(o: Seen, name: string) { Matches(o.sub, name) && Synchronous(o.sub) }

  predicate Waiting(o: Seen, name: string) { Relevant(o, name) && o.sub.status.WaitReply? }

  predicate Overdue(o: Seen, start: int) {
    o.sub.ntype.OnChangeSyncTimeout? && o.now - start > SEND_EVENT_SUBSCRIPTION_TIMEOUT
  }

  /** The scan ends the wait: whoever is still waiting is of the timeout type and overdue. */
  ghost predicate Ends(scan: seq<Seen>, name: string, start: int) {
    forall i :: 0 <= i < |scan| && Waiting(scan[i], name) ==> Overdue(scan[i], start)
  }

  ghost predicate SomeWaiting(scan: seq<Seen>, name: string) {
    exists i :: 0 <= i < |scan| && Waiting(scan[i], name)
  }

  predicate Failed(o: Seen, name: string) {
    Relevant(o, name) && !o.sub.status.WaitReply? && !o.sub.status.ReplySuccess?
  }

  /** A synchronous subscriber of the event is neither waiting nor successful. */
  ghost predicate SomeFailed(scan: seq<Seen>, name: string) {
    exists i :: 0 <= i < |scan| && Failed(scan[i], name)
  }

  /** One walk over the list, with the mutex held. */
  method Scan(name: string, start: int, scan: seq<Seen>) returns (waiting: bool, timeout: bool, failed: bool)
    ensures waiting <==> SomeWaiting(scan, name)
    ensures timeout <==> Ends(scan, name, start)
    ensures failed <==> SomeFailed(scan, name)
  {
    waiting, timeout, failed := false, true, false;
    for i := 0 to |scan|
      invariant waiting <==> SomeWaiting(scan[..i], name)
      invariant timeout <==> Ends(scan[..i], name, start)
      invariant failed <==> SomeFailed(scan[..i], name)
    {
      var sub := scan[i].sub;
      if name <= sub.event {
        if sub.ntype.OnChangeSyncTimeout? || sub.ntype.OnChangeSync? {
          if sub.status.WaitReply? {
            waiting := true;
            if sub.ntype.OnChangeSync? {
              timeout := false;
            } else {
              if scan[i].now - start <= SEND_EVENT_SUBSCRIPTION_TIMEOUT {
                timeout := false;
              }
            }
          } else if !sub.status.ReplySuccess? {
            failed := true;
          }
        }
      }
      LastOne(scan, i, name, start);
    }
    assert scan[..|scan|] == scan;
  }

  lemma {:induction false} LastOne(scan: seq<Seen>, i: nat, name: string, start: int)
    requires i < |scan|
    ensures SomeWaiting(scan[..i + 1], name) <==> SomeWaiting(scan[..i], name) || Waiting(scan[i], name)
    ensures Ends(scan[..i + 1], name, start) <==>
              Ends(scan[..i], name, start) && (Waiting(scan[i], name) ==> Overdue(scan[i], start))
    ensures SomeFailed(scan[..i + 1], name) <==>
              SomeFailed(scan[..i], name) || Failed(scan[i], name)
  {
    var a, b := scan[..i], scan[..i + 1];
    assert b[i] == scan[i] && forall j :: 0 <= j < i ==> b[j] == a[j];
    if SomeWaiting(a, name) {
      var j :| 0 <= j < |a| && Waiting(a[j], name);
      assert Waiting(b[j], name);
    }
    if SomeFailed(a, name) {
      var j :| 0 <= j < |a| && Failed(a[j], name);
      assert Failed(b[j], name);
    }
  }

  /** The three flags in the fields of the list: a synchronous subscriber of the event keeps the wait
      going as long as it waits and either has no timeout or fewer than eleven full seconds have
      passed. */
  lemma {:induction false} ScanMeaning(scan: seq<Seen>, name: string, start: int)
    ensures !Ends(scan, name, start) <==>
              exists i ::
                && 0 <= i < |scan| && name <= scan[i].sub.event && scan[i].sub.status == WaitReply
                && (scan[i].sub.ntype == OnChangeSync
                    || (scan[i].sub.ntype == OnChangeSyncTimeout && scan[i].now < start + 11))
    ensures SomeWaiting(scan, name) <==>
              exists i ::
                && 0 <= i < |scan| && name <= scan[i].sub.event && scan[i].sub.status == WaitReply
                && (scan[i].sub.ntype == OnChangeSync || scan[i].sub.ntype == OnChangeSyncTimeout)
    ensures SomeFailed(scan, name) <==>
              exists i ::
                && 0 <= i < |scan| && name <= scan[i].sub.event
                && (scan[i].sub.status == NoEvent || scan[i].sub.status == ReplyError)
                && (scan[i].sub.ntype == OnChangeSync || scan[i].sub.ntype == OnChangeSyncTimeout)
  {
    if !Ends(scan, name, start) {
      var i :| 0 <= i < |scan| && Waiting(scan[i], name) && !Overdue(scan[i], start);
      assert name <= scan[i].sub.event;
    }
    if SomeWaiting(scan, name) {
      var i :| 0 <= i < |scan| && Waiting(scan[i], name);
      assert name <= scan[i].sub.event;
    }
    if SomeFailed(scan, name) {
      var i :| 0 <= i < |scan| && Failed(scan[i], name);
      assert name <= scan[i].sub.event;
    }
  }

  /** The loop over a history of scans. It leaves at the first scan that ends the wait, and it
      returns OK exactly when nobody was waiting at that scan and no scan up to it saw a
      synchronous subscriber that had neither succeeded nor was waiting. */
  method WaitForReplies(name: string, start: int, history: seq<seq<Seen>>) returns (left: bool, scans: nat, ret: int)
    ensures scans <= |history|
    ensures left <==> scans > 0 && Ends(history[scans - 1], name, start)
    ensures forall k :: 0 <= k < scans - 1 ==> !Ends(history[k], name, start)
    ensures !left ==> scans == |history|
    ensures ret == RETURN_OK || ret == RETURN_ERR
    ensures left <==> exists k :: 0 <= k < |history| && Ends(history[k], name, start)
    ensures left ==> (ret == RETURN_OK <==> !SomeWaiting(history[scans - 1], name)
                                            && forall k :: 0 <= k < scans ==> !SomeFailed(history[k], name))
  {
    ret, scans, left := RETURN_OK, 0, false;
    var waiting, timeout := true, false;
    while waiting && !timeout && scans < |history|
      invariant scans <= |history|
      invariant scans == 0 ==> waiting && !timeout
      invariant scans > 0 ==> (waiting <==> SomeWaiting(history[scans - 1], name))
      invariant scans > 0 ==> (timeout <==> Ends(history[scans - 1], name, start))
      invariant forall k :: 0 <= k < scans - 1 ==> !Ends(history[k], name, start)
      invariant ret == RETURN_OK <==> forall k :: 0 <= k < scans ==> !SomeFailed(history[k], name)
      invariant ret == RETURN_OK || ret == RETURN_ERR
      decreases |history| - scans
    {
      var failed;
      waiting, timeout, failed := Scan(name, start, history[scans]);
      if failed {
        ret := RETURN_ERR;
      }
      scans := scans + 1;
    }
    left := !(waiting && !timeout);
    if waiting && timeout {
      ret := RETURN_ERR;
    }
  }

  // ---------- when the wait ends ----------

  /** Readings of a monotone clock: within a scan, and from scan to scan, they never go back. */
  ghost predicate Monotone(history: seq<seq<Seen>>) {
    && (forall k, i, j :: 0 <= k < |history| && 0 <= i < j < |history[k]| ==> history[k][i].now <= history[k][j].now)
    && (forall k, l, i, j :: 0 <= k < l < |history| && 0 <= i < |history[k]| && 0 <= j < |history[l]|
          ==> history[k][i].now <= history[l][j].now)
  }

  /** Everyone who still waits has a timeout. */
  ghost predicate OnlyTimeouts(scan: seq<Seen>, name: string) {
    forall i :: 0 <= i < |scan| && Waiting(scan[i], name) ==> scan[i].sub.ntype.OnChangeSyncTimeout?
  }

  /** Before element `i` of scan `k` the clock has been read past the limit, in this scan or an
      earlier one. */
  ghost predicate PastLimit(history: seq<seq<Seen>>, k: nat, i: nat, start: int) {
    exists l, m :: 0 <= l <= k < |history| && 0 <= m < |history[l]| && (l == k ==> m <= i)
                   && history[l][m].now - start > SEND_EVENT_SUBSCRIPTION_TIMEOUT
  }

  /** Once the clock is past the limit, a scan ends the wait exactly when everyone who still waits
      has a timeout: a subscriber without one that never answers keeps the publisher for good. */
  lemma {:induction false} EndsAfterLimit(history: seq<seq<Seen>>, name: string, start: int, k: nat, first: nat)
    requires Monotone(history) && k < |history| && first <= |history[k]|
    requires forall i :: 0 <= i < first ==> !Waiting(history[k][i], name)
    requires PastLimit(history, k, first, start)
    ensures Ends(history[k], name, start) <==> OnlyTimeouts(history[k], name)
  {
    var l, m :| 0 <= l <= k && 0 <= m < |history[l]| && (l == k ==> m <= first)
                && history[l][m].now - start > SEND_EVENT_SUBSCRIPTION_TIMEOUT;
    forall i | first <= i < |history[k]| ensures history[k][i].now >= history[l][m].now {
    }
  }

  // ---------- the wait as a part of publishing ----------

  /** The wait ends at scan `n`, with somebody overdue or after a failed answer. */
  ghost predicate FailsAt(name: string, start: int, history: seq<seq<Seen>>, n: int) {
    && 0 <= n < |history| && Ends(history[n], name, start)
    && (forall k :: 0 <= k < n ==> !Ends(history[k], name, start))
    && (SomeWaiting(history[n], name) || exists k :: 0 <= k <= n && SomeFailed(history[k], name))
  }

  /** `json_hal_server_publish_event`: it sends, and waits if it has to. The result of the wait is
      dropped, so the return code tells of the sends alone, whatever the subscribers answer. */
  method PublishEvent(server: EventServer, name: string, value: Option<string>, sendOk: nat -> bool,
                      start: int, history: seq<seq<Seen>>) returns (ret: int, waited: bool, dropped: int)
    requires !server.locked && 0 <= server.seqno && server.seqno + |server.subs| <= INT_MAX
    modifies server
    ensures waited <==> value.Some? && MustWait(old(server.subs), name, sendOk, 0)
    ensures value.Some? ==>
              (ret == RETURN_OK <==> forall k :: 0 <= k < Matching(old(server.subs), name) ==> sendOk(k))
    ensures value.None? ==> (ret == RETURN_OK <==> Matching(old(server.subs), name) == 0)
    ensures waited && (exists k :: 0 <= k < |history| && Ends(history[k], name, start)) ==>
              (dropped == RETURN_ERR <==> exists n :: FailsAt(name, start, history, n))
  {
    hide Ends, SomeWaiting, SomeFailed, MustWait;
    dropped := RETURN_OK;
    ret, waited := server.Publish(name, value, sendOk);
    if waited {
      var left, scans;
      left, scans, dropped := WaitForReplies(name, start, history);
      if left {
        assert FailsAt(name, start, history, scans - 1) <==> dropped != RETURN_OK;
        forall n | FailsAt(name, start, history, n) ensures n == scans - 1 {
        }
      }
    }
  }

  /** A publish that returns OK although its one subscriber answered with an error, or never did. */
  lemma {:induction false} FailureUnreported(sub: Sub, name: string, start: int, now: int)
    requires Matches(sub, name) && Synchronous(sub)
    requires sub.status.ReplyError? || (sub.status.WaitReply? && Overdue(Seen(sub, now), start))
    ensures FailsAt(name, start, [[Seen(sub, now)]], 0)
    ensures Matching([sub], name) == 1 && MustWait([sub], name, (k: nat) => true, 0)
  {
    var scan := [Seen(sub, now)];
    assert Relevant(scan[0], name);
    assert [sub][1..] == [] && Matching([], name) == 0;
    assert [scan][0] == scan;
  }
}
