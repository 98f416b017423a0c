/** `LL_APPEND` on the list of outstanding requests, which runs outside the list lock, as two steps:
    its walk, which ends with reading the last node, and its link, which makes the new entry the
    successor of that node. Links of other appends and deletions by the holder of the list lock may
    fall in between. */
module AppendRace {
  import opened Common

  /** Identity of one entry. */
  type Rid = nat

  /** The list, the entries that were linked and not deleted since in the order of their links, and
      the appends under way with the last node each has found; None where the list was empty. */
  datatype Race = Race(list: seq<Rid>, kept: seq<Rid>, calls: map<Rid, Option<Rid>>)

  const Start := Race([], [], map[])

  function Self(e: Rid): int { e }

  datatype Step = Walk(e: Rid) | Link(e: Rid) | Delete(i: nat)

  function LastOf(list: seq<Rid>): Option<Rid> { if list == [] then None else Some(list[|list| - 1]) }

  function IndexOf(list: seq<Rid>, t: Rid): (i: nat)
    requires t in list
    ensures i < |list| && list[i] == t
  {
    if list[0] == t then 0 else 1 + IndexOf(list[1..], t)
  }

  predicate Enabled(s: Race, a: Step) {
    match a
    case Walk(e) => e !in s.list && e !in s.kept && e !in s.calls
    case Link(e) => e in s.calls
    case Delete(i) => i < |s.list|
  }

  /** The list after `e` became the successor of `found`: what followed that node is cut off, and
      nothing changes if the node itself is no longer in the list. */
  function Linked(list: seq<Rid>, found: Option<Rid>, e: Rid): seq<Rid> {
    if found.None? then [e]
    else if found.value in list then list[..IndexOf(list, found.value) + 1] + [e]
    else list
  }

  function Apply(s: Race, a: Step): Race
    requires Enabled(s, a)
  {
    match a
    case Walk(e) => s.(calls := s.calls[e := LastOf(s.list)])
    case Link(e) => Race(Linked(s.list, s.calls[e], e), s.kept + [e], s.calls - {e})
    case Delete(i) => s.(list := s.list[..i] + s.list[i + 1..], kept := WithoutFd(Self, s.kept, s.list[i]))
  }

  ghost predicate IsRun(ss: seq<Race>, steps: seq<Step>) {
    && |ss| == |steps| + 1 && ss[0] == Start
    && forall i :: 0 <= i < |steps| ==> Enabled(ss[i], steps[i]) && ss[i + 1] == Apply(ss[i], steps[i])
  }

  /** At most one append is under way. */
  ghost predicate Alone(s: Race) { forall e, f :: e in s.calls && f in s.calls ==> e == f }

  /** The list has the entries that were appended and not deleted, in the order of their links. */
  ghost predicate Complete(s: Race) { s.list == s.kept }

  /** The step meets no append that it could disturb: no append begins while another is under way,
      and no node is deleted that one has found. */
  ghost predicate Undisturbing(s: Race, a: Step) {
    && (a.Walk? ==> s.calls == map[])
    && (a.Delete? && a.i < |s.list| ==> forall e :: e in s.calls ==> s.calls[e] != Some(s.list[a.i]))
  }

  // ---------- appends that are left alone ----------

  ghost predicate Orderly(s: Race) {
    && Distinct(s.list) && Complete(s)
    && (forall e :: e in s.calls ==> s.calls[e] == LastOf(s.list) && e !in s.list)
  }

  lemma {:induction false} WalkOrderly(s: Race, e: Rid)
    requires Orderly(s) && Enabled(s, Walk(e))
    ensures Orderly(Apply(s, Walk(e)))
  {
  }

  lemma {:induction false} LinkedLast(list: seq<Rid>, e: Rid)
    requires Distinct(list) && e !in list
    ensures Linked(list, LastOf(list), e) == list + [e] && Distinct(list + [e])
  {
    if list != [] {
      var i := IndexOf(list, list[|list| - 1]);
      assert i == |list| - 1;
      assert list[..i + 1] == list;
    }
  }

  lemma {:induction false} LinkOrderly(s: Race, e: Rid)
    requires Orderly(s) && Alone(s) && Enabled(s, Link(e))
    ensures Orderly(Apply(s, Link(e))) && Apply(s, Link(e)).calls == map[]
  {
    LinkedLast(s.list, e);
    assert forall f :: f in s.calls ==> f == e;
  }

  lemma {:induction false} DeleteMembers(list: seq<Rid>, i: nat)
    requires Distinct(list) && i < |list|
    ensures var r := list[..i] + list[i + 1..];
            && Distinct(r) && r == WithoutFd(Self, list, list[i])
            && (LastOf(list) != Some(list[i]) ==> LastOf(r) == LastOf(list))
  {
    DeleteOne(list, i);
    hide WithoutFd;
  }

  /** Cutting the node out is removing it. */
  lemma {:induction false} DeleteOne(list: seq<Rid>, i: nat)
    requires Distinct(list) && i < |list|
    ensures WithoutFd(Self, list, list[i]) == list[..i] + list[i + 1..]
  {
    Parts(list, i);
    hide WithoutFd, Distinct;
    Removed(list[..i], list[i], list[i + 1..]);
  }

  lemma {:induction false} Parts(list: seq<Rid>, i: nat)
    requires Distinct(list) && i < |list|
    ensures list == list[..i] + ([list[i]] + list[i + 1..]) && list[i] !in list[..i] && list[i] !in list[i + 1..]
  {
  }

  lemma {:induction false} Removed(a: seq<Rid>, x: Rid, b: seq<Rid>)
    requires x !in a && x !in b
    ensures WithoutFd(Self, a + ([x] + b), x) == a + b
  {
    WithoutFdConcat(Self, a, [x] + b, x);
    WithoutFdConcat(Self, [x], b, x);
    WithoutFdOne(Self, x, x);
    WithoutFdAbsent(Self, a, x);
    WithoutFdAbsent(Self, b, x);
    hide WithoutFd;
    assert [] + b == b;
  }

  lemma {:induction false} DeleteOrderly(s: Race, i: nat)
    requires Orderly(s) && Enabled(s, Delete(i)) && Undisturbing(s, Delete(i))
    ensures Orderly(Apply(s, Delete(i)))
  {
    DeleteMembers(s.list, i);
  }

  lemma {:induction false} StepOrderly(s: Race, a: Step)
    requires Orderly(s) && Alone(s) && Enabled(s, a) && Undisturbing(s, a)
    ensures Orderly(Apply(s, a)) && Alone(Apply(s, a))
  {
    match a
    case Walk(e) => WalkOrderly(s, e);
    case Link(e) => LinkOrderly(s, e);
    case Delete(i) => DeleteOrderly(s, i);
  }

  /** In a run without disturbance the list is complete at every moment, and appends join its end. */
  lemma {:induction false} UndisturbedComplete(ss: seq<Race>, steps: seq<Step>, n: nat)
    requires IsRun(ss, steps) && n < |ss| && forall k :: 0 <= k < n ==> Undisturbing(ss[k], steps[k])
    ensures Orderly(ss[n]) && Alone(ss[n])
  {
    if n > 0 {
      UndisturbedComplete(ss, steps, n - 1);
      StepOrderly(ss[n - 1], steps[n - 1]);
    }
  }

  // ---------- exactly when entries are kept ----------

  /** The appends under way, and others after them, go on to `s'` without further disturbance. */
  ghost predicate GoesOn(s: Race, steps: seq<Step>, s': Race)
    decreases |steps|
  {
    if steps == [] then s' == s
    else Undisturbing(s, steps[0]) && Enabled(s, steps[0]) && GoesOn(Apply(s, steps[0]), steps[1..], s')
  }

  /** The appends under way go on to `s'` while the holder of the list lock deletes what it likes. */
  ghost predicate GoesOnWithDeletions(s: Race, steps: seq<Step>, s': Race)
    decreases |steps|
  {
    if steps == [] then s' == s
    else !steps[0].Walk? && Enabled(s, steps[0]) && GoesOnWithDeletions(Apply(s, steps[0]), steps[1..], s')
  }

  ghost predicate KeepsAll(s: Race) { forall steps, s' :: GoesOn(s, steps, s') ==> Complete(s') }

  ghost predicate KeepsAllWithDeletions(s: Race) {
    forall steps, s' :: GoesOnWithDeletions(s, steps, s') ==> Complete(s')
  }

  lemma {:induction false} AloneKeeps(s: Race, steps: seq<Step>, s': Race)
    requires Orderly(s) && Alone(s) && GoesOn(s, steps, s')
    ensures Complete(s')
    decreases |steps|
  {
    if steps != [] {
      StepOrderly(s, steps[0]);
      AloneKeeps(Apply(s, steps[0]), steps[1..], s');
    }
  }

  /** Two appends that found the same last node: the second link drops the first one's entry. */
  lemma {:induction false} TwoLinks(s: Race, e: Rid, f: Rid) returns (s': Race)
    requires Orderly(s) && e in s.calls && f in s.calls && e != f
    ensures GoesOn(s, [Link(e), Link(f)], s') && GoesOnWithDeletions(s, [Link(e), Link(f)], s') && !Complete(s')
  {
    var s1 := Apply(s, Link(e));
    s' := Apply(s1, Link(f));
    var steps := [Link(e), Link(f)];
    assert steps[1..] == [Link(f)] && steps[1..][1..] == [];
    assert GoesOn(s', [], s') && GoesOnWithDeletions(s', [], s');
    assert GoesOn(s1, [Link(f)], s') && GoesOnWithDeletions(s1, [Link(f)], s');
    LinkedLast(s.list, e);
    LinkedAgain(s.list, e, f);
    assert e in s'.kept && e !in s'.list;
  }

  lemma {:induction false} LinkedAgain(list: seq<Rid>, e: Rid, f: Rid)
    requires Distinct(list) && e !in list && e != f
    ensures e !in Linked(list + [e], LastOf(list), f)
  {
    if list != [] {
      var t, all := list[|list| - 1], list + [e];
      assert all[|list| - 1] == t;
      var i := IndexOf(all, t);
      assert i == |list| - 1;
    }
  }

  /** An append whose last node is deleted before the link: the entry is never in the list. */
  lemma {:induction false} DeletedUnder(s: Race, e: Rid) returns (s': Race)
    requires Orderly(s) && e in s.calls && s.calls[e].Some?
    ensures s.list != [] && GoesOnWithDeletions(s, [Delete(|s.list| - 1), Link(e)], s') && !Complete(s')
  {
    var n := |s.list| - 1;
    var s1 := Apply(s, Delete(n));
    s' := Apply(s1, Link(e));
    var steps := [Delete(n), Link(e)];
    assert steps[1..] == [Link(e)] && steps[1..][1..] == [];
    assert GoesOnWithDeletions(s', [], s');
    assert GoesOnWithDeletions(s1, [Link(e)], s');
    assert s.calls[e].value !in s1.list;
    assert e in s'.kept && e !in s'.list;
  }

  lemma {:induction false} EmptyKeeps(s: Race, steps: seq<Step>, s': Race)
    requires Orderly(s) && Alone(s) && (forall e :: e in s.calls ==> s.calls[e].None?)
             && GoesOnWithDeletions(s, steps, s')
    ensures Complete(s')
    decreases |steps|
  {
    if steps != [] {
      assert Undisturbing(s, steps[0]);
      StepOrderly(s, steps[0]);
      EmptyKeeps(Apply(s, steps[0]), steps[1..], s');
    }
  }

  /** All steps but the last one left the appends alone; the last one did, or began an append. */
  ghost predicate Prepared(ss: seq<Race>, steps: seq<Step>) {
    && IsRun(ss, steps)
    && forall k :: 0 <= k < |steps| ==> Undisturbing(ss[k], steps[k]) || (k == |steps| - 1 && steps[k].Walk?)
  }

  lemma {:induction false} PreparedOrderly(ss: seq<Race>, steps: seq<Step>)
    requires Prepared(ss, steps)
    ensures Orderly(ss[|steps|])
  {
    if steps != [] {
      var n := |steps| - 1;
      UndisturbedComplete(ss, steps, n);
      match steps[n]
      case Walk(e) => WalkOrderly(ss[n], e);
      case _ => StepOrderly(ss[n], steps[n]);
    }
  }

  /** After such a history, no undisturbed continuation loses an entry, exactly if at most one
      append is under way. */
  lemma {:induction false} KeptIffAlone(ss: seq<Race>, steps: seq<Step>)
    requires Prepared(ss, steps)
    ensures KeepsAll(ss[|steps|]) <==> Alone(ss[|steps|])
  {
    var s := ss[|steps|];
    PreparedOrderly(ss, steps);
    if Alone(s) {
      forall more, s' | GoesOn(s, more, s') ensures Complete(s') {
        AloneKeeps(s, more, s');
      }
    } else {
      var e, f :| e in s.calls && f in s.calls && e != f;
      var s' := TwoLinks(s, e, f);
    }
  }

  /** With the lock holder deleting meanwhile, exactly if there is no append under way, or a single
      one that found the list empty. */
  lemma {:induction false} KeptDespiteDeletionsIff(ss: seq<Race>, steps: seq<Step>)
    requires Prepared(ss, steps)
    ensures KeepsAllWithDeletions(ss[|steps|]) <==>
              Alone(ss[|steps|]) && forall e :: e in ss[|steps|].calls ==> ss[|steps|].calls[e].None?
  {
    var s := ss[|steps|];
    PreparedOrderly(ss, steps);
    if !Alone(s) {
      var e, f :| e in s.calls && f in s.calls && e != f;
      var s' := TwoLinks(s, e, f);
    } else if e :| e in s.calls && s.calls[e].Some? {
      var s' := DeletedUnder(s, e);
    } else {
      forall more, s' | GoesOnWithDeletions(s, more, s') ensures Complete(s') {
        EmptyKeeps(s, more, s');
      }
    }
  }
}
