/** The remaining utlist operations the RPC stack relies on: `LL_APPEND2`, `LL_DELETE2`,
    deletion inside `LL_FOREACH_SAFE2`, and `LL_INSERT_INORDER2` over `LL_LOWER_BOUND2`. */
module ListOps {
  import opened Common
  import opened SortSpec
  import opened ListSort

  method Append<T>(head: Node?<T>, add: Node<T>, ghost s: seq<Node<T>>) returns (newHead: Node?<T>)
    requires IsList(Single, head, s) && add !in s
    modifies add`next, s
    ensures IsList(Single, newHead, s + [add])
  {
    newHead := head;
    add.next := null;
    if head != null {
      var tmp := head;
      ghost var i := 0;
      assert Linked(s);
      while tmp.next != null
        invariant 0 <= i < |s| && tmp == s[i] && Linked(s)
        invariant tmp.next == First(s[i + 1..])
        decreases |s| - i
      {
        tmp := tmp.next;
        i := i + 1;
      }
      tmp.next := add;
      ghost var r := s + [add];
      assert forall j :: 0 <= j < |s| ==> r[j] == s[j];
    } else {
      newHead := add;
    }
  }

  /** Where `x` stands in `s`, or the length of `s`. */
  ghost predicate StandsAt<T>(s: seq<Node<T>>, x: Node<T>, k: nat) {
    if k < |s| then s[k] == x else k == |s| && x !in s
  }

  ghost function CutAt<T>(s: seq<Node<T>>, k: nat): seq<Node<T>> {
    if k < |s| then s[..k] + s[k + 1..] else s
  }

  /** Deletes `del` from a non-empty list; a node that is not in the list changes nothing. The
      deleted node's own `next` is left as it was. */
  method Delete<T>(head: Node<T>, del: Node<T>, ghost s: seq<Node<T>>, ghost k: nat, ghost frame: set<Node<T>>)
    returns (newHead: Node?<T>)
    requires IsList(Single, head, s) && StandsAt(s, del, k) && Within(s, frame)
    modifies frame - {del}
    ensures IsList(Single, newHead, CutAt(s, k))
  {
    newHead := head;
    if head == del {
      newHead := head.next;
      assert k == 0;
    } else {
      var tmp := head;
      ghost var i := 0;
      while tmp.next != null && tmp.next != del
        invariant 0 <= i < k && i < |s| && tmp == s[i] && tmp.next == First(s[i + 1..])
        decreases |s| - i
      {
        tmp := tmp.next;
        i := i + 1;
      }
      assert k < |s| ==> i + 1 == k;
      assert tmp in s && tmp != del;
      if tmp.next != null {
        tmp.next := del.next;
      }
    }
    if k < |s| {
      CutLinks(s, k);
    }
  }

  lemma {:induction false} CutLinks<T>(s: seq<Node<T>>, k: nat)
    requires k < |s| && Distinct(s)
    requires forall i :: 0 <= i < |s| - 1 && i + 1 != k && i != k ==> s[i].next == s[i + 1]
    requires k > 0 ==> s[k - 1].next == First(s[k + 1..])
    requires k < |s| - 1 ==> s[|s| - 1].next == null
    ensures Distinct(CutAt(s, k)) && Chain(CutAt(s, k), null)
  {
    var r := CutAt(s, k);
    assert forall j :: 0 <= j < |r| ==> r[j] == if j < k then s[j] else s[j + 1];
    assert r != [] ==> Last(r) == if k == |s| - 1 then s[k - 1] else Last(s);
  }

  function Keep<T>(drop: T -> bool, s: seq<Node<T>>): (r: seq<Node<T>>) {
    if s == [] then []
    else (if drop(s[0].data) then [] else [s[0]]) + Keep(drop, s[1..])
  }

  /** Exactly the nodes that do not match are kept, as often and in the order in which they stood. */
  lemma {:induction false} KeepMeaning<T>(drop: T -> bool, s: seq<Node<T>>, a: Node<T>, b: Node<T>)
    ensures a in Keep(drop, s) <==> a in s && !drop(a.data)
    ensures Precedes(Keep(drop, s), a, b) <==> Precedes(s, a, b) && !drop(a.data) && !drop(b.data)
    decreases |s|
  {
    if s != [] {
      KeepMeaning(drop, s[1..], a, b);
      KeepMember(drop, s[1..], b);
      var kept := Keep(drop, s[1..]);
      assert Keep(drop, s) == if drop(s[0].data) then kept else [s[0]] + kept;
      assert s == [s[0]] + s[1..];
      hide Keep;
      PrecedesCons(s[0], s[1..], a, b);
      PrecedesCons(s[0], Keep(drop, s[1..]), a, b);
    }
  }

  lemma {:induction false} KeepMember<T>(drop: T -> bool, s: seq<Node<T>>, b: Node<T>)
    ensures b in Keep(drop, s) <==> b in s && !drop(b.data)
    decreases |s|
  {
    if s != [] { KeepMember(drop, s[1..], b); }
  }

  lemma {:induction false} PrecedesCons<T>(x: T, s: seq<T>, a: T, b: T)
    ensures Precedes([x] + s, a, b) <==> Precedes(s, a, b) || (x == a && b in s)
  {
    var all := [x] + s;
    if Precedes(all, a, b) {
      var i, j :| 0 <= i < j < |all| && all[i] == a && all[j] == b;
      assert s[j - 1] == b && (i > 0 ==> s[i - 1] == a);
    }
    if Precedes(s, a, b) {
      var i, j :| 0 <= i < j < |s| && s[i] == a && s[j] == b;
      assert all[i + 1] == a && all[j + 1] == b;
    }
    if x == a && b in s {
      var j :| 0 <= j < |s| && s[j] == b;
      assert all[0] == a && all[j + 1] == b;
    }
  }

  /** `LL_FOREACH_SAFE2` whose body deletes the nodes that match: the saved successor
      survives every deletion, so the survivors keep their order and none is skipped. */
  method RemoveIf<T>(head: Node?<T>, drop: T -> bool, ghost s: seq<Node<T>>) returns (newHead: Node?<T>)
    requires IsList(Single, head, s)
    modifies set x | x in s
    ensures IsList(Single, newHead, Keep(drop, s))
  {
    assert head == First(s);
    hide IsList, Keep, Within;
    newHead := head;
    var el := head;
    ghost var kept: seq<Node<T>>, rest := [], s;
    assert kept + rest == s && kept + Keep(drop, rest) == Keep(drop, s);
    ghost var frame := set x | x in s;
    WithinOwn(s);
    while el != null
      invariant IsList(Single, newHead, kept + rest) && el == First(rest)
      invariant kept + Keep(drop, rest) == Keep(drop, s)
      invariant Within(kept + rest, frame)
      decreases |rest|
    {
      ListAt(newHead, kept, rest);
      var tmp := el.next;
      newHead, kept := Visit(newHead, el, drop, kept, rest, frame);
      el, rest := tmp, rest[1..];
    }
    KeepNothing(drop);
    assert kept + rest == Keep(drop, s);
  }

  /** The body of the traversal at `el`. */
  method Visit<T>(head: Node<T>, el: Node<T>, drop: T -> bool, ghost kept: seq<Node<T>>, ghost rest: seq<Node<T>>,
                  ghost frame: set<Node<T>>)
    returns (newHead: Node?<T>, ghost kept': seq<Node<T>>)
    requires IsList(Single, head, kept + rest) && rest != [] && el == rest[0] && Within(kept + rest, frame)
    modifies frame
    ensures IsList(Single, newHead, kept' + rest[1..]) && Within(kept' + rest[1..], frame)
    ensures kept' + Keep(drop, rest[1..]) == kept + Keep(drop, rest)
  {
    hide IsList, Keep, Within;
    newHead, kept' := head, kept;
    ListAt(head, kept, rest);
    KeepStep(drop, rest);
    WithinWithout(kept, rest, frame);
    if drop(el.data) {
      newHead := Delete(head, el, kept + rest, |kept|, frame);
    } else {
      Associate(kept, [el], Keep(drop, rest[1..]));
      Associate(kept, [el], rest[1..]);
      assert [el] + rest[1..] == rest;
      kept' := kept + [el];
    }
  }

  lemma {:induction false} KeepStep<T>(drop: T -> bool, rest: seq<Node<T>>)
    requires rest != []
    ensures drop(rest[0].data) ==> Keep(drop, rest) == Keep(drop, rest[1..])
    ensures !drop(rest[0].data) ==> Keep(drop, rest) == [rest[0]] + Keep(drop, rest[1..])
  {
  }

  lemma {:induction false} WithinOwn<T>(s: seq<Node<T>>)
    ensures Within(s, set x | x in s)
  {
  }

  lemma {:induction false} WithinWithout<T>(kept: seq<Node<T>>, rest: seq<Node<T>>, frame: set<Node<T>>)
    requires rest != [] && Within(kept + rest, frame)
    ensures Within(kept + rest[1..], frame)
  {
    forall x | x in kept + rest[1..] ensures x in frame {
      assert x in kept + rest;
    }
  }

  lemma {:induction false} KeepNothing<T>(drop: T -> bool)
    ensures Keep(drop, []) == []
  {
  }

  lemma {:induction false} ListAt<T>(head: Node?<T>, kept: seq<Node<T>>, rest: seq<Node<T>>)
    requires IsList(Single, head, kept + rest) && rest != []
    ensures head != null && (kept + rest)[|kept|] == rest[0] && rest[0].next == First(rest[1..])
    ensures StandsAt(kept + rest, rest[0], |kept|) && CutAt(kept + rest, |kept|) == kept + rest[1..]
  {
    var t := kept + rest;
    if |rest| > 1 { assert t[|kept|].next == t[|kept| + 1]; }
  }

  // ---------- ordered insertion ----------

  /** `cmp` answers consistently when its arguments are swapped. */
  ghost predicate SignLaw<T(!new)>(cmp: Comparator<T>) {
    forall x, y :: cmp(x, y) >= 0 <==> cmp(y, x) <= 0
  }

  function Insert<T>(cmp: Comparator<T>, s: seq<Node<T>>, x: Node<T>): (r: seq<Node<T>>) {
    if s == [] || cmp(s[0].data, x.data) >= 0 then [x] + s
    else [s[0]] + Insert(cmp, s[1..], x)
  }

  /** `LL_LOWER_BOUND2`: the last node before the insertion point, or null for the front. */
  method LowerBound<T>(cmp: Comparator<T>, head: Node?<T>, like: Node<T>, ghost s: seq<Node<T>>)
    returns (elt: Node?<T>, ghost k: nat)
    requires IsList(Single, head, s)
    ensures k <= |s| && (elt == null <==> k == 0) && (k > 0 ==> elt == s[k - 1])
    ensures elt == null <==> s == [] || cmp(s[0].data, like.data) >= 0
    ensures Insert(cmp, s, like) == s[..k] + [like] + s[k..]
  {
    if head == null || cmp(head.data, like.data) >= 0 {
      elt, k := null, 0;
    } else {
      elt, k := head, 1;
      while elt.next != null
        invariant 1 <= k <= |s| && elt == s[k - 1]
        invariant Insert(cmp, s, like) == s[..k] + Insert(cmp, s[k..], like)
        decreases |s| - k
      {
        if cmp(elt.next.data, like.data) >= 0 { break; }
        assert s[..k + 1] == s[..k] + [s[k]] && s[k..][1..] == s[k + 1..];
        elt, k := elt.next, k + 1;
      }
    }
  }

  method InsertInOrder<T>(cmp: Comparator<T>, head: Node?<T>, add: Node<T>, ghost s: seq<Node<T>>)
    returns (newHead: Node?<T>)
    requires IsList(Single, head, s) && add !in s
    modifies add`next, s
    ensures IsList(Single, newHead, Insert(cmp, s, add))
  {
    newHead := head;
    if head != null {
      var elt;
      ghost var k;
      elt, k := LowerBound(cmp, head, add, s);
      newHead := AppendElem(head, elt, add, s, k);
    } else {
      newHead := add;
      newHead.next := null;
    }
  }

  /** `LL_APPEND_ELEM2`: link `add` in after `elt`, or at the front when `elt` is null. */
  method AppendElem<T>(head: Node<T>, elt: Node?<T>, add: Node<T>, ghost s: seq<Node<T>>, ghost k: nat)
    returns (newHead: Node?<T>)
    requires IsList(Single, head, s) && add !in s
    requires k <= |s| && (elt == null <==> k == 0) && (k > 0 ==> elt == s[k - 1])
    modifies add`next, s
    ensures IsList(Single, newHead, s[..k] + [add] + s[k..])
  {
    newHead := head;
    assert k > 0 ==> elt.next == First(s[k..]);
    if elt != null {
      add.next := elt.next;
      elt.next := add;
    } else {
      add.next := newHead;
      newHead := add;
    }
    ghost var r := s[..k] + [add] + s[k..];
    assert forall i :: 0 <= i < |r| ==> r[i] == if i < k then s[i] else if i == k then add else s[i - 1];
  }

  lemma {:induction false} InsertPermutes<T>(cmp: Comparator<T>, s: seq<Node<T>>, x: Node<T>)
    ensures multiset(Insert(cmp, s, x)) == multiset([x] + s)
    decreases |s|
  {
    if s != [] && cmp(s[0].data, x.data) < 0 {
      InsertPermutes(cmp, s[1..], x);
      assert s == [s[0]] + s[1..];
    }
  }

  lemma {:induction false} InsertSorted<T(!new)>(cmp: Comparator<T>, s: seq<Node<T>>, x: Node<T>)
    requires TotalPreorder(cmp) && SignLaw(cmp) && Sorted(cmp, s)
    ensures Sorted(cmp, Insert(cmp, s, x))
    decreases |s|
  {
    if s == [] {
    } else if cmp(s[0].data, x.data) < 0 {
      InsertSorted(cmp, s[1..], x);
      InsertBehind(cmp, s, x);
    } else {
      assert Below(cmp, x, s[0]);
      forall j | 0 <= j < |s| ensures Below(cmp, x, s[j]) {
        assert j > 0 ==> Below(cmp, s[0], s[j]);
      }
    }
  }

  lemma {:induction false} InsertBehind<T(!new)>(cmp: Comparator<T>, s: seq<Node<T>>, x: Node<T>)
    requires TotalPreorder(cmp) && Sorted(cmp, s) && s != [] && cmp(s[0].data, x.data) < 0
    requires Sorted(cmp, Insert(cmp, s[1..], x))
    ensures Sorted(cmp, [s[0]] + Insert(cmp, s[1..], x))
  {
    hide Insert;
    var t := Insert(cmp, s[1..], x);
    InsertPermutes(cmp, s[1..], x);
    forall j | 0 <= j < |t| ensures Below(cmp, s[0], t[j]) {
      assert t[j] in multiset(t);
      assert t[j] == x || t[j] in s[1..];
    }
  }

  /** The new node goes before its equals: the classes are those of `[x] + s`. */
  lemma {:induction false} InsertBeforeEquals<T(!new)>(cmp: Comparator<T>, k: T, s: seq<Node<T>>, x: Node<T>)
    requires TotalPreorder(cmp) && SignLaw(cmp)
    ensures Class(cmp, k, Insert(cmp, s, x)) == Class(cmp, k, [x]) + Class(cmp, k, s)
    decreases |s|
  {
    if s == [] || cmp(s[0].data, x.data) >= 0 {
      ClassConcat(cmp, k, [x], s);
    } else {
      var t := Insert(cmp, s[1..], x);
      InsertBeforeEquals(cmp, k, s[1..], x);
      ClassConcat(cmp, k, [s[0]], t);
      assert s == [s[0]] + s[1..];
      ClassConcat(cmp, k, [s[0]], s[1..]);
      NotBothInClass(cmp, k, s[0], x);
    }
  }

  lemma {:induction false} NotBothInClass<T(!new)>(cmp: Comparator<T>, k: T, x: Node<T>, y: Node<T>)
    requires TotalPreorder(cmp) && SignLaw(cmp) && cmp(x.data, y.data) < 0
    ensures Class(cmp, k, [x]) == [] || Class(cmp, k, [y]) == []
  {
    assert !(cmp(y.data, x.data) <= 0);
  }

  /** Inserting the nodes of `s` one by one, the last one first. */
  function InsertAll<T>(cmp: Comparator<T>, s: seq<Node<T>>): (r: seq<Node<T>>) {
    if s == [] then [] else Insert(cmp, InsertAll(cmp, s[1..]), s[0])
  }

  lemma {:induction false} InsertAllSorts<T(!new)>(cmp: Comparator<T>, s: seq<Node<T>>)
    requires TotalPreorder(cmp) && SignLaw(cmp)
    ensures StableSortOf(cmp, s, InsertAll(cmp, s))
    decreases |s|
  {
    if s != [] {
      var t := InsertAll(cmp, s[1..]);
      InsertAllSorts(cmp, s[1..]);
      InsertPermutes(cmp, t, s[0]);
      InsertSorted(cmp, t, s[0]);
      assert s == [s[0]] + s[1..];
      forall k ensures Class(cmp, k, InsertAll(cmp, s)) == Class(cmp, k, s) {
        assert Class(cmp, k, t) == Class(cmp, k, s[1..]);
        InsertBeforeEquals(cmp, k, t, s[0]);
        ClassConcat(cmp, k, [s[0]], s[1..]);
      }
    }
  }

  /** Ordered insertion from the back and the merge sort build the same list. */
  lemma {:induction false} InsertionAgreesWithSort<T(!new)>(cmp: Comparator<T>, s: seq<Node<T>>)
    requires TotalPreorder(cmp) && SignLaw(cmp)
    ensures InsertAll(cmp, s) == MergeSort(cmp, 1, s)
  {
    InsertAllSorts(cmp, s);
    MergeSortCorrect(cmp, s);
    StableSortUnique(cmp, InsertAll(cmp, s), MergeSort(cmp, 1, s));
  }
}
