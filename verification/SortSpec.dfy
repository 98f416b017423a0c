/** List nodes and the meaning of the utlist merge sort, free of the heap.

    A node's payload never changes, only its links do, so an ordering of nodes can be
    judged without reading the heap. `MergeSort` follows the block structure of the
    bottom-up algorithm; the lemmas show that it yields the one and only sorted and
    stable rearrangement. */
module SortSpec {
  import opened Common

  class Node<T> {
    const data: T
    var next: Node?<T>
    var prev: Node?<T>

    constructor (data: T)
      ensures this.data == data && next == null && prev == null
    {
      this.data := data;
      next := null;
      prev := null;
    }
  }

  type Comparator<!T> = (T, T) -> int

  predicate Below<T>(cmp: Comparator<T>, x: Node<T>, y: Node<T>) {
    cmp(x.data, y.data) <= 0
  }

  /** What every sort macro asks of `cmp`: "at most zero" is a total preorder. */
  ghost predicate TotalPreorder<T(!new)>(cmp: Comparator<T>) {
    && (forall x, y :: cmp(x, y) <= 0 || cmp(y, x) <= 0)
    && (forall x, y, z :: cmp(x, y) <= 0 && cmp(y, z) <= 0 ==> cmp(x, z) <= 0)
  }

  ghost predicate Sorted<T>(cmp: Comparator<T>, s: seq<Node<T>>) {
    forall i, j :: 0 <= i < j < |s| ==> Below(cmp, s[i], s[j])
  }

  predicate Equivalent<T>(cmp: Comparator<T>, x: T, y: T) {
    cmp(x, y) <= 0 && cmp(y, x) <= 0
  }

  /** The nodes of `s` whose payload is equivalent to `k`, in the order of `s`. */
  function Class<T>(cmp: Comparator<T>, k: T, s: seq<Node<T>>): (r: seq<Node<T>>) {
    if s == [] then []
    else (if Equivalent(cmp, k, s[0].data) then [s[0]] else []) + Class(cmp, k, s[1..])
  }

  /** Equivalent nodes keep their relative order. */
  ghost predicate Stable<T(!new)>(cmp: Comparator<T>, s: seq<Node<T>>, r: seq<Node<T>>) {
    forall k :: Class(cmp, k, r) == Class(cmp, k, s)
  }

  ghost predicate StableSortOf<T(!new)>(cmp: Comparator<T>, s: seq<Node<T>>, r: seq<Node<T>>) {
    multiset(r) == multiset(s) && Sorted(cmp, r) && Stable(cmp, s, r)
  }

  // ---------- the algorithm on sequences ----------

  function Merge<T>(cmp: Comparator<T>, a: seq<Node<T>>, b: seq<Node<T>>): (r: seq<Node<T>>)
    ensures |r| == |a| + |b|
    decreases |a| + |b|
  {
    if a == [] then b
    else if b == [] then a
    else if Below(cmp, a[0], b[0]) then [a[0]] + Merge(cmp, a[1..], b)
    else [b[0]] + Merge(cmp, a, b[1..])
  }

  /** One sweep: merge each pair of neighbouring blocks of length `k`. */
  function Sweep<T>(cmp: Comparator<T>, k: nat, s: seq<Node<T>>): (r: seq<Node<T>>)
    requires k > 0
    ensures |r| == |s|
    decreases |s|
  {
    if s == [] then []
    else
      var m := Min(k, |s|);
      var n := Min(k, |s| - m);
      Merge(cmp, s[..m], s[m..m + n]) + Sweep(cmp, k, s[m + n..])
  }

  /** Sweeps with doubling block length until one merge covers the list. */
  function MergeSort<T>(cmp: Comparator<T>, k: nat, s: seq<Node<T>>): (r: seq<Node<T>>)
    requires k > 0
    decreases |s| - k
  {
    if |s| <= 2 * k then Sweep(cmp, k, s)
    else MergeSort(cmp, 2 * k, Sweep(cmp, k, s))
  }

  lemma {:induction false} MergeFromLeft<T>(cmp: Comparator<T>, a: seq<Node<T>>, b: seq<Node<T>>)
    requires a != [] && (b == [] || Below(cmp, a[0], b[0]))
    ensures Merge(cmp, a, b) == [a[0]] + Merge(cmp, a[1..], b)
  {
    if b == [] { assert a == [a[0]] + a[1..]; }
  }

  lemma {:induction false} MergeFromRight<T>(cmp: Comparator<T>, a: seq<Node<T>>, b: seq<Node<T>>)
    requires b != [] && (a == [] || !Below(cmp, a[0], b[0]))
    ensures Merge(cmp, a, b) == [b[0]] + Merge(cmp, a, b[1..])
  {
    if a == [] { assert b == [b[0]] + b[1..]; }
  }

  // ---------- permutation ----------

  lemma {:induction false} MergePermutes<T>(cmp: Comparator<T>, a: seq<Node<T>>, b: seq<Node<T>>)
    ensures multiset(Merge(cmp, a, b)) == multiset(a) + multiset(b)
    decreases |a| + |b|
  {
    if a != [] && b != [] {
      assert a == [a[0]] + a[1..] && b == [b[0]] + b[1..];
      if Below(cmp, a[0], b[0]) {
        MergePermutes(cmp, a[1..], b);
      } else {
        MergePermutes(cmp, a, b[1..]);
      }
    }
  }

  lemma {:induction false} SweepPermutes<T>(cmp: Comparator<T>, k: nat, s: seq<Node<T>>)
    requires k > 0
    ensures multiset(Sweep(cmp, k, s)) == multiset(s)
    decreases |s|
  {
    if s != [] {
      var m := Min(k, |s|);
      var n := Min(k, |s| - m);
      assert s == s[..m] + s[m..m + n] + s[m + n..];
      MergePermutes(cmp, s[..m], s[m..m + n]);
      SweepPermutes(cmp, k, s[m + n..]);
    }
  }

  lemma {:induction false} MergeSortPermutes<T>(cmp: Comparator<T>, k: nat, s: seq<Node<T>>)
    requires k > 0
    ensures multiset(MergeSort(cmp, k, s)) == multiset(s)
    decreases |s| - k
  {
    SweepPermutes(cmp, k, s);
    if |s| > 2 * k { MergeSortPermutes(cmp, 2 * k, Sweep(cmp, k, s)); }
  }

  // ---------- sortedness ----------

  ghost predicate BlocksSorted<T>(cmp: Comparator<T>, k: nat, s: seq<Node<T>>)
    requires k > 0
    decreases |s|
  {
    if |s| <= k then Sorted(cmp, s)
    else Sorted(cmp, s[..k]) && BlocksSorted(cmp, k, s[k..])
  }

  lemma {:induction false} UnitBlocks<T>(cmp: Comparator<T>, s: seq<Node<T>>)
    ensures BlocksSorted(cmp, 1, s)
    decreases |s|
  {
    if |s| > 1 { UnitBlocks(cmp, s[1..]); }
  }

  lemma {:induction false} MergeSorted<T(!new)>(cmp: Comparator<T>, a: seq<Node<T>>, b: seq<Node<T>>)
    requires TotalPreorder(cmp) && Sorted(cmp, a) && Sorted(cmp, b)
    ensures Sorted(cmp, Merge(cmp, a, b))
    decreases |a| + |b|
  {
    if a != [] && b != [] {
      var first, rest := MergeHead(cmp, a, b);
      var r := Merge(cmp, a, b);
      forall i, j | 0 <= i < j < |r| ensures Below(cmp, r[i], r[j]) {
        if i == 0 {
          assert r[j] == rest[j - 1] && rest[j - 1] in multiset(rest);
        }
      }
    }
  }

  lemma {:induction false} BelowAll<T(!new)>(cmp: Comparator<T>, first: Node<T>, a: seq<Node<T>>, b: seq<Node<T>>)
    requires TotalPreorder(cmp) && Sorted(cmp, a) && Sorted(cmp, b) && a != [] && b != []
    requires first == if Below(cmp, a[0], b[0]) then a[0] else b[0]
    ensures forall x :: x in a || x in b ==> Below(cmp, first, x)
  {
    forall x | x in a || x in b ensures Below(cmp, first, x) {
      if x in a {
        assert Below(cmp, a[0], x);
      } else {
        assert Below(cmp, b[0], x);
      }
    }
  }

  /** The head of a merge is below every node that follows, which is again a sorted merge. */
  lemma {:induction false} MergeHead<T(!new)>(cmp: Comparator<T>, a: seq<Node<T>>, b: seq<Node<T>>)
    returns (first: Node<T>, rest: seq<Node<T>>)
    requires TotalPreorder(cmp) && Sorted(cmp, a) && Sorted(cmp, b) && a != [] && b != []
    ensures Merge(cmp, a, b) == [first] + rest && Sorted(cmp, rest)
    ensures forall x :: x in multiset(rest) ==> Below(cmp, first, x)
    decreases |a| + |b|, 0
  {
    if Below(cmp, a[0], b[0]) {
      first, rest := a[0], Merge(cmp, a[1..], b);
      MergePermutes(cmp, a[1..], b);
      MergeSorted(cmp, a[1..], b);
    } else {
      first, rest := b[0], Merge(cmp, a, b[1..]);
      MergePermutes(cmp, a, b[1..]);
      MergeSorted(cmp, a, b[1..]);
    }
    BelowAll(cmp, first, a, b);
    forall x | x in multiset(rest) ensures Below(cmp, first, x) {
      assert x in a || x in b;
    }
  }

  lemma {:induction false} SweepBlocks<T(!new)>(cmp: Comparator<T>, k: nat, s: seq<Node<T>>)
    requires k > 0 && TotalPreorder(cmp) && BlocksSorted(cmp, k, s)
    ensures BlocksSorted(cmp, 2 * k, Sweep(cmp, k, s))
    decreases |s|
  {
    hide Merge, Sweep, Sorted, TotalPreorder;
    if s == [] {
      UnitBlocks(cmp, s);
      assert Sweep(cmp, k, s) == s;
    } else {
      var m, n := BlockSizes(cmp, k, s);
      var front, behind := Merge(cmp, s[..m], s[m..m + n]), Sweep(cmp, k, s[m + n..]);
      MergeSorted(cmp, s[..m], s[m..m + n]);
      SweepBlocks(cmp, k, s[m + n..]);
      SweepStep(cmp, k, s);
      PrependBlock(cmp, 2 * k, front, behind);
    }
  }

  lemma {:induction false} PrependBlock<T>(cmp: Comparator<T>, k: nat, front: seq<Node<T>>, behind: seq<Node<T>>)
    requires k > 0 && Sorted(cmp, front) && BlocksSorted(cmp, k, behind)
    requires |front| == k || (|front| < k && behind == [])
    ensures BlocksSorted(cmp, k, front + behind)
  {
    if behind == [] {
      assert front + behind == front;
    } else {
      assert (front + behind)[..k] == front && (front + behind)[k..] == behind;
    }
  }

  /** The two blocks a sweep takes first are sorted, and so are the blocks behind them. */
  lemma {:induction false} BlockSizes<T>(cmp: Comparator<T>, k: nat, s: seq<Node<T>>) returns (m: nat, n: nat)
    requires k > 0 && s != [] && BlocksSorted(cmp, k, s)
    ensures m == Min(k, |s|) && n == Min(k, |s| - m)
    ensures Sorted(cmp, s[..m]) && Sorted(cmp, s[m..m + n]) && BlocksSorted(cmp, k, s[m + n..])
  {
    m := Min(k, |s|);
    n := Min(k, |s| - m);
    if |s| <= k {
      assert s[..m] == s;
    } else if |s| <= 2 * k {
      assert s[m..m + n] == s[k..];
    } else {
      assert s[k..][..k] == s[m..m + n] && s[k..][k..] == s[m + n..];
    }
  }

  lemma {:induction false} MergeSortSorts<T(!new)>(cmp: Comparator<T>, k: nat, s: seq<Node<T>>)
    requires k > 0 && TotalPreorder(cmp) && BlocksSorted(cmp, k, s)
    ensures Sorted(cmp, MergeSort(cmp, k, s))
    decreases |s| - k
  {
    SweepBlocks(cmp, k, s);
    if |s| > 2 * k { MergeSortSorts(cmp, 2 * k, Sweep(cmp, k, s)); }
  }

  // ---------- stability ----------

  lemma {:induction false} ClassConcat<T>(cmp: Comparator<T>, k: T, a: seq<Node<T>>, b: seq<Node<T>>)
    ensures Class(cmp, k, a + b) == Class(cmp, k, a) + Class(cmp, k, b)
    decreases |a|
  {
    if a == [] {
      assert a + b == b;
    } else {
      assert (a + b)[0] == a[0] && (a + b)[1..] == a[1..] + b;
      ClassConcat(cmp, k, a[1..], b);
      var c := if Equivalent(cmp, k, a[0].data) then [a[0]] else [];
      assert c + (Class(cmp, k, a[1..]) + Class(cmp, k, b)) == (c + Class(cmp, k, a[1..])) + Class(cmp, k, b);
    }
  }

  lemma {:induction false} ClassEmpty<T>(cmp: Comparator<T>, k: T, s: seq<Node<T>>)
    requires forall x :: x in s ==> !Equivalent(cmp, k, x.data)
    ensures Class(cmp, k, s) == []
    decreases |s|
  {
    if s != [] { ClassEmpty(cmp, k, s[1..]); }
  }

  /** A node that merging takes from the right run passes no equivalent node of the left run. */
  lemma {:induction false} PassesNoEquivalent<T(!new)>(cmp: Comparator<T>, k: T, a: seq<Node<T>>, y: Node<T>)
    requires TotalPreorder(cmp) && Sorted(cmp, a) && a != [] && !Below(cmp, a[0], y)
    ensures Class(cmp, k, [y]) == [] || Class(cmp, k, a) == []
  {
    if Equivalent(cmp, k, y.data) {
      forall i | 0 <= i < |a| ensures !Equivalent(cmp, k, a[i].data) {
        if i > 0 { assert Below(cmp, a[0], a[i]); }
      }
      ClassEmpty(cmp, k, a);
    }
  }

  lemma {:induction false} MergeStable<T(!new)>(cmp: Comparator<T>, k: T, a: seq<Node<T>>, b: seq<Node<T>>)
    requires TotalPreorder(cmp) && Sorted(cmp, a)
    ensures Class(cmp, k, Merge(cmp, a, b)) == Class(cmp, k, a) + Class(cmp, k, b)
    decreases |a| + |b|
  {
    if a == [] || b == [] {
      assert Class(cmp, k, a) + [] == Class(cmp, k, a) && [] + Class(cmp, k, b) == Class(cmp, k, b);
    } else {
      hide Class, Merge, TotalPreorder;
      if Below(cmp, a[0], b[0]) {
        MergeFromLeft(cmp, a, b);
        MergeStable(cmp, k, a[1..], b);
        ClassConcat(cmp, k, [a[0]], Merge(cmp, a[1..], b));
        ClassConcat(cmp, k, [a[0]], a[1..]);
        assert a == [a[0]] + a[1..];
        Associate(Class(cmp, k, [a[0]]), Class(cmp, k, a[1..]), Class(cmp, k, b));
      } else {
        MergeFromRight(cmp, a, b);
        MergeStable(cmp, k, a, b[1..]);
        PassesNoEquivalent(cmp, k, a, b[0]);
        ClassConcat(cmp, k, [b[0]], Merge(cmp, a, b[1..]));
        ClassConcat(cmp, k, [b[0]], b[1..]);
        assert b == [b[0]] + b[1..];
        Associate(Class(cmp, k, [b[0]]), Class(cmp, k, a), Class(cmp, k, b[1..]));
      }
    }
  }

  /** Concatenation is associative, and two parts may trade places when one is empty. */
  lemma {:induction false} Associate<A>(x: seq<A>, y: seq<A>, z: seq<A>)
    ensures x + (y + z) == (x + y) + z
    ensures x == [] || y == [] ==> x + (y + z) == y + (x + z)
  {
  }

  lemma {:induction false} SweepStep<T>(cmp: Comparator<T>, k: nat, s: seq<Node<T>>)
    requires k > 0 && s != []
    ensures var m := Min(k, |s|); var n := Min(k, |s| - m);
            Sweep(cmp, k, s) == Merge(cmp, s[..m], s[m..m + n]) + Sweep(cmp, k, s[m + n..])
  {
  }

  lemma {:induction false} SweepStable<T(!new)>(cmp: Comparator<T>, n: nat, k: T, s: seq<Node<T>>)
    requires n > 0 && TotalPreorder(cmp) && BlocksSorted(cmp, n, s)
    ensures Class(cmp, k, Sweep(cmp, n, s)) == Class(cmp, k, s)
    decreases |s|
  {
    hide Class, Merge, Sweep, Sorted, BlocksSorted, TotalPreorder;
    if s != [] {
      var m, l := BlockSizes(cmp, n, s);
      var a, b, c := s[..m], s[m..m + l], s[m + l..];
      SweepStable(cmp, n, k, c);
      assert Class(cmp, k, Merge(cmp, a, b) + Sweep(cmp, n, c))
             == Class(cmp, k, a) + Class(cmp, k, b) + Class(cmp, k, c) by {
        MergeStable(cmp, k, a, b);
        ClassConcat(cmp, k, Merge(cmp, a, b), Sweep(cmp, n, c));
      }
      assert Class(cmp, k, a + b + c) == Class(cmp, k, a) + Class(cmp, k, b) + Class(cmp, k, c) by {
        ClassConcat(cmp, k, a, b);
        ClassConcat(cmp, k, a + b, c);
      }
      assert s == a + b + c;
      SweepStep(cmp, n, s);
    }
  }

  lemma {:induction false} MergeSortStable<T(!new)>(cmp: Comparator<T>, n: nat, k: T, s: seq<Node<T>>)
    requires n > 0 && TotalPreorder(cmp) && BlocksSorted(cmp, n, s)
    ensures Class(cmp, k, MergeSort(cmp, n, s)) == Class(cmp, k, s)
    decreases |s| - n
  {
    SweepStable(cmp, n, k, s);
    if |s| > 2 * n {
      SweepBlocks(cmp, n, s);
      MergeSortStable(cmp, 2 * n, k, Sweep(cmp, n, s));
    }
  }

  /** Main result on sequences: the bottom-up merge sort is a stable sort. */
  lemma {:induction false} MergeSortCorrect<T(!new)>(cmp: Comparator<T>, s: seq<Node<T>>)
    requires TotalPreorder(cmp)
    ensures StableSortOf(cmp, s, MergeSort(cmp, 1, s))
  {
    UnitBlocks(cmp, s);
    MergeSortPermutes(cmp, 1, s);
    MergeSortSorts(cmp, 1, s);
    forall k ensures Class(cmp, k, MergeSort(cmp, 1, s)) == Class(cmp, k, s) {
      MergeSortStable(cmp, 1, k, s);
    }
  }

  // ---------- there is only one stable sort ----------

  lemma {:induction false} ClassMember<T>(cmp: Comparator<T>, k: T, s: seq<Node<T>>, x: Node<T>)
    ensures x in Class(cmp, k, s) <==> x in s && Equivalent(cmp, k, x.data)
    decreases |s|
  {
    if s != [] {
      ClassMember(cmp, k, s[1..], x);
      assert s == [s[0]] + s[1..];
    }
  }

  lemma {:induction false} HeadClass<T(!new)>(cmp: Comparator<T>, s: seq<Node<T>>)
    requires TotalPreorder(cmp) && s != []
    ensures |Class(cmp, s[0].data, s)| > 0 && Class(cmp, s[0].data, s)[0] == s[0]
  {
    assert Equivalent(cmp, s[0].data, s[0].data);
  }

  lemma {:induction false} SameHead<T(!new)>(cmp: Comparator<T>, a: seq<Node<T>>, b: seq<Node<T>>)
    requires TotalPreorder(cmp) && Sorted(cmp, a) && Sorted(cmp, b) && Stable(cmp, a, b) && a != []
    ensures b != [] && a[0] == b[0]
  {
    HeadClass(cmp, a);
    var x := a[0];
    ClassMember(cmp, x.data, b, x);
    HeadClass(cmp, b);
    var y := b[0];
    ClassMember(cmp, y.data, a, y);
    ClassSame(cmp, x.data, y.data, b);
  }

  lemma {:induction false} TailsStable<T(!new)>(cmp: Comparator<T>, a: seq<Node<T>>, b: seq<Node<T>>)
    requires Stable(cmp, a, b) && a != [] && b != [] && a[0] == b[0]
    ensures Stable(cmp, a[1..], b[1..])
  {
    forall k ensures Class(cmp, k, b[1..]) == Class(cmp, k, a[1..]) {
      assert Class(cmp, k, b) == Class(cmp, k, a);
      var head := if Equivalent(cmp, k, a[0].data) then [a[0]] else [];
      assert Class(cmp, k, a)[|head|..] == Class(cmp, k, a[1..]);
      assert Class(cmp, k, b)[|head|..] == Class(cmp, k, b[1..]);
    }
  }

  lemma {:induction false} StableSortUnique<T(!new)>(cmp: Comparator<T>, a: seq<Node<T>>, b: seq<Node<T>>)
    requires TotalPreorder(cmp) && Sorted(cmp, a) && Sorted(cmp, b) && Stable(cmp, a, b)
    ensures a == b
    decreases |a|
  {
    if a == [] {
      if b != [] {
        HeadClass(cmp, b);
      }
    } else {
      SameHead(cmp, a, b);
      TailsStable(cmp, a, b);
      hide Stable, Class, TotalPreorder;
      StableSortUnique(cmp, a[1..], b[1..]);
      assert a == [a[0]] + a[1..] && b == [b[0]] + b[1..];
    }
  }

  lemma {:induction false} ClassSame<T(!new)>(cmp: Comparator<T>, j: T, k: T, s: seq<Node<T>>)
    requires TotalPreorder(cmp) && Equivalent(cmp, j, k)
    ensures Class(cmp, j, s) == Class(cmp, k, s)
    decreases |s|
  {
    if s != [] { ClassSame(cmp, j, k, s[1..]); }
  }
}
