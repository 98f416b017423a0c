/** The in-place sort macros of utlist: `LL_SORT2`, `DL_SORT2` and `CDL_SORT2`.

    The three macros share one text. They differ in two places only: the doubly linked
    forms also set `prev` as each node is emitted, and the circular form recognises the
    end of the input by the old head instead of by NULL. `Links` selects between them. */
module ListSort {
  import opened Common
  import opened SortSpec

  datatype Links = Single | Double | Circular

  // ---------- list shapes ----------

  /** Consecutive nodes are linked by `next`; the last node's `next` is left open. */
  ghost predicate Linked<T>(s: seq<Node<T>>)
    reads s
  {
    forall i :: 0 <= i < |s| - 1 ==> s[i].next == s[i + 1]
  }

  /** `Linked`, and the last `next` is `end`. */
  ghost predicate Chain<T>(s: seq<Node<T>>, end: Node?<T>)
    reads s
  {
    Linked(s) && (s != [] ==> s[|s| - 1].next == end)
  }

  /** Every `prev` but the first is the predecessor. */
  ghost predicate BackLinked<T>(s: seq<Node<T>>)
    reads s
  {
    forall i :: 0 < i < |s| ==> s[i].prev == s[i - 1]
  }

  function First<T>(s: seq<Node<T>>): (n: Node?<T>) { if s == [] then null else s[0] }

  function Last<T>(s: seq<Node<T>>): (n: Node?<T>) { if s == [] then null else s[|s| - 1] }

  /** `head` is a list of the given discipline holding exactly the nodes `s`, in order. */
  ghost predicate IsList<T>(links: Links, head: Node?<T>, s: seq<Node<T>>)
    reads s
  {
    && Distinct(s)
    && head == First(s)
    && Chain(s, if links.Circular? then First(s) else null)
    && (!links.Single? && s != [] ==> BackLinked(s) && s[0].prev == Last(s))
  }

  /** The next input node, or null at the end of the input. */
  function Successor<T>(n: Node<T>, end: Node?<T>): (r: Node?<T>)
    reads n
  {
    if n.next == end then null else n.next
  }

  // ---------- one merge ----------

  /** Step over at most `insize` nodes: the left run has `psize` nodes and `q` starts the rest. */
  method TakeRun<T>(p: Node<T>, insize: nat, end: Node?<T>, ghost rest: seq<Node<T>>)
    returns (psize: nat, q: Node?<T>)
    requires insize > 0 && rest != [] && p == rest[0]
    requires Chain(rest, end) && end !in rest[1..]
    ensures psize == Min(insize, |rest|)
    ensures q == First(rest[psize..])
  {
    q := p;
    psize := 0;
    var i := 0;
    while i < insize
      invariant psize == i <= insize && i < |rest| && q == rest[i]
    {
      psize := psize + 1;
      assert i + 1 < |rest| ==> rest[i + 1] == rest[1..][i];
      q := Successor(q, end);
      if q == null { break; }
      i := i + 1;
    }
  }

  /** What the sort holds while it emits nodes: `out` is the finished part of the list. */
  ghost predicate Emitted<T>(links: Links, head: Node?<T>, tail: Node?<T>, out: seq<Node<T>>)
    reads out
  {
    && Distinct(out)
    && head == First(out) && tail == Last(out)
    && Linked(out)
    && (!links.Single? ==> BackLinked(out))
  }

  ghost predicate Within<T>(s: seq<Node<T>>, frame: set<Node<T>>) {
    forall x :: x in s ==> x in frame
  }

  ghost predicate Disjoint<T>(a: seq<Node<T>>, b: seq<Node<T>>) {
    forall x :: x in a ==> x !in b
  }

  /** `out` is emitted, `a` is what is left of the left run and `rest` the input behind it. */
  ghost predicate Merging<T>(links: Links, head: Node?<T>, tail: Node?<T>, end: Node?<T>,
                             out: seq<Node<T>>, a: seq<Node<T>>, rest: seq<Node<T>>)
    reads out, a, rest
  {
    && Emitted(links, head, tail, out)
    && Linked(a) && Distinct(a) && (a != [] ==> end !in a[1..])
    && Chain(rest, end) && Distinct(rest) && end !in rest
    && Disjoint(a, rest) && Disjoint(out, a) && Disjoint(out, rest)
  }

  /** Append `e` to the output, as each macro does at the bottom of its merge loop. */
  method Emit<T>(links: Links, head: Node?<T>, tail: Node?<T>, e: Node<T>, ghost out: seq<Node<T>>)
    returns (newHead: Node?<T>, newTail: Node?<T>)
    requires Emitted(links, head, tail, out) && e !in out
    modifies tail, e`prev
    ensures Emitted(links, newHead, newTail, out + [e])
  {
    newHead := head;
    if tail != null {
      tail.next := e;
    } else {
      newHead := e;
    }
    if !links.Single? {
      e.prev := tail;
    }
    newTail := e;
    ghost var o := out + [e];
    assert forall i :: 0 <= i < |out| ==> o[i] == out[i];
  }

  method EmitLeft<T>(links: Links, head: Node?<T>, tail: Node?<T>, end: Node?<T>, p: Node<T>,
                     ghost out: seq<Node<T>>, ghost a: seq<Node<T>>, ghost rest: seq<Node<T>>,
                     ghost frame: set<Node<T>>)
    returns (newHead: Node?<T>, newTail: Node?<T>, newP: Node?<T>)
    requires Merging(links, head, tail, end, out, a, rest) && a != [] && p == a[0]
    requires Within(out, frame) && p in frame
    modifies frame
    ensures Merging(links, newHead, newTail, end, out + [p], a[1..], rest)
    ensures Within(out + [p], frame)
    ensures |a| > 1 ==> newP == a[1]
  {
    newP := Successor(p, end);
    assert tail == null || tail in out;
    assert |a| > 1 ==> a[1] in a[1..];
    newHead, newTail := Emit(links, head, tail, p, out);
  }

  method EmitRight<T>(links: Links, head: Node?<T>, tail: Node?<T>, end: Node?<T>, q: Node<T>,
                      ghost out: seq<Node<T>>, ghost a: seq<Node<T>>, ghost rest: seq<Node<T>>,
                     ghost frame: set<Node<T>>)
    returns (newHead: Node?<T>, newTail: Node?<T>, newQ: Node?<T>)
    requires Merging(links, head, tail, end, out, a, rest) && rest != [] && q == rest[0]
    requires Within(out, frame) && q in frame
    modifies frame
    ensures Merging(links, newHead, newTail, end, out + [q], a, rest[1..])
    ensures Within(out + [q], frame)
    ensures newQ == First(rest[1..])
  {
    newQ := Successor(q, end);
    assert tail == null || tail in out;
    assert |rest| > 1 ==> rest[1] in rest;
    newHead, newTail := Emit(links, head, tail, q, out);
  }

  /** Merge the left run `a0` with the right run `b0`; `c` is the input behind both. */
  method MergeRuns<T>(links: Links, cmp: Comparator<T>, p0: Node?<T>, psize0: nat, q0: Node?<T>, insize: nat,
                      end: Node?<T>, head0: Node?<T>, tail0: Node?<T>, ghost out0: seq<Node<T>>, ghost a0: seq<Node<T>>,
                      ghost b0: seq<Node<T>>, ghost c: seq<Node<T>>, ghost frame: set<Node<T>>)
    returns (head: Node?<T>, tail: Node?<T>, q: Node?<T>)
    requires psize0 == |a0| > 0 && p0 == a0[0] && q0 == First(b0 + c)
    requires |b0| == Min(insize, |b0 + c|)
    requires Merging(links, head0, tail0, end, out0, a0, b0 + c)
    requires Within(out0, frame) && Within(a0, frame) && Within(b0, frame)
    modifies frame
    ensures Merging(links, head, tail, end, out0 + Merge(cmp, a0, b0), [], c)
    ensures q == First(c)
  {
    hide Merging, Merge;
    head, tail, q := head0, tail0, q0;
    var p, psize, qsize := p0, psize0, insize;
    ghost var out, a, b, done: seq<Node<T>> := out0, a0, b0, [];
    while psize > 0 || (qsize > 0 && q != null)
      invariant psize == |a| && (psize > 0 ==> p == a[0])
      invariant q == First(b + c) && |b| == Min(qsize, |b + c|)
      invariant out == out0 + done && done + Merge(cmp, a, b) == Merge(cmp, a0, b0)
      invariant Merging(links, head, tail, end, out, a, b + c)
      invariant Within(out, frame) && Within(a, frame) && Within(b, frame)
      decreases |a| + |b|
    {
      var fromLeft: bool;
      if psize == 0 {
        fromLeft := false;
      } else if qsize == 0 || q == null {
        fromLeft := true;
      } else if cmp(p.data, q.data) <= 0 {
        fromLeft := true;
      } else {
        fromLeft := false;
      }
      if fromLeft {
        MergeFromLeft(cmp, a, b);
        assert done + ([p] + Merge(cmp, a[1..], b)) == done + [p] + Merge(cmp, a[1..], b);
        out, done := out + [p], done + [p];
        head, tail, p := EmitLeft(links, head, tail, end, p, out[..|out| - 1], a, b + c, frame);
        psize, a := psize - 1, a[1..];
      } else {
        assert q == b[0] && (b + c)[1..] == b[1..] + c;
        MergeFromRight(cmp, a, b);
        assert done + ([q] + Merge(cmp, a, b[1..])) == done + [q] + Merge(cmp, a, b[1..]);
        out, done := out + [q], done + [q];
        head, tail, q := EmitRight(links, head, tail, end, q, out[..|out| - 1], a, b + c, frame);
        qsize, b := qsize - 1, b[1..];
      }
    }
    assert done == Merge(cmp, a0, b0) && b + c == c;
  }

  // ---------- one sweep and the whole sort ----------

  /** Between two merges of a sweep: `out` is emitted and `rest` is still to be merged. */
  ghost predicate Sweeping<T>(links: Links, head: Node?<T>, tail: Node?<T>, end: Node?<T>,
                              out: seq<Node<T>>, rest: seq<Node<T>>)
    reads out, rest
  {
    && Emitted(links, head, tail, out) && Disjoint(out, rest)
    && Distinct(rest) && Chain(rest, end) && (rest != [] ==> end !in rest[1..])
  }

  /** Splitting the input at the runs' borders meets what a merge expects. */
  lemma {:induction false} SplitRuns<T>(links: Links, head: Node?<T>, tail: Node?<T>, end: Node?<T>,
                     out: seq<Node<T>>, rest: seq<Node<T>>, m: nat)
    requires Sweeping(links, head, tail, end, out, rest) && 0 < m <= |rest|
    ensures Merging(links, head, tail, end, out, rest[..m], rest[m..])
  {
    forall i | m <= i < |rest| ensures rest[i] != end {
      assert rest[i] == rest[1..][i - 1];
    }
    assert rest[..m][1..] == rest[1..][..m - 1];
  }

  /** The input behind a pair of runs is again ready to be swept. */
  method MergePair<T>(links: Links, cmp: Comparator<T>, p: Node<T>, insize: nat, end: Node?<T>,
                      head0: Node?<T>, tail0: Node?<T>, ghost out: seq<Node<T>>, ghost rest: seq<Node<T>>,
                      ghost frame: set<Node<T>>)
    returns (head: Node?<T>, tail: Node?<T>, q: Node?<T>, ghost merged: seq<Node<T>>, ghost c: seq<Node<T>>)
    requires insize > 0 && rest != [] && p == rest[0]
    requires Sweeping(links, head0, tail0, end, out, rest)
    requires Within(out, frame) && Within(rest, frame)
    modifies frame
    ensures Sweeping(links, head, tail, end, out + merged, c) && q == First(c)
    ensures Sweep(cmp, insize, rest) == merged + Sweep(cmp, insize, c)
    ensures c == rest[Min(2 * insize, |rest|)..]
    ensures Within(out + merged, frame) && Within(c, frame)
  {
    hide Sweeping, Sweep, Within, Merging, Merge, Chain;
    SweepingRest(links, head0, tail0, end, out, rest);
    var psize: nat;
    psize, q := TakeRun(p, insize, end, rest);
    ghost var n := Min(insize, |rest| - psize);
    ghost var a, b := rest[..psize], rest[psize..psize + n];
    c := rest[psize + n..];
    merged := Merge(cmp, a, b);
    SplitRuns(links, head0, tail0, end, out, rest, psize);
    assert rest[psize..] == b + c;
    SweepStep(cmp, insize, rest);
    WithinParts(cmp, out, rest, psize, n, frame);
    head, tail, q := MergeRuns(links, cmp, p, psize, q, insize, end, head0, tail0, out, a, b, c, frame);
    MergedRest(links, head, tail, end, out + merged, c);
  }

  lemma {:induction false} WithinNone<T>(frame: set<Node<T>>)
    ensures Within<T>([], frame)
  {
  }

  lemma {:induction false} WithinParts<T>(cmp: Comparator<T>, out: seq<Node<T>>, rest: seq<Node<T>>, m: nat, n: nat,
                                          frame: set<Node<T>>)
    requires m + n <= |rest| && Within(out, frame) && Within(rest, frame)
    ensures Within(rest[..m], frame) && Within(rest[m..m + n], frame) && Within(rest[m + n..], frame)
    ensures Within(out + Merge(cmp, rest[..m], rest[m..m + n]), frame)
  {
    MergeMembers(cmp, rest[..m], rest[m..m + n]);
  }

  lemma {:induction false} SweepingRest<T>(links: Links, head: Node?<T>, tail: Node?<T>, end: Node?<T>,
                                           out: seq<Node<T>>, rest: seq<Node<T>>)
    requires Sweeping(links, head, tail, end, out, rest) && rest != []
    ensures Chain(rest, end) && end !in rest[1..]
  {
  }

  lemma {:induction false} MergedRest<T>(links: Links, head: Node?<T>, tail: Node?<T>, end: Node?<T>, out: seq<Node<T>>,
                                         rest: seq<Node<T>>)
    requires Merging(links, head, tail, end, out, [], rest)
    ensures Sweeping(links, head, tail, end, out, rest)
  {
  }

  lemma {:induction false} MergeMembers<T>(cmp: Comparator<T>, a: seq<Node<T>>, b: seq<Node<T>>)
    ensures forall x :: x in Merge(cmp, a, b) ==> x in a || x in b
  {
    MergePermutes(cmp, a, b);
    forall x | x in Merge(cmp, a, b) ensures x in a || x in b {
      assert x in multiset(Merge(cmp, a, b));
    }
  }

  /** The loop over all pairs of runs of length `insize`. */
  method MergePairs<T>(links: Links, cmp: Comparator<T>, list: Node<T>, insize: nat, end: Node?<T>,
                       ghost s: seq<Node<T>>, ghost frame: set<Node<T>>)
    returns (head: Node?<T>, tail: Node?<T>, nmerges: nat)
    requires insize > 0 && list == First(s) && Sweeping(links, null, null, end, [], s) && Within(s, frame)
    modifies frame
    ensures Sweeping(links, head, tail, end, Sweep(cmp, insize, s), [])
    ensures nmerges <= 1 <==> |s| <= 2 * insize
    ensures Within(Sweep(cmp, insize, s), frame)
  {
    hide Sweeping, Sweep, Within;
    var p: Node?<T> := list;
    head, tail, nmerges := null, null, 0;
    ghost var out: seq<Node<T>>, rest := [], s;
    WithinNone(frame);
    while p != null
      invariant p == First(rest) && Sweeping(links, head, tail, end, out, rest)
      invariant out + Sweep(cmp, insize, rest) == Sweep(cmp, insize, s)
      invariant Within(out, frame) && Within(rest, frame)
      invariant nmerges == 0 ==> rest == s
      invariant nmerges == 1 ==> rest == s[Min(2 * insize, |s|)..]
      invariant nmerges >= 2 ==> |s| > 2 * insize
      decreases |rest|
    {
      nmerges := nmerges + 1;
      ghost var merged, c;
      head, tail, p, merged, c := MergePair(links, cmp, p, insize, end, head, tail, out, rest, frame);
      assert out + (merged + Sweep(cmp, insize, c)) == (out + merged) + Sweep(cmp, insize, c);
      out, rest := out + merged, c;
    }
    assert out == Sweep(cmp, insize, s);
  }

  /** After a sweep: the head's `prev` and the tail's `next`. */
  method CloseEnds<T>(links: Links, head: Node<T>, tail: Node<T>, ghost out: seq<Node<T>>)
    requires Emitted(links, head, tail, out)
    modifies head`prev, tail`next
    ensures IsList(links, head, out)
  {
    if !links.Single? {
      head.prev := tail;
    }
    tail.next := if links.Circular? then head else null;
  }

  /** One round of the outer loop: a sweep, and then the links at the two ends. */
  method SweepList<T>(links: Links, cmp: Comparator<T>, list: Node<T>, insize: nat, ghost s: seq<Node<T>>)
    returns (head: Node?<T>, nmerges: nat)
    requires insize > 0 && s != [] && IsList(links, list, s)
    modifies set x | x in s
    ensures IsList(links, head, Sweep(cmp, insize, s))
    ensures nmerges <= 1 <==> |s| <= 2 * insize
  {
    var end: Node?<T> := if links.Circular? then list else null;
    var tail: Node?<T>;
    head, tail, nmerges := MergePairs(links, cmp, list, insize, end, s, set x | x in s);
    ghost var out := Sweep(cmp, insize, s);
    assert head in out && tail in out;
    CloseEnds(links, head, tail, out);
  }

  /** `LL_SORT2`, `DL_SORT2` and `CDL_SORT2` as a whole, for any comparator; with a total
      preorder the result is the stable sort of the list. `insize` stays below four times the
      length of the list, so an int holds it for every list of up to 2^29 nodes. */
  method SortList<T(!new)>(links: Links, cmp: Comparator<T>, list: Node?<T>, ghost s: seq<Node<T>>)
    returns (head: Node?<T>)
    requires IsList(links, list, s)
    modifies set x | x in s
    ensures IsList(links, head, MergeSort(cmp, 1, s))
    ensures multiset(MergeSort(cmp, 1, s)) == multiset(s)
    ensures TotalPreorder(cmp) ==> StableSortOf(cmp, s, MergeSort(cmp, 1, s))
  {
    head := list;
    MergeSortPermutes(cmp, 1, s);
    if TotalPreorder(cmp) { MergeSortCorrect(cmp, s); }
    if head == null { return; }
    var insize, looping := 1, true;
    ghost var t := s;
    while looping
      invariant 1 <= insize && |t| == |s| && IsList(links, head, t)
      invariant insize < 4 * |s|
      invariant if looping then MergeSort(cmp, insize, t) == MergeSort(cmp, 1, s) else t == MergeSort(cmp, 1, s)
      invariant looping && insize > 1 ==> insize < |s|
      invariant Within(t, set x | x in s)
      decreases looping, |s| - insize
    {
      var nmerges;
      head, nmerges := SweepList(links, cmp, head, insize, t);
      SweepMembers(cmp, insize, t);
      t := Sweep(cmp, insize, t);
      if nmerges <= 1 {
        looping := false;
      }
      insize := insize * 2;
    }
  }

  lemma {:induction false} SweepMembers<T>(cmp: Comparator<T>, k: nat, s: seq<Node<T>>)
    requires k > 0
    ensures forall x :: x in Sweep(cmp, k, s) ==> x in s
  {
    SweepPermutes(cmp, k, s);
    forall x | x in Sweep(cmp, k, s) ensures x in s {
      assert x in multiset(Sweep(cmp, k, s));
    }
  }
}
