/** What the modules share: return codes, limits, and the two or three collection notions that
    more than one of them needs. */
module Common {

  datatype Option<+T> = None | Some(value: T)

  const RETURN_OK := 0
  const RETURN_ERR := -1
  const INT_MAX := 0x7fff_ffff
  const DEFAULT_SEQ_START_NUMBER := 100

  function Min(a: nat, b: nat): nat { if a <= b then a else b }

  ghost predicate Distinct<T>(s: seq<T>) {
    forall i, j :: 0 <= i < j < |s| ==> s[i] != s[j]
  }

  /** The elements that do not belong to descriptor `fd`, in order. */
  function WithoutFd<T>(fdOf: T -> int, s: seq<T>, fd: int): (r: seq<T>)
    ensures |r| <= |s|
    ensures forall x :: x in r ==> x in s && fdOf(x) != fd
  {
    if s == [] then []
    else (if fdOf(s[0]) == fd then [] else [s[0]]) + WithoutFd(fdOf, s[1..], fd)
  }

  /** One round of a loop that removes such elements in place: element `i` goes, or is passed. */
  lemma {:induction false} WithoutFdStep<T>(fdOf: T -> int, s: seq<T>, i: nat, fd: int)
    requires i < |s|
    ensures fdOf(s[i]) == fd ==>
              var t := s[..i] + s[i + 1..]; t[..i] + WithoutFd(fdOf, t[i..], fd) == s[..i] + WithoutFd(fdOf, s[i..], fd)
    ensures fdOf(s[i]) != fd ==> s[..i + 1] + WithoutFd(fdOf, s[i + 1..], fd) == s[..i] + WithoutFd(fdOf, s[i..], fd)
  {
    hide WithoutFd;
    SplitAt(s, i);
    WithoutFdConcat(fdOf, [s[i]], s[i + 1..], fd);
    WithoutFdOne(fdOf, s[i], fd);
    Joins(s[..i], [s[i]], WithoutFd(fdOf, s[i + 1..], fd));
  }

  lemma {:induction false} SplitAt<T>(s: seq<T>, i: nat)
    requires i < |s|
    ensures s[i..] == [s[i]] + s[i + 1..] && s[..i + 1] == s[..i] + [s[i]]
    ensures (s[..i] + s[i + 1..])[..i] == s[..i] && (s[..i] + s[i + 1..])[i..] == s[i + 1..]
  {
  }

  /** Elements are kept or removed one by one, wherever they stand, so their order stays. */
  lemma {:induction false} WithoutFdConcat<T>(fdOf: T -> int, a: seq<T>, b: seq<T>, fd: int)
    ensures WithoutFd(fdOf, a + b, fd) == WithoutFd(fdOf, a, fd) + WithoutFd(fdOf, b, fd)
    decreases |a|
  {
    if a == [] {
      assert a + b == b;
    } else {
      assert (a + b)[0] == a[0] && (a + b)[1..] == a[1..] + b;
      WithoutFdConcat(fdOf, a[1..], b, fd);
      Joins(if fdOf(a[0]) == fd then [] else [a[0]], WithoutFd(fdOf, a[1..], fd), WithoutFd(fdOf, b, fd));
    }
  }

  lemma {:induction false} Joins<T>(a: seq<T>, b: seq<T>, c: seq<T>)
    ensures a + (b + c) == a + b + c
  {
  }

  lemma {:induction false} WithoutFdOne<T>(fdOf: T -> int, x: T, fd: int)
    ensures WithoutFd(fdOf, [x], fd) == if fdOf(x) == fd then [] else [x]
  {
    assert [x][1..] == [];
  }

  lemma {:induction false} WithoutFdKeeps<T>(fdOf: T -> int, s: seq<T>, fd: int, x: T)
    requires x in s && fdOf(x) != fd
    ensures x in WithoutFd(fdOf, s, fd)
    decreases |s|
  {
    if s[0] != x { WithoutFdKeeps(fdOf, s[1..], fd, x); }
  }

  lemma {:induction false} WithoutFdAbsent<T>(fdOf: T -> int, s: seq<T>, fd: int)
    requires forall x :: x in s ==> fdOf(x) != fd
    ensures WithoutFd(fdOf, s, fd) == s
    decreases |s|
  {
    if s != [] { WithoutFdAbsent(fdOf, s[1..], fd); }
  }

  /** `a` stands before `b`. */
  ghost predicate Precedes<T>(s: seq<T>, a: T, b: T) {
    exists i, j :: 0 <= i < j < |s| && s[i] == a && s[j] == b
  }

  /** The elements that stay keep their relative order. */
  lemma {:induction false} WithoutFdOrder<T>(fdOf: T -> int, s: seq<T>, fd: int, a: T, b: T)
    requires Precedes(s, a, b) && fdOf(a) != fd && fdOf(b) != fd
    ensures Precedes(WithoutFd(fdOf, s, fd), a, b)
  {
    var i, j :| 0 <= i < j < |s| && s[i] == a && s[j] == b;
    var u, v := s[..j], s[j..];
    assert s == u + v;
    assert a in u by { assert u[i] == a; }
    assert b in v by { assert v[0] == b; }
    WithoutFdConcat(fdOf, u, v, fd);
    WithoutFdKeeps(fdOf, u, fd, a);
    WithoutFdKeeps(fdOf, v, fd, b);
    InOrder(WithoutFd(fdOf, u, fd), WithoutFd(fdOf, v, fd), a, b);
  }

  lemma {:induction false} InOrder<T>(u: seq<T>, v: seq<T>, a: T, b: T)
    requires a in u && b in v
    ensures Precedes(u + v, a, b)
  {
    var i :| 0 <= i < |u| && u[i] == a;
    var j :| 0 <= j < |v| && v[j] == b;
    assert (u + v)[i] == a && (u + v)[|u| + j] == b;
  }
}
