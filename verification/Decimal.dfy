/** Numbers as text: printf's "%d" and "%8.8d", strtol, and the integer casts of a platform
    with 32-bit int and 64-bit long. */
module Decimal {

  predicate IsDigit(c: char) { '0' <= c <= '9' }

  function DigitValue(c: char): nat
    requires IsDigit(c)
  {
    c as int - '0' as int
  }

  function Digit(d: nat): (c: char)
    requires d < 10
    ensures IsDigit(c) && DigitValue(c) == d
  {
    ('0' as int + d) as char
  }

  ghost predicate AllDigits(s: string) { forall i :: 0 <= i < |s| ==> IsDigit(s[i]) }

  /** The number a digit string denotes in the given base. */
  function Value(base: nat, s: string): (v: nat)
    requires AllDigits(s)
  {
    if s == "" then 0 else Value(base, s[..|s| - 1]) * base + DigitValue(s[|s| - 1])
  }

  /** Decimal text of at least `width` digits, padded with zeros on the left. */
  function Text(n: nat, width: nat): (s: string)
    ensures AllDigits(s) && |s| >= width && |s| >= 1
    decreases n + width
  {
    if n < 10 && width <= 1 then [Digit(n)]
    else Text(n / 10, if width == 0 then 0 else width - 1) + [Digit(n % 10)]
  }

  /** Printing and reading back in base ten is the identity. */
  lemma {:induction false} TextValue(n: nat, width: nat)
    ensures Value(10, Text(n, width)) == n
    decreases n + width
  {
    var s := Text(n, width);
    if n < 10 && width <= 1 {
      assert s[..|s| - 1] == "";
    } else {
      var w := if width == 0 then 0 else width - 1;
      TextValue(n / 10, w);
      assert s[..|s| - 1] == Text(n / 10, w);
    }
  }

  lemma {:induction false} TextInjective(m: nat, n: nat, width: nat)
    requires Text(m, width) == Text(n, width)
    ensures m == n
  {
    TextValue(m, width);
    TextValue(n, width);
  }

  /** No leading zeros beyond the width that is asked for. */
  lemma {:induction false} TextCanonical(n: nat, width: nat)
    ensures var s := Text(n, width);
            |s| > width && |s| > 1 ==> s[0] != '0'
    ensures n < 10 && width <= 1 ==> |Text(n, width)| == 1
    ensures n > 0 && width <= 1 ==> Text(n, width)[0] != '0'
    decreases n + width
  {
    if !(n < 10 && width <= 1) {
      TextCanonical(n / 10, if width == 0 then 0 else width - 1);
    }
  }

  function Pow10(k: nat): (p: nat)
    ensures p >= 1
  {
    if k == 0 then 1 else 10 * Pow10(k - 1)
  }

  /** A number of at most `width` digits takes exactly `width`, a longer one as many as it has. */
  lemma {:induction false} TextLength(n: nat, width: nat, k: nat)
    requires k > 0
    ensures width <= k && n < Pow10(k) ==> |Text(n, width)| <= k
    ensures n >= Pow10(k) ==> |Text(n, width)| > k
    decreases k
  {
    var w := if width == 0 then 0 else width - 1;
    if k > 1 {
      TextLength(n / 10, w, k - 1);
    } else {
      assert Pow10(1) == 10 * Pow10(0) == 10;
    }
  }

  lemma {:induction false} EightDigits(n: nat)
    requires n < 100000000
    ensures |Text(n, 8)| == 8
  {
    assert Pow10(4) == 10000 by { assert Pow10(2) == 100; }
    assert Pow10(8) == 100000000 by { assert Pow10(6) == 1000000; }
    TextLength(n, 8, 8);
  }

  lemma {:induction false} DivideTwice(n: nat, p: nat)
    requires p > 0
    ensures n / 10 / p == n / (10 * p)
  {
    var q, r := n / (10 * p), n % (10 * p);
    assert n == 10 * (p * q) + r && 0 <= r / 10 < p;
    assert n / 10 == p * q + r / 10;
    QuotientIs(n / 10, p, q, r / 10);
  }

  lemma {:induction false} QuotientIs(m: nat, p: nat, q: nat, r: nat)
    requires p > 0 && r < p && m == p * q + r
    ensures m / p == q
  {
    var d := m / p - q;
    assert m == p * (m / p) + m % p;
    assert p * d == r - m % p;
    assert d <= -1 ==> p * d + p <= 0;
    assert d >= 1 ==> p * d >= p;
  }

  /** The digit of weight 10^i stands at the i-th place from the right. */
  lemma {:induction false} TextDigit(n: nat, width: nat, i: nat)
    requires i < |Text(n, width)|
    ensures Text(n, width)[|Text(n, width)| - 1 - i] == Digit(n / Pow10(i) % 10)
    decreases i
  {
    if i > 0 {
      TextDigit(n / 10, if width == 0 then 0 else width - 1, i - 1);
      DivideTwice(n, Pow10(i - 1));
    }
  }

  // ---------- signed decimal and strtol ----------

  const TWO_31 := 0x8000_0000
  const TWO_32 := 0x1_0000_0000
  const LONG_MAX := 0x7fff_ffff_ffff_ffff

  function ToUint32(n: int): (r: int)
    ensures 0 <= r < TWO_32
  {
    n % TWO_32
  }

  function ToInt32(n: int): (r: int)
    ensures -TWO_31 <= r < TWO_31
  {
    (n + TWO_31) % TWO_32 - TWO_31
  }

  function Format(n: int): string { if n < 0 then "-" + Text(-n, 1) else Text(n, 1) }

  predicate IsSpace(c: char) { c == ' ' || 9 <= c as int <= 13 }

  /** The length of the leading run of digits. */
  function Run(s: string): (n: nat)
    ensures n <= |s| && AllDigits(s[..n]) && (n < |s| ==> !IsDigit(s[n]))
  {
    if s == "" || !IsDigit(s[0]) then 0
    else
      var r := Run(s[1..]);
      assert s[..1 + r] == [s[0]] + s[1..][..r];
      1 + r
  }

  function Saturate(n: int): (r: int)
    ensures -LONG_MAX - 1 <= r <= LONG_MAX
  {
    if n > LONG_MAX then LONG_MAX else if n < -LONG_MAX - 1 then -LONG_MAX - 1 else n
  }

  /** `strtol(s, NULL, 10)`; `atol` is the same and `atoi` casts the result to int. */
  function Strtol(s: string): (r: int)
    ensures -LONG_MAX - 1 <= r <= LONG_MAX
  {
    if s != "" && IsSpace(s[0]) then Strtol(s[1..])
    else if s != "" && s[0] == '-' then Saturate(0 - Value(10, s[1..][..Run(s[1..])]))
    else if s != "" && s[0] == '+' then Saturate(Value(10, s[1..][..Run(s[1..])]))
    else Saturate(Value(10, s[..Run(s)]))
  }

  lemma {:induction false} RunAll(s: string)
    requires AllDigits(s)
    ensures Run(s) == |s| && s[..Run(s)] == s
    decreases |s|
  {
    if s != "" { RunAll(s[1..]); }
  }

  /** Every long survives printing and reading; other numbers come back as the nearest long. */
  lemma {:induction false} StrtolFormat(n: int)
    ensures Strtol(Format(n)) == Saturate(n)
    ensures -LONG_MAX - 1 <= n <= LONG_MAX ==> Strtol(Format(n)) == n
  {
    var t := Text(if n < 0 then -n else n, 1);
    RunAll(t);
    TextValue(if n < 0 then -n else n, 1);
    if n < 0 {
      assert Format(n)[1..] == t;
    } else {
      assert IsDigit(t[0]);
    }
  }

  /** Decimal text as "%ld" prints it: a minus sign for negative numbers, digits, no leading zero. */
  ghost predicate CanonicalDecimal(s: string) {
    || s == "0"
    || (s != "" && AllDigits(s) && s[0] != '0')
    || (|s| > 1 && s[0] == '-' && AllDigits(s[1..]) && s[1] != '0')
  }

  lemma {:induction false} FormatCanonical(n: int)
    ensures CanonicalDecimal(Format(n)) && (n < 0 <==> Format(n)[0] == '-')
  {
    if n == 0 {
      assert Text(0, 1) == [Digit(0)] && Digit(0) == '0';
    } else {
      var t := Text(if n < 0 then -n else n, 1);
      TextCanonical(if n < 0 then -n else n, 1);
      assert IsDigit(t[0]) && IsDigit(Format(n)[|Format(n)| - 1]);
      assert n < 0 ==> Format(n)[1..] == t && Format(n)[1] == t[0];
    }
  }

  /** strtol skips white space, takes one sign and reads digits up to the first other character. */
  lemma {:induction false} StrtolReads(space: string, sign: string, digits: string, rest: string)
    requires (forall i :: 0 <= i < |space| ==> IsSpace(space[i])) && (sign == "" || sign == "+" || sign == "-")
    requires AllDigits(digits) && digits != "" && (rest == "" || !IsDigit(rest[0]))
    ensures Strtol(space + sign + digits + rest)
         == Saturate(if sign == "-" then 0 - Value(10, digits) else Value(10, digits))
    decreases |space|
  {
    var s := space + sign + digits + rest;
    if space == "" {
      assert s == sign + (digits + rest);
      StrtolSigned(sign, digits, rest);
    } else {
      assert s[0] == space[0] && s[1..] == space[1..] + sign + digits + rest;
      assert Strtol(s) == Strtol(s[1..]);
      hide Strtol, Value, Saturate;
      StrtolReads(space[1..], sign, digits, rest);
    }
  }

  lemma {:induction false} StrtolSigned(sign: string, digits: string, rest: string)
    requires AllDigits(digits) && digits != "" && (rest == "" || !IsDigit(rest[0]))
    requires sign == "" || sign == "+" || sign == "-"
    ensures Strtol(sign + (digits + rest)) == Saturate(if sign == "-" then 0 - Value(10, digits) else Value(10, digits))
  {
    var s, t := sign + (digits + rest), digits + rest;
    RunOf(digits, rest);
    assert t[..Run(t)] == digits && IsDigit(t[0]);
    hide Value, Run, Saturate;
    if sign == "" {
      assert s == t;
    } else {
      assert s[0] == sign[0] && s[1..] == t;
    }
  }

  lemma {:induction false} RunOf(digits: string, rest: string)
    requires AllDigits(digits) && (rest == "" || !IsDigit(rest[0]))
    ensures Run(digits + rest) == |digits| && (digits + rest)[..|digits|] == digits
    decreases |digits|
  {
    if digits == "" {
      assert digits + rest == rest;
    } else {
      assert (digits + rest)[1..] == digits[1..] + rest;
      RunOf(digits[1..], rest);
    }
  }

  /** Different numbers print differently. */
  lemma {:induction false} FormatInjective(m: int, n: int)
    ensures Format(m) == Format(n) <==> m == n
  {
    if Format(m) == Format(n) {
      var a, b := Text(if m < 0 then -m else m, 1), Text(if n < 0 then -n else n, 1);
      assert m >= 0 ==> IsDigit(Format(m)[0]);
      assert n >= 0 ==> IsDigit(Format(n)[0]);
      assert m < 0 ==> Format(m)[1..] == a;
      assert n < 0 ==> Format(n)[1..] == b;
      TextInjective(if m < 0 then -m else m, if n < 0 then -n else n, 1);
    }
  }

  // ---------- the last digits of a number ----------

  /** The last `k` decimal digits of `n`, as a number. */
  function Low10(n: nat, k: nat): (v: nat) {
    if k == 0 then 0 else Low10(n / 10, k - 1) * 10 + n % 10
  }

  /** The last `k` base-sixteen digits of `n`, as a number. */
  function Low16(n: nat, k: nat): (v: nat) {
    if k == 0 then 0 else Low16(n / 16, k - 1) * 16 + n % 16
  }

  lemma {:induction false} TwoLow10(n: nat, k: nat)
    ensures Low10(n, k + 2) == Low10(n / 100, k) * 100 + n % 100
  {
    assert Low10(n / 10, k + 1) == Low10(n / 10 / 10, k) * 10 + n / 10 % 10;
    assert n / 10 / 10 == n / 100;
  }

  lemma {:induction false} FourLow10(n: nat, k: nat)
    ensures Low10(n, k + 4) == Low10(n / 10000, k) * 10000 + n % 10000
  {
    TwoLow10(n, k + 2);
    TwoLow10(n / 100, k);
    assert n / 100 / 100 == n / 10000;
  }

  lemma {:induction false} EightLow10(n: nat)
    ensures Low10(n, 8) == n % 100000000
  {
    var m := n / 10000;
    FourLow10(n, 4);
    FourLow10(m, 0);
    assert Low10(m, 4) == m % 10000;
    hide Low10;
    var q, r, t := m / 10000, m % 10000, n % 10000;
    assert n == q * 100000000 + (r * 10000 + t);
  }

  lemma {:induction false} TwoLow16(n: nat, k: nat)
    ensures Low16(n, k + 2) == Low16(n / 0x100, k) * 0x100 + n % 0x100
  {
    assert Low16(n / 16, k + 1) == Low16(n / 16 / 16, k) * 16 + n / 16 % 16;
    assert n / 16 / 16 == n / 0x100;
  }

  lemma {:induction false} FourLow16(n: nat, k: nat)
    ensures Low16(n, k + 4) == Low16(n / 0x1_0000, k) * 0x1_0000 + n % 0x1_0000
  {
    TwoLow16(n, k + 2);
    TwoLow16(n / 0x100, k);
    assert n / 0x100 / 0x100 == n / 0x1_0000;
  }

  lemma {:induction false} EightLow16(n: nat)
    ensures Low16(n, 8) == n % TWO_32
  {
    var m := n / 0x1_0000;
    FourLow16(n, 4);
    FourLow16(m, 0);
    assert Low16(m, 4) == m % 0x1_0000;
    hide Low16;
    var q, r, t := m / 0x1_0000, m % 0x1_0000, n % 0x1_0000;
    assert n == q * TWO_32 + (r * 0x1_0000 + t);
  }
}
