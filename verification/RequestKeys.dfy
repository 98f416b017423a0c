/** The key under which a request is tracked: the id is printed in decimal with "%8.8d",
    read back in base sixteen, and cast to a 32-bit int. */
module RequestKeys {
  import opened Common
  import opened Decimal

  /** Ids come from a counter; its wrap test can never fire on an int. */
  class RequestIds {
    var g_req_id: int

    constructor ()
      ensures g_req_id == DEFAULT_SEQ_START_NUMBER
    {
      g_req_id := DEFAULT_SEQ_START_NUMBER;
    }

    /** Below the counter's limit, each call yields the successor of the last id: the test for
        a value above INT_MAX that follows the increment is never true of an int. */
    method GetReqId() returns (id: int)
      requires 0 <= g_req_id < INT_MAX
      modifies this
      ensures id == g_req_id == old(g_req_id) + 1 <= INT_MAX
    {
      g_req_id := g_req_id + 1;
      id := g_req_id;
    }

    /** Calls one after the other: any two that are fewer than 10^8 calls apart yield ids that
        are tracked under different keys. */
    method Issue(n: nat) returns (ids: seq<nat>)
      requires 0 <= g_req_id && g_req_id + n <= INT_MAX
      modifies this
      ensures |ids| == n && g_req_id == old(g_req_id) + n
      ensures forall i, j :: 0 <= i < j < n && j - i < 100000000 ==> Key(ids[i]) != Key(ids[j])
    {
      ids := [];
      for k := 0 to n
        invariant |ids| == k && g_req_id == old(g_req_id) + k
        invariant forall i :: 0 <= i < k ==> ids[i] == old(g_req_id) + 1 + i
      {
        var id := GetReqId();
        ids := ids + [id];
      }
      forall i, j | 0 <= i < j < n && j - i < 100000000 ensures Key(ids[i]) != Key(ids[j]) {
        WindowDistinct(ids[i], ids[i], ids[j]);
      }
    }
  }

  function IdText(id: nat): string { Text(id, 8) }

  /** Ids below 10^8 are printed with exactly eight digits. */
  lemma {:induction false} IdTextLength(id: nat)
    requires id < 100000000
    ensures |IdText(id)| == 8 && Value(10, IdText(id)) == id
  {
    hide Text;
    EightDigits(id);
    TextValue(id, 8);
  }

  function Key(id: nat): (k: int) { ToInt32(Value(16, IdText(id))) }

  /** The last `k` decimal digits of `n`, read as base-sixteen digits. */
  function LowHex(n: nat, k: nat): (v: nat) {
    if k == 0 then 0 else LowHex(n / 10, k - 1) * 16 + n % 10
  }

  lemma {:induction false} LowHexSmall(n: nat, k: nat)
    requires n < 10 && k > 0
    ensures LowHex(n, k) == n && Low16(n, k) == n
    decreases k
  {
    if k > 1 { LowHexSmall(0, k - 1); }
  }

  lemma {:induction false} Shifted(high: nat, d: nat)
    requires d < 16
    ensures (high * 16 + d) / 16 == high && (high * 16 + d) % 16 == d
  {
  }

  lemma {:induction false} HexStep(n: nat, width: nat)
    ensures n < 10 && width <= 1 ==> Value(16, Text(n, width)) == n
    ensures !(n < 10 && width <= 1) ==>
              Value(16, Text(n, width)) == Value(16, Text(n / 10, if width == 0 then 0 else width - 1)) * 16 + n % 10
  {
    var s := Text(n, width);
    if n < 10 && width <= 1 {
      assert s[..|s| - 1] == "" && Value(16, "") == 0;
    } else {
      assert s[..|s| - 1] == Text(n / 10, if width == 0 then 0 else width - 1);
    }
  }

  /** The base-sixteen reading keeps exactly the last decimal digits in its low nibbles. */
  lemma {:induction false} HexReading(n: nat, width: nat, k: nat)
    ensures Low16(Value(16, Text(n, width)), k) == LowHex(n, k)
    decreases k
  {
    if k > 0 {
      HexStep(n, width);
      hide Text, Value;
      if n < 10 && width <= 1 {
        LowHexSmall(n, k);
      } else {
        var w := if width == 0 then 0 else width - 1;
        HexReading(n / 10, w, k - 1);
        Shifted(Value(16, Text(n / 10, w)), n % 10);
      }
    }
  }

  lemma {:induction false} LowHexAgrees(a: nat, b: nat, k: nat)
    ensures LowHex(a, k) == LowHex(b, k) <==> Low10(a, k) == Low10(b, k)
    decreases k
  {
    if k > 0 { LowHexAgrees(a / 10, b / 10, k - 1); }
  }

  /** The nibbles of a key are the last eight decimal digits of its id. */
  lemma {:induction false} KeyIs(id: nat)
    ensures ToUint32(Key(id)) == LowHex(id, 8)
  {
    var x := Value(16, IdText(id));
    HexReading(id, 8, 8);
    EightLow16(x);
    SameBits(x);
  }

  lemma {:induction false} SameBits(x: nat)
    ensures ToUint32(ToInt32(x)) == x % TWO_32
  {
  }

  /** Two ids share a key exactly when they agree in their last eight decimal digits. */
  lemma {:induction false} KeysAgree(a: nat, b: nat)
    ensures Key(a) == Key(b) <==> a % 100000000 == b % 100000000
  {
    var x, y := Value(16, IdText(a)), Value(16, IdText(b));
    HexReading(a, 8, 8);
    HexReading(b, 8, 8);
    EightLow16(x);
    EightLow16(y);
    LowHexAgrees(a, b, 8);
    EightLow10(a);
    EightLow10(b);
    CastAgrees(x, y);
  }

  lemma {:induction false} CastAgrees(x: nat, y: nat)
    ensures ToInt32(x) == ToInt32(y) <==> x % TWO_32 == y % TWO_32
  {
  }

  /** Hence any window of fewer than 10^8 consecutive ids has pairwise distinct keys. */
  lemma {:induction false} WindowDistinct(first: nat, a: nat, b: nat)
    requires first <= a < b < first + 100000000
    ensures Key(a) != Key(b)
  {
    KeysAgree(a, b);
  }
}
