/** Machine words as bit sequences, least significant bit first: `w[i]` is `(w >> i) & 1`. */
module Bits {

  type Byte = b: seq<bool> | |b| == 8 witness seq(8, _ => false)
  type Word = w: seq<bool> | |w| == 16 witness seq(16, _ => false)

  type Nat8 = n: nat | n < 256
  type Nat16 = n: nat | n < 65536

  function Min(a: int, b: int): int { if a < b then a else b }

  function Zeros(n: nat): seq<bool> { seq(n, _ => false) }

  function Ones(n: nat): seq<bool> { seq(n, _ => true) }

  function And(a: seq<bool>, b: seq<bool>): (r: seq<bool>)
    requires |a| == |b|
  {
    seq(|a|, i requires 0 <= i < |a| => a[i] && b[i])
  }

  function Xor(a: seq<bool>, b: seq<bool>): (r: seq<bool>)
    requires |a| == |b|
  {
    seq(|a|, i requires 0 <= i < |a| => a[i] != b[i])
  }

  /** `w << k`, truncated to the width of `w`. */
  function Shl(w: seq<bool>, k: nat): (r: seq<bool>)
  {
    seq(|w|, i requires 0 <= i < |w| => i >= k && w[i - k])
  }

  /** `(w << 1) | bit`, truncated to the width of `w`. */
  function ShiftIn(w: seq<bool>, bit: bool): (r: seq<bool>)
    requires |w| > 0
  {
    [bit] + w[..|w| - 1]
  }

  /** The unsigned integer a bit sequence stands for. */
  function Value(b: seq<bool>): nat
  {
    if b == [] then 0 else (if b[0] then 1 else 0) + 2 * Value(b[1..])
  }

  /** The low `k` bits of `n`. */
  function OfNat(n: nat, k: nat): (r: seq<bool>)
    ensures |r| == k
  {
    if k == 0 then [] else [n % 2 == 1] + OfNat(n / 2, k - 1)
  }

  function Pow2(k: nat): (r: nat)
    ensures r > 0
  {
    if k == 0 then 1 else 2 * Pow2(k - 1)
  }

  lemma {:induction false} ValueOfNat(n: nat, k: nat)
    requires n < Pow2(k)
    ensures Value(OfNat(n, k)) == n
  {
    if k > 0 {
      ValueOfNat(n / 2, k - 1);
      assert OfNat(n, k)[1..] == OfNat(n / 2, k - 1);
    }
  }

  lemma {:induction false} OfNatValue(b: seq<bool>)
    ensures OfNat(Value(b), |b|) == b
    ensures Value(b) < Pow2(|b|)
  {
    if b != [] {
      OfNatValue(b[1..]);
      assert b == [b[0]] + b[1..];
    }
  }

  lemma {:induction false} DoubleProduct(p: nat, v: nat)
    ensures 2 * (p * v) == (2 * p) * v
  {
  }

  lemma {:induction false} ValueAppend(a: seq<bool>, b: seq<bool>)
    ensures Value(a + b) == Value(a) + Pow2(|a|) * Value(b)
  {
    if a == [] {
      assert a + b == b;
    } else {
      ValueAppend(a[1..], b);
      assert (a + b)[1..] == a[1..] + b;
      DoubleProduct(Pow2(|a| - 1), Value(b));
    }
  }

  lemma {:induction false} MulGap(m: nat, a: int, b: int)
    ensures a < b ==> m * a + m <= m * b
  {
    var d := b - a - 1;
    assert m * b == m * a + m + m * d;
    assert d >= 0 ==> m * d >= 0;
  }

  /** Quotient and remainder are unique. */
  lemma {:induction false} DivUnique(v: int, d: nat, q: int, r: int)
    requires 0 <= r < d && v == r + d * q
    ensures v / d == q && v % d == r
  {
    var q', r' := v / d, v % d;
    assert v == d * q' + r';
    MulGap(d, q, q');
    MulGap(d, q', q);
  }
}
