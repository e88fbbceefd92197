/** The CRC as what it is called: the remainder of a polynomial over GF(2) divided by x^16 + x^12 + x^5 + 1. */
module CrcPolynomial {
  import opened Bits
  import opened Crc16
  import opened CrcLaws

  /** The coefficient of x^j in a register, bit j being that of x^j. */
  function Coefficient(w: Word, j: int): bool { 0 <= j < 16 && w[j] }

  /** The coefficient of x^j in a message, the first bit being that of the highest power. */
  function Leading(bits: seq<bool>, j: int): bool { 0 <= j < |bits| && bits[|bits| - 1 - j] }

  /** The coefficient of x^j in the product of `q` and x^16 + x^12 + x^5 + 1. */
  function Product(q: seq<bool>, j: int): bool
  {
    ((Leading(q, j - 16) != Leading(q, j - 12)) != Leading(q, j - 5)) != Leading(q, j)
  }

  /** The coefficient of x^j in w * x^n + m * x^16: the start value ahead of the message, moved up by sixteen. */
  function Dividend(w: Word, m: seq<bool>, j: int): bool { Coefficient(w, j - |m|) != Leading(m, j - 16) }

  /** `q` times the divisor plus `r` is the dividend, in every coefficient. */
  ghost predicate Divides(w: Word, m: seq<bool>, q: seq<bool>, r: Word)
  {
    |q| == |m| && forall j: int {:trigger Dividend(w, m, j)} :: Dividend(w, m, j) == (Product(q, j) != Coefficient(r, j))
  }

  // ---------- one bit ----------

  lemma {:induction false} LeadingMore(bits: seq<bool>, b: bool, j: int)
    ensures Leading(bits + [b], j) == if j == 0 then b else Leading(bits, j - 1)
  {
  }

  lemma {:induction false} ProductMore(q: seq<bool>, t: bool, j: int)
    ensures Product(q + [t], j) == (Product(q, j - 1) != (t && (j == 16 || j == 12 || j == 5 || j == 0)))
  {
    LeadingMore(q, t, j - 16);
    LeadingMore(q, t, j - 12);
    LeadingMore(q, t, j - 5);
    LeadingMore(q, t, j);
  }

  lemma {:induction false} DividendMore(w: Word, m: seq<bool>, b: bool, j: int)
    ensures Dividend(w, m + [b], j) == (Dividend(w, m, j - 1) != (b && j == 16))
  {
    LeadingMore(m, b, j - 16);
  }

  /** A register taking a bit: the bit that leaves is the next bit of the quotient. */
  lemma {:induction false} BitDivides(r: Word, b: bool, j: int)
    ensures var t := r[15] != b;
      (Coefficient(r, j - 1) != (b && j == 16)) ==
      ((t && (j == 16 || j == 12 || j == 5 || j == 0)) != Coefficient(FeedBit(r, b), j))
  {
    var x := Xor(r, TopBit(b));
    assert x[15] == (r[15] != b);
    if 0 < j < 16 {
      assert x[j - 1] == r[j - 1];
      assert Shl(x, 1)[j] == x[j - 1];
    }
  }

  lemma {:induction false} DividesMore(w: Word, m: seq<bool>, b: bool, q: seq<bool>, r: Word)
    requires Divides(w, m, q, r)
    ensures Divides(w, m + [b], q + [r[15] != b], FeedBit(r, b))
  {
    var t := r[15] != b;
    forall j: int
      ensures Dividend(w, m + [b], j) == (Product(q + [t], j) != Coefficient(FeedBit(r, b), j))
    {
      DividendMore(w, m, b, j);
      ProductMore(q, t, j);
      BitDivides(r, b, j);
      assert Dividend(w, m, j - 1) == (Product(q, j - 1) != Coefficient(r, j - 1));
    }
  }

  // ---------- a whole message ----------

  lemma {:induction false} RegisterDivides(w: Word, m: seq<bool>) returns (q: seq<bool>)
    ensures Divides(w, m, q, FeedBits(w, m))
  {
    if m == [] {
      q := [];
    } else {
      var n := |m| - 1;
      q := RegisterDivides(w, m[..n]);
      var r := FeedBits(w, m[..n]);
      DividesMore(w, m[..n], m[n], q, r);
      assert m[..n] + [m[n]] == m;
      q := q + [r[15] != m[n]];
    }
  }

  /** Two quotients agree from x^k up. */
  ghost predicate AgreeFrom(p: seq<bool>, q: seq<bool>, k: int)
  {
    forall j: int {:trigger Leading(p, j)} :: j >= k ==> Leading(p, j) == Leading(q, j)
  }

  lemma {:induction false} QuotientsAgree(w: Word, m: seq<bool>, p: seq<bool>, q: seq<bool>, r: Word, s: Word, k: nat)
    requires Divides(w, m, p, r) && Divides(w, m, q, s) && k <= |m|
    ensures AgreeFrom(p, q, k)
    decreases |m| - k
  {
    if k < |m| {
      QuotientsAgree(w, m, p, q, r, s, k + 1);
      assert Dividend(w, m, k + 16) == Product(p, k + 16) == Product(q, k + 16);
      assert Leading(p, k + 4) == Leading(q, k + 4) && Leading(p, k + 11) == Leading(q, k + 11) && Leading(p, k + 16) == Leading(q, k + 16);
    }
  }

  lemma {:induction false} RemainderUnique(w: Word, m: seq<bool>, p: seq<bool>, q: seq<bool>, r: Word, s: Word)
    requires Divides(w, m, p, r) && Divides(w, m, q, s)
    ensures r == s
  {
    QuotientsAgree(w, m, p, q, r, s, 0);
    forall j | 0 <= j < 16
      ensures r[j] == s[j]
    {
      assert Leading(p, j) == Leading(q, j) && Leading(p, j - 5) == Leading(q, j - 5) && Leading(p, j - 12) == Leading(q, j - 12);
      assert Dividend(w, m, j) == (Product(p, j) != Coefficient(r, j)) && Dividend(w, m, j) == (Product(q, j) != Coefficient(s, j));
    }
  }

  /** Main result: the CRC of a block is the remainder, and the only one, of 0xFFFF ahead of its bits, moved up by sixteen,
      divided by x^16 + x^12 + x^5 + 1. */
  lemma {:induction false} CrcIsRemainder(data: seq<Byte>, r: Word)
    ensures r == Crc(data) <==> exists q :: Divides(Ones(16), Transmitted(data), q, r)
  {
    var m := Transmitted(data);
    FeedAllIsBits(Ones(16), data);
    var p := RegisterDivides(Ones(16), m);
    if q :| Divides(Ones(16), m, q, r) {
      RemainderUnique(Ones(16), m, p, q, Crc(data), r);
    }
  }
}
