/** What the CRC is good for: it is linear, a block followed by its CRC leaves no remainder and nothing else does, and any
    error within sixteen consecutive bits is seen. */
module CrcLaws {
  import opened Bits
  import opened Crc16

  const NONE: Word := Zeros(16)

  // ---------- the shift register is linear and one-to-one ----------

  lemma {:induction false} TurnLinear(a: Word, b: Word)
    ensures Turn(Xor(a, b)) == Xor(Turn(a), Turn(b))
  {
    assert Shl(Xor(a, b), 1) == Xor(Shl(a, 1), Shl(b, 1));
  }

  lemma {:induction false} TurnsLinear(a: Word, b: Word, n: nat)
    ensures Turns(Xor(a, b), n) == Xor(Turns(a, n), Turns(b, n))
  {
    if n > 0 {
      TurnsLinear(a, b, n - 1);
      TurnLinear(Turns(a, n - 1), Turns(b, n - 1));
    }
  }

  /** No register but the empty one turns into the empty one. */
  lemma {:induction false} TurnKeeps(w: Word)
    requires Turn(w) == NONE
    ensures w == NONE
  {
    assert Turn(w)[0] == w[15];
    assert forall i :: 0 <= i < 15 ==> Turn(w)[i + 1] == Shl(w, 1)[i + 1] == w[i];
  }

  lemma {:induction false} TurnsKeep(w: Word, n: nat)
    ensures Turns(w, n) == NONE <==> w == NONE
  {
    if n > 0 {
      TurnsKeep(w, n - 1);
      if Turns(w, n) == NONE {
        TurnKeeps(Turns(w, n - 1));
      }
      assert Turn(NONE) == NONE;
    }
  }

  /** While the top bits are clear, turning is shifting. */
  lemma {:induction false} TurnsShift(w: Word, n: nat)
    requires n <= 16 && forall i :: 16 - n <= i < 16 ==> !w[i]
    ensures Turns(w, n) == Shl(w, n)
  {
    if n > 0 {
      TurnsShift(w, n - 1);
      assert !Shl(w, n - 1)[15];
      assert Shl(Shl(w, n - 1), 1) == Shl(w, n);
    } else {
      assert Shl(w, 0) == w;
    }
  }

  lemma {:induction false} FeedLinear(c: Word, d: Word, a: Byte, b: Byte)
    ensures Feed(Xor(c, d), Xor(a, b)) == Xor(Feed(c, a), Feed(d, b))
  {
    var x, y := Xor(c, Zeros(8) + a), Xor(d, Zeros(8) + b);
    assert Xor(Xor(c, d), Zeros(8) + Xor(a, b)) == Xor(x, y);
    TurnsLinear(x, y, 8);
  }

  function Difference(x: seq<Byte>, y: seq<Byte>): (r: seq<Byte>)
    requires |x| == |y|
  {
    seq(|x|, i requires 0 <= i < |x| => Xor(x[i], y[i]))
  }

  lemma {:induction false} FeedAllLinear(c: Word, d: Word, x: seq<Byte>, y: seq<Byte>)
    requires |x| == |y|
    ensures FeedAll(Xor(c, d), Difference(x, y)) == Xor(FeedAll(c, x), FeedAll(d, y))
  {
    if x != [] {
      var n := |x| - 1;
      FeedAllLinear(c, d, x[..n], y[..n]);
      assert Difference(x, y)[..n] == Difference(x[..n], y[..n]);
      FeedLinear(FeedAll(c, x[..n]), FeedAll(d, y[..n]), x[n], y[n]);
    }
  }

  /** The CRCs of two blocks differ by what their difference alone leaves in an empty register. */
  lemma {:induction false} CrcLinear(x: seq<Byte>, y: seq<Byte>)
    requires |x| == |y|
    ensures Xor(Crc(x), Crc(y)) == FeedAll(NONE, Difference(x, y))
  {
    assert Xor(Ones(16), Ones(16)) == NONE;
    FeedAllLinear(Ones(16), Ones(16), x, y);
  }

  // ---------- no remainder ----------

  /** Feeding a register its own two bytes empties it. */
  lemma {:induction false} FeedOwn(w: Word)
    ensures Feed(Feed(w, Hi(w)), Lo(w)) == NONE
  {
    var low := Lo(w) + Zeros(8);
    assert Xor(w, Zeros(8) + Hi(w)) == low;
    TurnsShift(low, 8);
    assert Shl(low, 8) == Zeros(8) + Lo(w);
    assert Xor(Zeros(8) + Lo(w), Zeros(8) + Lo(w)) == NONE;
    TurnsShift(NONE, 8);
    assert Shl(NONE, 8) == NONE;
  }

  lemma {:induction false} FeedZeros(d: Word)
    ensures Feed(Feed(d, Zeros(8)), Zeros(8)) == NONE <==> d == NONE
  {
    assert Zeros(8) + Zeros(8) == NONE;
    assert Xor(d, NONE) == d;
    TurnsKeep(d, 8);
    var e := Turns(d, 8);
    assert Xor(e, NONE) == e;
    TurnsKeep(e, 8);
  }

  lemma {:induction false} TwoMore(c: Word, data: seq<Byte>, hi: Byte, lo: Byte)
    ensures FeedAll(c, data + [hi, lo]) == Feed(Feed(FeedAll(c, data), hi), lo)
  {
    var one := data + [hi];
    assert (data + [hi, lo])[..|data| + 1] == one && one[..|data|] == data;
  }

  /** Main result: a block and two check bytes leave no remainder if and only if the check bytes are the block's CRC, which is
      the comparison the decoder makes. */
  lemma {:induction false} NoRemainder(data: seq<Byte>, hi: Byte, lo: Byte)
    ensures Crc(data + [hi, lo]) == NONE <==> Crc(data) == Join(hi, lo)
  {
    var w, j := Crc(data), Join(hi, lo);
    TwoMore(Ones(16), data, hi, lo);
    var d := Xor(w, j);
    assert Xor(j, d) == w;
    assert Hi(j) == hi && Lo(j) == lo;
    FeedOwn(j);
    assert Xor(hi, Zeros(8)) == hi && Xor(lo, Zeros(8)) == lo;
    FeedLinear(j, d, hi, Zeros(8));
    FeedLinear(Feed(j, hi), Feed(d, Zeros(8)), lo, Zeros(8));
    var rest := Feed(Feed(d, Zeros(8)), Zeros(8));
    assert Xor(NONE, rest) == rest;
    FeedZeros(d);
    EmptyXor(w, j);
  }

  lemma {:induction false} EmptyXor(a: Word, b: Word)
    ensures Xor(a, b) == NONE <==> a == b
  {
    if Xor(a, b) == NONE {
      forall i | 0 <= i < 16
        ensures a[i] == b[i]
      {
        assert Xor(a, b)[i] == NONE[i];
      }
    }
    assert a == b ==> Xor(a, b) == NONE;
  }

  // ---------- bit by bit ----------

  function TopBit(b: bool): Word { Zeros(15) + [b] }

  function FeedBit(w: Word, b: bool): Word { Turn(Xor(w, TopBit(b))) }

  function FeedBits(w: Word, bits: seq<bool>): Word
  {
    if bits == [] then w else FeedBit(FeedBits(w, bits[..|bits| - 1]), bits[|bits| - 1])
  }

  lemma {:induction false} FeedBitsAppend(w: Word, a: seq<bool>, b: seq<bool>)
    ensures FeedBits(w, a + b) == FeedBits(FeedBits(w, a), b)
  {
    if b == [] {
      assert a + b == a;
    } else {
      FeedBitsAppend(w, a, b[..|b| - 1]);
      assert (a + b)[..|a + b| - 1] == a + b[..|b| - 1];
    }
  }

  /** A byte in the order its bits enter the register. */
  function Order(b: Byte): seq<bool> { seq(8, i requires 0 <= i < 8 => b[7 - i]) }

  /** The bits of a byte that have not entered yet, lined up at the top of a word. */
  function Waiting(b: Byte, k: nat): Word
    requires k <= 8
  {
    Zeros(8 + k) + b[..8 - k]
  }

  lemma {:induction false} NextWaiting(x: Word, b: Byte, k: nat)
    requires k < 8
    ensures Turn(Xor(x, Waiting(b, k))) == Xor(FeedBit(x, b[7 - k]), Waiting(b, k + 1))
  {
    var top, rest: Word := TopBit(b[7 - k]), Zeros(8 + k) + b[..7 - k] + [false];
    assert Waiting(b, k) == Xor(top, rest);
    assert Xor(x, Xor(top, rest)) == Xor(Xor(x, top), rest);
    TurnLinear(Xor(x, top), rest);
    assert Turn(rest) == Shl(rest, 1) == Waiting(b, k + 1);
  }

  lemma {:induction false} ByteByBits(w: Word, b: Byte, k: nat)
    requires k <= 8
    ensures Turns(Xor(w, Waiting(b, 0)), k) == Xor(FeedBits(w, Order(b)[..k]), Waiting(b, k))
  {
    if k > 0 {
      ByteByBits(w, b, k - 1);
      NextWaiting(FeedBits(w, Order(b)[..k - 1]), b, k - 1);
      assert Order(b)[..k][..k - 1] == Order(b)[..k - 1];
    }
  }

  lemma {:induction false} FeedIsBits(w: Word, b: Byte)
    ensures Feed(w, b) == FeedBits(w, Order(b))
  {
    ByteByBits(w, b, 8);
    assert Waiting(b, 0) == Zeros(8) + b && Waiting(b, 8) == NONE && Order(b)[..8] == Order(b);
    var x := FeedBits(w, Order(b));
    assert Xor(x, NONE) == x;
  }

  /** The bits of a block in transmission order. */
  function Transmitted(data: seq<Byte>): (r: seq<bool>)
    ensures |r| == 8 * |data|
  {
    if data == [] then [] else Transmitted(data[..|data| - 1]) + Order(data[|data| - 1])
  }

  lemma {:induction false} FeedAllIsBits(w: Word, data: seq<Byte>)
    ensures FeedAll(w, data) == FeedBits(w, Transmitted(data))
  {
    if data != [] {
      var n := |data| - 1;
      FeedAllIsBits(w, data[..n]);
      FeedIsBits(FeedAll(w, data[..n]), data[n]);
      FeedBitsAppend(w, Transmitted(data[..n]), Order(data[n]));
    }
  }

  // ---------- bursts ----------

  lemma {:induction false} QuietFeed(w: Word, n: nat)
    ensures FeedBits(w, Zeros(n)) == Turns(w, n)
  {
    if n > 0 {
      QuietFeed(w, n - 1);
      assert Zeros(n)[..n - 1] == Zeros(n - 1);
      var x := Turns(w, n - 1);
      assert Xor(x, TopBit(false)) == x;
    }
  }

  /** The first `k` of sixteen bits, as they stand in the register when they enter it from the top. */
  function Entered(u: seq<bool>, k: nat): Word
    requires |u| == 16 && k <= 16
  {
    seq(16, i requires 0 <= i < 16 => i >= 16 - k && u[15 - i])
  }

  lemma {:induction false} EnterOne(u: seq<bool>, k: nat)
    requires |u| == 16 && k < 16
    ensures Turns(Entered(u, k + 1), k + 1) == Turn(Xor(Turns(Entered(u, k), k), TopBit(u[k])))
  {
    var one: Word := seq(16, i requires 0 <= i < 16 => i == 15 - k && u[k]);
    assert Entered(u, k + 1) == Xor(Entered(u, k), one);
    TurnsLinear(Entered(u, k), one, k);
    TurnsShift(one, k);
    assert Shl(one, k) == TopBit(u[k]);
  }

  lemma {:induction false} EnterAll(u: seq<bool>, k: nat)
    requires |u| == 16 && k <= 16
    ensures FeedBits(NONE, u[..k]) == Turns(Entered(u, k), k)
  {
    if k > 0 {
      EnterAll(u, k - 1);
      EnterOne(u, k - 1);
      assert u[..k][..k - 1] == u[..k - 1];
    } else {
      assert Entered(u, 0) == NONE;
    }
  }

  lemma {:induction false} EnteredEmpty(u: seq<bool>)
    requires |u| == 16
    ensures Entered(u, 16) == NONE ==> u == Zeros(16)
  {
    if Entered(u, 16) == NONE {
      forall k | 0 <= k < 16
        ensures !u[k]
      {
        assert Entered(u, 16)[15 - k] == u[k];
      }
    }
  }

  lemma {:induction false} BurstLeaves(i: nat, u: seq<bool>, j: nat)
    requires |u| == 16 && u != Zeros(16)
    ensures FeedBits(NONE, Zeros(i) + u + Zeros(j)) != NONE
  {
    FeedBitsAppend(NONE, Zeros(i) + u, Zeros(j));
    FeedBitsAppend(NONE, Zeros(i), u);
    QuietFeed(NONE, i);
    TurnsKeep(NONE, i);
    EnterAll(u, 16);
    assert u[..16] == u;
    TurnsKeep(Entered(u, 16), 16);
    EnteredEmpty(u);
    QuietFeed(FeedBits(NONE, u), j);
    TurnsKeep(FeedBits(NONE, u), j);
  }

  lemma {:induction false} TransmittedDifference(x: seq<Byte>, y: seq<Byte>, i: nat)
    requires |x| == |y| && i < 8 * |x|
    ensures Transmitted(Difference(x, y))[i] == (Transmitted(x)[i] != Transmitted(y)[i])
  {
    var n := |x| - 1;
    assert Difference(x, y)[..n] == Difference(x[..n], y[..n]);
    if i < 8 * n {
      TransmittedDifference(x[..n], y[..n], i);
    }
  }

  /** Main result: two blocks that differ, and only within sixteen consecutive bits at any alignment, have different CRCs. */
  lemma {:induction false} BurstSeen(x: seq<Byte>, y: seq<Byte>, i: nat)
    requires |x| == |y| && x != y && i + 16 <= 8 * |x|
    requires forall k :: 0 <= k < 8 * |x| && !(i <= k < i + 16) ==> Transmitted(x)[k] == Transmitted(y)[k]
    ensures Crc(x) != Crc(y)
  {
    var bits := Transmitted(Difference(x, y));
    forall k | 0 <= k < 8 * |x|
      ensures bits[k] == (Transmitted(x)[k] != Transmitted(y)[k])
    {
      TransmittedDifference(x, y, k);
    }
    var u, j := bits[i..i + 16], 8 * |x| - i - 16;
    assert bits == Zeros(i) + u + Zeros(j);
    SomeBitDiffers(x, y);
    var k :| 0 <= k < 8 * |x| && Transmitted(x)[k] != Transmitted(y)[k];
    assert u[k - i];
    BurstLeaves(i, u, j);
    CrcLinear(x, y);
    FeedAllIsBits(NONE, Difference(x, y));
    EmptyXor(Crc(x), Crc(y));
  }

  lemma {:induction false} SomeBitDiffers(x: seq<Byte>, y: seq<Byte>)
    requires |x| == |y| && x != y
    ensures exists k :: 0 <= k < 8 * |x| && Transmitted(x)[k] != Transmitted(y)[k]
  {
    var n := |x| - 1;
    if x[n] != y[n] {
      var b :| 0 <= b < 8 && x[n][b] != y[n][b];
      assert Transmitted(x)[8 * n + 7 - b] == x[n][b] && Transmitted(y)[8 * n + 7 - b] == y[n][b];
    } else {
      SomeBitDiffers(x[..n], y[..n]);
      var k :| 0 <= k < 8 * n && Transmitted(x[..n])[k] != Transmitted(y[..n])[k];
      assert Transmitted(x)[k] == Transmitted(x[..n])[k] && Transmitted(y)[k] == Transmitted(y[..n])[k];
    }
  }
}
