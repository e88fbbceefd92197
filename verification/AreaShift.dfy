/** The barrel shifter over a whole blit is a shift of one big integer. */
module AreaShift {
  import opened Bits
  import opened Blitter

  /** The shifter's output for a run of words; nothing comes in before the first. */
  function Shifted(ws: seq<Word>, k: nat, desc: bool): (r: seq<Word>)
    requires k < 16
    ensures |r| == |ws|
  {
    if ws == [] then [] else
    var rest := ws[..|ws| - 1];
    Shifted(rest, k, desc) + [Shift(if rest == [] then Zeros(16) else rest[|rest| - 1], ws[|ws| - 1], k, desc)]
  }

  /** The bits of a run of words, least significant first, when the first word is the most significant. */
  function BitsDown(ws: seq<Word>): (s: seq<bool>)
    ensures |s| == 16 * |ws|
  {
    if ws == [] then [] else ws[|ws| - 1] + BitsDown(ws[..|ws| - 1])
  }

  /** The same when the first word is the least significant. */
  function BitsUp(ws: seq<Word>): (s: seq<bool>)
    ensures |s| == 16 * |ws|
  {
    if ws == [] then [] else BitsUp(ws[..|ws| - 1]) + ws[|ws| - 1]
  }

  /** A run read as one number, most significant word first or least significant word first. */
  function NumberDown(ws: seq<Word>): nat { Value(BitsDown(ws)) }

  function NumberUp(ws: seq<Word>): nat { Value(BitsUp(ws)) }

  // ---------- the shift on bit sequences ----------

  lemma {:induction false} ShiftAsc(prev: Word, cur: Word, k: nat)
    requires k < 16
    ensures Shift(prev, cur, k, false) == cur[k..] + prev[..k]
  {
    if k == 0 {
      assert cur[0..] + prev[..0] == cur;
    } else {
      assert (cur + prev)[k..k + 16] == cur[k..] + prev[..k];
    }
  }

  lemma {:induction false} ShiftDesc(prev: Word, cur: Word, k: nat)
    requires k < 16
    ensures Shift(prev, cur, k, true) == prev[16 - k..] + cur[..16 - k]
  {
    if k == 0 {
      assert prev[16..] + cur[..16] == cur;
    } else {
      var s := Or(Shl(cur, k), Shr(prev, 16 - k));
      forall i | 0 <= i < 16
        ensures s[i] == (prev[16 - k..] + cur[..16 - k])[i]
      {
        assert Shl(cur, k)[i] == (i >= k && cur[i - k]);
        assert Shr(prev, 16 - k)[i] == if i < k then prev[16 - k + i] else false;
      }
    }
  }

  /** Ascending: the low k bits fall off and zeros come in at the top. */
  lemma {:induction false} BitsAscending(ws: seq<Word>, k: nat)
    requires k < 16
    ensures BitsDown(Shifted(ws, k, false)) == (BitsDown(ws) + Zeros(k))[k..]
  {
    if ws == [] {
      assert (BitsDown(ws) + Zeros(k))[k..] == [];
    } else {
      var rest, cur := ws[..|ws| - 1], ws[|ws| - 1];
      BitsAscending(rest, k);
      var prev := if rest == [] then Zeros(16) else rest[|rest| - 1];
      ShiftAsc(prev, cur, k);
      var out := Shifted(ws, k, false);
      assert out[..|out| - 1] == Shifted(rest, k, false);
      assert BitsDown(out) == (cur[k..] + prev[..k]) + (BitsDown(rest) + Zeros(k))[k..];
      assert (BitsDown(rest) + Zeros(k))[..k] == prev[..k];
      Splice(cur, BitsDown(rest) + Zeros(k), k);
      assert cur + (BitsDown(rest) + Zeros(k)) == BitsDown(ws) + Zeros(k);
    }
  }

  lemma Splice(a: seq<bool>, s: seq<bool>, k: nat)
    requires k <= |a| && k <= |s|
    ensures (a[k..] + s[..k]) + s[k..] == (a + s)[k..]
  {
  }

  lemma {:induction false} LastBits(ws: seq<Word>, k: nat)
    requires k < 16
    ensures var prev := if ws == [] then Zeros(16) else ws[|ws| - 1];
      (Zeros(k) + BitsUp(ws))[16 * |ws|..] == prev[16 - k..]
  {
  }

  lemma {:induction false} BitsUpMore(ws: seq<Word>, w: Word)
    ensures BitsUp(ws + [w]) == BitsUp(ws) + w
  {
    assert (ws + [w])[..|ws|] == ws;
  }

  lemma {:induction false} UpStep(u: seq<bool>, top: seq<bool>, cur: Word, k: nat)
    requires k < 16 && (Zeros(k) + u)[|u|..] == top
    ensures (Zeros(k) + u)[..|u|] + (top + cur[..16 - k]) == (Zeros(k) + (u + cur))[..|u| + 16]
  {
    var s := Zeros(k) + u;
    assert s == s[..|u|] + top;
    assert Zeros(k) + (u + cur) == s + cur;
  }

  /** Descending: zeros come in at the bottom and the top k bits fall off. */
  lemma {:induction false} BitsDescending(ws: seq<Word>, k: nat)
    requires k < 16
    ensures BitsUp(Shifted(ws, k, true)) == (Zeros(k) + BitsUp(ws))[..16 * |ws|]
  {
    if ws != [] {
      var rest, cur := ws[..|ws| - 1], ws[|ws| - 1];
      BitsDescending(rest, k);
      var prev := if rest == [] then Zeros(16) else rest[|rest| - 1];
      ShiftDesc(prev, cur, k);
      BitsUpMore(Shifted(rest, k, true), Shift(prev, cur, k, true));
      LastBits(rest, k);
      UpStep(BitsUp(rest), prev[16 - k..], cur, k);
    }
  }

  // ---------- the shift on numbers ----------

  lemma {:induction false} ValueZeros(n: nat)
    ensures Value(Zeros(n)) == 0
  {
    if n > 0 {
      assert Zeros(n)[1..] == Zeros(n - 1);
      ValueZeros(n - 1);
    }
  }

  lemma {:induction false} DropIsDivision(s: seq<bool>, k: nat)
    requires k <= |s|
    ensures Value(s[k..]) == Value(s) / Pow2(k) && Value(s[..k]) == Value(s) % Pow2(k)
  {
    assert s == s[..k] + s[k..];
    ValueAppend(s[..k], s[k..]);
    OfNatValue(s[..k]);
    DivUnique(Value(s), Pow2(k), Value(s[k..]), Value(s[..k]));
  }

  /** Main result, ascending: the whole run is divided by 2^k, across words and rows. */
  lemma {:induction false} AscendingDivides(ws: seq<Word>, k: nat)
    requires k < 16
    ensures NumberDown(Shifted(ws, k, false)) == NumberDown(ws) / Pow2(k)
  {
    var s := BitsDown(ws);
    BitsAscending(ws, k);
    DropIsDivision(s + Zeros(k), k);
    ValueAppend(s, Zeros(k));
    ValueZeros(k);
  }

  lemma {:induction false} ShiftedUp(s: seq<bool>, k: nat)
    ensures Value(Zeros(k) + s) == Pow2(k) * Value(s)
  {
    ValueAppend(Zeros(k), s);
    ValueZeros(k);
  }

  /** Main result, descending: the whole run is multiplied by 2^k, modulo its size. */
  lemma {:induction false} DescendingMultiplies(ws: seq<Word>, k: nat)
    requires k < 16
    ensures NumberUp(Shifted(ws, k, true)) == (Pow2(k) * NumberUp(ws)) % Pow2(16 * |ws|)
  {
    BitsDescending(ws, k);
    DropIsDivision(Zeros(k) + BitsUp(ws), 16 * |ws|);
    ShiftedUp(BitsUp(ws), k);
  }
}
