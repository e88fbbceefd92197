/** Polygon fill: every filled bit is the parity of its row up to it. */
module AreaFill {
  import opened Bits
  import opened Blitter
  import opened AreaShift
  import opened AreaRun

  lemma {:induction false} ParityAppend(a: seq<bool>, b: seq<bool>, start: bool)
    ensures Parity(a + b, start) == Parity(b, Parity(a, start))
  {
    if b == [] {
      assert a + b == a;
    } else {
      var n := |b| - 1;
      ParityAppend(a, b[..n], start);
      assert (a + b)[..|a| + n] == a + b[..n];
    }
  }

  /** The minterm outputs and the written words of a run of steps. */
  function Sources(ws: seq<Word4>): seq<Word> { seq(|ws|, i requires 0 <= i < |ws| => ws[i].m) }

  function Outputs(ws: seq<Word4>): seq<Word> { seq(|ws|, i requires 0 <= i < |ws| => ws[i].d) }

  // ---------- the carry along a row ----------

  lemma {:induction false} CarryStep(row: seq<Word4>, w: Word4, fci: bool)
    ensures Parity(BitsUp(Sources(row + [w])), fci) == Parity(w.m, Parity(BitsUp(Sources(row)), fci))
  {
    assert Sources(row + [w]) == Sources(row) + [w.m];
    BitsUpMore(Sources(row), w.m);
    ParityAppend(BitsUp(Sources(row)), w.m, fci);
  }

  /** The carry that enters word x of a row is the parity of the row so far: it crosses words and never rows. */
  ghost predicate CarryIn(e: Engine, row: seq<Word4>)
  {
    (if e.area.x == 0 then e.regs.con1[2] else e.area.fill) == Parity(BitsUp(Sources(row)), e.regs.con1[2])
  }

  lemma {:induction false} CarryNext(e: Engine, w: Word4, q: Engine, row: seq<Word4>)
    requires Stepped(e, w, q) && Filled(e, w) && CarryIn(e, row) && 0 <= e.area.x < e.area.width - 1
    requires e.regs.con1[3] || e.regs.con1[4]
    ensures CarryIn(q, row + [w]) && q.area.x == e.area.x + 1 && SameBlit(e, q)
  {
    CarryStep(row, w, e.regs.con1[2]);
  }

  /** The step from state k of a run. */
  lemma {:induction false} StepOf(es: seq<Engine>, ws: seq<Word4>, k: nat)
    requires Blitting(es, ws) && k < |ws|
    ensures Stepped(es[k], ws[k], es[k + 1]) && Filled(es[k], ws[k])
  {
    assert StepAt(es, ws, k);
  }

  lemma {:induction false} CarryIntoWord(es: seq<Engine>, ws: seq<Word4>, s: nat, x: nat)
    requires Blitting(es, ws) && s + x < |ws| && es[s].area.x == 0 && x < es[s].area.width
    requires es[s].regs.con1[3] || es[s].regs.con1[4]
    ensures es[s + x].area.x == x && SameBlit(es[s], es[s + x]) && CarryIn(es[s + x], ws[s..s + x])
  {
    if x > 0 {
      var k := s + x - 1;
      CarryIntoWord(es, ws, s, x - 1);
      StepOf(es, ws, k);
      CarryNext(es[k], ws[k], es[k + 1], ws[s..k]);
      assert ws[s..k] + [ws[k]] == ws[s..k + 1];
    }
  }

  // ---------- bits of a row ----------

  lemma {:induction false} BitsUpAt(ws: seq<Word>, x: nat, i: nat)
    requires x < |ws| && i <= 16
    ensures BitsUp(ws)[..16 * x + i] == BitsUp(ws[..x]) + ws[x][..i]
    ensures i < 16 ==> BitsUp(ws)[16 * x + i] == ws[x][i]
  {
    var n := |ws| - 1;
    if x < n {
      BitsUpAt(ws[..n], x, i);
      assert ws[..n][..x] == ws[..x];
      assert BitsUp(ws)[..16 * x + i] == BitsUp(ws[..n])[..16 * x + i];
    } else {
      assert ws[..n] == ws[..x];
    }
  }

  /** What fill promises for one bit of a row. */
  predicate FilledBit(src: seq<bool>, dst: seq<bool>, p: nat, fci: bool, inclusive: bool)
    requires p < |src| && |dst| == |src|
  {
    dst[p] == if inclusive then src[p] || Parity(src[..p], fci) else Parity(src[..p + 1], fci)
  }

  lemma {:induction false} FillOfWord(m: Word, before: seq<bool>, fci: bool, inclusive: bool, i: nat)
    requires i < 16
    ensures Fill(m, Parity(before, fci), inclusive)[i] ==
      if inclusive then m[i] || Parity(before + m[..i], fci) else Parity(before + m[..i + 1], fci)
  {
    ParityAppend(before, m[..i], fci);
    ParityAppend(before, m[..i + 1], fci);
  }

  lemma {:induction false} FillOfRow(row: seq<Word4>, x: nat, i: nat, fci: bool, inclusive: bool)
    requires x < |row| && i < 16
    requires row[x].d == Fill(row[x].m, Parity(BitsUp(Sources(row[..x])), fci), inclusive)
    ensures FilledBit(BitsUp(Sources(row)), BitsUp(Outputs(row)), 16 * x + i, fci, inclusive)
  {
    BitsUpAt(Sources(row), x, i);
    BitsUpAt(Sources(row), x, i + 1);
    BitsUpAt(Outputs(row), x, i);
    assert Sources(row)[..x] == Sources(row[..x]);
    FillOfWord(row[x].m, BitsUp(Sources(row[..x])), fci, inclusive, i);
  }

  lemma {:induction false} WordFilled(es: seq<Engine>, ws: seq<Word4>, s: nat, x: nat)
    requires Blitting(es, ws) && s + x < |ws| && es[s].area.x == 0 && x < es[s].area.width
    requires es[s].regs.con1[3] || es[s].regs.con1[4]
    ensures ws[s + x].d == Fill(ws[s + x].m, Parity(BitsUp(Sources(ws[s..s + x])), es[s].regs.con1[2]), es[s].regs.con1[3])
  {
    CarryIntoWord(es, ws, s, x);
    StepOf(es, ws, s + x);
  }

  /** Main result: in every row, every filled bit is FCI flipped by the source bits up to it (exclusive fill), or that of the
      bits before it or the source bit (inclusive fill). */
  lemma {:induction false} RowFilled(es: seq<Engine>, ws: seq<Word4>, s: nat, width: nat, p: nat)
    requires Blitting(es, ws) && s + width <= |ws| && es[s].area.x == 0 && es[s].area.width == width && p < 16 * width
    requires es[s].regs.con1[3] || es[s].regs.con1[4]
    ensures var row := ws[s..s + width];
      FilledBit(BitsUp(Sources(row)), BitsUp(Outputs(row)), p, es[s].regs.con1[2], es[s].regs.con1[3])
  {
    var row, x := ws[s..s + width], p / 16;
    WordFilled(es, ws, s, x);
    assert row[..x] == ws[s..s + x] && row[x] == ws[s + x];
    FillOfRow(row, x, p % 16, es[s].regs.con1[2], es[s].regs.con1[3]);
  }

  /** The inclusive bit is the exclusive bit or the source bit. */
  lemma {:induction false} InclusiveIsExclusiveOrSource(src: seq<bool>, p: nat, fci: bool)
    requires p < |src|
    ensures (src[p] || Parity(src[..p], fci)) == (src[p] || Parity(src[..p + 1], fci))
  {
    assert src[..p + 1][..p] == src[..p];
  }

  /** The source row can be read back from an exclusive fill. */
  lemma {:induction false} ExclusiveRecovers(src: seq<bool>, dst: seq<bool>, p: nat, fci: bool)
    requires p < |src| && |dst| == |src| && forall q :: 0 <= q < |src| ==> FilledBit(src, dst, q, fci, false)
    ensures src[p] == (dst[p] != (if p == 0 then fci else dst[p - 1]))
  {
    var upTo := src[..p + 1];
    assert upTo[..p] == src[..p] && Parity(upTo, fci) == (Parity(upTo[..p], fci) != upTo[p]);
    assert FilledBit(src, dst, p, fci, false);
    if p > 0 {
      assert FilledBit(src, dst, p - 1, fci, false);
      assert dst[p - 1] == Parity(src[..p], fci);
    } else {
      assert src[..p] == [] && Parity(src[..p], fci) == fci;
    }
  }
}
