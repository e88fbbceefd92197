/** What a line leaves in the registers: live pointers, the position and texture it got to, and the zero flag; and where its
    pixels go when the C and D pointers differ. */
module LineRegisters {
  import opened Bits
  import opened Mfm
  import opened Blitter
  import opened LineGeometry
  import opened LineMemory
  import DiskWrite

  // ---------- one step ----------

  lemma {:induction false} ValueOfNat(n: nat, k: nat)
    requires n < Pow2(k)
    ensures Value(OfNat(n, k)) == n
  {
    if k > 0 {
      ValueOfNat(n / 2, k - 1);
      assert OfNat(n, k)[1..] == OfNat(n / 2, k - 1);
    }
  }

  lemma {:induction false} FieldOf(w: Word, n: nat)
    requires n < 16
    ensures Field(w[..12] + OfNat(n, 4), 12) == n
  {
    assert Pow2(4) == 2 * Pow2(3) == 4 * Pow2(2) == 8 * Pow2(1) == 16;
    ValueOfNat(n, 4);
    assert (w[..12] + OfNat(n, 4))[12..16] == OfNat(n, 4);
  }

  lemma {:induction false} LowHalf(a: int, x: int)
    ensures (a - a % 65536 + x % 65536) % 65536 == x % 65536
  {
    DivUnique(a - a % 65536 + x % 65536, 65536, a / 65536, x % 65536);
  }

  /** The registers after the step that led to the line state `l`; the last one writes position, texture and accumulator back. */
  predicate Shows(r: Regs, l: Line, last: bool)
  {
    && r.cpt == l.spot.cpt && r.dpt == l.spot.dpt
    && (last ==> Field(r.con0, 12) == l.spot.ash && Field(r.con1, 12) == l.bsh && r.apt % 65536 == l.acc % 65536)
  }

  lemma {:induction false} BackShows(r: Regs, l: Line)
    requires r.cpt == l.spot.cpt && r.dpt == l.spot.dpt
    ensures Shows(WriteBack(r, l), l, true)
  {
    FieldOf(r.con0, l.spot.ash);
    FieldOf(r.con1, l.bsh);
    LowHalf(r.apt, l.acc);
  }

  lemma {:induction false} DrawIs(e: Engine, q: Engine)
    requires q == Draw(e)
    ensures q.line == Walk(e.line) && q.regs.cpt == q.line.spot.cpt && q.regs.dpt == q.line.spot.dpt && q.nonzero == Plot(e).nonzero
  {
  }

  lemma {:induction false} StepShows(e: Engine, q: Engine)
    requires e.line.active && e.line.remaining > 0 && q == LineStep(e)
    ensures Shows(q.regs, Walk(e.line), e.line.remaining == 1) && q.nonzero == Plot(e).nonzero
  {
    var d := Draw(e);
    DrawIs(e, d);
    WalkMoves(e.line);
    if e.line.remaining == 1 {
      BackShows(d.regs, d.line);
    }
  }

  // ---------- a whole line ----------

  lemma {:induction false} StandsOn(e: Engine, k: nat, q: Engine)
    requires Keeps(e.regs) && e.line.active && k < e.line.remaining && e.line.spot.cpt == e.line.spot.dpt
    requires InView(e.mem, e.line, k) && q == LineSteps(e, k)
    ensures q.line == Walks(e.line, k) && q.line.active && q.line.remaining == e.line.remaining - k
    ensures q.mem == Painted(e.mem, e.regs, Trail(e.line), k) && q.regs.con0[9]
  {
    LineRun(e, k);
    WalksPlan(e.line, k);
    SameSourceDraws(e.regs, q.regs, true, true);
  }

  lemma {:induction false} NextShows(e: Engine, k: nat, q: Engine, q': Engine)
    requires Keeps(e.regs) && e.line.active && k < e.line.remaining && e.line.spot.cpt == e.line.spot.dpt
    requires InView(e.mem, e.line, k) && q == LineSteps(e, k) && q' == LineStep(q)
    ensures Shows(q'.regs, Walks(e.line, k + 1), k + 1 == e.line.remaining) && q'.nonzero == Plot(q).nonzero
  {
    StandsOn(e, k, q);
    StepShows(q, q');
  }

  /** Main result: after every pixel the pointer registers show the place of the next one, and after the last pixel BLTCON0,
      BLTCON1 and BLTAPT show its bit position, texture position and accumulator. */
  lemma {:induction false} RegistersShow(e: Engine, k: nat)
    requires Keeps(e.regs) && e.line.active && k < e.line.remaining && e.line.spot.cpt == e.line.spot.dpt
    requires InView(e.mem, e.line, k)
    ensures Shows(LineSteps(e, k + 1).regs, Walks(e.line, k + 1), k + 1 == e.line.remaining)
  {
    NextShows(e, k, LineSteps(e, k), LineSteps(e, k + 1));
  }

  // ---------- the zero flag ----------

  /** Pixel j is drawn and its word is not zero afterwards. */
  predicate Inks(mem: seq<bool>, r: Regs, ws: nat -> Line, j: nat)
  {
    !ws(j).suppress && Peek(Painted(mem, r, ws, j + 1), ws(j).spot.cpt) != Zeros(16)
  }

  /** One of the first k pixels does that. */
  ghost predicate Inked(mem: seq<bool>, r: Regs, ws: nat -> Line, k: nat)
  {
    exists j {:trigger Inks(mem, r, ws, j)} :: 0 <= j < k && Inks(mem, r, ws, j)
  }

  lemma {:induction false} PlotFlag(r: Regs, l: Line, mem: seq<bool>, nonzero: bool, p: Plotted)
    requires r.con0[9] && l.spot.cpt == l.spot.dpt && InMem(mem, l.spot.cpt) && p == PlotOn(r, l, mem, nonzero)
    ensures p.nonzero == (nonzero || (!l.suppress && Peek(p.mem, l.spot.cpt) != Zeros(16)))
  {
    if !l.suppress {
      var d := Minterm(r.con0, Shr(r.adat, l.spot.ash), Spread(r.bdat[l.bsh]), Peek(mem, l.spot.cpt));
      DiskWrite.OverwriteWord(mem, 8 * l.spot.cpt, d);
    }
  }

  lemma {:induction false} PaintsNext(e: Engine, k: nat, q: Engine, q': Engine)
    requires Keeps(e.regs) && e.line.active && k < e.line.remaining && e.line.spot.cpt == e.line.spot.dpt
    requires InView(e.mem, e.line, k + 1) && q == LineSteps(e, k) && q' == LineSteps(e, k + 1) && q.line.active && q.line.remaining > 0
    ensures Plot(q).mem == Painted(e.mem, e.regs, Trail(e.line), k + 1)
  {
    LineRun(e, k + 1);
    NextStepped(q, q');
  }

  lemma {:induction false} InPlace(mem: seq<bool>, l: Line, k: nat)
    requires InView(mem, l, k + 1) && l.spot.cpt == l.spot.dpt
    ensures InMem(mem, Walks(l, k).spot.cpt) && Walks(l, k).spot.cpt == Walks(l, k).spot.dpt
  {
    WalksPlan(l, k);
  }

  lemma {:induction false} FlagStep(e: Engine, k: nat, q: Engine, q': Engine)
    requires Keeps(e.regs) && e.line.active && k < e.line.remaining && e.line.spot.cpt == e.line.spot.dpt
    requires InView(e.mem, e.line, k + 1) && q == LineSteps(e, k) && q' == LineSteps(e, k + 1)
    ensures q'.nonzero == (q.nonzero || Inks(e.mem, e.regs, Trail(e.line), k))
  {
    StandsOn(e, k, q);
    NextShows(e, k, q, q');
    PaintsNext(e, k, q, q');
    InPlace(e.mem, e.line, k);
    PlotFlag(q.regs, q.line, q.mem, q.nonzero, Plot(q));
  }

  predicate RisesAt(bs: seq<bool>, ink: nat -> bool, i: nat)
    requires i + 1 < |bs|
  {
    bs[i + 1] == (bs[i] || ink(i))
  }

  lemma {:induction false} RisesAlong(bs: seq<bool>, ink: nat -> bool, n: nat)
    requires n < |bs| && forall i {:trigger RisesAt(bs, ink, i)} :: 0 <= i < n ==> RisesAt(bs, ink, i)
    ensures bs[n] <==> bs[0] || exists j {:trigger ink(j)} :: 0 <= j < n && ink(j)
  {
    if n > 0 {
      RisesAlong(bs, ink, n - 1);
      assert RisesAt(bs, ink, n - 1);
    }
  }

  function Ink(mem: seq<bool>, r: Regs, ws: nat -> Line): nat -> bool { (j: nat) => Inks(mem, r, ws, j) }

  lemma {:induction false} InkIsInks(mem: seq<bool>, r: Regs, ws: nat -> Line, k: nat, ink: nat -> bool)
    requires ink == Ink(mem, r, ws)
    ensures (exists j {:trigger ink(j)} :: 0 <= j < k && ink(j)) <==> Inked(mem, r, ws, k)
  {
    assert forall j {:trigger ink(j)} {:trigger Inks(mem, r, ws, j)} :: 0 <= j ==> ink(j) == Inks(mem, r, ws, j);
  }

  lemma {:induction false} ViewLess(mem: seq<bool>, l: Line, k: nat, i: nat)
    requires InView(mem, l, k) && i <= k
    ensures InView(mem, l, i)
  {
  }

  /** Main result: after k pixels the zero flag is down just when it was down before or some drawn pixel left a word that is
      not zero. */
  lemma {:induction false} FlagShows(e: Engine, k: nat)
    requires Keeps(e.regs) && e.line.active && k <= e.line.remaining && e.line.spot.cpt == e.line.spot.dpt
    requires InView(e.mem, e.line, k)
    ensures LineSteps(e, k).nonzero <==> e.nonzero || Inked(e.mem, e.regs, Trail(e.line), k)
  {
    var bs := seq(k + 1, i requires 0 <= i <= k => LineSteps(e, i).nonzero);
    var ink := Ink(e.mem, e.regs, Trail(e.line));
    forall i | 0 <= i < k
      ensures RisesAt(bs, ink, i)
    {
      ViewLess(e.mem, e.line, k, i + 1);
      FlagStep(e, i, LineSteps(e, i), LineSteps(e, i + 1));
    }
    RisesAlong(bs, ink, k);
    InkIsInks(e.mem, e.regs, Trail(e.line), k, ink);
  }

  // ---------- pointers that differ ----------

  lemma {:induction false} PlotParts(r: Regs, l: Line, mem: seq<bool>, nonzero: bool, at: int, c: Word, d: Word)
    requires r.con0[9] && !l.suppress && at == (if l.first then l.spot.dpt else l.spot.cpt)
    requires InMem(mem, l.spot.cpt) && InMem(mem, at) && c == WordAt(mem, 8 * l.spot.cpt)
    requires d == Minterm(r.con0, Shr(r.adat, l.spot.ash), Spread(r.bdat[l.bsh]), c)
    ensures PlotOn(r, l, mem, nonzero) == Plotted(Overwrite(mem, 8 * at, d), c, nonzero || d != Zeros(16))
  {
  }

  /** Main result: a pixel's word is read through the C pointer and goes, with the one bit changed, to the D pointer if it is the
      first pixel drawn and to the C pointer otherwise; BLTCDAT keeps the word that was read. */
  lemma {:induction false} PlotApart(r: Regs, l: Line, mem: seq<bool>, nonzero: bool, at: int, c: Word, d: Word)
    requires Keeps(r) && !l.suppress && at == (if l.first then l.spot.dpt else l.spot.cpt)
    requires InMem(mem, l.spot.cpt) && InMem(mem, at) && c == WordAt(mem, 8 * l.spot.cpt)
    requires d == c[15 - l.spot.ash := Dot(r, r.bdat[l.bsh], c[15 - l.spot.ash])]
    ensures PlotOn(r, l, mem, nonzero) == Plotted(Overwrite(mem, 8 * at, d), c, nonzero || d != Zeros(16))
  {
    DottedWord(r, l.spot.ash, l.bsh, c);
    PlotParts(r, l, mem, nonzero, at, c, d);
  }

  lemma {:induction false} WalkFirst(l: Line)
    ensures Walk(l).first == (l.first && l.suppress)
  {
  }

  /** Main result: of a launched line only pixel 0 goes to the D pointer. */
  lemma {:induction false} OnlyFirst(r: Regs, height: int, k: nat)
    ensures Walks(LaunchLine(r, height), k).first <==> k == 0
  {
    if k > 0 {
      OnlyFirst(r, height, k - 1);
      WalkFirst(Walks(LaunchLine(r, height), k - 1));
    }
  }

  /** Main result: a line starts at its C and D pointers, or with both at the one that is set when the other is zero. */
  lemma {:induction false} LaunchPlaces(r: Regs, height: int)
    ensures var p := LaunchLine(r, height).spot;
            && p.ash == Field(r.con0, 12)
            && (r.cpt != 0 && r.dpt != 0 ==> p.cpt == r.cpt && p.dpt == r.dpt)
            && (r.cpt == 0 ==> p.cpt == p.dpt == r.dpt) && (r.dpt == 0 ==> p.cpt == p.dpt == r.cpt)
  {
  }
}
