/** What a line does to memory: the pixels of the line and no other bit. */
module LineMemory {
  import opened Bits
  import opened Mfm
  import opened Blitter
  import opened LineGeometry
  import opened Iteration

  function LineSteps(e: Engine, k: nat): Engine
  {
    Iterate(LineStep, e, k)
  }

  /** A line by the usual convention: one mask bit, C read, and a minterm that keeps C off the line, whatever the texture. */
  predicate Keeps(r: Regs)
  {
    r.con0[9] && r.adat == Zeros(15) + [true] && !r.con0[2] && r.con0[3] && (r.bdat == Ones(16) || (!r.con0[0] && r.con0[1]))
  }

  /** A solid line that inverts a clear bit. The table entry for a set bit tells drawing (0xCA) from inverting (0x4A). */
  predicate Drawing(r: Regs) { Keeps(r) && r.bdat == Ones(16) && r.con0[6] }

  /** A textured line: every pixel gets the texture bit, as minterm 0xCA gives it. */
  predicate Texturing(r: Regs) { Keeps(r) && !r.con0[4] && !r.con0[5] && r.con0[6] && r.con0[7] }

  /** What a pixel with texture bit `b` becomes. */
  function Dot(r: Regs, b: bool, was: bool): bool { r.con0[4 + (if b then 2 else 0) + (if was then 1 else 0)] }

  lemma {:induction false} SolidDot(r: Regs, k: Nibble, was: bool)
    requires Drawing(r)
    ensures Dot(r, r.bdat[k], was) == (!was || r.con0[7])
  {
  }

  lemma {:induction false} MaskBit(adat: Word, k: nat, i: nat)
    requires adat == Zeros(15) + [true] && k < 16 && i < 16
    ensures Shr(adat, k)[i] == (i == 15 - k)
  {
  }

  /** The B source of a line: the texture bit in all places. */
  function Spread(b: bool): Word { if b then Ones(16) else Zeros(16) }

  lemma {:induction false} MintermBit(r: Regs, a: Word, k: Nibble, c: Word, i: nat)
    requires Keeps(r) && i < 16
    ensures Minterm(r.con0, a, Spread(r.bdat[k]), c)[i] == if a[i] then Dot(r, r.bdat[k], c[i]) else c[i]
  {
  }

  lemma {:induction false} DottedWord(r: Regs, ash: nat, k: Nibble, c: Word)
    requires Keeps(r) && ash < 16
    ensures Minterm(r.con0, Shr(r.adat, ash), Spread(r.bdat[k]), c) == c[15 - ash := Dot(r, r.bdat[k], c[15 - ash])]
  {
    var d := Minterm(r.con0, Shr(r.adat, ash), Spread(r.bdat[k]), c);
    forall i | 0 <= i < 16
      ensures d[i] == c[15 - ash := Dot(r, r.bdat[k], c[15 - ash])][i]
    {
      MintermBit(r, Shr(r.adat, ash), k, c, i);
      MaskBit(r.adat, ash, i);
    }
  }

  lemma {:induction false} OverwriteOne(mem: seq<bool>, p: nat, ash: nat, v: bool)
    requires p + 16 <= |mem| && ash < 16
    ensures Overwrite(mem, p, WordAt(mem, p)[15 - ash := v]) == mem[p + ash := v]
  {
  }

  /** A plot in memory is the minterm of the word that was there. */
  lemma {:induction false} PlotWord(r: Regs, l: Line, mem: seq<bool>, nonzero: bool, p: nat)
    requires r.con0[9] && l.spot.cpt == l.spot.dpt && InMem(mem, l.spot.cpt) && !l.suppress && p == 8 * l.spot.cpt
    ensures PlotOn(r, l, mem, nonzero).mem ==
            Overwrite(mem, p, Minterm(r.con0, Shr(r.adat, l.spot.ash), Spread(r.bdat[l.bsh]), WordAt(mem, p)))
  {
  }

  /** The word with its pixel drawn, written back, is memory with one bit drawn. */
  lemma {:induction false} DottedPixel(mem: seq<bool>, r: Regs, p: nat, ash: nat, k: Nibble)
    requires Keeps(r) && p + 16 <= |mem| && ash < 16
    ensures Overwrite(mem, p, Minterm(r.con0, Shr(r.adat, ash), Spread(r.bdat[k]), WordAt(mem, p))) ==
            mem[p + ash := Dot(r, r.bdat[k], mem[p + ash])]
  {
    DottedWord(r, ash, k, WordAt(mem, p));
    OverwriteOne(mem, p, ash, Dot(r, r.bdat[k], mem[p + ash]));
  }

  lemma {:induction false} PlotDot(r: Regs, l: Line, mem: seq<bool>, nonzero: bool, p: nat)
    requires Keeps(r) && l.spot.cpt == l.spot.dpt && InMem(mem, l.spot.cpt) && !l.suppress && p == 8 * l.spot.cpt
    ensures PlotOn(r, l, mem, nonzero).mem == mem[p + l.spot.ash := Dot(r, r.bdat[l.bsh], mem[p + l.spot.ash])]
  {
    PlotWord(r, l, mem, nonzero, p);
    DottedPixel(mem, r, p, l.spot.ash, l.bsh);
  }

  /** A plotted pixel changes one bit of memory. */
  lemma {:induction false} PlotPixel(e: Engine)
    requires Keeps(e.regs) && e.line.spot.cpt == e.line.spot.dpt && InMem(e.mem, e.line.spot.cpt)
    ensures Plot(e).mem == if e.line.suppress then e.mem
                           else e.mem[Pixel(e.line.spot) := Dot(e.regs, e.regs.bdat[e.line.bsh], e.mem[Pixel(e.line.spot)])]
  {
    if !e.line.suppress {
      PlotDot(e.regs, e.line, e.mem, e.nonzero, 8 * e.line.spot.cpt);
    }
  }

  /** The walk from `l` on, pixel by pixel. */
  function Trail(l: Line): nat -> Line { (k: nat) => Walks(l, k) }

  /** Memory after the first k pixels of a walk. */
  function Painted(mem: seq<bool>, r: Regs, ws: nat -> Line, k: nat): (s: seq<bool>)
    ensures |s| == |mem|
  {
    if k == 0 then mem else
    var s, w := Painted(mem, r, ws, k - 1), ws(k - 1);
    if w.suppress || !(0 <= Pixel(w.spot) < |s|) then s else s[Pixel(w.spot) := Dot(r, r.bdat[w.bsh], s[Pixel(w.spot)])]
  }

  /** The first k pixels lie in memory. */
  ghost predicate InView(mem: seq<bool>, l: Line, k: nat)
  {
    forall j {:trigger Walks(l, j)} :: 0 <= j < k ==> InMem(mem, Walks(l, j).spot.cpt)
  }

  /** The registers a line keeps while it runs. */
  predicate SameSource(r: Regs, s: Regs)
  {
    s.adat == r.adat && s.bdat == r.bdat && s.con0[..12] == r.con0[..12]
  }

  lemma {:induction false} SameSourceDraws(r: Regs, s: Regs, b: bool, v: bool)
    requires Keeps(r) && SameSource(r, s)
    ensures Keeps(s) && Dot(s, b, v) == Dot(r, b, v)
  {
    assert forall i :: 0 <= i < 12 ==> s.con0[i] == s.con0[..12][i] && r.con0[i] == r.con0[..12][i];
  }

  /** One pixel of a running line. */
  ghost predicate LineStepped(e: Engine, q: Engine)
  {
    q.mem == Plot(e).mem && SameSource(e.regs, q.regs) && q.area == e.area &&
    q.line == (if e.line.remaining > 1 then Walk(e.line) else Walk(e.line).(active := false)) &&
    (e.line.remaining > 1 ==> q.busy == e.busy && q.blit == e.blit) && (e.line.remaining == 1 ==> !q.busy && q.blit)
  }

  lemma {:induction false} LineStepIs(e: Engine)
    requires e.line.active && e.line.remaining > 0
    ensures LineStepped(e, LineStep(e))
  {
  }

  lemma {:induction false} WalksPlan(l: Line, k: nat)
    ensures SamePlan(l, Walks(l, k)) && Walks(l, k).remaining == l.remaining - k
    ensures Walks(l, k).spot.dpt - Walks(l, k).spot.cpt == l.spot.dpt - l.spot.cpt
  {
    if k > 0 {
      WalksPlan(l, k - 1);
      WalkMoves(Walks(l, k - 1));
    }
  }

  /** The engine after k pixels: on the walk, with the pixels so far painted. */
  ghost predicate OnWalk(e: Engine, ws: nat -> Line, q: Engine, k: nat)
  {
    q.mem == Painted(e.mem, e.regs, ws, k) && SameSource(e.regs, q.regs) && (k < e.line.remaining ==> q.line == ws(k))
  }

  /** The plot of an engine that stands on pixel w of a line with the same source registers. */
  lemma {:induction false} PlotsDot(r: Regs, q: Engine, w: Line)
    requires Keeps(r) && SameSource(r, q.regs) && q.line == w && w.spot.cpt == w.spot.dpt && InMem(q.mem, w.spot.cpt)
    ensures 0 <= Pixel(w.spot) < |q.mem|
    ensures Plot(q).mem == if w.suppress then q.mem else q.mem[Pixel(w.spot) := Dot(r, r.bdat[w.bsh], q.mem[Pixel(w.spot)])]
  {
    SameSourceDraws(r, q.regs, r.bdat[w.bsh], q.mem[Pixel(w.spot)]);
    PlotPixel(q);
  }

  /** Pixel i of a walk of `n` pixels in memory. */
  predicate Treads(ws: nat -> Line, mem: seq<bool>, n: int, i: nat)
  {
    && ws(i + 1) == Walk(ws(i)) && ws(i).active && ws(i).remaining == n - i
    && ws(i).spot.cpt == ws(i).spot.dpt && InMem(mem, ws(i).spot.cpt)
  }

  lemma {:induction false} OnWalkNext(e: Engine, ws: nat -> Line, q: Engine, q': Engine, k: nat)
    requires Keeps(e.regs) && k < e.line.remaining && Treads(ws, e.mem, e.line.remaining, k)
    requires OnWalk(e, ws, q, k) && LineStepped(q, q')
    ensures OnWalk(e, ws, q', k + 1)
  {
    PlotsDot(e.regs, q, ws(k));
  }

  ghost predicate SteppedAt(es: seq<Engine>, i: nat)
    requires i + 1 < |es|
  {
    es[i].line.active && es[i].line.remaining > 0 ==> LineStepped(es[i], es[i + 1])
  }

  lemma {:induction false} OnWalkStart(e: Engine, ws: nat -> Line)
    requires ws(0) == e.line
    ensures OnWalk(e, ws, e, 0)
  {
  }

  lemma {:induction false} WalkStep(es: seq<Engine>, ws: nat -> Line, n: nat, k: nat)
    requires k + 1 < |es| && Keeps(es[0].regs) && k < n == es[0].line.remaining
    requires Treads(ws, es[0].mem, n, k) && SteppedAt(es, k) && OnWalk(es[0], ws, es[k], k)
    ensures OnWalk(es[0], ws, es[k + 1], k + 1)
  {
    OnWalkNext(es[0], ws, es[k], es[k + 1], k);
  }

  lemma {:induction false} WalkAlong(es: seq<Engine>, ws: nat -> Line, n: nat, k: nat)
    requires k < |es| && Keeps(es[0].regs) && k <= n == es[0].line.remaining && ws(0) == es[0].line
    requires forall i {:trigger Treads(ws, es[0].mem, n, i)} :: 0 <= i < k ==> Treads(ws, es[0].mem, n, i)
    requires forall i {:trigger SteppedAt(es, i)} :: 0 <= i < k ==> SteppedAt(es, i)
    ensures OnWalk(es[0], ws, es[k], k)
  {
    if k == 0 {
      OnWalkStart(es[0], ws);
    } else {
      WalkAlong(es, ws, n, k - 1);
      WalkStep(es, ws, n, k - 1);
    }
  }

  lemma {:induction false} TrailTreads(mem: seq<bool>, l: Line, k: nat, i: nat)
    requires l.active && l.spot.cpt == l.spot.dpt && InView(mem, l, k) && i < k
    ensures Treads(Trail(l), mem, l.remaining, i)
  {
    WalksPlan(l, i);
    assert InMem(mem, Walks(l, i).spot.cpt);
  }

  lemma {:induction false} NextStepped(q: Engine, q': Engine)
    requires q' == LineStep(q)
    ensures q.line.active && q.line.remaining > 0 ==> LineStepped(q, q')
  {
    if q.line.active && q.line.remaining > 0 {
      LineStepIs(q);
    }
  }

  lemma {:induction false} StepsStepped(e: Engine, i: nat)
    ensures LineSteps(e, i).line.active && LineSteps(e, i).line.remaining > 0 ==> LineStepped(LineSteps(e, i), LineSteps(e, i + 1))
  {
    NextStepped(LineSteps(e, i), LineSteps(e, i + 1));
  }

  /** The engine follows the walk, and memory follows the painted pixels. */
  lemma {:induction false} LineRun(e: Engine, k: nat)
    requires Keeps(e.regs) && e.line.active && k <= e.line.remaining && e.line.spot.cpt == e.line.spot.dpt
    requires InView(e.mem, e.line, k)
    ensures OnWalk(e, Trail(e.line), LineSteps(e, k), k)
  {
    var es := seq(k + 1, i requires 0 <= i <= k => LineSteps(e, i));
    forall i | 0 <= i < k
      ensures SteppedAt(es, i) && Treads(Trail(e.line), e.mem, e.line.remaining, i)
    {
      StepsStepped(e, i);
      TrailTreads(e.mem, e.line, k, i);
    }
    WalkAlong(es, Trail(e.line), e.line.remaining, k);
  }

  lemma {:induction false} LineMem(e: Engine, k: nat)
    requires Keeps(e.regs) && e.line.active && k <= e.line.remaining && e.line.spot.cpt == e.line.spot.dpt
    requires InView(e.mem, e.line, k)
    ensures LineSteps(e, k).mem == Painted(e.mem, e.regs, Trail(e.line), k)
  {
    LineRun(e, k);
  }

  // ---------- drawing ----------

  /** The k-th pixel of the walk is drawn at p. */
  predicate DrawnAt(ws: nat -> Line, k: nat, p: int) { !ws(k).suppress && Pixel(ws(k).spot) == p }

  /** Pixel p is drawn among the first k. */
  ghost predicate Hit(ws: nat -> Line, k: nat, p: int)
  {
    exists j {:trigger DrawnAt(ws, j, p)} :: 0 <= j < k && DrawnAt(ws, j, p)
  }

  lemma {:induction false} HitMore(ws: nat -> Line, k: nat, p: int)
    ensures Hit(ws, k + 1, p) <==> Hit(ws, k, p) || DrawnAt(ws, k, p)
  {
  }

  /** What the k-th pixel does to bit p. */
  lemma {:induction false} PaintNext(mem: seq<bool>, r: Regs, ws: nat -> Line, k: nat, p: nat)
    requires p < |mem|
    ensures var was := Painted(mem, r, ws, k)[p];
            Painted(mem, r, ws, k + 1)[p] == if DrawnAt(ws, k, p) then Dot(r, r.bdat[ws(k).bsh], was) else was
  {
  }

  lemma {:induction false} PaintOn(mem: seq<bool>, r: Regs, ws: nat -> Line, k: nat, p: nat)
    requires Drawing(r) && r.con0[7] && p < |mem|
    ensures Painted(mem, r, ws, k)[p] == (mem[p] || Hit(ws, k, p))
  {
    if k > 0 {
      PaintOn(mem, r, ws, k - 1, p);
      HitMore(ws, k - 1, p);
      PaintNext(mem, r, ws, k - 1, p);
      SolidDot(r, ws(k - 1).bsh, Painted(mem, r, ws, k - 1)[p]);
    }
  }

  /** Repainting with the inverting minterm takes back the first k pixels, last one first. */
  lemma {:induction false} PaintTwice(mem: seq<bool>, r: Regs, ws: nat -> Line, k: nat, p: nat)
    requires Drawing(r) && !r.con0[7] && p < |mem|
    ensures Painted(mem, r, ws, k)[p] == (mem[p] != Flips(ws, k, p))
  {
    if k > 0 {
      PaintTwice(mem, r, ws, k - 1, p);
      PaintNext(mem, r, ws, k - 1, p);
      SolidDot(r, ws(k - 1).bsh, Painted(mem, r, ws, k - 1)[p]);
    }
  }

  /** Whether pixel p is drawn an odd number of times among the first k. */
  function Flips(ws: nat -> Line, k: nat, p: nat): bool
  {
    if k == 0 then false else Flips(ws, k - 1, p) != DrawnAt(ws, k - 1, p)
  }

  lemma {:induction false} PaintedBack(mem: seq<bool>, r: Regs, ws: nat -> Line, k: nat)
    requires Drawing(r) && !r.con0[7]
    ensures Painted(Painted(mem, r, ws, k), r, ws, k) == mem
  {
    var once := Painted(mem, r, ws, k);
    forall p | 0 <= p < |mem|
      ensures Painted(once, r, ws, k)[p] == mem[p]
    {
      PaintTwice(mem, r, ws, k, p);
      PaintTwice(once, r, ws, k, p);
    }
  }

  // ---------- texture ----------

  lemma {:induction false} DownAndAround(b: int, x: int, k: nat)
    requires b == (x - k) % 16
    ensures (b - 1) % 16 == (x - (k + 1)) % 16
  {
  }

  lemma {:induction false} WalkTexture(l: Line)
    ensures Walk(l).bsh == (l.bsh - 1) % 16
  {
  }

  /** The texture bit moves on with every pixel, drawn or not. */
  lemma {:induction false} WalksTexture(l: Line, k: nat)
    ensures Walks(l, k).bsh == (l.bsh - k) % 16
  {
    if k > 0 {
      WalksTexture(l, k - 1);
      WalkTexture(Walks(l, k - 1));
      DownAndAround(Walks(l, k - 1).bsh, l.bsh, k - 1);
    }
  }

  /** A bit that no pixel from the j-th up to the k-th is drawn at stays. */
  lemma {:induction false} PaintLasts(mem: seq<bool>, r: Regs, ws: nat -> Line, j: nat, k: nat, p: nat)
    requires j <= k && p < |mem| && forall i {:trigger DrawnAt(ws, i, p)} :: j <= i < k ==> !DrawnAt(ws, i, p)
    ensures Painted(mem, r, ws, k)[p] == Painted(mem, r, ws, j)[p]
    decreases k
  {
    if j < k {
      PaintLasts(mem, r, ws, j, k - 1, p);
      PaintNext(mem, r, ws, k - 1, p);
    }
  }

  /** A pixel of a textured line that no later one falls on keeps its texture bit. */
  lemma {:induction false} PaintTexture(mem: seq<bool>, r: Regs, ws: nat -> Line, j: nat, k: nat, p: nat)
    requires Texturing(r) && j < k && p < |mem| && DrawnAt(ws, j, p)
    requires forall i {:trigger DrawnAt(ws, i, p)} :: j < i < k ==> !DrawnAt(ws, i, p)
    ensures Painted(mem, r, ws, k)[p] == r.bdat[ws(j).bsh]
  {
    PaintNext(mem, r, ws, j, p);
    PaintLasts(mem, r, ws, j + 1, k, p);
  }

  lemma {:induction false} SameView(mem: seq<bool>, other: seq<bool>, l: Line, k: nat)
    requires InView(mem, l, k) && |other| == |mem|
    ensures InView(other, l, k)
  {
    assert forall j {:trigger Walks(l, j)} :: 0 <= j < k ==> InMem(mem, Walks(l, j).spot.cpt);
  }

  // ---------- main results ----------

  /** A whole line of M + 1 pixels, ready to run with its pixels in memory. */
  ghost predicate Ready(e: Engine, m: nat, M: nat)
  {
    Programmed(e.line, m, M) && Keeps(e.regs) && e.line.active && e.line.remaining == M + 1 &&
    e.line.spot.cpt == e.line.spot.dpt && !e.line.suppress && InView(e.mem, e.line, M + 1)
  }

  ghost predicate ReadyLine(e: Engine, m: nat, M: nat) { Ready(e, m, M) && Drawing(e.regs) }

  /** The address of pixel j of the line, from the rounding formula alone. */
  function LinePixel(l: Line, m: nat, M: nat, j: nat): int
    requires M > 0
  {
    Pixel(l.spot) + j * Major(l) + Rounded(j, m, M) * Minor(l)
  }

  /** Pixel j is the first of its row. */
  predicate FirstOfRow(m: nat, M: nat, j: nat)
    requires M > 0
  {
    j == 0 || Rounded(j, m, M) != Rounded(j - 1, m, M)
  }

  ghost predicate OnLine(l: Line, m: nat, M: nat, p: int)
    requires M > 0
  {
    exists j {:trigger LinePixel(l, m, M, j)} :: 0 <= j <= M && p == LinePixel(l, m, M, j) &&
      (l.sing && l.xMajor ==> FirstOfRow(m, M, j))
  }

  /** Where pixel j of the walk is, and whether it is drawn. */
  lemma {:induction false} PixelsAre(l: Line, m: nat, M: nat, j: nat, p: int)
    requires Programmed(l, m, M) && !l.suppress && j <= M
    ensures DrawnAt(Trail(l), j, p) <==> p == LinePixel(l, m, M, j) && (l.sing && l.xMajor ==> FirstOfRow(m, M, j))
  {
    Geometry(l, m, M, j);
    if l.sing && l.xMajor {
      SingleFirst(l, m, M, j);
    } else {
      AllDrawn(l, j);
    }
  }

  lemma {:induction false} HitOnLine(l: Line, m: nat, M: nat, p: int)
    requires Programmed(l, m, M) && !l.suppress
    ensures Hit(Trail(l), M + 1, p) <==> OnLine(l, m, M, p)
  {
    if Hit(Trail(l), M + 1, p) {
      var j :| 0 <= j < M + 1 && DrawnAt(Trail(l), j, p);
      PixelsAre(l, m, M, j, p);
    }
    if OnLine(l, m, M, p) {
      var j :| 0 <= j <= M && p == LinePixel(l, m, M, j) && (l.sing && l.xMajor ==> FirstOfRow(m, M, j));
      PixelsAre(l, m, M, j, p);
      assert DrawnAt(Trail(l), j, p);
    }
  }

  /** Drawing with minterm 0xCA turns on exactly the line's pixels; with SING on an X-major line, the first of each row. */
  lemma {:induction false} DrawsLine(e: Engine, m: nat, M: nat, p: nat)
    requires ReadyLine(e, m, M) && e.regs.con0[7] && p < |e.mem|
    ensures |LineSteps(e, M + 1).mem| == |e.mem|
    ensures LineSteps(e, M + 1).mem[p] == (e.mem[p] || OnLine(e.line, m, M, p))
  {
    LineRun(e, M + 1);
    PaintOn(e.mem, e.regs, Trail(e.line), M + 1, p);
    HitOnLine(e.line, m, M, p);
  }

  lemma {:induction false} StillReady(e: Engine, again: Engine, m: nat, M: nat)
    requires ReadyLine(e, m, M) && |again.mem| == |e.mem| && again == e.(mem := again.mem)
    ensures ReadyLine(again, m, M)
  {
    SameView(e.mem, again.mem, e.line, M + 1);
  }

  /** Drawing with minterm 0x4A twice from the same setup leaves memory as it was. */
  lemma {:induction false} InvertsBack(e: Engine, again: Engine, m: nat, M: nat)
    requires ReadyLine(e, m, M) && !e.regs.con0[7] && again == e.(mem := LineSteps(e, M + 1).mem)
    ensures LineSteps(again, M + 1).mem == e.mem
  {
    var n := M + 1;
    LineMem(e, n);
    StillReady(e, again, m, M);
    LineMem(again, n);
    PaintedBack(e.mem, e.regs, Trail(e.line), n);
  }
}
