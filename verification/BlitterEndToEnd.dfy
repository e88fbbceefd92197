/** From a write to BLTSIZE to the finished picture: launched blits, cut up over any scanlines, and what they leave in memory. */
module BlitterEndToEnd {
  import opened Bits
  import opened Blitter
  import opened DmaSlots
  import opened Iteration
  import opened BlitterRun
  import opened LineGeometry
  import opened LineMemory
  import LineRegisters
  import AreaRun
  import AreaBlit
  import AreaCopy
  import WordCopy

  // ---------- one engine at a time ----------

  lemma {:induction false} LineKeepsArea(e: Engine)
    ensures LineStep(e).area == e.area
  {
  }

  lemma {:induction false} AreaKeepsLine(e: Engine)
    ensures AreaStep(e).line == e.line
  {
  }

  /** A step of a running blit leaves the engine that is not running alone. */
  lemma {:induction false} IdleStaysIdle(q: Engine)
    requires Consistent(q)
    ensures !q.area.active ==> !EngineStep(q).area.active
    ensures !q.line.active ==> !EngineStep(q).line.active
  {
    if q.line.active {
      LineKeepsArea(q);
    } else {
      AreaKeepsLine(q);
    }
  }

  lemma {:induction false} IdleThroughout(e: Engine, k: nat)
    requires Consistent(e)
    ensures !e.area.active ==> !Steps(e, k).area.active
    ensures !e.line.active ==> !Steps(e, k).line.active
  {
    var idle := (q: Engine) => (!e.area.active ==> !q.area.active) && (!e.line.active ==> !q.line.active);
    forall i | 0 <= i < k
      ensures KeepsAt(EngineStep, e, idle, i)
    {
      StepsConsistent(e, i);
      IdleStaysIdle(Iterate(EngineStep, e, i));
    }
    Kept(EngineStep, e, idle, k);
  }

  lemma {:induction false} LineHasTurn(e: Engine, i: nat)
    requires Consistent(e) && e.line.active && i < e.line.remaining
    ensures EngineStep(Steps(e, i)) == LineStep(Steps(e, i))
  {
    StepsRan(e, i);
    IdleThroughout(e, i);
  }

  lemma {:induction false} AreaHasTurn(e: Engine, i: nat)
    requires Consistent(e) && e.area.active && i < e.area.remaining
    ensures EngineStep(Steps(e, i)) == AreaStep(Steps(e, i))
  {
    StepsRan(e, i);
    IdleThroughout(e, i);
  }

  /** A running line engine, stepped slot by slot, is the line engine stepped by itself. */
  lemma {:induction false} StepsAreLine(e: Engine, k: nat)
    requires Consistent(e) && e.line.active && k <= e.line.remaining
    ensures Steps(e, k) == LineSteps(e, k)
  {
    forall i | 0 <= i < k
      ensures EngineStep(Iterate(EngineStep, e, i)) == LineStep(Iterate(EngineStep, e, i))
    {
      LineHasTurn(e, i);
    }
    SameRun(EngineStep, LineStep, e, k);
  }

  /** A running area engine, stepped slot by slot, is the area engine stepped by itself. */
  lemma {:induction false} StepsAreArea(e: Engine, k: nat)
    requires Consistent(e) && e.area.active && k <= e.area.remaining
    ensures Steps(e, k) == Iterate(AreaStep, e, k)
  {
    forall i | 0 <= i < k
      ensures EngineStep(Iterate(EngineStep, e, i)) == AreaStep(Iterate(EngineStep, e, i))
    {
      AreaHasTurn(e, i);
    }
    SameRun(EngineStep, AreaStep, e, k);
  }

  lemma {:induction false} RunIsSteps(e: Engine, n: nat, k: nat)
    requires Consistent(e) && e.area.active && k <= n <= e.area.remaining
    ensures AreaRun.Run(e, n)[k] == Steps(e, k)
  {
    StepsAreArea(e, k);
    StatesAre(AreaStep, e, n, k);
  }

  // ---------- launched lines ----------

  /** The registers of a line of M + 1 pixels by the usual convention. */
  predicate LineRegs(r: Regs, m: int, M: int)
  {
    && r.con1[0] && 0 <= m <= M && 1 <= M <= 1023
    && Int16(r.apt) == 4 * m - 2 * M && r.amod == 4 * (m - M) && r.bmod == 4 * m && r.con1[6] == (4 * m - 2 * M < 0)
    && r.cpt == r.dpt && Keeps(r)
  }

  /** No area blit is running, the registers hold a line, and its pixels lie in memory. */
  ghost predicate LineSet(e: Engine, m: nat, M: nat)
  {
    !e.area.active && LineRegs(e.regs, m, M) && InView(e.mem, LaunchLine(e.regs, M + 1), M + 1)
  }

  lemma {:induction false} LaunchReady(e: Engine, width: int, m: nat, M: nat)
    requires LineSet(e, m, M)
    ensures Ready(Launch(e, width, M + 1), m, M)
  {
  }

  /** Enough slots take the launched blit to its end, with busy down and the interrupt up. */
  lemma {:induction false} SlotsFinish(e: Engine, ss: seq<Scanline>)
    requires Consistent(e) && e.busy && TotalRoom(ss) >= Left(e)
    ensures Left(e) > 0 && AfterLines(e, ss) == Steps(e, Left(e)) && !AfterLines(e, ss).busy && AfterLines(e, ss).blit
  {
    SlotsRefine(e, ss);
    StepsPastEnd(e, TotalRoom(ss));
    StepsRan(e, Left(e));
  }

  lemma {:induction false} LaunchedLine(e: Engine, width: int, m: nat, M: nat, l: Engine)
    requires LineSet(e, m, M) && width >= 1 && l == Launch(e, width, M + 1)
    ensures Consistent(l) && l.busy && Left(l) == l.line.remaining == M + 1 && l.line.active
    ensures Ready(l, m, M) && l.mem == e.mem && l.regs == e.regs && l.line == LaunchLine(e.regs, M + 1) && !l.nonzero
  {
    LaunchReady(e, width, m, M);
    LaunchConsistent(e, width, M + 1);
  }

  lemma {:induction false} LineRunsOut(l: Engine, ss: seq<Scanline>, n: nat)
    requires Consistent(l) && l.busy && l.line.active && l.line.remaining == n == Left(l) && TotalRoom(ss) >= n
    ensures AfterLines(l, ss) == LineSteps(l, n) && !AfterLines(l, ss).busy && AfterLines(l, ss).blit
  {
    SlotsFinish(l, ss);
    StepsAreLine(l, n);
  }

  /** What a launched line leaves in memory. */
  function LinePicture(e: Engine, n: nat): seq<bool> { Painted(e.mem, e.regs, Trail(LaunchLine(e.regs, n)), n) }

  lemma {:induction false} LinePainted(l: Engine, m: nat, M: nat, ss: seq<Scanline>, n: nat)
    requires Ready(l, m, M) && n == M + 1 && Consistent(l) && l.busy && Left(l) == n && TotalRoom(ss) >= n
    ensures AfterLines(l, ss).mem == Painted(l.mem, l.regs, Trail(l.line), n) && !AfterLines(l, ss).busy && AfterLines(l, ss).blit
  {
    LineRunsOut(l, ss, n);
    LineMem(l, n);
  }

  /** Busy is down, the interrupt up, and memory holds the picture. */
  ghost predicate Finished(e: Engine, q: Engine, n: nat) { q.mem == LinePicture(e, n) && !q.busy && q.blit }

  lemma {:induction false} LineFinishes(e: Engine, width: int, m: nat, M: nat, ss: seq<Scanline>, n: nat, q: Engine)
    requires LineSet(e, m, M) && width >= 1 && n == M + 1 && TotalRoom(ss) >= n && q == AfterLines(Launch(e, width, n), ss)
    ensures Finished(e, q, n)
  {
    var l := Launch(e, width, n);
    LaunchedLine(e, width, m, M, l);
    LinePainted(l, m, M, ss, n);
  }

  lemma {:induction false} PictureIs(e: Engine, m: nat, M: nat, p: nat)
    requires LineSet(e, m, M) && Drawing(e.regs) && e.regs.con0[7] && p < |e.mem|
    ensures LinePicture(e, M + 1)[p] == (e.mem[p] || OnLine(LaunchLine(e.regs, M + 1), m, M, p))
  {
    var l := LaunchLine(e.regs, M + 1);
    LaunchReady(e, 1, m, M);
    PaintOn(e.mem, e.regs, Trail(l), M + 1, p);
    HitOnLine(l, m, M, p);
  }

  lemma {:induction false} PictureIn(e: Engine, m: nat, M: nat, p: nat, q: Engine)
    requires LineSet(e, m, M) && Drawing(e.regs) && e.regs.con0[7] && p < |e.mem| && Finished(e, q, M + 1)
    ensures !q.busy && q.blit && |q.mem| == |e.mem|
    ensures q.mem[p] == (e.mem[p] || OnLine(LaunchLine(e.regs, M + 1), m, M, p))
  {
    PictureIs(e, m, M, p);
  }

  /** Main result: a line launched with minterm 0xCA, cut up over any scanlines with room for its pixels, leaves in
      memory exactly what was there and the pixels of the line, with busy down and the interrupt raised. */
  lemma {:induction false} LineAppears(e: Engine, width: int, m: nat, M: nat, ss: seq<Scanline>, p: nat, q: Engine)
    requires LineSet(e, m, M) && Drawing(e.regs) && e.regs.con0[7] && width >= 1 && TotalRoom(ss) >= M + 1 && p < |e.mem|
    requires q == AfterLines(Launch(e, width, M + 1), ss)
    ensures !q.busy && q.blit && |q.mem| == |e.mem|
    ensures q.mem[p] == (e.mem[p] || OnLine(LaunchLine(e.regs, M + 1), m, M, p))
  {
    LineFinishes(e, width, m, M, ss, M + 1, q);
    PictureIn(e, m, M, p, q);
  }

  lemma {:induction false} SetAgain(e: Engine, f: Engine, m: nat, M: nat)
    requires LineSet(e, m, M) && |f.mem| == |e.mem| && f == e.(mem := f.mem)
    ensures LineSet(f, m, M)
  {
    SameView(e.mem, f.mem, LaunchLine(e.regs, M + 1), M + 1);
  }

  lemma {:induction false} PictureBack(e: Engine, f: Engine, n: nat)
    requires Drawing(e.regs) && !e.regs.con0[7] && f == e.(mem := LinePicture(e, n))
    ensures LinePicture(f, n) == e.mem
  {
    PaintedBack(e.mem, e.regs, Trail(LaunchLine(e.regs, n)), n);
  }

  /** Main result: with minterm 0x4A, launching the same line again over any other scanlines restores memory. */
  lemma {:induction false} LineDisappears(e: Engine, width: int, m: nat, M: nat, ss: seq<Scanline>, tt: seq<Scanline>)
    requires LineSet(e, m, M) && Drawing(e.regs) && !e.regs.con0[7] && width >= 1 && TotalRoom(ss) >= M + 1 && TotalRoom(tt) >= M + 1
    ensures var once := AfterLines(Launch(e, width, M + 1), ss).mem;
            AfterLines(Launch(e.(mem := once), width, M + 1), tt).mem == e.mem
  {
    var n := M + 1;
    var once := LinePicture(e, n);
    LineFinishes(e, width, m, M, ss, n, AfterLines(Launch(e, width, n), ss));
    SetAgain(e, e.(mem := once), m, M);
    LineFinishes(e.(mem := once), width, m, M, tt, n, AfterLines(Launch(e.(mem := once), width, n), tt));
    PictureBack(e, e.(mem := once), n);
  }

  /** Pixel j is drawn, and no later pixel of the line falls on its place. */
  ghost predicate Stands(l: Line, m: nat, M: nat, j: nat)
    requires M > 0
  {
    && (l.sing && l.xMajor ==> FirstOfRow(m, M, j))
    && forall i {:trigger LinePixel(l, m, M, i)} :: j < i <= M ==> LinePixel(l, m, M, i) != LinePixel(l, m, M, j)
  }

  lemma {:induction false} PixelInMem(mem: seq<bool>, l: Line, m: nat, M: nat, j: nat)
    requires InView(mem, l, M + 1) && Programmed(l, m, M) && j <= M
    ensures 0 <= LinePixel(l, m, M, j) < |mem|
  {
    Geometry(l, m, M, j);
    assert InMem(mem, Walks(l, j).spot.cpt);
  }

  lemma {:induction false} NoneAgain(l: Line, m: nat, M: nat, j: nat, p: nat)
    requires Programmed(l, m, M) && !l.suppress && j <= M && Stands(l, m, M, j) && p == LinePixel(l, m, M, j)
    ensures DrawnAt(Trail(l), j, p) && forall i {:trigger DrawnAt(Trail(l), i, p)} :: j < i < M + 1 ==> !DrawnAt(Trail(l), i, p)
  {
    PixelsAre(l, m, M, j, p);
    forall i | j < i < M + 1
      ensures !DrawnAt(Trail(l), i, p)
    {
      PixelsAre(l, m, M, i, p);
      assert LinePixel(l, m, M, i) != LinePixel(l, m, M, j);
    }
  }

  lemma {:induction false} PictureTextured(e: Engine, m: nat, M: nat, l: Line, j: nat, p: int)
    requires LineSet(e, m, M) && Texturing(e.regs) && l == LaunchLine(e.regs, M + 1) && j <= M && Stands(l, m, M, j)
    requires p == LinePixel(l, m, M, j)
    ensures 0 <= p < |e.mem| && LinePicture(e, M + 1)[p] == e.regs.bdat[(Field(e.regs.con1, 12) - j) % 16]
  {
    LaunchReady(e, 1, m, M);
    PixelInMem(e.mem, l, m, M, j);
    NoneAgain(l, m, M, j, p);
    PaintTexture(e.mem, e.regs, Trail(l), j, M + 1, p);
    WalksTexture(l, j);
  }

  /** Main result: a textured line launched with minterm 0xCA gives its j-th pixel the bit of BLTBDAT that starts at the
      position in BLTCON1 and moves on by one with every pixel, down and around. */
  lemma {:induction false} TextureAppears(e: Engine, width: int, m: nat, M: nat, ss: seq<Scanline>, l: Line, j: nat, q: Engine)
    requires LineSet(e, m, M) && Texturing(e.regs) && width >= 1 && TotalRoom(ss) >= M + 1
    requires l == LaunchLine(e.regs, M + 1) && j <= M && Stands(l, m, M, j) && q == AfterLines(Launch(e, width, M + 1), ss)
    ensures var p := LinePixel(l, m, M, j);
            0 <= p < |q.mem| && q.mem[p] == e.regs.bdat[(Field(e.regs.con1, 12) - j) % 16]
  {
    LineFinishes(e, width, m, M, ss, M + 1, q);
    PictureTextured(e, m, M, l, j, LinePixel(l, m, M, j));
  }

  /** What the registers of a launched line say when it is done: where the next pixel would be, its texture bit and its
      accumulator. */
  predicate LineLeft(r: Regs, s: Regs, l: Line, m: nat, M: nat)
    requires M > 0
  {
    && s.cpt == s.dpt && 8 * s.cpt + Field(s.con0, 12) == LinePixel(l, m, M, M + 1)
    && Field(s.con1, 12) == (Field(r.con1, 12) - (M + 1)) % 16
    && s.apt % 65536 == (4 * m - 2 * M + 4 * ((M + 1) * m) - 4 * (M * Rounded(M + 1, m, M))) % 65536
  }

  lemma {:induction false} WalkLeft(r: Regs, s: Regs, l: Line, w: Line, m: nat, M: nat)
    requires Programmed(l, m, M) && l.spot.cpt == l.spot.dpt && l.bsh == Field(r.con1, 12)
    requires w == Walks(l, M + 1) && LineRegisters.Shows(s, w, true)
    ensures LineLeft(r, s, l, m, M)
  {
    Geometry(l, m, M, M + 1);
    WalksTexture(l, M + 1);
    WalksPlan(l, M + 1);
  }

  lemma {:induction false} LineStepsLeave(l: Engine, m: nat, M: nat, n: nat)
    requires Ready(l, m, M) && n == M + 1
    ensures LineRegisters.Shows(LineSteps(l, n).regs, Walks(l.line, n), true)
    ensures LineSteps(l, n).nonzero <==> l.nonzero || LineRegisters.Inked(l.mem, l.regs, Trail(l.line), n)
  {
    LineRegisters.ViewLess(l.mem, l.line, n, M);
    LineRegisters.RegistersShow(l, M);
    LineRegisters.FlagShows(l, n);
  }

  lemma {:induction false} RunLeaves(l: Engine, m: nat, M: nat, ss: seq<Scanline>, n: nat, q: Engine)
    requires Ready(l, m, M) && Consistent(l) && l.busy && n == M + 1 == Left(l) && TotalRoom(ss) >= n && q == AfterLines(l, ss)
    ensures LineRegisters.Shows(q.regs, Walks(l.line, n), true)
    ensures q.nonzero <==> l.nonzero || LineRegisters.Inked(l.mem, l.regs, Trail(l.line), n)
  {
    LineRunsOut(l, ss, n);
    LineStepsLeave(l, m, M, n);
  }

  /** Main result: a launched line, cut up over any scanlines with room, leaves the place of the pixel after its last in the
      pointer and shift registers and its accumulator in BLTAPT. */
  lemma {:induction false} LineLeaves(e: Engine, width: int, m: nat, M: nat, ss: seq<Scanline>, l: Engine, q: Engine)
    requires LineSet(e, m, M) && width >= 1 && TotalRoom(ss) >= M + 1
    requires l == Launch(e, width, M + 1) && q == AfterLines(l, ss)
    ensures LineLeft(e.regs, q.regs, l.line, m, M)
  {
    LaunchedLine(e, width, m, M, l);
    RunLeaves(l, m, M, ss, M + 1, q);
    WalkLeft(e.regs, q.regs, l.line, Walks(l.line, M + 1), m, M);
  }

  /** Main result: it leaves the zero flag down just when a drawn pixel left a word that is not zero. */
  lemma {:induction false} LineFlags(e: Engine, width: int, m: nat, M: nat, ss: seq<Scanline>, l: Engine, q: Engine)
    requires LineSet(e, m, M) && width >= 1 && TotalRoom(ss) >= M + 1
    requires l == Launch(e, width, M + 1) && q == AfterLines(l, ss)
    ensures q.nonzero <==> LineRegisters.Inked(e.mem, e.regs, Trail(l.line), M + 1)
  {
    LaunchedLine(e, width, m, M, l);
    RunLeaves(l, m, M, ss, M + 1, q);
  }

  /** A solid line always leaves ink: its first pixel is set. */
  lemma {:induction false} SolidInks(e: Engine, m: nat, M: nat, l: Line)
    requires LineSet(e, m, M) && Drawing(e.regs) && e.regs.con0[7] && l == LaunchLine(e.regs, M + 1)
    ensures LineRegisters.Inked(e.mem, e.regs, Trail(l), M + 1)
  {
    var ws, p := Trail(l), Pixel(l.spot);
    assert InMem(e.mem, Walks(l, 0).spot.cpt);
    PaintNext(e.mem, e.regs, ws, 0, p);
    SolidDot(e.regs, l.bsh, e.mem[p]);
    assert Peek(Painted(e.mem, e.regs, ws, 1), l.spot.cpt)[15 - l.spot.ash] && !Zeros(16)[15 - l.spot.ash];
    assert LineRegisters.Inks(e.mem, e.regs, ws, 0);
  }

  // ---------- launched area blits ----------

  lemma {:induction false} AreaFinishes(e: Engine, width: int, height: int, ss: seq<Scanline>, l: Engine, n: nat)
    requires !e.regs.con1[0] && width >= 1 && height >= 1 && n == width * height
    requires l == Launch(e, width, height) && TotalRoom(ss) >= n
    ensures AreaRun.Fresh(l) && l.area.remaining == n && l.mem == e.mem && l.regs == e.regs
    ensures AfterLines(l, ss) == AreaRun.Run(l, n)[n] && !AfterLines(l, ss).busy && AfterLines(l, ss).blit
  {
    AreaRun.LaunchIsFresh(e, width, height);
    LaunchConsistent(e, width, height);
    SlotsFinish(l, ss);
    RunIsSteps(l, n, n);
  }

  /** Main result: at every scanline boundary a launched area blit is in one of the states of its run, so what holds of the run
      (its shifts and its fill rows) holds of the blit cut up over any scanlines. */
  lemma {:induction false} AreaStaysOnRun(e: Engine, width: int, height: int, ss: seq<Scanline>, l: Engine, n: nat)
    requires !e.regs.con1[0] && width >= 1 && height >= 1 && n == width * height
    requires l == Launch(e, width, height)
    ensures AreaRun.Fresh(l) && AreaRun.Blitting(AreaRun.Run(l, n), AreaRun.Words(AreaRun.Run(l, n)))
    ensures AfterLines(l, ss) == AreaRun.Run(l, n)[if TotalRoom(ss) < n then TotalRoom(ss) else n]
  {
    AreaRun.LaunchIsFresh(e, width, height);
    LaunchConsistent(e, width, height);
    AreaRun.RunBlits(l, n);
    SlotsRefine(l, ss);
    if TotalRoom(ss) < n {
      RunIsSteps(l, n, TotalRoom(ss));
    } else {
      StepsPastEnd(l, TotalRoom(ss));
      RunIsSteps(l, n, n);
    }
  }

  /** An area blit, no word of which is written over a source word still to be read. */
  ghost predicate BlitSet(e: Engine, width: int, height: int)
  {
    !e.regs.con1[0] && width >= 1 && height >= 1 && AreaBlit.ReadsFirst(Launch(e, width, height))
  }

  /** Main result: a launched blit, cut up over any scanlines with room for its words, leaves in every destination word that
      no later word covers the filled minterm of the shifted and masked words its channels had at the launch, each fetched
      from its own pointer and modulo. */
  lemma {:induction false} RectangleBlitted(e: Engine, width: int, height: int, ss: seq<Scanline>, y: nat, x: nat)
    requires BlitSet(e, width, height) && e.regs.con0[8] && TotalRoom(ss) >= width * height && y < height && x < width
    requires var l := Launch(e, width, height); AreaBlit.Lasts(l, y, x) && InMem(e.mem, AreaBlit.AimD(l, y, x))
    ensures var l := Launch(e, width, height); Peek(AfterLines(l, ss).mem, AreaBlit.AimD(l, y, x)) == AreaBlit.Result(l, y, x)
  {
    var l, n := Launch(e, width, height), width * height;
    AreaFinishes(e, width, height, ss, l, n);
    AreaBlit.WordBlitted(l, n, AreaRun.Run(l, n), y, x);
  }

  /** Main result: it changes no other bit, and it leaves the zero flag down just when it wrote a word that is not zero. */
  lemma {:induction false} OutsideUnblitted(e: Engine, width: int, height: int, ss: seq<Scanline>, p: nat)
    requires BlitSet(e, width, height) && TotalRoom(ss) >= width * height && p < |e.mem|
    ensures var l := Launch(e, width, height);
            var q := AfterLines(l, ss);
            && |q.mem| == |e.mem| && (!AreaBlit.Covered(l, p) ==> q.mem[p] == e.mem[p])
            && (q.nonzero <==> AreaBlit.SomeNonzero(l))
  {
    var l, n := Launch(e, width, height), width * height;
    AreaFinishes(e, width, height, ss, l, n);
    AreaRun.RunBlits(l, n);
    AreaRun.StandsAt(AreaRun.Run(l, n), AreaRun.Words(AreaRun.Run(l, n)), n);
    if !AreaBlit.Covered(l, p) {
      AreaBlit.RestUnblitted(l, n, AreaRun.Run(l, n), p);
    }
    AreaBlit.FlagTells(l, n, AreaRun.Run(l, n));
  }

  /** Main result: at a scanline boundary in the middle of a blit, after k words, the pointer registers show the addresses of
      word k, each channel by its own pointer and modulo. */
  lemma {:induction false} PointersReadBack(e: Engine, width: int, height: int, ss: seq<Scanline>, l: Engine, q: Engine)
    requires !e.regs.con1[0] && width >= 1 && height >= 1 && TotalRoom(ss) < width * height
    requires l == Launch(e, width, height) && q == AfterLines(l, ss)
    ensures TotalRoom(ss) == q.area.y * width + q.area.x && 0 <= q.area.x < width
    ensures e.regs.con0[11] ==> q.regs.apt == AreaBlit.AimA(l, q.area.y, q.area.x)
    ensures e.regs.con0[10] ==> q.regs.bpt == AreaBlit.AimB(l, q.area.y, q.area.x)
    ensures e.regs.con0[9] ==> q.regs.cpt == AreaBlit.AimC(l, q.area.y, q.area.x)
    ensures e.regs.con0[8] ==> q.regs.dpt == AreaBlit.AimD(l, q.area.y, q.area.x)
  {
    var n := width * height;
    AreaStaysOnRun(e, width, height, ss, l, n);
    AreaBlit.PointersShow(l, n, AreaRun.Run(l, n), TotalRoom(ss));
  }

  /** The registers are set up to copy a rectangle that lies in memory, in the direction its overlap needs. */
  ghost predicate CopySet(e: Engine, width: int, height: int)
  {
    && !e.regs.con1[0] && width >= 1 && height >= 1
    && var l := Launch(e, width, height); AreaCopy.CopySetup(l) && AreaCopy.InView(l) && AreaCopy.Suited(l)
  }

  /** Main result: a launched copy, cut up over any scanlines with room for its words, gives every word of the
      destination the value its source word had at the launch. */
  lemma {:induction false} RectangleMoves(e: Engine, width: int, height: int, ss: seq<Scanline>, y: nat, x: nat, b: nat)
    requires CopySet(e, width, height) && TotalRoom(ss) >= width * height && y < height && x < width && b < 16
    ensures var l := Launch(e, width, height);
            WordCopy.Arrived(e.mem, AfterLines(l, ss).mem, AreaCopy.Offset(l, y, x), l.area.apt, l.area.dpt, b)
  {
    var l, n := Launch(e, width, height), width * height;
    LaunchConsistent(e, width, height);
    AreaFinishes(e, width, height, ss, l, n);
    AreaCopy.CopyIsMove(l, n, AreaRun.Run(l, n), y, x, b);
  }

  /** Main result: and it leaves the rest of memory alone. */
  lemma {:induction false} RestStaysPut(e: Engine, width: int, height: int, ss: seq<Scanline>, p: nat)
    requires CopySet(e, width, height) && TotalRoom(ss) >= width * height
    requires p < |e.mem| && !AreaCopy.InTarget(Launch(e, width, height), p)
    ensures var q := AfterLines(Launch(e, width, height), ss); |q.mem| == |e.mem| && q.mem[p] == e.mem[p]
  {
    var l, n := Launch(e, width, height), width * height;
    LaunchConsistent(e, width, height);
    AreaFinishes(e, width, height, ss, l, n);
    AreaCopy.CopyKeepsRest(l, n, AreaRun.Run(l, n), p);
  }
}
