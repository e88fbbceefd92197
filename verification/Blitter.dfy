/** The blitter as a value: registers, the line and area engines, and memory as a stream of pixels. */
module Blitter {
  import opened Bits
  import opened Mfm

  datatype Regs = Regs(con0: Word, con1: Word, afwm: Word, alwm: Word,
                       apt: int, bpt: int, cpt: int, dpt: int,
                       amod: int, bmod: int, cmod: int, dmod: int,
                       adat: Word, bdat: Word, cdat: Word)

  /** A bit position in a word. */
  type Nibble = n: int | 0 <= n < 16

  /** A pixel of the C and D channels: their word addresses and a bit position counted from the left. */
  datatype Spot = Spot(cpt: int, dpt: int, ash: Nibble)

  datatype Line = Line(active: bool, spot: Spot, bsh: Nibble, acc: int, sign: bool,
                       amod: int, bmod: int, cmod: int, xMajor: bool, majorNeg: bool, minorNeg: bool,
                       sing: bool, suppress: bool, remaining: int, first: bool)

  datatype Area = Area(active: bool, width: int, height: int, x: int, y: int, fill: bool, prevA: Word, prevB: Word,
                       apt: int, bpt: int, cpt: int, dpt: int, remaining: int)

  /** `mem` lists the bits of chip RAM most significant first: pixel p is bit 7 - p % 8 of byte p / 8. */
  datatype Engine = Engine(regs: Regs, line: Line, area: Area, mem: seq<bool>, nonzero: bool, busy: bool, blit: bool)

  // ---------- memory ----------

  predicate InMem(mem: seq<bool>, addr: int)
  {
    0 <= addr && 8 * addr + 16 <= |mem|
  }

  function Peek(mem: seq<bool>, addr: int): Word
  {
    if InMem(mem, addr) then WordAt(mem, 8 * addr) else Zeros(16)
  }

  function Poke(mem: seq<bool>, addr: int, w: Word): (r: seq<bool>)
    ensures |r| == |mem|
  {
    if InMem(mem, addr) then Overwrite(mem, 8 * addr, w) else mem
  }

  // ---------- data path ----------

  /** Any function of three bits, looked up in the low byte of BLTCON0. */
  function Minterm(table: Word, a: Word, b: Word, c: Word): Word
  {
    seq(16, i requires 0 <= i < 16 => table[Index(a[i], b[i], c[i])])
  }

  function Index(a: bool, b: bool, c: bool): (n: nat)
    ensures n < 8
  {
    (if a then 4 else 0) + (if b then 2 else 0) + (if c then 1 else 0)
  }

  /** `w >> k` */
  function Shr(w: Word, k: nat): Word
    requires k <= 16
  {
    w[k..] + Zeros(k)
  }

  function Or(a: Word, b: Word): Word
  {
    seq(16, i requires 0 <= i < 16 => a[i] || b[i])
  }

  /** The barrel shifter: bits come in from the word processed before. */
  function Shift(prev: Word, cur: Word, k: nat, desc: bool): Word
    requires k < 16
  {
    if k == 0 then cur
    else if !desc then (cur + prev)[k..k + 16]
    else Or(Shl(cur, k), Shr(prev, 16 - k))
  }

  function Field(w: Word, lo: nat): (n: nat)
    requires lo <= 12
    ensures n < 16
  {
    OfNatValue(w[lo..lo + 4]);
    assert Pow2(4) == 2 * Pow2(3) == 4 * Pow2(2) == 8 * Pow2(1) == 16;
    Value(w[lo..lo + 4])
  }

  /** The low 16 bits of a number read as a signed word. */
  function Int16(x: int): int { (x + 32768) % 65536 - 32768 }

  // ---------- completion ----------

  function Finish(e: Engine): Engine
  {
    e.(busy := false, blit := true)
  }

  // ---------- line mode ----------

  /** What a pixel does to memory, to the C data register and to the zero flag. */
  datatype Plotted = Plotted(mem: seq<bool>, cdat: Word, nonzero: bool)

  function PlotOn(r: Regs, l: Line, mem: seq<bool>, nonzero: bool): Plotted
  {
    if l.suppress then Plotted(mem, r.cdat, nonzero) else
    var useC := r.con0[9];
    var b := if r.bdat[l.bsh] then Ones(16) else Zeros(16);
    var c := if useC then Peek(mem, l.spot.cpt) else r.cdat;
    var at := if l.first then l.spot.dpt else l.spot.cpt;
    var d := Minterm(r.con0, Shr(r.adat, l.spot.ash), b, c);
    if useC && InMem(mem, at) then Plotted(Poke(mem, at, d), c, nonzero || d != Zeros(16))
    else Plotted(mem, c, nonzero)
  }

  function Plot(e: Engine): Plotted { PlotOn(e.regs, e.line, e.mem, e.nonzero) }

  /** One pixel sideways; the word pointers move when the bit position wraps. */
  function XStep(p: Spot, neg: bool): Spot
  {
    if neg then if p.ash == 0 then Spot(p.cpt - 2, p.dpt - 2, 15) else Spot(p.cpt, p.dpt, p.ash - 1)
    else if p.ash == 15 then Spot(p.cpt + 2, p.dpt + 2, 0) else Spot(p.cpt, p.dpt, p.ash + 1)
  }

  /** One row up or down. */
  function YStep(p: Spot, neg: bool, cmod: int): Spot
  {
    var m := if neg then -cmod else cmod;
    Spot(p.cpt + m, p.dpt + m, p.ash)
  }

  function MinorStep(l: Line, p: Spot): Spot
  {
    if l.xMajor then YStep(p, l.minorNeg, l.cmod) else XStep(p, l.minorNeg)
  }

  function MajorStep(l: Line, p: Spot): Spot
  {
    if l.xMajor then XStep(p, l.majorNeg) else YStep(p, l.majorNeg, l.cmod)
  }

  /** The Bresenham walk: a minor step when the sign before the step is clear, always a major step.
      A drawn pixel suppresses the rest of its row when SING is set; a row step lifts that. */
  function Walk(l: Line): Line
  {
    var acc := Int16(l.acc + (if l.sign then l.bmod else l.amod));
    l.(spot := MajorStep(l, if l.sign then l.spot else MinorStep(l, l.spot)), acc := acc, sign := acc < 0,
       bsh := (l.bsh - 1) % 16, remaining := l.remaining - 1, first := l.first && l.suppress,
       suppress := (l.sing || l.suppress) && l.xMajor && l.sign)
  }

  /** What the registers show when the last pixel is done. */
  function WriteBack(r: Regs, l: Line): Regs
  {
    r.(apt := r.apt - r.apt % 65536 + l.acc % 65536,
       con0 := r.con0[..12] + OfNat(l.spot.ash, 4), con1 := r.con1[..12] + OfNat(l.bsh, 4))
  }

  /** Plot, then walk. */
  function Draw(e: Engine): Engine
  {
    var p, l := Plot(e), Walk(e.line);
    e.(line := l, regs := e.regs.(cdat := p.cdat, cpt := l.spot.cpt, dpt := l.spot.dpt), mem := p.mem, nonzero := p.nonzero)
  }

  function EndLine(e: Engine): Engine
  {
    Finish(e.(line := e.line.(active := false), regs := WriteBack(e.regs, e.line)))
  }

  function LineStep(e: Engine): Engine
  {
    if !e.line.active || e.line.remaining <= 0 then e else
    var q := Draw(e);
    if q.line.remaining > 0 then q else EndLine(q)
  }

  // ---------- area mode ----------

  /** What one area step fetches and computes. */
  datatype Word4 = Word4(a0: Word, b0: Word, c: Word, a: Word, b: Word, m: Word, d: Word, carry: bool)

  /** Polygon fill of one word, bit 0 first: the filled word and the carry out. */
  function Fill(m: Word, carry: bool, inclusive: bool): Word
  {
    seq(16, i requires 0 <= i < 16 =>
      if inclusive then m[i] || Parity(m[..i], carry) else Parity(m[..i + 1], carry))
  }

  /** `start` flipped once for every set bit. */
  function Parity(s: seq<bool>, start: bool): bool
  {
    if s == [] then start else Parity(s[..|s| - 1], start) != s[|s| - 1]
  }

  /** The A source word behind the first- and last-word masks. */
  function MaskedA(r: Regs, s: Area, mem: seq<bool>): Word
  {
    var a0 := if r.con0[11] then Peek(mem, s.apt) else r.adat;
    var a1 := if s.x == 0 then And(a0, r.afwm) else a0;
    if s.x == s.width - 1 then And(a1, r.alwm) else a1
  }

  function FetchFrom(r: Regs, s: Area, mem: seq<bool>): Word4
  {
    var a0 := MaskedA(r, s, mem);
    var b0 := if r.con0[10] then Peek(mem, s.bpt) else r.bdat;
    var c := if r.con0[9] then Peek(mem, s.cpt) else r.cdat;
    var a := Shift(s.prevA, a0, Field(r.con0, 12), r.con1[1]);
    var b := Shift(s.prevB, b0, Field(r.con1, 12), r.con1[1]);
    var m := Minterm(r.con0, a, b, c);
    var carry := if s.x == 0 then r.con1[2] else s.fill;
    if r.con1[3] || r.con1[4]
    then Word4(a0, b0, c, a, b, m, Fill(m, carry, r.con1[3]), Parity(m, carry))
    else Word4(a0, b0, c, a, b, m, m, carry)
  }

  function Fetch(e: Engine): Word4 { FetchFrom(e.regs, e.area, e.mem) }

  function Bump(on: bool, p: int, delta: int): int { if on then p + delta else p }

  /** The area record after a step that processed `w`. */
  function NextArea(r: Regs, s: Area, w: Word4): Area
  {
    var sgn := if r.con1[1] then -1 else 1;
    var rowEnd := s.x + 1 >= s.width;
    var turn := if rowEnd && s.y + 1 < s.height then 1 else 0;
    s.(x := if rowEnd then 0 else s.x + 1, y := if rowEnd then s.y + 1 else s.y,
       fill := w.carry, prevA := w.a0, prevB := w.b0,
       apt := Bump(r.con0[11], s.apt, sgn * (2 + turn * r.amod)), bpt := Bump(r.con0[10], s.bpt, sgn * (2 + turn * r.bmod)),
       cpt := Bump(r.con0[9], s.cpt, sgn * (2 + turn * r.cmod)), dpt := Bump(r.con0[8], s.dpt, sgn * (2 + turn * r.dmod)),
       remaining := s.remaining - 1)
  }

  /** What mid-blit reads of the registers show. */
  function NextRegs(r: Regs, s: Area, w: Word4): Regs
  {
    r.(adat := w.a0, bdat := w.b0, cdat := w.c, apt := s.apt, bpt := s.bpt, cpt := s.cpt, dpt := s.dpt)
  }

  function AreaStep(e: Engine): Engine
  {
    var r, s := e.regs, e.area;
    if !s.active || s.remaining <= 0 then e else
    var w := Fetch(e);
    var s' := NextArea(r, s, w);
    var e' := e.(regs := NextRegs(r, s', w), area := s', mem := if r.con0[8] then Poke(e.mem, s.dpt, w.d) else e.mem,
                 nonzero := e.nonzero || (r.con0[8] && w.d != Zeros(16)));
    if s'.remaining > 0 then e' else Finish(e'.(area := s'.(active := false)))
  }

  // ---------- launch ----------

  function LaunchLine(r: Regs, height: int): Line
  {
    Line(true, Spot(if r.cpt != 0 then r.cpt else r.dpt, if r.dpt != 0 then r.dpt else r.cpt, Field(r.con0, 12)),
         Field(r.con1, 12), Int16(r.apt), r.con1[6], r.amod, r.bmod, r.cmod,
         r.con1[4], r.con1[2], r.con1[3], r.con1[1], false, height, true)
  }

  function LaunchArea(r: Regs, width: int, height: int): Area
  {
    Area(true, width, height, 0, 0, false, Zeros(16), Zeros(16), r.apt, r.bpt, r.cpt, r.dpt, width * height)
  }

  /** A write to BLTSIZE. A line leaves a running area blit alone; an area blit stops a running line. */
  function Launch(e: Engine, width: int, height: int): Engine
  {
    if e.regs.con1[0]
    then e.(line := LaunchLine(e.regs, height), nonzero := false, busy := true)
    else e.(area := LaunchArea(e.regs, width, height), line := e.line.(active := false), nonzero := false, busy := true)
  }
}
