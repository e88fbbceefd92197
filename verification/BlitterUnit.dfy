/** The blitter as it runs: registers and engine records updated in place, stepped from the slot table. */
module BlitterUnit {
  import opened Bits
  import opened Mfm
  import opened Crc16
  import opened Blitter
  import opened DmaSlots
  import opened BlitterRun
  import opened SlotGuarantees
  import opened Iteration

  // ---------- the data path, bit by bit ----------

  method CombineWords(table: Word, a: Word, b: Word, c: Word) returns (d: Word)
    ensures d == Minterm(table, a, b, c)
  {
    d := Zeros(16);
    for bit := 0 to 16
      invariant forall i :: 0 <= i < 16 ==> d[i] == (i < bit && Minterm(table, a, b, c)[i])
    {
      var idx := (if a[bit] then 4 else 0) + (if b[bit] then 2 else 0) + (if c[bit] then 1 else 0);
      if table[idx] {
        d := d[bit := true];
      }
    }
  }

  lemma ParityNext(m: Word, bit: nat, start: bool)
    requires bit < 16
    ensures Parity(m[..bit + 1], start) == (Parity(m[..bit], start) != m[bit])
  {
    assert m[..bit + 1][..bit] == m[..bit];
  }

  method FillWord(m: Word, carryIn: bool, inclusive: bool) returns (d: Word, carry: bool)
    ensures d == Fill(m, carryIn, inclusive) && carry == Parity(m, carryIn)
  {
    d, carry := Zeros(16), carryIn;
    for bit := 0 to 16
      invariant carry == Parity(m[..bit], carryIn)
      invariant forall i :: 0 <= i < 16 ==> d[i] == (i < bit && Fill(m, carryIn, inclusive)[i])
    {
      ParityNext(m, bit, carryIn);
      var on;
      if inclusive {
        on := m[bit] || carry;
        carry := carry != m[bit];
      } else {
        carry := carry != m[bit];
        on := carry;
      }
      if on {
        d := d[bit := true];
      }
    }
    assert m[..16] == m;
  }

  // ---------- one Bresenham step ----------

  method StepX(p: Spot, neg: bool) returns (q: Spot)
    ensures q == XStep(p, neg)
  {
    var cpt, dpt, ash := p.cpt, p.dpt, p.ash as int;
    if neg {
      ash := ash - 1;
      if ash < 0 { ash, cpt, dpt := 15, cpt - 2, dpt - 2; }
    } else {
      ash := ash + 1;
      if ash > 15 { ash, cpt, dpt := 0, cpt + 2, dpt + 2; }
    }
    q := Spot(cpt, dpt, ash);
  }

  method WalkLine(l: Line) returns (w: Line)
    ensures w == Walk(l)
  {
    var spot, acc, suppress := l.spot, l.acc, l.suppress;
    if l.sing { suppress := true; }
    if !l.sign {
      acc := acc + l.amod;
      if l.xMajor {
        spot := YStep(spot, l.minorNeg, l.cmod);
        suppress := false;
      } else {
        spot := StepX(spot, l.minorNeg);
      }
    } else {
      acc := acc + l.bmod;
    }
    acc := Int16(acc);
    if l.xMajor {
      spot := StepX(spot, l.majorNeg);
    } else {
      spot := YStep(spot, l.majorNeg, l.cmod);
      suppress := false;
    }
    w := l.(spot := spot, acc := acc, sign := acc < 0, suppress := suppress, first := l.first && l.suppress,
            bsh := (l.bsh - 1) % 16, remaining := l.remaining - 1);
  }

  // ---------- guest memory ----------

  lemma WordOfBytes(bytes: seq<Byte>, addr: nat)
    requires addr + 2 <= |bytes|
    ensures WordAt(Unpack(bytes), 8 * addr) == Join(bytes[addr], bytes[addr + 1])
  {
  }

  method ReadRam(ram: array<Byte>, addr: int) returns (w: Word)
    ensures w == Peek(Unpack(ram[..]), addr)
  {
    if addr < 0 || addr + 2 > ram.Length {
      return Zeros(16);
    }
    WordOfBytes(ram[..], addr);
    return Join(ram[addr], ram[addr + 1]);
  }

  lemma BytesOfWord(before: seq<Byte>, after: seq<Byte>, addr: nat, w: Word)
    requires addr + 2 <= |before| && after == before[..addr] + [Hi(w), Lo(w)] + before[addr + 2..]
    ensures Unpack(after) == Overwrite(Unpack(before), 8 * addr, w)
  {
  }

  method WriteRam(ram: array<Byte>, addr: int, w: Word)
    modifies ram
    ensures Unpack(ram[..]) == Poke(old(Unpack(ram[..])), addr, w)
  {
    if addr < 0 || addr + 2 > ram.Length {
      return;
    }
    ghost var before := ram[..];
    ram[addr] := Hi(w);
    ram[addr + 1] := Lo(w);
    assert ram[..] == before[..addr] + [Hi(w), Lo(w)] + before[addr + 2..];
    BytesOfWord(before, ram[..], addr, w);
  }

  // ---------- the chip ----------

  class Agnus {
    var regs: Regs
    var line: Line
    var area: Area
    const ram: array<Byte>
    var nonzero: bool
    var busy: bool
    var blit: bool
    var words: int
    const slots: array<Channel>
    var stolen: nat

    function View(): Engine
      reads this, ram
    {
      Engine(regs, line, area, Unpack(ram[..]), nonzero, busy, blit)
    }

    constructor (r: Regs, l: Line, a: Area, memory: array<Byte>)
      requires !l.active && !a.active
      ensures ram == memory && fresh(slots) && slots.Length == SLOTS && words == 0 && stolen == 0
      ensures Consistent(View()) && regs == r && !busy && !blit
    {
      regs, line, area, ram := r, l, a, memory;
      nonzero, busy, blit, words, stolen := false, false, false, 0, 0;
      slots := new Channel[SLOTS](_ => Free);
    }

    /** Completion: busy drops, the word count is cleared and the interrupt is raised. */
    method FinishBlit()
      modifies this`busy, this`words, this`blit
      ensures View() == Finish(old(View())) && words == 0
    {
      busy, words, blit := false, 0, true;
    }

    method Record(r: Regs, l: Line, nz: bool)
      modifies this`regs, this`line, this`nonzero
      ensures View() == old(View()).(regs := r, line := l, nonzero := nz)
    {
      regs, line, nonzero := r, l, nz;
    }

    method RecordArea(r: Regs, a: Area, nz: bool)
      modifies this`regs, this`area, this`nonzero
      ensures View() == old(View()).(regs := r, area := a, nonzero := nz)
    {
      regs, area, nonzero := r, a, nz;
    }

    /** Plots and moves on, before the end of the line is looked at. */
    method DrawPixel()
      modifies this`regs, this`line, this`nonzero, ram
      ensures View() == Draw(old(View())) && line.active == old(line.active)
    {
      var c, nz := PlotPixel(regs, line, ram, nonzero);
      var l := WalkLine(line);
      Record(regs.(cdat := c, cpt := l.spot.cpt, dpt := l.spot.dpt), l, nz);
    }

    method CloseLine()
      modifies this`regs, this`line, this`busy, this`blit, this`words
      ensures View() == EndLine(old(View())) && words == 0
    {
      regs := WriteBack(regs, line);
      line := line.(active := false);
      FinishBlit();
    }

    /** Draws a pixel and closes the line if it was the last one. */
    method DrawAndClose()
      requires line.active && line.remaining > 0
      modifies this`regs, this`line, this`area, this`nonzero, this`busy, this`blit, this`words, ram
      ensures View() == LineStep(old(View()))
      ensures words == if line.active then old(words) else 0
    {
      DrawPixel();
      if line.remaining <= 0 {
        CloseLine();
      }
    }

    /** One pixel of line mode. */
    method StepLine()
      modifies this`regs, this`line, this`area, this`nonzero, this`busy, this`blit, this`words, ram
      ensures View() == LineStep(old(View()))
      ensures words == if old(line.active) && !line.active then 0 else old(words)
    {
      if line.active && line.remaining > 0 {
        DrawAndClose();
      }
    }

    /** Fetches, combines, stores and moves on, before the end of the blit is looked at. */
    method CopyWord()
      modifies this`regs, this`area, this`nonzero, ram
      ensures var e := old(View()); var w := Fetch(e); var s := NextArea(e.regs, e.area, w);
        View() == e.(regs := NextRegs(e.regs, s, w), area := s, mem := if e.regs.con0[8] then Poke(e.mem, e.area.dpt, w.d) else e.mem,
                     nonzero := e.nonzero || (e.regs.con0[8] && w.d != Zeros(16)))
    {
      var w := FetchWords(regs, area, ram);
      var nz := nonzero;
      if regs.con0[8] {
        WriteRam(ram, area.dpt, w.d);
        if w.d != Zeros(16) {
          nz := true;
        }
      }
      var s := AdvanceArea(regs, area, w);
      RecordArea(NextRegs(regs, s, w), s, nz);
    }

    method CloseArea()
      modifies this`area, this`busy, this`blit, this`words
      ensures var q := old(View()); View() == Finish(q.(area := q.area.(active := false))) && words == 0
    {
      area := area.(active := false);
      FinishBlit();
    }

    /** One word of area mode. */
    method StepArea()
      modifies this`regs, this`line, this`area, this`nonzero, this`busy, this`blit, this`words, ram
      ensures View() == AreaStep(old(View()))
      ensures words == if old(area.active) && !area.active then 0 else old(words)
    {
      if !area.active || area.remaining <= 0 {
        return;
      }
      CopyWord();
      if area.remaining <= 0 {
        CloseArea();
      }
    }

    method Start(l: Line, a: Area, count: int)
      modifies this`line, this`area, this`words
      ensures View() == old(View()).(line := l, area := a) && words == count
    {
      line, area, words := l, a, count;
    }

    method MarkBusy()
      modifies this`nonzero, this`busy
      ensures View() == old(View()).(nonzero := false, busy := true)
    {
      nonzero, busy := false, true;
    }

    /** A write of a size register launches a blit of `width` words by `height` rows. */
    method Execute(width: nat, height: nat)
      modifies this
      ensures View() == Launch(old(View()), width, height) && words == (if regs.con1[0] then height else width * height)
    {
      if regs.con1[0] {
        Start(LaunchLine(regs, height), area, height);
      } else {
        Start(line.(active := false), LaunchArea(regs, width, height), width * height);
      }
      MarkBusy();
    }

    /** The work of one granted slot; the last step finishes the blit and the count then falls to -1. */
    method UseSlot()
      requires Consistent(View()) && words == Left(View()) && words > 0
      modifies this`regs, this`line, this`area, this`nonzero, this`busy, this`blit, this`words, ram
      ensures View() == EngineStep(old(View())) && Consistent(View())
      ensures words == if old(words) == 1 then -1 else old(words) - 1
      ensures Left(View()) == old(words) - 1
    {
      EngineStepped(View());
      if line.active {
        StepLine();
      } else if area.active {
        StepArea();
      }
      words := words - 1;
    }

    /** The same, along the known states of the blit. */
    method TakeSlot(ghost es: seq<Engine>, ghost k: nat)
      requires Tracked(es) && k + 1 < |es| && View() == es[k] && words == |es| - 1 - k
      modifies this`regs, this`line, this`area, this`nonzero, this`busy, this`blit, this`words, ram
      ensures View() == es[k + 1] && words == (if old(words) == 1 then -1 else old(words) - 1)
    {
      assert Link(es, k);
      UseSlot();
    }

    /** Looks at slot i: skips it, yields it to the CPU, or takes it. */
    method Offer(i: nat, pri: bool, seen: nat, ghost es: seq<Engine>, ghost t: seq<Channel>) returns (seen': nat)
      requires slots.Length == SLOTS == |t| && i < SLOTS && slots[i] == t[i] && words > 0 && seen == Count(t, Free, i)
      requires Tracked(es) && Progress(View(), words, es, EligibleBefore(t, pri, i))
      modifies this, ram, slots
      ensures seen' == Count(t, Free, i + 1) && stolen == old(stolen)
      ensures Progress(View(), words, es, EligibleBefore(t, pri, i + 1))
      ensures slots[..] == old(slots[..])[i := WithBlitter(t, pri, |es| - 1)[i]]
    {
      seen' := seen;
      if slots[i] == Free {
        if pri || seen % 4 != 3 {
          slots[i] := Blitter;
          TakeSlot(es, EligibleBefore(t, pri, i));
        }
        seen' := seen + 1;
      }
    }

    method OfferAll(pri: bool, ghost es: seq<Engine>)
      requires slots.Length == SLOTS && Tracked(es) && |es| > 1 && View() == es[0] && words == |es| - 1
      modifies this, ram, slots
      ensures stolen == old(stolen) && slots[..] == WithBlitter(old(slots[..]), pri, |es| - 1)
      ensures Progress(View(), words, es, EligibleBefore(old(slots[..]), pri, SLOTS))
    {
      ghost var t := slots[..];
      var seen, i := 0, 0;
      while i < SLOTS && words > 0
        invariant i <= SLOTS && seen == Count(t, Free, i) && stolen == old(stolen)
        invariant Progress(View(), words, es, EligibleBefore(t, pri, i))
        invariant slots[..] == WithBlitter(t, pri, |es| - 1)[..i] + t[i..]
      {
        seen := Offer(i, pri, seen, es, t);
        OneMore(WithBlitter(t, pri, |es| - 1), t, i);
        i := i + 1;
      }
      if i < SLOTS {
        TailUntouched(t, pri, |es| - 1, i);
      }
    }

    /** Gives free slots of the line to the blitter and steps it once for each. */
    method AllocBlitter(pri: bool)
      requires slots.Length == SLOTS && Consistent(View()) && words == Left(View())
      modifies this, ram, slots
      ensures Consistent(View()) && words == Left(View()) && stolen == old(stolen)
      ensures View() == AfterLine(old(View()), Scanline(old(slots[..]), pri))
      ensures slots[..] == WithBlitter(old(slots[..]), pri, Max0(Left(old(View()))))
    {
      if !busy {
        return;
      }
      ghost var es := Track(View());
      OfferAll(pri, es);
      LineDone(old(View()), es, Scanline(old(slots[..]), pri));
      if words <= 0 && !line.active && !area.active {
        FinishBlit();
      }
    }

    method FinishLine()
      requires slots.Length == SLOTS && Cpu !in slots[..]
      modifies this`stolen, slots
      ensures slots[..] == WithCpu(old(slots[..]))
      ensures stolen == old(stolen) + 4 * (SLOTS - Count(slots[..], Cpu, SLOTS))
    {
      ghost var t := slots[..];
      var cpu := FinishSlots(slots);
      NoneYet(t, Cpu, SLOTS);
      CpuShare(t, SLOTS);
      stolen := stolen + 4 * (SLOTS - cpu);
    }

    /** The slots of a scanline up to and including the blitter's. */
    method ShareOut(p: Setup)
      requires slots.Length == SLOTS && Consistent(View()) && words == Left(View())
      modifies this, ram, slots
      ensures Consistent(View()) && words == Left(View()) && stolen == old(stolen)
      ensures View() == AfterLine(old(View()), Scanline(Offered(p), p.priority))
      ensures slots[..] == WithBlitter(Offered(p), p.priority, Max0(Left(old(View())))) && Cpu !in slots[..]
    {
      PrepareSlots(slots, p);
      AllocBlitter(p.priority);
    }

    /** The slot work of one scanline. */
    method RunLine(p: Setup)
      requires slots.Length == SLOTS && Consistent(View()) && words == Left(View())
      modifies this, ram, slots
      ensures Consistent(View()) && words == Left(View())
      ensures View() == AfterLine(old(View()), Scanline(Offered(p), p.priority))
      ensures slots[..] == LineTable(p, Max0(Left(old(View()))))
      ensures stolen == old(stolen) + 4 * (SLOTS - Count(slots[..], Cpu, SLOTS))
    {
      ShareOut(p);
      FinishLine();
    }

    /** Several scanlines in turn. */
    method RunLines(ps: seq<Setup>)
      requires slots.Length == SLOTS && Consistent(View()) && words == Left(View())
      modifies this, ram, slots
      ensures Consistent(View()) && words == Left(View()) && View() == AfterLines(old(View()), Offers(ps))
    {
      ghost var e := View();
      for i := 0 to |ps|
        invariant Consistent(View()) && words == Left(View()) && View() == AfterLines(e, Offers(ps[..i]))
      {
        RunLine(ps[i]);
        OffersMore(ps, i);
      }
      assert ps[..|ps|] == ps;
    }
  }

  /** What the blitter sees of a sequence of scanlines. */
  function Offers(ps: seq<Setup>): seq<Scanline>
  {
    seq(|ps|, i requires 0 <= i < |ps| => Scanline(Offered(ps[i]), ps[i].priority))
  }

  lemma {:induction false} OffersMore(ps: seq<Setup>, i: nat)
    requires i < |ps|
    ensures Offers(ps[..i + 1]) == Offers(ps[..i]) + [Scanline(Offered(ps[i]), ps[i].priority)]
  {
  }

  /** Step k of a blit whose states are known. */
  ghost predicate Link(es: seq<Engine>, k: nat)
    requires k + 1 < |es|
  {
    es[k + 1] == EngineStep(es[k]) && Consistent(es[k]) && Consistent(es[k + 1]) &&
    Left(es[k]) == |es| - 1 - k && Left(es[k + 1]) == |es| - 2 - k && (Left(es[k + 1]) == 0 ==> es[k + 1].blit)
  }

  /** The states of a blit, from now to completion. */
  ghost predicate Tracked(es: seq<Engine>)
  {
    |es| > 0 && forall k {:trigger Link(es, k)} :: 0 <= k < |es| - 1 ==> Link(es, k)
  }

  lemma {:induction false} Track(e: Engine) returns (es: seq<Engine>)
    requires Consistent(e)
    ensures Tracked(es) && es[0] == e && |es| == Max0(Left(e)) + 1 && es == States(EngineStep, e, Max0(Left(e)))
  {
    var n := Max0(Left(e));
    es := States(EngineStep, e, n);
    forall k | 0 <= k < n
      ensures Link(es, k)
    {
      StatesStep(EngineStep, e, n, k);
      StatesAre(EngineStep, e, n, k);
      StatesAre(EngineStep, e, n, k + 1);
      StepsRan(e, k);
      StepsRan(e, k + 1);
    }
  }

  /** Part of a scanline is done: `used` eligible slots have gone by since the line began. */
  ghost predicate Progress(e: Engine, words: int, es: seq<Engine>, used: nat)
  {
    |es| > 1 && if used < |es| - 1 then e == es[used] && words == |es| - 1 - used else e == es[|es| - 1] && words == -1
  }

  /** The state a line ends in. */
  lemma {:induction false} LineDone(e0: Engine, es: seq<Engine>, s: Scanline)
    requires Consistent(e0) && Tracked(es) && |es| == Max0(Left(e0)) + 1 && es == States(EngineStep, e0, Max0(Left(e0)))
    requires |es| > 1
    ensures var k := if Room(s) < |es| - 1 then Room(s) else |es| - 1;
      es[k] == AfterLine(e0, s) && Consistent(es[k]) && Left(es[k]) == |es| - 1 - k && (Left(es[k]) == 0 ==> es[k].blit)
  {
    var k := if Room(s) < |es| - 1 then Room(s) else |es| - 1;
    StatesAre(EngineStep, e0, |es| - 1, k);
    if k > 0 {
      assert Link(es, k - 1);
    } else {
      assert Link(es, 0);
    }
  }

  lemma {:induction false} EligibleGrows(t: seq<Channel>, pri: bool, m: nat, n: nat)
    requires m <= n <= |t|
    ensures EligibleBefore(t, pri, m) <= EligibleBefore(t, pri, n)
  {
    if m < n {
      EligibleGrows(t, pri, m, n - 1);
    }
  }

  lemma OneMore(a: seq<Channel>, t: seq<Channel>, i: nat)
    requires |a| == |t| && i < |t|
    ensures (a[..i] + t[i..])[i := a[i]] == a[..i + 1] + t[i + 1..]
  {
  }

  /** Once the words have run out, the rest of the table stays as it was. */
  lemma {:induction false} TailUntouched(t: seq<Channel>, pri: bool, words: nat, i: nat)
    requires i <= |t| && EligibleBefore(t, pri, i) >= words
    ensures WithBlitter(t, pri, words)[i..] == t[i..] && EligibleBefore(t, pri, |t|) >= words
  {
    forall j | i <= j <= |t|
      ensures EligibleBefore(t, pri, j) >= words
    {
      EligibleGrows(t, pri, i, j);
    }
  }

  method PlotPixel(r: Regs, l: Line, ram: array<Byte>, nonzero: bool) returns (c: Word, nz: bool)
    modifies ram
    ensures Plotted(Unpack(ram[..]), c, nz) == PlotOn(r, l, old(Unpack(ram[..])), nonzero)
  {
    c, nz := r.cdat, nonzero;
    if l.suppress {
      return;
    }
    var b := if r.bdat[l.bsh] then Ones(16) else Zeros(16);
    if r.con0[9] {
      c := ReadRam(ram, l.spot.cpt);
    }
    var at := if l.first then l.spot.dpt else l.spot.cpt;
    var d := CombineWords(r.con0, Shr(r.adat, l.spot.ash), b, c);
    if r.con0[9] && 0 <= at && at + 2 <= ram.Length {
      WriteRam(ram, at, d);
      if d != Zeros(16) {
        nz := true;
      }
    }
  }

  method FetchA(r: Regs, s: Area, ram: array<Byte>) returns (a: Word)
    ensures a == MaskedA(r, s, Unpack(ram[..]))
  {
    a := r.adat;
    if r.con0[11] { a := ReadRam(ram, s.apt); }
    if s.x == 0 { a := And(a, r.afwm); }
    if s.x == s.width - 1 { a := And(a, r.alwm); }
  }

  method FetchWords(r: Regs, s: Area, ram: array<Byte>) returns (w: Word4)
    ensures w == FetchFrom(r, s, Unpack(ram[..]))
  {
    var a0 := FetchA(r, s, ram);
    var b0, c := r.bdat, r.cdat;
    if r.con0[10] { b0 := ReadRam(ram, s.bpt); }
    if r.con0[9] { c := ReadRam(ram, s.cpt); }
    var a := Shift(s.prevA, a0, Field(r.con0, 12), r.con1[1]);
    var b := Shift(s.prevB, b0, Field(r.con1, 12), r.con1[1]);
    var m := CombineWords(r.con0, a, b, c);
    var carry := if s.x == 0 then r.con1[2] else s.fill;
    var d := m;
    if r.con1[3] || r.con1[4] {
      d, carry := FillWord(m, carry, r.con1[3]);
    }
    w := Word4(a0, b0, c, a, b, m, d, carry);
  }

  method AdvanceArea(r: Regs, s: Area, w: Word4) returns (t: Area)
    ensures t == NextArea(r, s, w)
  {
    var stride := if r.con1[1] then -2 else 2;
    var apt, bpt, cpt, dpt := s.apt, s.bpt, s.cpt, s.dpt;
    if r.con0[11] { apt := apt + stride; }
    if r.con0[10] { bpt := bpt + stride; }
    if r.con0[9] { cpt := cpt + stride; }
    if r.con0[8] { dpt := dpt + stride; }
    var x, y := s.x + 1, s.y;
    if x >= s.width {
      x, y := 0, y + 1;
      if y < s.height {
        var sgn := if r.con1[1] then -1 else 1;
        if r.con0[11] { apt := apt + sgn * r.amod; }
        if r.con0[10] { bpt := bpt + sgn * r.bmod; }
        if r.con0[9] { cpt := cpt + sgn * r.cmod; }
        if r.con0[8] { dpt := dpt + sgn * r.dmod; }
      }
    }
    t := s.(x := x, y := y, fill := w.carry, prevA := w.a0, prevB := w.b0,
            apt := apt, bpt := bpt, cpt := cpt, dpt := dpt, remaining := s.remaining - 1);
  }
}
