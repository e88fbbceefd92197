/** What host ticks and edges of CNT do to the timers in every input and run mode: exactly the pulses that mode lets through. */
module CiaTicks {
  import opened Bits
  import opened CiaTimer
  import opened Cia
  import opened CiaCounters
  import opened CiaIdioms
  import opened CiaSerial

  // ---------- pins ----------

  /** Where `u` underflows take the pin: nowhere if it is not routed, back and forth in toggle mode, low in pulse mode. */
  predicate Driven(t: Timer, u: nat, pin: bool)
  {
    pin == if !t.control[1] then t.pin else if t.control[2] then t.pin != (u % 2 == 1) else t.pin && u == 0
  }

  /** Only START changes in the control register, and nothing in the latch. */
  predicate Kin(t: Timer, r: Timer) { r.latch == t.latch && r.control[1..] == t.control[1..] }

  lemma {:induction false} KinModes(t: Timer, r: Timer)
    requires Kin(t, r)
    ensures forall i :: 1 <= i < 8 ==> r.control[i] == t.control[i]
    ensures OneShot(r) == OneShot(t) && (Usable(t) ==> Usable(r))
  {
    assert forall i :: 1 <= i < 8 ==> r.control[i] == r.control[1..][i - 1] && t.control[i] == t.control[1..][i - 1];
  }

  lemma {:induction false} PulseDrives(t: Timer)
    requires Usable(t)
    ensures var r := Pulse(t); Kin(t, r.0) && Driven(t, r.1, r.0.pin)
  {
    if Started(t) && t.counter == 0 && !OneShot(t) {
      assert Underflow(t).counter == t.latch && Started(Underflow(t));
    }
  }

  lemma {:induction false} DrivenOn(t: Timer, r: Timer, u: nat, v: nat, pin: bool)
    requires Kin(t, r) && Driven(t, u, r.pin) && Driven(r, v, pin)
    ensures Driven(t, u + v, pin)
  {
    KinModes(t, r);
  }

  lemma {:induction false} PulsesDrive(t: Timer, n: nat)
    requires Usable(t)
    ensures var r := Pulses(t, n); Kin(t, r.0) && Driven(t, r.1, r.0.pin)
    decreases n
  {
    if n > 0 {
      var p := Pulse(t);
      var r := Pulses(p.0, n - 1);
      PulseDrives(t);
      PulsesDrive(p.0, n - 1);
      DrivenOn(t, p.0, p.1, r.1, r.0.pin);
    }
  }

  // ---------- counting does not look at the pin ----------

  /** The same timer but for the pin. */
  predicate Same(t: Timer, r: Timer) { r == t.(pin := r.pin) }

  lemma {:induction false} SamePulse(t: Timer, r: Timer)
    requires Same(t, r) && Usable(t)
    ensures Usable(r) && Same(Pulse(t).0, Pulse(r).0) && Pulse(t).1 == Pulse(r).1
  {
    if Started(t) && t.counter == 0 {
      assert Same(Underflow(t), Underflow(r));
    }
  }

  lemma {:induction false} SamePulses(t: Timer, r: Timer, n: nat)
    requires Same(t, r) && Usable(t)
    ensures Usable(r) && Same(Pulses(t, n).0, Pulses(r, n).0) && Pulses(t, n).1 == Pulses(r, n).1
    decreases n
  {
    if n > 0 {
      SamePulse(t, r);
      SamePulses(Pulse(t).0, Pulse(r).0, n - 1);
    }
  }

  // ---------- one tick ----------

  /** The timer takes a whole tick of the E-clock without losing counts. */
  predicate Paced(t: Timer) { OneShot(t) || t.latch >= 56 }

  lemma {:induction false} OnePulseAtMost(t: Timer, n: nat)
    requires Usable(t) && OneShot(t)
    ensures Pulses(t, n).1 <= 1
  {
    if n == 0 {
    } else if !Started(t) {
      PulsesStopped(t, n);
    } else if n < t.counter {
      PulsesBelow(t, n);
    } else {
      PulsesWrap(t, n);
      PulsesStopped(Underflow(t), n - t.counter);
    }
  }

  lemma {:induction false} TickBatch(t: Timer)
    requires Usable(t) && Paced(t) && Started(t)
    ensures Countdown(t, PER_TICK, GUARD) == Pulses(t, PER_TICK) && Pulses(t, PER_TICK).1 <= 127
  {
    BatchBelowGuard(t, PER_TICK, GUARD);
    if OneShot(t) {
      OnePulseAtMost(t, PER_TICK);
    } else {
      StepA(t);
    }
  }

  /** What a tick feeds timer A by its input mode: the E-clock, or nothing when it counts CNT. */
  function InA(t: Timer): nat { if t.control[5] then 0 else 7093 }

  /** What a tick feeds timer B: 00 the E-clock, 01 nothing, 10 A's underflows, 11 those while CNT is high. */
  function InB(t: Timer, cnt: bool, u: nat): nat
  {
    match (t.control[6], t.control[5])
    case (false, false) => 7093
    case (false, true) => 0
    case (true, false) => u
    case (true, true) => if cnt then u else 0
  }

  /** Timers that a tick can serve without losing counts. */
  ghost predicate Ready(c: Chip)
  {
    Usable(c.ta) && Usable(c.tb) && (InA(c.ta) > 0 ==> Paced(c.ta)) && (!c.tb.control[6] && !c.tb.control[5] ==> Paced(c.tb))
  }

  lemma {:induction false} TickPulsesA(c: Chip)
    requires Usable(c.ta) && (InA(c.ta) > 0 ==> Paced(c.ta))
    ensures var a := TickA(c);
            && (a.0.ta, a.1) == Pulses(c.ta, InA(c.ta)) && a.1 <= 127 && a.0 == c.(ta := a.0.ta, icr := a.0.icr, line := a.0.line)
            && (a.0.icr[TA_BIT] <==> c.icr[TA_BIT] || a.1 > 0) && a.0.icr[TB_BIT] == c.icr[TB_BIT]
  {
    if !Started(c.ta) {
      PulsesStopped(c.ta, InA(c.ta));
    } else if InA(c.ta) > 0 {
      TickBatch(c.ta);
    }
  }

  lemma {:induction false} SmallBatch(t: Timer, n: nat)
    requires Usable(t) && Started(t) && n <= 127
    ensures Countdown(t, n, GUARD) == Pulses(t, n)
  {
    MulGap(127, 0, t.latch);
    BatchBelowGuard(t, n, GUARD);
  }

  lemma {:induction false} FedIsInB(c: Chip, u: nat)
    ensures FedB(c, u) == InB(c.tb, c.serial.cnt, u)
  {
  }

  lemma {:induction false} TickPulsesB(c: Chip, u: nat, k: nat)
    requires Usable(c.tb) && (!c.tb.control[6] && !c.tb.control[5] ==> Paced(c.tb)) && u <= 127 && k == InB(c.tb, c.serial.cnt, u)
    ensures var b := TickB(c, u);
            && (b.0.tb, b.1) == Pulses(c.tb, k) && b.0.ta == c.ta
            && (b.0.icr[TB_BIT] <==> c.icr[TB_BIT] || b.1 > 0) && b.0.icr[TA_BIT] == c.icr[TA_BIT]
  {
    FedIsInB(c, u);
    if !Started(c.tb) {
      PulsesStopped(c.tb, k);
    } else if k <= 127 {
      SmallBatch(c.tb, k);
    } else {
      TickBatch(c.tb);
    }
  }

  /** From `c` to `d` timer A took `a` pulses and timer B `b`, up to their pins, and their flags show their underflows. */
  ghost predicate Fed(c: Chip, d: Chip, a: nat, b: nat)
  {
    && Usable(c.ta) && Same(Pulses(c.ta, a).0, d.ta) && (d.icr[TA_BIT] <==> c.icr[TA_BIT] || Pulses(c.ta, a).1 > 0)
    && Usable(c.tb) && Same(Pulses(c.tb, b).0, d.tb) && (d.icr[TB_BIT] <==> c.icr[TB_BIT] || Pulses(c.tb, b).1 > 0)
  }

  lemma {:induction false} ShiftKeepsCnt(c: Chip)
    ensures ShiftOut(c).serial.cnt == c.serial.cnt
    decreases c.serial.outBits
  {
    var s := c.serial;
    if s.outBits > 0 && s.outAccum >= 2 {
      var d := c.(serial := s.(data := Shl(s.data, 1), outBits := s.outBits - 1, outAccum := s.outAccum - 2));
      ShiftKeepsCnt(if s.outBits == 1 then Raise(d, SP_BIT) else d);
    }
  }

  lemma {:induction false} TickKeepsCnt(c: Chip)
    ensures Tick(c).serial.cnt == c.serial.cnt
  {
    var r := RestPins(c);
    TimersKeepSerial(r, PER_TICK);
    var a := TickA(r);
    TimersKeepSerial(a.0, FedB(a.0, a.1));
    var d := TickTimers(c).0;
    ShiftKeepsCnt(d.(serial := d.serial.(outAccum := d.serial.outAccum + PER_TICK)));
    var e := TickSerial(d);
    ClockKeepsSerial(e.(clock := e.clock.(accum := e.clock.accum + PER_TICK)));
  }

  /** What the timers' share of a tick does, in terms of pulses on the timers with their pins at rest. */
  lemma {:induction false} TimersPulse(c: Chip, a: nat, u: nat, b: nat)
    requires Ready(c) && a == InA(c.ta) && u == Pulses(RestPin(c.ta), a).1 && b == InB(c.tb, c.serial.cnt, u)
    ensures var d := TickTimers(c).0;
            && d.ta == Pulses(RestPin(c.ta), a).0 && (d.icr[TA_BIT] <==> c.icr[TA_BIT] || u > 0)
            && d.tb == Pulses(RestPin(c.tb), b).0 && (d.icr[TB_BIT] <==> c.icr[TB_BIT] || Pulses(RestPin(c.tb), b).1 > 0)
  {
    var r := RestPins(c);
    TickPulsesA(r);
    TickPulsesB(TickA(r).0, u, b);
  }

  /** Main result: a tick gives timer A and timer B exactly the pulses their input modes let through, raises a flag exactly when
      one of them underflowed, and moves the pins by mode. */
  lemma {:induction false} TickFeeds(c: Chip, a: nat, u: nat, b: nat, d: Chip)
    requires Ready(c) && a == InA(c.ta) && u == Pulses(c.ta, a).1 && b == InB(c.tb, c.serial.cnt, u) && d == Tick(c)
    ensures Fed(c, d, a, b)
    ensures d.ta.pin == if !c.ta.control[1] then c.ta.pin else if c.ta.control[2] then c.ta.pin != (u % 2 == 1) else u == 0
    ensures var v := Pulses(c.tb, b).1;
      d.tb.pin == if !c.tb.control[1] then c.tb.pin else if c.tb.control[2] then c.tb.pin != (v % 2 == 1) else v == 0
  {
    SamePulses(c.ta, RestPin(c.ta), a);
    SamePulses(c.tb, RestPin(c.tb), b);
    TimersPulse(c, a, u, b);
    TickKeepsTimers(c);
    PulsesDrive(RestPin(c.ta), a);
    PulsesDrive(RestPin(c.tb), b);
  }

  // ---------- runs ----------

  lemma {:induction false} TimerOn(t: Timer, r: Timer, s: Timer, m: nat, n: nat)
    requires Usable(t) && Same(Pulses(t, m).0, r) && Usable(r) && Same(Pulses(r, n).0, s)
    ensures Same(Pulses(t, m + n).0, s) && Pulses(t, m + n).1 == Pulses(t, m).1 + Pulses(r, n).1
  {
    PulsesSplit(t, m, n);
    SamePulses(Pulses(t, m).0, r, n);
  }

  lemma {:induction false} FedOn(c: Chip, d: Chip, e: Chip, a: nat, b: nat, a': nat, b': nat)
    requires Fed(c, d, a, b) && Fed(d, e, a', b')
    ensures Fed(c, e, a + a', b + b')
  {
    TimerOn(c.ta, d.ta, e.ta, a, a');
    TimerOn(c.tb, d.tb, e.tb, b, b');
  }

  /** The same modes and the same level on CNT. */
  ghost predicate Alike(c: Chip, d: Chip) { Kin(c.ta, d.ta) && Kin(c.tb, d.tb) && d.serial.cnt == c.serial.cnt }

  lemma {:induction false} AlikeReady(c: Chip, d: Chip, u: nat)
    requires Ready(c) && Alike(c, d)
    ensures Ready(d) && InA(d.ta) == InA(c.ta) && InB(d.tb, d.serial.cnt, u) == InB(c.tb, c.serial.cnt, u)
  {
    KinModes(c.ta, d.ta);
    KinModes(c.tb, d.tb);
  }

  lemma {:induction false} FedKin(c: Chip, d: Chip, a: nat, b: nat)
    requires Fed(c, d, a, b)
    ensures Kin(c.ta, d.ta) && Kin(c.tb, d.tb)
  {
    PulsesDrive(c.ta, a);
    PulsesDrive(c.tb, b);
  }

  /** The pulses timer A takes in n ticks. */
  function TotalA(c: Chip, n: nat): nat { if c.ta.control[5] then 0 else 7093 * n }

  /** The pulses timer B takes in n ticks in which timer A underflows `u` times. */
  function TotalB(c: Chip, n: nat, u: nat): nat
  {
    match (c.tb.control[6], c.tb.control[5])
    case (false, false) => 7093 * n
    case (false, true) => 0
    case (true, false) => u
    case (true, true) => if c.serial.cnt then u else 0
  }

  lemma {:induction false} TotalsOn(c: Chip, n: nat, u: nat, v: nat)
    ensures TotalA(c, n) + InA(c.ta) == TotalA(c, n + 1)
    ensures TotalB(c, n, u) + InB(c.tb, c.serial.cnt, v) == TotalB(c, n + 1, u + v)
  {
  }

  /** n ticks from `c` lead to `d`. */
  ghost predicate Ticked(c: Chip, d: Chip, n: nat)
  {
    Usable(c.ta) && Alike(c, d) && Fed(c, d, TotalA(c, n), TotalB(c, n, Pulses(c.ta, TotalA(c, n)).1))
  }

  lemma {:induction false} FedAdds(c: Chip, d: Chip, e: Chip, a: nat, b: nat, a': nat, b': nat)
    requires Fed(c, d, a, b) && Fed(d, e, a', b')
    ensures Fed(c, e, a + a', b + b') && Kin(c.ta, e.ta) && Kin(c.tb, e.tb)
    ensures Pulses(c.ta, a + a').1 == Pulses(c.ta, a).1 + Pulses(d.ta, a').1
  {
    FedOn(c, d, e, a, b, a', b');
    TimerOn(c.ta, d.ta, e.ta, a, a');
    FedKin(c, e, a + a', b + b');
  }

  lemma {:induction false} TickedIs(c: Chip, d: Chip, n: nat, a: nat, u: nat, b: nat)
    requires Fed(c, d, a, b) && Alike(c, d) && a == TotalA(c, n) && u == Pulses(c.ta, a).1 && b == TotalB(c, n, u)
    ensures Ticked(c, d, n)
  {
  }

  /** What one tick from `d` to `e` does. */
  ghost predicate OneTick(d: Chip, e: Chip)
  {
    Ready(d) ==> e.serial.cnt == d.serial.cnt && Fed(d, e, InA(d.ta), InB(d.tb, d.serial.cnt, Pulses(d.ta, InA(d.ta)).1))
  }

  lemma {:induction false} TickIsOne(d: Chip, e: Chip)
    requires e == Tick(d)
    ensures OneTick(d, e)
  {
    if Ready(d) {
      var a := InA(d.ta);
      var v := Pulses(d.ta, a).1;
      TickFeeds(d, a, v, InB(d.tb, d.serial.cnt, v), e);
      TickKeepsCnt(d);
    }
  }

  lemma {:induction false} AddTick(c: Chip, d: Chip, e: Chip, n: nat, a: nat, u: nat, b: nat, a': nat, v: nat, b': nat)
    requires Fed(c, d, a, b) && Fed(d, e, a', b') && e.serial.cnt == d.serial.cnt == c.serial.cnt
    requires u == Pulses(c.ta, a).1 && v == Pulses(d.ta, a').1 && a + a' == TotalA(c, n) && b + b' == TotalB(c, n, u + v)
    ensures Ticked(c, e, n)
  {
    FedAdds(c, d, e, a, b, a', b');
    TickedIs(c, e, n, a + a', u + v, b + b');
  }

  lemma {:induction false} TickedOn(c: Chip, d: Chip, e: Chip, n: nat)
    requires Ready(c) && Ticked(c, d, n) && OneTick(d, e)
    ensures Ticked(c, e, n + 1)
  {
    var u := Pulses(c.ta, TotalA(c, n)).1;
    AlikeReady(c, d, 0);
    var v := Pulses(d.ta, InA(d.ta)).1;
    AlikeReady(c, d, v);
    TotalsOn(c, n, u, v);
    AddTick(c, d, e, n + 1, TotalA(c, n), u, TotalB(c, n, u), InA(d.ta), v, InB(d.tb, d.serial.cnt, v));
  }

  ghost predicate OneTickAt(cs: seq<Chip>, i: nat)
    requires i + 1 < |cs|
  {
    OneTick(cs[i], cs[i + 1])
  }

  lemma {:induction false} NoTick(c: Chip)
    requires Ready(c)
    ensures Ticked(c, c, 0)
  {
  }

  lemma {:induction false} TickedAlong(cs: seq<Chip>, n: nat)
    requires n < |cs| && Ready(cs[0]) && forall i {:trigger OneTickAt(cs, i)} :: 0 <= i < n ==> OneTickAt(cs, i)
    ensures Ticked(cs[0], cs[n], n)
  {
    if n == 0 {
      NoTick(cs[0]);
    } else {
      TickedAlong(cs, n - 1);
      assert OneTickAt(cs, n - 1);
      TickedOn(cs[0], cs[n - 1], cs[n], n - 1);
    }
  }

  lemma {:induction false} NextIsOne(c: Chip, i: nat)
    ensures OneTick(Ticks(c, i), Ticks(c, i + 1))
  {
    TickIsOne(Ticks(c, i), Ticks(c, i + 1));
  }

  /** Main result: over any number of ticks, timer A in E-clock mode, one-shot or with a latch of at least 56, has counted 7093
      pulses a tick; timer B the same in INMODE 00, nothing in 01, the underflows of A in 10, and those under a high CNT in 11.
      Each flag is up exactly if it was or its timer underflowed. */
  lemma {:induction false} TicksCount(c: Chip, n: nat)
    requires Ready(c)
    ensures Ticked(c, Ticks(c, n), n)
  {
    var cs := seq(n + 1, i requires 0 <= i <= n => Ticks(c, i));
    forall i | 0 <= i < n
      ensures OneTickAt(cs, i)
    {
      NextIsOne(c, i);
    }
    TickedAlong(cs, n);
  }

  /** Main result: a one-shot delay on timer A, whatever timer B does, ends with its flag up in tick ceil(v / 7093), and not
      before; a delay of 0 acts as 1. */
  lemma {:induction false} DelayEnds(c: Chip, control: Byte, low: Byte, high: Byte, n: nat)
    requires !control[0] && control[3] && !control[5] && !c.icr[TA_BIT]
    requires Usable(c.tb) && (!c.tb.control[6] && !c.tb.control[5] ==> Paced(c.tb))
    ensures var d := Ticks(c.(ta := Delay(c.ta, control, low, high)), n);
            var v := Num(low) + 256 * Num(high);
            var last := if v == 0 then 1 else (v + 7092) / 7093;
            && (d.icr[TA_BIT] <==> n >= last) && (Started(d.ta) <==> n < last)
            && d.ta.counter == if n < last then v - 7093 * n else v
  {
    var t := Delay(c.ta, control, low, high);
    var s := c.(ta := t);
    DelayModes(c.ta, control, low, high);
    DelayCounts(c.ta, control, low, high, 7093 * n);
    TicksCount(s, n);
  }

  lemma {:induction false} DelayModes(t: Timer, control: Byte, low: Byte, high: Byte)
    requires !control[0]
    ensures Delay(t, control, low, high).control[1..] == control[1..]
  {
  }

  // ---------- edges of CNT ----------

  lemma {:induction false} EdgePulsesA(c: Chip)
    requires Usable(c.ta)
    ensures var d := EdgeA(c);
            var r := Pulses(c.ta, if c.ta.control[5] then 1 else 0);
            && d.ta == r.0 && d.tb == c.tb && (d.icr[TA_BIT] <==> c.icr[TA_BIT] || r.1 > 0) && d.icr[TB_BIT] == c.icr[TB_BIT]
  {
    if !Started(c.ta) {
      PulsesStopped(c.ta, 1);
    } else {
      SmallBatch(c.ta, 1);
    }
  }

  lemma {:induction false} EdgePulsesB(c: Chip)
    requires Usable(c.tb)
    ensures var d := EdgeB(c);
            var r := Pulses(c.tb, if c.tb.control[5] && !c.tb.control[6] then 1 else 0);
            && d.tb == r.0 && d.ta == c.ta && (d.icr[TB_BIT] <==> c.icr[TB_BIT] || r.1 > 0) && d.icr[TA_BIT] == c.icr[TA_BIT]
  {
    if !Started(c.tb) {
      PulsesStopped(c.tb, 1);
    } else {
      SmallBatch(c.tb, 1);
    }
  }

  lemma {:induction false} SampleKeepsTimers(c: Chip)
    ensures var d := SampleBit(c); d.ta == c.ta && d.tb == c.tb && d.icr[TA_BIT] == c.icr[TA_BIT] && d.icr[TB_BIT] == c.icr[TB_BIT]
  {
  }

  /** The pulses a change of CNT gives a timer that counts it. */
  function Rise(before: bool, after: bool): nat { if after && !before then 1 else 0 }

  /** The pins of both timers follow too. */
  ghost predicate FedWhole(c: Chip, d: Chip, a: nat, b: nat)
  {
    Fed(c, d, a, b) && d.ta == Pulses(c.ta, a).0 && d.tb == Pulses(c.tb, b).0
  }

  /** Which timers count CNT: A with CRA bit 5, B in INMODE 01. */
  function CntA(c: Chip, k: nat): nat { if c.ta.control[5] then k else 0 }

  function CntB(c: Chip, k: nat): nat { if c.tb.control[5] && !c.tb.control[6] then k else 0 }

  lemma {:induction false} LevelFeeds(c: Chip, level: bool)
    requires Usable(c.ta) && Usable(c.tb)
    ensures var d, k := SetCnt(c, level), Rise(c.serial.cnt, level);
            FedWhole(c, d, CntA(c, k), CntB(c, k)) && d.serial.cnt == level
  {
    if !c.serial.cnt && level {
      var s := SampleBit(c);
      SampleKeepsTimers(c);
      EdgePulsesA(s);
      EdgePulsesB(EdgeA(s));
    }
  }

  lemma {:induction false} FedWholeOn(c: Chip, d: Chip, e: Chip, a: nat, b: nat, a': nat, b': nat)
    requires FedWhole(c, d, a, b) && FedWhole(d, e, a', b')
    ensures FedWhole(c, e, a + a', b + b')
  {
    FedOn(c, d, e, a, b, a', b');
    PulsesSplit(c.ta, a, a');
    PulsesSplit(c.tb, b, b');
  }

  lemma {:induction false} CountsAlike(c: Chip, d: Chip, k: nat)
    requires Kin(c.ta, d.ta) && Kin(c.tb, d.tb)
    ensures CntA(d, k) == CntA(c, k) && CntB(d, k) == CntB(c, k)
  {
    KinModes(c.ta, d.ta);
    KinModes(c.tb, d.tb);
  }

  /** From `c` to `d` the timers that count CNT took `k` pulses and the others none. */
  ghost predicate Edged(c: Chip, d: Chip, k: nat) { FedWhole(c, d, CntA(c, k), CntB(c, k)) }

  lemma {:induction false} NotEdged(c: Chip)
    requires Usable(c.ta) && Usable(c.tb)
    ensures Edged(c, c, 0)
  {
  }

  lemma {:induction false} EdgedOn(c: Chip, d: Chip, e: Chip, k: nat, j: nat)
    requires Edged(c, d, k) && Edged(d, e, j)
    ensures Edged(c, e, k + j)
  {
    FedKin(c, d, CntA(c, k), CntB(c, k));
    CountsAlike(c, d, j);
    FedWholeOn(c, d, e, CntA(c, k), CntB(c, k), CntA(d, j), CntB(d, j));
  }

  /** What one level on CNT does. */
  ghost predicate OneLevel(d: Chip, e: Chip, level: bool)
  {
    Usable(d.ta) && Usable(d.tb) ==> e.serial.cnt == level && Edged(d, e, Rise(d.serial.cnt, level))
  }

  lemma {:induction false} LevelIsOne(d: Chip, e: Chip, level: bool)
    requires e == SetCnt(d, level)
    ensures OneLevel(d, e, level)
  {
    if Usable(d.ta) && Usable(d.tb) {
      LevelFeeds(d, level);
    }
  }

  lemma {:induction false} NextEdged(c: Chip, d: Chip, level: bool, k: nat, e: Chip)
    requires Edged(c, d, k) && OneLevel(d, e, level)
    ensures Edged(c, e, k + Rise(d.serial.cnt, level)) && e.serial.cnt == level
  {
    FedKin(c, d, CntA(c, k), CntB(c, k));
    KinModes(c.ta, d.ta);
    KinModes(c.tb, d.tb);
    EdgedOn(c, d, e, k, Rise(d.serial.cnt, level));
  }

  ghost predicate OneLevelAt(cs: seq<Chip>, ls: seq<bool>, i: nat)
    requires i + 1 < |cs| && i < |ls|
  {
    OneLevel(cs[i], cs[i + 1], ls[i])
  }

  /** The level after n changes. */
  function LevelAfter(before: bool, ls: seq<bool>, n: nat): bool
    requires n <= |ls|
  {
    if n == 0 then before else ls[n - 1]
  }

  /** The rising edges among the first n levels. */
  function Rises(before: bool, ls: seq<bool>, n: nat): nat
    requires n <= |ls|
  {
    if n == 0 then 0 else Rises(before, ls, n - 1) + Rise(LevelAfter(before, ls, n - 1), ls[n - 1])
  }

  lemma {:induction false} EdgedAlong(cs: seq<Chip>, ls: seq<bool>, n: nat)
    requires |cs| == |ls| + 1 && n <= |ls| && Usable(cs[0].ta) && Usable(cs[0].tb)
    requires forall i {:trigger OneLevelAt(cs, ls, i)} :: 0 <= i < n ==> OneLevelAt(cs, ls, i)
    ensures Edged(cs[0], cs[n], Rises(cs[0].serial.cnt, ls, n)) && cs[n].serial.cnt == LevelAfter(cs[0].serial.cnt, ls, n)
  {
    if n == 0 {
      NotEdged(cs[0]);
    } else {
      EdgedAlong(cs, ls, n - 1);
      assert OneLevelAt(cs, ls, n - 1);
      NextEdged(cs[0], cs[n - 1], ls[n - 1], Rises(cs[0].serial.cnt, ls, n - 1), cs[n]);
    }
  }

  /** The pin driven through the first n levels. */
  ghost function Levels(c: Chip, ls: seq<bool>, n: nat): Chip
    requires n <= |ls|
  {
    if n == 0 then c else SetCnt(Levels(c, ls, n - 1), ls[n - 1])
  }

  lemma {:induction false} NextLevelIsOne(c: Chip, ls: seq<bool>, i: nat)
    requires i < |ls|
    ensures OneLevel(Levels(c, ls, i), Levels(c, ls, i + 1), ls[i])
  {
    LevelIsOne(Levels(c, ls, i), Levels(c, ls, i + 1), ls[i]);
  }

  /** Main result: over any sequence of levels on CNT, a timer that counts it takes one pulse per rising edge, pin and flag
      included, and a timer that does not is left alone. */
  lemma {:induction false} EdgesCount(c: Chip, ls: seq<bool>)
    requires Usable(c.ta) && Usable(c.tb)
    ensures Edged(c, Levels(c, ls, |ls|), Rises(c.serial.cnt, ls, |ls|))
  {
    var n := |ls|;
    var cs := seq(n + 1, i requires 0 <= i <= n => Levels(c, ls, i));
    forall i | 0 <= i < n
      ensures OneLevelAt(cs, ls, i)
    {
      NextLevelIsOne(c, ls, i);
    }
    EdgedAlong(cs, ls, n);
  }

  // ---------- the FLAG pin ----------

  /** The pin driven through the first n levels. */
  ghost function Flags(c: Chip, ls: seq<bool>, n: nat): Chip
    requires n <= |ls|
  {
    if n == 0 then c else SetFlag(Flags(c, ls, n - 1), ls[n - 1])
  }

  predicate FallsAt(before: bool, ls: seq<bool>, i: nat)
    requires i < |ls|
  {
    LevelAfter(before, ls, i) && !ls[i]
  }

  lemma {:induction false} FlagStepIs(c: Chip, level: bool)
    ensures var d := SetFlag(c, level);
            d.flag == level && (d.icr[FLAG_BIT] <==> c.icr[FLAG_BIT] || (c.flag && !level)) && d.ta == c.ta && d.tb == c.tb
  {
  }

  /** Main result: over any sequence of levels on FLAG, its interrupt flag is up exactly if it was or the pin fell. */
  lemma {:induction false} FallsShow(c: Chip, ls: seq<bool>, n: nat)
    requires n <= |ls|
    ensures var d := Flags(c, ls, n);
            && d.flag == LevelAfter(c.flag, ls, n)
            && (d.icr[FLAG_BIT] <==> c.icr[FLAG_BIT] || exists i :: 0 <= i < n && FallsAt(c.flag, ls, i))
  {
    if n > 0 {
      FallsShow(c, ls, n - 1);
      FlagStepIs(Flags(c, ls, n - 1), ls[n - 1]);
      assert FallsAt(c.flag, ls, n - 1) <==> LevelAfter(c.flag, ls, n - 1) && !ls[n - 1];
    }
  }
}
