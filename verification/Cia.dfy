/** A CIA (8520) as a state machine: two timers, the serial register, the time-of-day clock and the interrupt logic. */
module Cia {
  import opened Bits
  import opened CiaTimer

  datatype Serial = Serial(data: Byte, outBits: nat, outAccum: nat, inCount: nat, sp: bool, cnt: bool)

  datatype Time = Time(tenths: Nat8, seconds: Nat8, minutes: Nat8)

  /** `held` is the copy of tenths and seconds frozen by a read of the minutes. */
  datatype Clock = Clock(time: Time, alarm: Time, held: (Nat8, Nat8), accum: nat, running: bool, latched: bool)

  /** `line` is what the chip drives: INTREQ bit 3 for CIA-A, the level-6 request for CIA-B. */
  datatype Chip = Chip(ta: Timer, tb: Timer, serial: Serial, clock: Clock, flag: bool, icr: Byte, mask: Byte, line: bool)

  /** E-clock counts in one 100 Hz host tick, and in a tenth of a second. */
  const PER_TICK := 7093
  const PER_TENTH := 70937

  const TA_BIT := 0
  const TB_BIT := 1
  const ALARM_BIT := 2
  const SP_BIT := 3
  const FLAG_BIT := 4

  function Num(b: Byte): Nat8
  {
    OfNatValue(b);
    Value(b)
  }

  // ---------- interrupt logic ----------

  ghost predicate Pending(icr: Byte, mask: Byte)
  {
    exists i :: 0 <= i < 8 && icr[i] && mask[i]
  }

  ghost function Reval(c: Chip): Chip { c.(line := Pending(c.icr, c.mask)) }

  function SetBit(b: Byte, i: nat): Byte
    requires i < 8
  {
    b[..i] + [true] + b[i + 1..]
  }

  ghost function Raise(c: Chip, i: nat): Chip
    requires i < 8
  {
    Reval(c.(icr := SetBit(c.icr, i)))
  }

  /** The set/clear convention: bit 7 of `v` says what happens to the bits selected by the rest of `v`. */
  function SetClear(b: Byte, v: Byte): Byte
  {
    seq(8, i requires 0 <= i < 8 => if i < 7 && v[i] then v[7] else b[i])
  }

  function Without(b: Byte, v: Byte): Byte
  {
    seq(8, i requires 0 <= i < 8 => b[i] && !v[i])
  }

  ghost function ReadIcr(c: Chip): Chip { Reval(c.(icr := Zeros(8))) }

  ghost function WriteMask(c: Chip, v: Byte): Chip { Reval(c.(mask := SetClear(c.mask, v))) }

  ghost function Acknowledge(c: Chip, bits: Byte): Chip { Reval(c.(icr := Without(c.icr, bits))) }

  ghost function ForceIcr(c: Chip, v: Byte): Chip { Reval(c.(icr := SetClear(c.icr, v))) }

  // ---------- programming the timers ----------

  function WriteLow(t: Timer, v: Byte): Timer
  {
    var latch := t.latch / 256 * 256 + Num(v);
    t.(latch := latch, counter := if Started(t) then t.counter else latch)
  }

  /** A high-byte write also starts a stopped one-shot timer. */
  function WriteHigh(t: Timer, v: Byte): Timer
  {
    var latch := t.latch % 256 + 256 * Num(v);
    if Started(t) then t.(latch := latch)
    else t.(latch := latch, counter := latch, control := SetStart(t.control, OneShot(t)))
  }

  function WriteControl(t: Timer, v: Byte): Timer
  {
    t.(control := v, counter := if v[4] then t.latch else t.counter)
  }

  // ---------- counting ----------

  ghost function CountA(c: Chip, dec: nat): (Chip, nat)
  {
    var r := Countdown(c.ta, dec, GUARD);
    (if r.1 > 0 then Raise(c.(ta := r.0), TA_BIT) else c.(ta := r.0), r.1)
  }

  ghost function CountB(c: Chip, dec: nat): (Chip, nat)
  {
    var r := Countdown(c.tb, dec, GUARD);
    (if r.1 > 0 then Raise(c.(tb := r.0), TB_BIT) else c.(tb := r.0), r.1)
  }

  // ---------- pins ----------

  predicate Output(c: Chip) { c.ta.control[6] }

  ghost function SampleBit(c: Chip): Chip
  {
    if Output(c) then c
    else
      var s := c.serial.(data := ShiftIn(c.serial.data, c.serial.sp));
      if s.inCount + 1 >= 8 then Raise(c.(serial := s.(inCount := 0)), SP_BIT)
      else c.(serial := s.(inCount := s.inCount + 1))
  }

  ghost function EdgeA(c: Chip): Chip
  {
    if Started(c.ta) && c.ta.control[5] then CountA(c, 1).0 else c
  }

  ghost function EdgeB(c: Chip): Chip
  {
    if Started(c.tb) && c.tb.control[5] && !c.tb.control[6] then CountB(c, 1).0 else c
  }

  ghost function CntEdge(c: Chip): Chip { EdgeB(EdgeA(SampleBit(c))) }

  ghost function SetFlag(c: Chip, level: bool): Chip
  {
    (if c.flag && !level then Raise(c, FLAG_BIT) else c).(flag := level)
  }

  ghost function SetCnt(c: Chip, level: bool): Chip
  {
    var d := if !c.serial.cnt && level then CntEdge(c) else c;
    d.(serial := d.serial.(cnt := level))
  }

  function SetSp(c: Chip, level: bool): Chip { c.(serial := c.serial.(sp := level)) }

  function WriteSerial(c: Chip, v: Byte): Chip
  {
    c.(serial := if Output(c) then c.serial.(data := v, outBits := 8, outAccum := 0) else c.serial.(data := v))
  }

  // ---------- the time-of-day clock ----------

  function NextTime(t: Time): Time
  {
    var tenths := (t.tenths + 1) % 256;
    if tenths < 10 then t.(tenths := tenths)
    else
      var seconds := (t.seconds + 1) % 256;
      if seconds < 60 then Time(0, seconds, t.minutes)
      else
        var minutes := (t.minutes + 1) % 256;
        Time(0, 0, if minutes < 60 then minutes else 0)
  }

  ghost function Tenth(c: Chip): Chip
  {
    var d := c.(clock := c.clock.(time := NextTime(c.clock.time)));
    if d.clock.time == d.clock.alarm then Raise(d, ALARM_BIT) else d
  }

  ghost function RunClock(c: Chip): Chip
    decreases c.clock.accum
  {
    if c.clock.accum < PER_TENTH then c
    else RunClock(Tenth(c.(clock := c.clock.(accum := c.clock.accum - PER_TENTH))))
  }

  function WriteTime(c: Chip, which: nat, v: Byte): Chip
    requires which < 3
  {
    var k := c.clock;
    var t := if c.tb.control[7] then k.alarm else k.time;
    var t' := if which == 0 then t.(tenths := Num(v)) else if which == 1 then t.(seconds := Num(v)) else t.(minutes := Num(v));
    if c.tb.control[7] then c.(clock := k.(alarm := t'))
    else c.(clock := k.(time := t', running := which == 0 || (which == 1 && k.running)))
  }

  function ReadMinutes(c: Chip): Chip
  {
    c.(clock := c.clock.(held := (c.clock.time.tenths, c.clock.time.seconds), latched := true))
  }

  function ReadTenths(c: Chip): (Chip, Nat8)
  {
    (c.(clock := c.clock.(latched := false)), if c.clock.latched then c.clock.held.0 else c.clock.time.tenths)
  }

  function ReadSeconds(c: Chip): Nat8 { if c.clock.latched then c.clock.held.1 else c.clock.time.seconds }

  // ---------- the 100 Hz tick ----------

  /** A pulse on PB6 or PB7 lasts until the next tick. */
  function RestPin(t: Timer): Timer { t.(pin := t.pin || (t.control[1] && !t.control[2])) }

  function RestPins(c: Chip): Chip { c.(ta := RestPin(c.ta), tb := RestPin(c.tb)) }

  ghost function TickA(c: Chip): (Chip, nat)
  {
    if Started(c.ta) && !c.ta.control[5] then CountA(c, PER_TICK) else (c, 0)
  }

  /** What timer B counts in a tick in which timer A underflowed `wraps` times. */
  function FedB(c: Chip, wraps: nat): nat
  {
    if c.tb.control[6] then (if c.tb.control[5] && !c.serial.cnt then 0 else wraps)
    else if c.tb.control[5] then 0 else PER_TICK
  }

  ghost function TickB(c: Chip, wraps: nat): (Chip, nat)
  {
    if Started(c.tb) then CountB(c, FedB(c, wraps)) else (c, 0)
  }

  /** The chip after its timers' share of a tick, and the underflows of A and B. */
  ghost function TickTimers(c: Chip): (Chip, nat, nat)
  {
    var a := TickA(RestPins(c));
    var b := TickB(a.0, a.1);
    (b.0, a.1, b.1)
  }

  ghost function ShiftOut(c: Chip): Chip
    decreases c.serial.outBits
  {
    var s := c.serial;
    if s.outBits == 0 || s.outAccum < 2 then c
    else
      var d := c.(serial := s.(data := Shl(s.data, 1), outBits := s.outBits - 1, outAccum := s.outAccum - 2));
      ShiftOut(if s.outBits == 1 then Raise(d, SP_BIT) else d)
  }

  ghost function TickSerial(c: Chip): Chip
  {
    if c.serial.outBits == 0 then c
    else ShiftOut(c.(serial := c.serial.(outAccum := c.serial.outAccum + PER_TICK)))
  }

  ghost function TickClock(c: Chip): Chip
  {
    if !c.clock.running then c else RunClock(c.(clock := c.clock.(accum := c.clock.accum + PER_TICK)))
  }

  ghost function Tick(c: Chip): Chip { TickClock(TickSerial(TickTimers(c).0)) }

  /** The chip after a reset: pins high, the clock counting, everything else zero. */
  function Reset(): Chip
  {
    var t := Timer(0, 0, Zeros(8), true);
    var z := Time(0, 0, 0);
    Chip(t, t, Serial(Zeros(8), 0, 0, 0, true, true), Clock(z, z, (0, 0), 0, true, false), true, Zeros(8), Zeros(8), false)
  }
}
