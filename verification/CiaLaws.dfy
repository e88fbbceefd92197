/** What a CIA guarantees over every run of operations: the interrupt line shows what is pending, and no flag is lost. */
module CiaLaws {
  import opened Bits
  import opened CiaTimer
  import opened Cia

  // ---------- the interrupt line over every run ----------

  datatype Op =
    | LowWrite(a: bool, v: Byte)
    | HighWrite(a: bool, v: Byte)
    | ControlWrite(a: bool, v: Byte)
    | SerialWrite(v: Byte)
    | TimeWrite(which: nat, v: Byte)
    | MinutesRead
    | TenthsRead
    | IcrRead
    | MaskWrite(v: Byte)
    | Ack(v: Byte)
    | Force(v: Byte)
    | Flag(level: bool)
    | Cnt(level: bool)
    | Sp(level: bool)
    | Key
    | HostTick

  ghost function OnTimer(c: Chip, a: bool, f: Timer -> Timer): Chip
  {
    if a then c.(ta := f(c.ta)) else c.(tb := f(c.tb))
  }

  ghost function Apply(c: Chip, op: Op): Chip
  {
    match op
    case LowWrite(a, v) => OnTimer(c, a, t => WriteLow(t, v))
    case HighWrite(a, v) => OnTimer(c, a, t => WriteHigh(t, v))
    case ControlWrite(a, v) => OnTimer(c, a, t => WriteControl(t, v))
    case SerialWrite(v) => WriteSerial(c, v)
    case TimeWrite(which, v) => if which < 3 then WriteTime(c, which, v) else c
    case MinutesRead => ReadMinutes(c)
    case TenthsRead => ReadTenths(c).0
    case IcrRead => ReadIcr(c)
    case MaskWrite(v) => WriteMask(c, v)
    case Ack(v) => Acknowledge(c, v)
    case Force(v) => ForceIcr(c, v)
    case Flag(level) => SetFlag(c, level)
    case Cnt(level) => SetCnt(c, level)
    case Sp(level) => SetSp(c, level)
    case Key => Raise(c, SP_BIT)
    case HostTick => Tick(c)
  }

  ghost function Run(c: Chip, ops: seq<Op>): Chip
    decreases |ops|
  {
    if ops == [] then c else Run(Apply(c, ops[0]), ops[1..])
  }

  /** The line shows what is pending, and none of the flags in `was` has been lost. */
  ghost predicate Shows(c: Chip, was: Byte)
  {
    && c.line == Pending(c.icr, c.mask)
    && forall i :: 0 <= i < 8 && was[i] ==> c.icr[i]
  }

  lemma {:induction false} RaiseShows(c: Chip, was: Byte, i: nat)
    requires i < 8 && forall i :: 0 <= i < 8 && was[i] ==> c.icr[i]
    ensures Shows(Raise(c, i), was)
  {
  }

  lemma {:induction false} CountShowsA(c: Chip, was: Byte, dec: nat)
    requires Shows(c, was)
    ensures Shows(CountA(c, dec).0, was)
  {
    RaiseShows(c.(ta := Countdown(c.ta, dec, GUARD).0), was, TA_BIT);
  }

  lemma {:induction false} CountShowsB(c: Chip, was: Byte, dec: nat)
    requires Shows(c, was)
    ensures Shows(CountB(c, dec).0, was)
  {
    RaiseShows(c.(tb := Countdown(c.tb, dec, GUARD).0), was, TB_BIT);
  }

  lemma {:induction false} TimersShow(c: Chip, was: Byte)
    requires Shows(c, was)
    ensures Shows(TickTimers(c).0, was)
  {
    var r := RestPins(c);
    CountShowsA(r, was, PER_TICK);
    var a := TickA(r);
    CountShowsB(a.0, was, FedB(a.0, a.1));
  }

  lemma {:induction false} ShiftShows(c: Chip, was: Byte)
    requires Shows(c, was)
    ensures Shows(ShiftOut(c), was)
    decreases c.serial.outBits
  {
    var s := c.serial;
    if s.outBits > 0 && s.outAccum >= 2 {
      var d := c.(serial := s.(data := Shl(s.data, 1), outBits := s.outBits - 1, outAccum := s.outAccum - 2));
      ShiftShows(if s.outBits == 1 then Raise(d, SP_BIT) else d, was);
    }
  }

  lemma {:induction false} ClockShows(c: Chip, was: Byte)
    requires Shows(c, was)
    ensures Shows(RunClock(c), was)
    decreases c.clock.accum
  {
    if c.clock.accum >= PER_TENTH {
      ClockShows(Tenth(c.(clock := c.clock.(accum := c.clock.accum - PER_TENTH))), was);
    }
  }

  lemma {:induction false} TickShows(c: Chip, was: Byte)
    requires Shows(c, was)
    ensures Shows(Tick(c), was)
  {
    var d := TickTimers(c).0;
    TimersShow(c, was);
    var e := TickSerial(d);
    ShiftShows(d.(serial := d.serial.(outAccum := d.serial.outAccum + PER_TICK)), was);
    ClockShows(e.(clock := e.clock.(accum := e.clock.accum + PER_TICK)), was);
  }

  lemma {:induction false} SampleShows(c: Chip, was: Byte)
    requires Shows(c, was)
    ensures Shows(SampleBit(c), was)
  {
  }

  lemma {:induction false} EdgeShows(c: Chip, was: Byte)
    requires Shows(c, was)
    ensures Shows(CntEdge(c), was)
  {
    var d := SampleBit(c);
    SampleShows(c, was);
    CountShowsA(d, was, 1);
    CountShowsB(EdgeA(d), was, 1);
  }

  /** The operations that may drop a pending flag. */
  predicate Clears(op: Op)
  {
    op.IcrRead? || op.Ack? || (op.Force? && !op.v[7])
  }

  lemma {:induction false} ApplyShows(c: Chip, op: Op)
    requires Shows(c, c.icr)
    ensures Shows(Apply(c, op), if Clears(op) then Zeros(8) else c.icr)
  {
    if op.Cnt? {
      EdgeShows(c, c.icr);
    } else if op.HostTick? {
      TickShows(c, c.icr);
    }
  }

  /** Main result: after every run of operations from reset, the interrupt line is up exactly when an enabled flag is
      pending. */
  lemma {:induction false} LineFollows(c: Chip, ops: seq<Op>)
    requires c.line == Pending(c.icr, c.mask)
    ensures var d := Run(c, ops); d.line == Pending(d.icr, d.mask)
    decreases |ops|
  {
    if ops != [] {
      ApplyShows(c, ops[0]);
      LineFollows(Apply(c, ops[0]), ops[1..]);
    }
  }

  /** Main result: no interrupt is lost. Over every run without an ICR read, an acknowledge or a forced clear, every flag once
      raised stays raised. */
  lemma {:induction false} FlagsStay(c: Chip, ops: seq<Op>)
    requires c.line == Pending(c.icr, c.mask)
    requires forall k :: 0 <= k < |ops| ==> !Clears(ops[k])
    ensures forall i :: 0 <= i < 8 && c.icr[i] ==> Run(c, ops).icr[i]
    decreases |ops|
  {
    if ops != [] {
      ApplyShows(c, ops[0]);
      assert forall k :: 0 <= k < |ops[1..]| ==> ops[1..][k] == ops[k + 1];
      FlagsStay(Apply(c, ops[0]), ops[1..]);
    }
  }

  // ---------- what clears a flag, and what enables one ----------

  /** Main result: a read of the ICR takes every flag down, an acknowledge exactly the flags it names, and a forced write gives
      the flags it names the value of its bit 7. */
  lemma {:induction false} FlagsTaken(c: Chip, op: Op, i: nat)
    requires i < 8
    ensures op.IcrRead? ==> !Apply(c, op).icr[i]
    ensures op.Ack? ==> (Apply(c, op).icr[i] <==> c.icr[i] && !op.v[i])
    ensures op.Force? ==> (Apply(c, op).icr[i] <==> if i < 7 && op.v[i] then op.v[7] else c.icr[i])
  {
  }

  lemma {:induction false} ShiftKeepsMask(c: Chip)
    ensures ShiftOut(c).mask == c.mask
    decreases c.serial.outBits
  {
    var s := c.serial;
    if s.outBits > 0 && s.outAccum >= 2 {
      var d := c.(serial := s.(data := Shl(s.data, 1), outBits := s.outBits - 1, outAccum := s.outAccum - 2));
      ShiftKeepsMask(if s.outBits == 1 then Raise(d, SP_BIT) else d);
    }
  }

  lemma {:induction false} ClockKeepsMask(c: Chip)
    ensures RunClock(c).mask == c.mask
    decreases c.clock.accum
  {
    if c.clock.accum >= PER_TENTH {
      ClockKeepsMask(Tenth(c.(clock := c.clock.(accum := c.clock.accum - PER_TENTH))));
    }
  }

  lemma {:induction false} TimersKeepMask(c: Chip)
    ensures TickTimers(c).0.mask == c.mask
  {
    var a := TickA(RestPins(c));
    assert a.0.mask == c.mask && TickB(a.0, a.1).0.mask == a.0.mask;
  }

  lemma {:induction false} TickKeepsMask(c: Chip)
    ensures Tick(c).mask == c.mask
  {
    TimersKeepMask(c);
    var d := TickTimers(c).0;
    ShiftKeepsMask(d.(serial := d.serial.(outAccum := d.serial.outAccum + PER_TICK)));
    var e := TickSerial(d);
    ClockKeepsMask(e.(clock := e.clock.(accum := e.clock.accum + PER_TICK)));
  }

  lemma {:induction false} CntKeepsMask(c: Chip, level: bool)
    ensures SetCnt(c, level).mask == c.mask
  {
    var d := SampleBit(c);
    assert d.mask == c.mask && EdgeA(d).mask == d.mask && EdgeB(EdgeA(d)).mask == EdgeA(d).mask;
  }

  /** Enable bit `i` after an operation that finds it at `was`. */
  function Enabled(was: bool, op: Op, i: nat): bool
    requires i < 8
  {
    if op.MaskWrite? && i < 7 && op.v[i] then op.v[7] else was
  }

  lemma {:induction false} ApplyEnables(c: Chip, op: Op, i: nat)
    requires i < 8
    ensures Apply(c, op).mask[i] == Enabled(c.mask[i], op, i)
  {
    if op.HostTick? {
      TickKeepsMask(c);
    } else if op.Cnt? {
      CntKeepsMask(c, op.level);
    }
  }

  /** Enable bit `i` after a run. */
  function EnabledAfter(was: bool, ops: seq<Op>, i: nat): bool
    requires i < 8
    decreases |ops|
  {
    if ops == [] then was else EnabledAfter(Enabled(was, ops[0], i), ops[1..], i)
  }

  /** Main result: over every run an enable bit holds what the last mask write that named it said, and nothing else moves it. */
  lemma {:induction false} EnablesFollow(c: Chip, ops: seq<Op>, i: nat)
    requires i < 8
    ensures Run(c, ops).mask[i] == EnabledAfter(c.mask[i], ops, i)
    decreases |ops|
  {
    if ops != [] {
      ApplyEnables(c, ops[0], i);
      EnablesFollow(Apply(c, ops[0]), ops[1..], i);
    }
  }

  /** After a reset nothing is pending or enabled, both timers stand still, every pin is high and the clock runs from zero. */
  lemma {:induction false} ResetShows()
    ensures Reset().line == Pending(Reset().icr, Reset().mask)
    ensures var c := Reset();
            && (forall i :: 0 <= i < 8 ==> !c.icr[i] && !c.mask[i]) && !Started(c.ta) && !Started(c.tb)
            && c.ta.pin && c.tb.pin && c.flag && c.serial.sp && c.serial.cnt && c.serial.outBits == 0
            && c.clock.running && !c.clock.latched && c.clock.time == Time(0, 0, 0) && c.clock.accum == 0
  {
  }
}
