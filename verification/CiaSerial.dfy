/** Serial input: bits clocked in on the CNT pin arrive in order, and a flag marks every eighth. */
module CiaSerial {
  import opened Bits
  import opened CiaTimer
  import opened Cia

  /** Counting changes nothing in a control register but START. */
  lemma {:induction false} ControlKept(t: Timer, dec: nat, guard: nat)
    ensures var d := Countdown(t, dec, guard).0; d.control[1..] == t.control[1..]
    decreases guard
  {
    if dec > 0 && guard > 0 && t.counter <= dec {
      ControlKept(Underflow(t), if OneShot(t) then 0 else dec - t.counter, guard - 1);
    }
  }

  /** What a timer's CNT pulse leaves alone. */
  ghost predicate SameSerial(c: Chip, d: Chip)
  {
    d.serial == c.serial && Output(d) == Output(c) && d.icr[SP_BIT] == c.icr[SP_BIT]
  }

  lemma {:induction false} EdgeKeepsSerialA(c: Chip)
    ensures SameSerial(c, EdgeA(c))
  {
    ControlKept(c.ta, 1, GUARD);
    var d := Countdown(c.ta, 1, GUARD).0;
    assert d.control[6] == d.control[1..][5] && c.ta.control[6] == c.ta.control[1..][5];
  }

  lemma {:induction false} EdgeKeepsSerialB(c: Chip)
    ensures SameSerial(c, EdgeB(c))
  {
  }

  /** One bit on SP, then a low-high pulse on CNT. */
  ghost function ClockBit(c: Chip, b: bool): Chip
  {
    SetCnt(SetCnt(SetSp(c, b), false), true)
  }

  ghost predicate Sampled(c: Chip, b: bool, d: Chip)
  {
    && !Output(d) && d.serial.data == ShiftIn(c.serial.data, b)
    && d.serial.inCount == (c.serial.inCount + 1) % 8
    && (d.icr[SP_BIT] <==> c.icr[SP_BIT] || c.serial.inCount == 7)
  }

  lemma {:induction false} BitArrives(c: Chip, b: bool)
    requires !Output(c) && c.serial.inCount < 8
    ensures Sampled(c, b, ClockBit(c, b))
  {
    var e := SetCnt(SetSp(c, b), false);
    var s := SampleBit(e);
    EdgeKeepsSerialA(s);
    EdgeKeepsSerialB(EdgeA(s));
  }

  ghost function ClockIn(c: Chip, bits: seq<bool>): Chip
  {
    if bits == [] then c else ClockBit(ClockIn(c, bits[..|bits| - 1]), bits[|bits| - 1])
  }

  /** The register holds the last eight bits, the latest in bit 0, and the flag is up exactly if a byte was completed. */
  ghost predicate Received(c: Chip, bits: seq<bool>, d: Chip)
  {
    var n := |bits|;
    && !Output(d)
    && (forall i :: 0 <= i < 8 ==> d.serial.data[i] == if i < n then bits[n - 1 - i] else c.serial.data[i - n])
    && d.serial.inCount == (c.serial.inCount + n) % 8
    && (d.icr[SP_BIT] <==> c.icr[SP_BIT] || c.serial.inCount + n >= 8)
  }

  lemma {:induction false} ReceivedOn(c: Chip, bits: seq<bool>, d: Chip, b: bool, e: Chip)
    requires c.serial.inCount < 8 && Received(c, bits, d) && Sampled(d, b, e)
    ensures Received(c, bits + [b], e)
  {
    assert d.serial.inCount == 7 ==> c.serial.inCount + |bits| >= 7;
    assert c.serial.inCount + |bits| == 7 ==> d.serial.inCount == 7;
  }

  lemma {:induction false} LastBitArrives(c: Chip, front: seq<bool>, b: bool)
    requires !Output(ClockIn(c, front)) && ClockIn(c, front).serial.inCount < 8
    ensures Sampled(ClockIn(c, front), b, ClockIn(c, front + [b]))
  {
    BitArrives(ClockIn(c, front), b);
    assert (front + [b])[..|front|] == front;
  }

  /** Main result: bits clocked in on CNT arrive in order, whatever the timers do with the same edges. */
  lemma {:induction false} BitsArrive(c: Chip, bits: seq<bool>)
    requires !c.ta.control[6] && c.serial.inCount < 8
    ensures Received(c, bits, ClockIn(c, bits))
  {
    var n := |bits|;
    if n > 0 {
      var front, b := bits[..n - 1], bits[n - 1];
      assert front + [b] == bits;
      BitsArrive(c, front);
      LastBitArrives(c, front, b);
      ReceivedOn(c, front, ClockIn(c, front), b, ClockIn(c, bits));
    }
  }

  lemma {:induction false} ShiftEmpties(c: Chip, n: nat)
    requires c.serial.outBits > 0 && c.serial.outAccum >= 2 * c.serial.outBits && c.serial.outBits + n == 8
    requires forall i :: 0 <= i < n ==> !c.serial.data[i]
    ensures var d := ShiftOut(c); d.serial.outBits == 0 && d.serial.data == Zeros(8) && d.icr[SP_BIT]
    decreases c.serial.outBits
  {
    var s := c.serial;
    var d := c.(serial := s.(data := Shl(s.data, 1), outBits := s.outBits - 1, outAccum := s.outAccum - 2));
    if s.outBits > 1 {
      ShiftEmpties(d, n + 1);
    }
  }

  lemma {:induction false} SerialLeaves(c: Chip)
    requires c.serial.outBits == 8 && c.serial.outAccum == 0
    ensures var d := TickSerial(c); d.serial.outBits == 0 && d.serial.data == Zeros(8) && d.icr[SP_BIT]
  {
    ShiftEmpties(c.(serial := c.serial.(outAccum := c.serial.outAccum + PER_TICK)), 0);
  }

  lemma {:induction false} TimersKeepSerial(c: Chip, dec: nat)
    ensures CountA(c, dec).0.serial == c.serial && CountB(c, dec).0.serial == c.serial
  {
  }

  lemma {:induction false} TenthKeepsSerial(c: Chip)
    ensures Tenth(c).serial == c.serial && Tenth(c).icr[SP_BIT] == c.icr[SP_BIT] && Tenth(c).clock.accum == c.clock.accum
  {
  }

  lemma {:induction false} ClockKeepsSerial(c: Chip)
    ensures RunClock(c).serial == c.serial && RunClock(c).icr[SP_BIT] == c.icr[SP_BIT]
    decreases c.clock.accum
  {
    if c.clock.accum >= PER_TENTH {
      var d := c.(clock := c.clock.(accum := c.clock.accum - PER_TENTH));
      TenthKeepsSerial(d);
      ClockKeepsSerial(Tenth(d));
    }
  }

  /** A byte written in output mode is out, and its flag up, by the end of the next tick, whatever else the tick does. */
  lemma {:induction false} ByteLeaves(c: Chip, v: Byte)
    requires c.ta.control[6]
    ensures var d := Tick(WriteSerial(c, v)); d.serial.outBits == 0 && d.serial.data == Zeros(8) && d.icr[SP_BIT]
  {
    var w := RestPins(WriteSerial(c, v));
    TimersKeepSerial(w, PER_TICK);
    var a := TickA(w);
    TimersKeepSerial(a.0, FedB(a.0, a.1));
    var b := TickB(a.0, a.1).0;
    SerialLeaves(b);
    var s := TickSerial(b);
    ClockKeepsSerial(s.(clock := s.clock.(accum := s.clock.accum + PER_TICK)));
  }
}
