/** What programs rely on when they drive a CIA: the one-shot delay, and reading and setting the clock byte by byte. */
module CiaIdioms {
  import opened Bits
  import opened CiaTimer
  import opened Cia
  import opened CiaClock
  import opened CiaCounters
  import opened CiaSerial

  // ---------- the delay ----------

  /** Control $08, low byte, high byte. */
  function Delay(t: Timer, control: Byte, low: Byte, high: Byte): Timer
  {
    WriteHigh(WriteLow(WriteControl(t, control), low), high)
  }

  /** Main result: the delay idiom starts the timer with exactly the value written, and then it underflows once, on the last
      of that many pulses, and stops; pulses after that change nothing. A value of 0 acts as 1. */
  lemma {:induction false} DelayCounts(t: Timer, control: Byte, low: Byte, high: Byte, n: nat)
    requires !control[0] && control[3]
    ensures var d := Delay(t, control, low, high);
            var v := Num(low) + 256 * Num(high);
            var last := if v == 0 then 1 else v;
            && Started(d) && d.latch == v == d.counter && Usable(d)
            && Pulses(d, n).1 == (if n < last then 0 else 1)
            && (Started(Pulses(d, n).0) <==> n < last)
            && Pulses(d, n).0.counter == if n < last then v - n else v
  {
    var d := Delay(t, control, low, high);
    DelayStarts(t, control, low, high);
    if n == 0 {
    } else if n < d.counter {
      PulsesBelow(d, n);
    } else {
      PulsesWrap(d, n);
      PulsesStopped(Underflow(d), n - d.counter);
    }
  }

  lemma {:induction false} DelayStarts(t: Timer, control: Byte, low: Byte, high: Byte)
    requires !control[0] && control[3]
    ensures var d := Delay(t, control, low, high);
            Started(d) && OneShot(d) && d.latch == d.counter == Num(low) + 256 * Num(high)
  {
    var l := WriteLow(WriteControl(t, control), low);
    LowByte(t.latch / 256, Num(low));
    assert l.latch % 256 == Num(low) && l.control == control;
  }

  lemma {:induction false} LowByte(q: nat, r: nat)
    requires r < 256
    ensures (q * 256 + r) % 256 == r
  {
    DivUnique(q * 256 + r, 256, q, r);
  }

  /** Main result: with any control value that does not start the timer, then low byte, high byte, and a control value with
      START and LOAD, a continuous timer runs from exactly the value written. */
  lemma {:induction false} LoadStarts(t: Timer, control: Byte, low: Byte, high: Byte, go: Byte)
    requires !control[0] && !control[3] && go[0] && go[4]
    ensures var w := Delay(t, control, low, high);
            var d := WriteControl(w, go);
            var v := Num(low) + 256 * Num(high);
            !Started(w) && Started(d) && d.latch == d.counter == v && d.control == go && d.pin == t.pin
  {
    var l := WriteLow(WriteControl(t, control), low);
    LowByte(t.latch / 256, Num(low));
    assert l.latch % 256 == Num(low) && l.control == control;
  }

  /** Main result: writing both bytes to a running timer changes only the latch; the count goes on from where it was and the new
      value is used from the next underflow on, or at once if a control write with LOAD follows. */
  lemma {:induction false} RewriteRunning(t: Timer, low: Byte, high: Byte, go: Byte)
    requires Started(t)
    ensures var d := WriteHigh(WriteLow(t, low), high);
            var v := Num(low) + 256 * Num(high);
            && d == t.(latch := v) && Underflow(d).counter == v
            && WriteControl(d, go) == d.(control := go, counter := if go[4] then v else t.counter)
  {
    LowByte(t.latch / 256, Num(low));
    assert WriteLow(t, low).latch % 256 == Num(low);
  }

  // ---------- the serial register ----------

  lemma {:induction false} QuietTimers(c: Chip)
    ensures TickTimers(c).0.serial == c.serial
  {
    var r := RestPins(c);
    TimersKeepSerial(r, PER_TICK);
    var a := TickA(r);
    TimersKeepSerial(a.0, FedB(a.0, a.1));
  }

  lemma {:induction false} QuietClock(d: Chip)
    ensures TickClock(d).serial == d.serial
  {
    ClockKeepsSerial(d.(clock := d.clock.(accum := d.clock.accum + PER_TICK)));
  }

  lemma {:induction false} QuietTick(c: Chip)
    requires c.serial.outBits == 0
    ensures Tick(c).serial == c.serial
  {
    QuietTimers(c);
    QuietClock(TickTimers(c).0);
  }

  lemma {:induction false} QuietTicks(c: Chip, n: nat)
    requires c.serial.outBits == 0
    ensures Ticks(c, n).serial == c.serial
  {
    if n > 0 {
      QuietTicks(c, n - 1);
      QuietTick(Ticks(c, n - 1));
    }
  }

  /** Main result: in input mode a byte written to the serial register stays there over any ticks; nothing is sent. */
  lemma {:induction false} InputHolds(c: Chip, v: Byte, n: nat)
    requires !c.ta.control[6] && c.serial.outBits == 0
    ensures Ticks(WriteSerial(c, v), n).serial == c.serial.(data := v)
  {
    QuietTicks(WriteSerial(c, v), n);
  }

  // ---------- the clock ----------

  lemma {:induction false} HeldThroughClock(c: Chip)
    ensures var d := RunClock(c); d.clock.latched == c.clock.latched && d.clock.held == c.clock.held && d.clock.running == c.clock.running
    decreases c.clock.accum
  {
    if c.clock.accum >= PER_TENTH {
      HeldThroughClock(Tenth(c.(clock := c.clock.(accum := c.clock.accum - PER_TENTH))));
    }
  }

  /** What a tick leaves alone in the clock: the frozen copy, and the whole of it while it is halted. */
  ghost predicate Frozen(c: Chip, d: Chip)
  {
    && d.clock.latched == c.clock.latched && d.clock.held == c.clock.held && d.clock.running == c.clock.running
    && (!c.clock.running ==> d.clock == c.clock)
  }

  lemma {:induction false} TickFreezes(c: Chip)
    ensures Frozen(c, Tick(c))
  {
    TimersKeepClock(c);
    var d := TickTimers(c).0;
    SerialKeeps(d);
    var e := TickSerial(d);
    HeldThroughClock(e.(clock := e.clock.(accum := e.clock.accum + PER_TICK)));
  }

  lemma {:induction false} TicksFreeze(c: Chip, n: nat)
    ensures Frozen(c, Ticks(c, n))
  {
    if n > 0 {
      TicksFreeze(c, n - 1);
      TickFreezes(Ticks(c, n - 1));
    }
  }

  /** Main result: minutes, then seconds, then tenths, with any number of ticks in between, read one instant: the one at which
      the minutes were read. */
  lemma {:induction false} ReadIsCoherent(c: Chip, a: nat, b: nat)
    ensures var d := Ticks(ReadMinutes(c), a);
            var e := Ticks(d, b);
            Time(ReadTenths(e).1, ReadSeconds(d), c.clock.time.minutes) == c.clock.time
  {
    TicksFreeze(ReadMinutes(c), a);
    TicksFreeze(Ticks(ReadMinutes(c), a), b);
  }

  /** Main result: reading the tenths lets the clock go: from then on, after any number of ticks, seconds and tenths read the
      running time until the minutes are read again. */
  lemma {:induction false} ReadReleases(c: Chip, n: nat)
    ensures var d := Ticks(ReadTenths(c).0, n); ReadSeconds(d) == d.clock.time.seconds && ReadTenths(d).1 == d.clock.time.tenths
  {
    TicksFreeze(ReadTenths(c).0, n);
  }

  lemma {:induction false} CountKeepsOther(c: Chip, dec: nat)
    ensures CountA(c, dec).0.tb == c.tb
  {
  }

  lemma {:induction false} CountKeepsAlarmBit(c: Chip, dec: nat)
    ensures CountB(c, dec).0.tb.control[7] == c.tb.control[7]
  {
    ControlKept(c.tb, dec, GUARD);
    var d := Countdown(c.tb, dec, GUARD).0;
    assert d.control[7] == d.control[1..][6] && c.tb.control[7] == c.tb.control[1..][6];
  }

  /** Timer B's control register, and with it the choice of alarm or time, survives ticks. */
  lemma {:induction false} TickKeepsAlarmBit(c: Chip)
    ensures Tick(c).tb.control[7] == c.tb.control[7]
  {
    TickKeepsTimers(c);
    var a := TickA(RestPins(c));
    CountKeepsOther(RestPins(c), PER_TICK);
    CountKeepsAlarmBit(a.0, FedB(a.0, a.1));
  }

  lemma {:induction false} TicksKeepAlarmBit(c: Chip, n: nat)
    ensures Ticks(c, n).tb.control[7] == c.tb.control[7]
  {
    if n > 0 {
      TicksKeepAlarmBit(c, n - 1);
      TickKeepsAlarmBit(Ticks(c, n - 1));
    }
  }

  /** Main result: minutes, then seconds, then tenths, with any number of ticks in between, set exactly the time written, and
      the clock runs on from there. */
  lemma {:induction false} WriteIsCoherent(c: Chip, t: Byte, s: Byte, m: Byte, a: nat, b: nat)
    requires !c.tb.control[7]
    ensures var d := WriteTime(Ticks(WriteTime(c, 2, m), a), 1, s);
            var e := WriteTime(Ticks(d, b), 0, t);
            e.clock.time == Time(Num(t), Num(s), Num(m)) && e.clock.running && e.clock.accum == c.clock.accum
  {
    var c1 := WriteTime(c, 2, m);
    TicksFreeze(c1, a);
    TicksKeepAlarmBit(c1, a);
    var d := WriteTime(Ticks(c1, a), 1, s);
    TicksFreeze(d, b);
    TicksKeepAlarmBit(d, b);
  }

  lemma {:induction false} OneAlarmByte(c: Chip, which: nat, v: Byte)
    requires c.tb.control[7] && which < 3
    ensures var d := WriteTime(c, which, v);
            && d.tb == c.tb && d.clock == c.clock.(alarm := d.clock.alarm)
            && d.clock.alarm.tenths == (if which == 0 then Num(v) else c.clock.alarm.tenths)
            && d.clock.alarm.seconds == (if which == 1 then Num(v) else c.clock.alarm.seconds)
            && d.clock.alarm.minutes == (if which == 2 then Num(v) else c.clock.alarm.minutes)
  {
  }

  /** Main result: with CRB bit 7 set the same three writes set exactly the alarm, and the clock runs on undisturbed. */
  lemma {:induction false} AlarmIsSet(c: Chip, t: Byte, s: Byte, m: Byte)
    requires c.tb.control[7]
    ensures var d := WriteTime(WriteTime(WriteTime(c, 2, m), 1, s), 0, t);
            d.clock == c.clock.(alarm := Time(Num(t), Num(s), Num(m)))
  {
    var c1 := WriteTime(c, 2, m);
    var c2 := WriteTime(c1, 1, s);
    OneAlarmByte(c, 2, m);
    OneAlarmByte(c1, 1, s);
    OneAlarmByte(c2, 0, t);
  }
}
