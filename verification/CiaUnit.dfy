/** A CIA as the emulator keeps it: registers updated in place, proved against the state machine in `Cia`. */
module CiaUnit {
  import opened Bits
  import opened CiaTimer
  import opened Cia

  /** Counts `dec` pulses on a timer; the guard bounds the work of one call. */
  method CountTimer(t0: Timer, dec0: nat) returns (t: Timer, underflows: nat)
    ensures (t, underflows) == Countdown(t0, dec0, GUARD)
  {
    t, underflows := t0, 0;
    var dec: nat, guard: nat := dec0, GUARD;
    while dec > 0 && guard > 0
      invariant var r := Countdown(t, dec, guard); Countdown(t0, dec0, GUARD) == (r.0, underflows + r.1)
      decreases guard
    {
      guard := guard - 1;
      if t.counter > dec {
        t := t.(counter := t.counter - dec);
        dec := 0;
      } else {
        dec := if OneShot(t) then 0 else dec - t.counter;
        underflows := underflows + 1;
        t := MovePin(t);
        t := t.(counter := t.latch);
        if OneShot(t) {
          t := t.(control := SetStart(t.control, false));
        }
      }
    }
  }

  method MovePin(t0: Timer) returns (t: Timer)
    ensures t == t0.(pin := if t0.control[1] then t0.control[2] && !t0.pin else t0.pin)
  {
    t := t0;
    if t.control[1] {
      if t.control[2] {
        t := t.(pin := !t.pin);
      } else {
        t := t.(pin := false);
      }
    }
  }

  /** The next tenth of a second, carrying into seconds and minutes. */
  method StepTime(t0: Time) returns (t: Time)
    ensures t == NextTime(t0)
  {
    t := t0.(tenths := (t0.tenths + 1) % 256);
    if t.tenths >= 10 {
      t := t.(tenths := 0, seconds := (t.seconds + 1) % 256);
      if t.seconds >= 60 {
        t := t.(seconds := 0, minutes := (t.minutes + 1) % 256);
        if t.minutes >= 60 {
          t := t.(minutes := 0);
        }
      }
    }
  }

  lemma {:induction false} MaskedIsPending(icr: Byte, mask: Byte)
    ensures And(icr, mask) != Zeros(8) <==> Pending(icr, mask)
  {
    if Pending(icr, mask) {
      var i :| 0 <= i < 8 && icr[i] && mask[i];
      assert And(icr, mask)[i] != Zeros(8)[i];
    } else {
      assert forall i :: 0 <= i < 8 ==> !And(icr, mask)[i];
    }
  }

  class Cia8520 {
    var ta: Timer
    var tb: Timer
    var serial: Serial
    var clock: Clock
    var flag: bool
    var icr: Byte
    var mask: Byte
    var line: bool

    ghost function View(): Chip
      reads this
    {
      Chip(ta, tb, serial, clock, flag, icr, mask, line)
    }

    constructor ()
      ensures View() == Reset()
    {
      var t := Timer(0, 0, Zeros(8), true);
      var z := Time(0, 0, 0);
      ta, tb := t, t;
      serial := Serial(Zeros(8), 0, 0, 0, true, true);
      clock := Clock(z, z, (0, 0), 0, true, false);
      flag, icr, mask, line := true, Zeros(8), Zeros(8), false;
    }

    // ---------- interrupt logic ----------

    method UpdateLine()
      modifies this`line
      ensures View() == Reval(old(View()))
    {
      MaskedIsPending(icr, mask);
      line := And(icr, mask) != Zeros(8);
    }

    method RaiseFlag(i: nat)
      requires i < 8
      modifies this`icr, this`line
      ensures View() == Raise(old(View()), i)
    {
      icr := SetBit(icr, i);
      UpdateLine();
    }

    method TakeFlags() returns (v: Byte)
      modifies this`icr, this`line
      ensures v == old(icr) && View() == ReadIcr(old(View()))
    {
      v := icr;
      icr := Zeros(8);
      UpdateLine();
    }

    method AbleFlags(v: Byte) returns (was: Byte)
      modifies this`mask, this`line
      ensures was == old(mask) && View() == WriteMask(old(View()), v)
    {
      was := mask;
      mask := SetClear(mask, v);
      UpdateLine();
    }

    method DropFlags(bits: Byte)
      modifies this`icr, this`line
      ensures View() == Acknowledge(old(View()), bits)
    {
      icr := Without(icr, bits);
      UpdateLine();
    }

    method SetFlags(v: Byte) returns (now: Byte)
      modifies this`icr, this`line
      ensures View() == ForceIcr(old(View()), v) && now == icr
    {
      icr := SetClear(icr, v);
      UpdateLine();
      now := icr;
    }

    // ---------- timers ----------

    method CountTimerA(dec: nat) returns (underflows: nat)
      modifies this`ta, this`icr, this`line
      ensures (View(), underflows) == CountA(old(View()), dec)
    {
      var t;
      t, underflows := CountTimer(ta, dec);
      ta := t;
      if underflows > 0 {
        RaiseFlag(TA_BIT);
      }
    }

    method CountTimerB(dec: nat) returns (underflows: nat)
      modifies this`tb, this`icr, this`line
      ensures (View(), underflows) == CountB(old(View()), dec)
    {
      var t;
      t, underflows := CountTimer(tb, dec);
      tb := t;
      if underflows > 0 {
        RaiseFlag(TB_BIT);
      }
    }

    method PutLow(a: bool, v: Byte)
      modifies this`ta, this`tb
      ensures View() == if a then old(View()).(ta := WriteLow(old(ta), v)) else old(View()).(tb := WriteLow(old(tb), v))
    {
      var t := if a then ta else tb;
      t := t.(latch := t.latch / 256 * 256 + Num(v));
      if !Started(t) {
        t := t.(counter := t.latch);
      }
      if a { ta := t; } else { tb := t; }
    }

    method PutHigh(a: bool, v: Byte)
      modifies this`ta, this`tb
      ensures View() == if a then old(View()).(ta := WriteHigh(old(ta), v)) else old(View()).(tb := WriteHigh(old(tb), v))
    {
      var t := if a then ta else tb;
      t := t.(latch := t.latch % 256 + 256 * Num(v));
      if !Started(t) {
        t := t.(counter := t.latch);
        if OneShot(t) {
          t := t.(control := SetStart(t.control, true));
        }
      }
      if a { ta := t; } else { tb := t; }
    }

    method PutControl(a: bool, v: Byte)
      modifies this`ta, this`tb
      ensures View() == if a then old(View()).(ta := WriteControl(old(ta), v)) else old(View()).(tb := WriteControl(old(tb), v))
    {
      var t := (if a then ta else tb).(control := v);
      if v[4] {
        t := t.(counter := t.latch);
      }
      if a { ta := t; } else { tb := t; }
    }

    // ---------- serial register and clock ----------

    method PutSerial(v: Byte)
      modifies this`serial
      ensures View() == WriteSerial(old(View()), v)
    {
      serial := serial.(data := v);
      if ta.control[6] {
        serial := serial.(outBits := 8, outAccum := 0);
      }
    }

    method PutTime(which: nat, v: Byte)
      requires which < 3
      modifies this`clock
      ensures View() == WriteTime(old(View()), which, v)
    {
      var t := if tb.control[7] then clock.alarm else clock.time;
      if which == 0 {
        t := t.(tenths := Num(v));
      } else if which == 1 {
        t := t.(seconds := Num(v));
      } else {
        t := t.(minutes := Num(v));
      }
      if tb.control[7] {
        clock := clock.(alarm := t);
      } else {
        clock := clock.(time := t);
        if which == 2 {
          clock := clock.(running := false);
        } else if which == 0 {
          clock := clock.(running := true);
        }
      }
    }

    method GetMinutes() returns (v: Nat8)
      modifies this`clock
      ensures View() == ReadMinutes(old(View())) && v == old(clock.time.minutes)
    {
      clock := clock.(held := (clock.time.tenths, clock.time.seconds));
      clock := clock.(latched := true);
      v := clock.time.minutes;
    }

    method GetSeconds() returns (v: Nat8)
      ensures v == ReadSeconds(View())
    {
      v := if clock.latched then clock.held.1 else clock.time.seconds;
    }

    method GetTenths() returns (v: Nat8)
      modifies this`clock
      ensures (View(), v) == ReadTenths(old(View()))
    {
      v := if clock.latched then clock.held.0 else clock.time.tenths;
      clock := clock.(latched := false);
    }

    // ---------- pins ----------

    method Sample()
      modifies this`serial, this`icr, this`line
      ensures View() == SampleBit(old(View()))
    {
      if !ta.control[6] {
        serial := serial.(data := ShiftIn(serial.data, serial.sp), inCount := serial.inCount + 1);
        if serial.inCount >= 8 {
          serial := serial.(inCount := 0);
          RaiseFlag(SP_BIT);
        }
      }
    }

    method PulseA()
      modifies this`ta, this`icr, this`line
      ensures View() == EdgeA(old(View()))
    {
      if Started(ta) && ta.control[5] {
        var n := CountTimerA(1);
      }
    }

    method PulseB()
      modifies this`tb, this`icr, this`line
      ensures View() == EdgeB(old(View()))
    {
      if Started(tb) && tb.control[5] && !tb.control[6] {
        var n := CountTimerB(1);
      }
    }

    method RisingCnt()
      modifies this`ta, this`tb, this`serial, this`icr, this`line
      ensures View() == CntEdge(old(View()))
    {
      Sample();
      PulseA();
      PulseB();
    }

    method DriveFlag(level: bool)
      modifies this`flag, this`icr, this`line
      ensures View() == SetFlag(old(View()), level)
    {
      if flag && !level {
        RaiseFlag(FLAG_BIT);
      }
      flag := level;
    }

    method DriveCnt(level: bool)
      modifies this`ta, this`tb, this`serial, this`icr, this`line
      ensures View() == SetCnt(old(View()), level)
    {
      if !serial.cnt && level {
        RisingCnt();
      }
      serial := serial.(cnt := level);
    }

    // ---------- the tick ----------

    method TickTimerA() returns (underflows: nat)
      modifies this`ta, this`icr, this`line
      ensures (View(), underflows) == TickA(old(View()))
    {
      underflows := 0;
      if Started(ta) && !ta.control[5] {
        underflows := CountTimerA(PER_TICK);
      }
    }

    method TickTimerB(fed: nat)
      modifies this`tb, this`icr, this`line
      ensures View() == TickB(old(View()), fed).0
    {
      if Started(tb) {
        var dec := PER_TICK;
        if tb.control[6] {
          dec := if tb.control[5] && !serial.cnt then 0 else fed;
        } else if tb.control[5] {
          dec := 0;
        }
        if dec > 0 {
          var n := CountTimerB(dec);
        }
      }
    }

    method TickBoth()
      modifies this`ta, this`tb, this`icr, this`line
      ensures View() == TickTimers(old(View())).0
    {
      ta, tb := RestPin(ta), RestPin(tb);
      var fed := TickTimerA();
      TickTimerB(fed);
    }

    method ShiftBit()
      requires serial.outBits > 0 && serial.outAccum >= 2
      modifies this`serial, this`icr, this`line
      ensures ShiftOut(View()) == ShiftOut(old(View())) && serial.outBits == old(serial.outBits) - 1
    {
      serial := serial.(data := Shl(serial.data, 1), outBits := serial.outBits - 1, outAccum := serial.outAccum - 2);
      if serial.outBits == 0 {
        RaiseFlag(SP_BIT);
      }
    }

    method TickShift()
      modifies this`serial, this`icr, this`line
      ensures View() == TickSerial(old(View()))
    {
      if serial.outBits > 0 {
        serial := serial.(outAccum := serial.outAccum + PER_TICK);
        ghost var start := View();
        while serial.outBits > 0 && serial.outAccum >= 2
          invariant ShiftOut(View()) == ShiftOut(start)
          decreases serial.outBits
        {
          ShiftBit();
        }
      }
    }

    method PassTenth()
      requires clock.accum >= PER_TENTH
      modifies this`clock, this`icr, this`line
      ensures RunClock(View()) == RunClock(old(View())) && clock.accum == old(clock.accum) - PER_TENTH
    {
      var t := StepTime(clock.time);
      clock := clock.(accum := clock.accum - PER_TENTH, time := t);
      if clock.time == clock.alarm {
        RaiseFlag(ALARM_BIT);
      }
    }

    method TickTime()
      modifies this`clock, this`icr, this`line
      ensures View() == TickClock(old(View()))
    {
      if clock.running {
        clock := clock.(accum := clock.accum + PER_TICK);
        ghost var start := View();
        while clock.accum >= PER_TENTH
          invariant RunClock(View()) == RunClock(start)
          decreases clock.accum
        {
          PassTenth();
        }
      }
    }

    /** One 100 Hz host tick. */
    method HostTick()
      modifies this
      ensures View() == Tick(old(View()))
    {
      TickBoth();
      TickShift();
      TickTime();
    }
  }
}
