/** Over any number of host ticks the time-of-day clock is a mixed-radix counter that loses no E-clock count. */
module CiaClock {
  import opened Bits
  import opened CiaTimer
  import opened Cia
  import opened CiaCounters

  predicate ValidTime(t: Time) { t.tenths < 10 && t.seconds < 60 && t.minutes < 60 }

  /** Tenths of a second since the hour. */
  function Number(t: Time): nat { t.tenths + 10 * t.seconds + 600 * t.minutes }

  function TimeAfter(t: Time, k: nat): Time
  {
    if k == 0 then t else NextTime(TimeAfter(t, k - 1))
  }

  lemma {:induction false} NextTenth(t: Time)
    requires t.tenths < 9
    ensures NextTime(t) == t.(tenths := t.tenths + 1)
  {
  }

  /** After 9, and after any byte from 10 to 254, the tenths start again and carry. */
  lemma {:induction false} NextSecond(t: Time)
    requires 9 <= t.tenths < 255 && t.seconds < 59
    ensures NextTime(t) == Time(0, t.seconds + 1, t.minutes)
  {
  }

  lemma {:induction false} NextMinute(t: Time)
    requires 9 <= t.tenths < 255 && 59 <= t.seconds < 255
    ensures NextTime(t) == Time(0, 0, if t.minutes < 59 then t.minutes + 1 else 0)
  {
  }

  lemma {:induction false} NextCounts(t: Time)
    requires ValidTime(t)
    ensures ValidTime(NextTime(t)) && Number(t) < 36000
    ensures Number(NextTime(t)) == if Number(t) == 35999 then 0 else Number(t) + 1
  {
    if t.tenths < 9 {
      NextTenth(t);
    } else if t.seconds < 59 {
      NextSecond(t);
    } else {
      NextMinute(t);
    }
  }

  lemma {:induction false} NextHour(v: nat, r: nat)
    requires r == v % 36000
    ensures (v + 1) % 36000 == if r == 35999 then 0 else r + 1
  {
    var q := v / 36000;
    if r == 35999 {
      DivUnique(v + 1, 36000, q + 1, 0);
    } else {
      DivUnique(v + 1, 36000, q, r + 1);
    }
  }

  lemma {:induction false} TimeCounts(t: Time, k: nat)
    requires ValidTime(t)
    ensures ValidTime(TimeAfter(t, k)) && Number(TimeAfter(t, k)) == (Number(t) + k) % 36000
  {
    if k > 0 {
      TimeCounts(t, k - 1);
      NextCounts(TimeAfter(t, k - 1));
      NextHour(Number(t) + k - 1, Number(TimeAfter(t, k - 1)));
    } else {
      NextCounts(t);
      DivUnique(Number(t), 36000, 0, Number(t));
    }
  }

  // ---------- out-of-range bytes ----------

  lemma {:induction false} TimeSplit(t: Time, j: nat, k: nat)
    ensures TimeAfter(TimeAfter(t, j), k) == TimeAfter(t, j + k)
  {
    if k > 0 {
      TimeSplit(t, j, k - 1);
    }
  }

  /** Until the tenths reach 10 nothing else moves. */
  lemma {:induction false} TenthsRun(t: Time, j: nat)
    requires t.tenths + j < 10
    ensures TimeAfter(t, j) == t.(tenths := t.tenths + j)
  {
    if j > 0 {
      TenthsRun(t, j - 1);
      NextTenth(TimeAfter(t, j - 1));
    }
  }

  /** Until tenths and seconds reach a minute the minutes do not move. */
  lemma {:induction false} MinuteRun(t: Time, j: nat)
    requires t.tenths < 10 && t.seconds < 60 && t.tenths + 10 * t.seconds + j < 600
    ensures var u := TimeAfter(t, j);
            u.tenths < 10 && u.seconds < 60 && u.minutes == t.minutes && u.tenths + 10 * u.seconds == t.tenths + 10 * t.seconds + j
  {
    if j > 0 {
      MinuteRun(t, j - 1);
      var u := TimeAfter(t, j - 1);
      if u.tenths < 9 {
        NextTenth(u);
      } else {
        NextSecond(u);
      }
    }
  }

  lemma {:induction false} TenthsSettle(t: Time)
    ensures NextTime(t).tenths < 10
  {
  }

  lemma {:induction false} SecondsSettle(t: Time) returns (k: nat)
    requires t.tenths < 10
    ensures k <= 10 && TimeAfter(t, k).tenths < 10 && TimeAfter(t, k).seconds < 60
  {
    k := 10 - t.tenths;
    TenthsRun(t, k - 1);
    assert TimeAfter(t, k) == NextTime(t.(tenths := 9));
  }

  lemma {:induction false} MinutesSettle(t: Time) returns (k: nat)
    requires t.tenths < 10 && t.seconds < 60
    ensures k <= 600 && ValidTime(TimeAfter(t, k))
  {
    k := 600 - t.tenths - 10 * t.seconds;
    MinuteRun(t, k - 1);
    NextMinute(TimeAfter(t, k - 1));
  }

  /** Whatever bytes were written, after 611 tenths at the latest the clock shows a proper time, and it does so from then on. */
  lemma {:induction false} ClockSettles(t: Time, k: nat)
    requires k >= 611
    ensures ValidTime(TimeAfter(t, k))
  {
    TenthsSettle(t);
    var t1 := TimeAfter(t, 1);
    var i := SecondsSettle(t1);
    var j := MinutesSettle(TimeAfter(t1, i));
    TimeSplit(t, 1, i);
    TimeSplit(t, 1 + i, j);
    TimeCounts(TimeAfter(t, 1 + i + j), k - (1 + i + j));
    TimeSplit(t, 1 + i + j, k - (1 + i + j));
  }

  /** The alarm time comes up within `k` tenths. */
  ghost predicate Strikes(t: Time, alarm: Time, k: nat)
  {
    exists j :: 1 <= j <= k && TimeAfter(t, j) == alarm
  }

  /** The clock of `d` is that of `c` after `n` ticks and `k` tenths. */
  ghost predicate Passed(c: Chip, d: Chip, n: nat, k: nat)
  {
    && d.clock == c.clock.(time := TimeAfter(c.clock.time, k), accum := d.clock.accum)
    && d.clock.accum < PER_TENTH && c.clock.accum + PER_TICK * n == d.clock.accum + PER_TENTH * k
    && (d.icr[ALARM_BIT] <==> c.icr[ALARM_BIT] || Strikes(c.clock.time, c.clock.alarm, k))
  }

  lemma {:induction false} CountsKeepClock(c: Chip, dec: nat)
    ensures var d := CountA(c, dec).0; d.clock == c.clock && d.icr[ALARM_BIT] == c.icr[ALARM_BIT]
    ensures var d := CountB(c, dec).0; d.clock == c.clock && d.icr[ALARM_BIT] == c.icr[ALARM_BIT]
  {
  }

  lemma {:induction false} TimersKeepClock(c: Chip)
    ensures var d := TickTimers(c).0; d.clock == c.clock && d.icr[ALARM_BIT] == c.icr[ALARM_BIT]
  {
    var r := RestPins(c);
    CountsKeepClock(r, PER_TICK);
    var a := TickA(r);
    CountsKeepClock(a.0, FedB(a.0, a.1));
  }

  lemma {:induction false} RunPasses(c: Chip)
    requires c.clock.accum < PER_TENTH && c.clock.running
    ensures exists k :: k <= 1 && Passed(c, TickClock(c), 1, k)
  {
    var d := c.(clock := c.clock.(accum := c.clock.accum + PER_TICK));
    if d.clock.accum < PER_TENTH {
      assert Passed(c, TickClock(c), 1, 0);
    } else {
      var e := Tenth(d.(clock := d.clock.(accum := d.clock.accum - PER_TENTH)));
      assert RunClock(e) == e;
      assert TickClock(c) == RunClock(d) == e;
      assert e.clock.time == TimeAfter(c.clock.time, 1);
      assert Strikes(c.clock.time, c.clock.alarm, 1) <==> e.clock.time == c.clock.alarm;
      assert Passed(c, TickClock(c), 1, 1);
    }
  }

  lemma {:induction false} TickPasses(c: Chip) returns (k: nat)
    requires c.clock.accum < PER_TENTH && c.clock.running
    ensures Passed(c, Tick(c), 1, k)
  {
    TimersKeepClock(c);
    var d := TickTimers(c).0;
    SerialKeeps(d);
    var e := TickSerial(d);
    RunPasses(e);
    k :| k <= 1 && Passed(e, TickClock(e), 1, k);
  }

  lemma {:induction false} StrikesSplit(t: Time, alarm: Time, j: nat, k: nat)
    ensures Strikes(t, alarm, j + k) <==> Strikes(t, alarm, j) || Strikes(TimeAfter(t, j), alarm, k)
  {
    if Strikes(t, alarm, j + k) {
      var i :| 1 <= i <= j + k && TimeAfter(t, i) == alarm;
      if i > j {
        TimeSplit(t, j, i - j);
        assert TimeAfter(TimeAfter(t, j), i - j) == alarm;
      }
    }
    if Strikes(TimeAfter(t, j), alarm, k) {
      var i :| 1 <= i <= k && TimeAfter(TimeAfter(t, j), i) == alarm;
      TimeSplit(t, j, i);
      assert TimeAfter(t, j + i) == alarm;
    }
  }

  lemma {:induction false} PassedOn(c: Chip, d: Chip, e: Chip, n: nat, j: nat, k: nat)
    requires Passed(c, d, n, j) && Passed(d, e, 1, k)
    ensures Passed(c, e, n + 1, j + k)
  {
    TimeSplit(c.clock.time, j, k);
    StrikesSplit(c.clock.time, c.clock.alarm, j, k);
  }

  lemma {:induction false} NextPasses(c: Chip, d: Chip, e: Chip, n: nat, j: nat) returns (k: nat)
    requires Passed(c, d, n, j) && d.clock.running && e == Tick(d)
    ensures Passed(c, e, n + 1, k)
  {
    var i := TickPasses(d);
    PassedOn(c, d, e, n, j, i);
    k := j + i;
  }

  lemma {:induction false} TicksPass(c: Chip, n: nat) returns (k: nat)
    requires c.clock.accum < PER_TENTH && c.clock.running
    ensures Passed(c, Ticks(c, n), n, k)
  {
    if n == 0 {
      k := 0;
    } else {
      var j := TicksPass(c, n - 1);
      k := NextPasses(c, Ticks(c, n - 1), Ticks(c, n), n - 1, j);
    }
  }

  /** Main result: over any number of ticks the running clock loses no E-clock count: every 70937 of them are a step of the
      time, and the alarm flag is up exactly if the alarm time came up on the way. A proper time counts tenths of a second
      modulo an hour, and any other bytes lead to one within 611 steps. */
  lemma {:induction false} ClockIsMixedRadix(c: Chip, n: nat)
    requires c.clock.accum < PER_TENTH && c.clock.running
    ensures var t, d := c.clock.time, Ticks(c, n);
            var k := (c.clock.accum + PER_TICK * n) / PER_TENTH;
            && d.clock.accum == (c.clock.accum + PER_TICK * n) % PER_TENTH && d.clock.time == TimeAfter(t, k)
            && (d.icr[ALARM_BIT] <==> c.icr[ALARM_BIT] || Strikes(t, c.clock.alarm, k))
            && (ValidTime(t) ==> Number(d.clock.time) == (Number(t) + k) % 36000)
            && (ValidTime(t) || k >= 611 ==> ValidTime(d.clock.time))
  {
    var k := TicksPass(c, n);
    DivUnique(c.clock.accum + PER_TICK * n, PER_TENTH, k, Ticks(c, n).clock.accum);
    if ValidTime(c.clock.time) {
      TimeCounts(c.clock.time, k);
    } else if k >= 611 {
      ClockSettles(c.clock.time, k);
    }
  }
}
