/** Over any number of host ticks the cascaded timers are one mixed-radix counter. */
module CiaCounters {
  import opened Bits
  import opened CiaTimer
  import opened Cia

  ghost function Ticks(c: Chip, n: nat): Chip
  {
    if n == 0 then c else Tick(Ticks(c, n - 1))
  }

  // What happens in tick `i` of a run: the counters and B's flag before it, and the underflows in it.

  ghost function CountersA(c: Chip): nat -> nat { (i: nat) => Ticks(c, i).ta.counter }

  ghost function CountersB(c: Chip): nat -> nat { (i: nat) => Ticks(c, i).tb.counter }

  ghost function FlagsB(c: Chip): nat -> bool { (i: nat) => Ticks(c, i).icr[TB_BIT] }

  ghost function FeedA(c: Chip): nat -> nat { (i: nat) => TickTimers(Ticks(c, i)).1 }

  ghost function FeedB(c: Chip): nat -> nat { (i: nat) => TickTimers(Ticks(c, i)).2 }

  ghost function SumTo(f: nat -> nat, n: nat): nat
  {
    if n == 0 then 0 else SumTo(f, n - 1) + f(n - 1)
  }

  /** Underflows of timer A and of timer B over `n` ticks. */
  ghost function WrapsA(c: Chip, n: nat): nat { SumTo(FeedA(c), n) }

  ghost function WrapsB(c: Chip, n: nat): nat { SumTo(FeedB(c), n) }

  // ---------- what the later parts of a tick leave alone ----------

  lemma {:induction false} ShiftKeeps(c: Chip)
    ensures var d := ShiftOut(c);
            d.ta == c.ta && d.tb == c.tb && d.clock == c.clock && forall i :: 0 <= i < 8 && i != SP_BIT ==> d.icr[i] == c.icr[i]
    decreases c.serial.outBits
  {
    var s := c.serial;
    if s.outBits > 0 && s.outAccum >= 2 {
      var d := c.(serial := s.(data := Shl(s.data, 1), outBits := s.outBits - 1, outAccum := s.outAccum - 2));
      ShiftKeeps(if s.outBits == 1 then Raise(d, SP_BIT) else d);
    }
  }

  lemma {:induction false} SerialKeeps(c: Chip)
    ensures var d := TickSerial(c);
            d.ta == c.ta && d.tb == c.tb && d.clock == c.clock && forall i :: 0 <= i < 8 && i != SP_BIT ==> d.icr[i] == c.icr[i]
  {
    ShiftKeeps(c.(serial := c.serial.(outAccum := c.serial.outAccum + PER_TICK)));
  }

  lemma {:induction false} TenthKeeps(c: Chip)
    ensures var d := Tenth(c);
            d.ta == c.ta && d.tb == c.tb && d.clock.accum == c.clock.accum && forall i :: 0 <= i < 8 && i != ALARM_BIT ==> d.icr[i] == c.icr[i]
  {
  }

  lemma {:induction false} ClockKeeps(c: Chip)
    ensures var d := RunClock(c);
            d.ta == c.ta && d.tb == c.tb && forall i :: 0 <= i < 8 && i != ALARM_BIT ==> d.icr[i] == c.icr[i]
    decreases c.clock.accum
  {
    if c.clock.accum >= PER_TENTH {
      var d := c.(clock := c.clock.(accum := c.clock.accum - PER_TENTH));
      TenthKeeps(d);
      ClockKeeps(Tenth(d));
    }
  }

  lemma {:induction false} TickKeepsTimers(c: Chip)
    ensures var d := TickTimers(c).0;
            Tick(c).ta == d.ta && Tick(c).tb == d.tb && Tick(c).icr[TA_BIT] == d.icr[TA_BIT] && Tick(c).icr[TB_BIT] == d.icr[TB_BIT]
  {
    var d := TickTimers(c).0;
    SerialKeeps(d);
    var e := TickSerial(d);
    ClockKeeps(e.(clock := e.clock.(accum := e.clock.accum + PER_TICK)));
  }

  // ---------- cascaded timers ----------

  /** Timer A counts the E-clock and reloads forever; timer B counts A's underflows and reloads forever. */
  ghost predicate Cascaded(c: Chip)
  {
    && Started(c.ta) && !OneShot(c.ta) && !c.ta.control[5] && c.ta.latch >= 56
    && Started(c.tb) && !OneShot(c.tb) && c.tb.control[6] && !c.tb.control[5] && c.tb.latch >= 1
  }

  ghost predicate InRange(c: Chip)
  {
    1 <= c.ta.counter <= c.ta.latch && 1 <= c.tb.counter <= c.tb.latch
  }

  lemma {:induction false} FewWraps(latch: nat, counter: nat, u: nat, left: nat)
    requires latch >= 56 && Paid(counter, latch, PER_TICK, u, left)
    ensures u <= 127
  {
    MulGap(latch, 127, u);
  }

  lemma {:induction false} StepA(t: Timer)
    requires !OneShot(t) && t.latch >= 56
    ensures var r := Countdown(t, PER_TICK, GUARD); Accounted(t, PER_TICK, r) && r.1 <= 127
  {
    var r := Countdown(t, PER_TICK, GUARD);
    ContinuousKept(t, PER_TICK, GUARD);
    FewWraps(t.latch, t.counter, r.1, r.0.counter);
  }

  /** One tick of the pair: `a` and `b` underflows. */
  ghost predicate Geared(c: Chip, d: Chip, n: nat, a: nat, b: nat)
  {
    && Cascaded(d) && d.ta.latch == c.ta.latch && d.tb.latch == c.tb.latch
    && Paid(c.ta.counter, c.ta.latch, n, a, d.ta.counter)
    && Paid(c.tb.counter, c.tb.latch, a, b, d.tb.counter)
    && (d.icr[TB_BIT] <==> c.icr[TB_BIT] || b > 0)
  }

  lemma {:induction false} TickGearsA(c: Chip)
    requires Cascaded(c)
    ensures var a := TickA(RestPins(c));
            && a.0.tb == RestPin(c.tb) && a.0.icr[TB_BIT] == c.icr[TB_BIT]
            && Accounted(RestPin(c.ta), PER_TICK, (a.0.ta, a.1)) && a.1 <= 127
  {
    StepA(RestPin(c.ta));
  }

  lemma {:induction false} TickGearsB(c: Chip, a: nat)
    requires Cascaded(c) && a <= 127
    ensures var b := TickB(c, a);
            b.0.ta == c.ta && (b.0.icr[TB_BIT] <==> c.icr[TB_BIT] || b.1 > 0) && Accounted(c.tb, a, (b.0.tb, b.1))
  {
    ContinuousKept(c.tb, a, GUARD);
  }

  lemma {:induction false} TickGears(c: Chip)
    requires Cascaded(c)
    ensures Geared(c, Tick(c), PER_TICK, TickTimers(c).1, TickTimers(c).2)
  {
    TickGearsA(c);
    var a := TickA(RestPins(c));
    TickGearsB(a.0, a.1);
    TickKeepsTimers(c);
  }

  lemma {:induction false} Distribute(m: int, a: int, b: int)
    ensures (a + b) * m == a * m + b * m && 0 * m == 0
  {
  }

  /** Accounts add up. */
  lemma {:induction false} PaidOn(c: nat, latch: nat, n: nat, u: nat, mid: nat, n': nat, u': nat, left: nat)
    requires Paid(c, latch, n, u, mid) && Paid(mid, latch, n', u', left)
    ensures Paid(c, latch, n + n', u + u', left)
  {
    Distribute(latch, u, u');
  }

  lemma {:induction false} StaysCascaded(c: Chip, n: nat)
    requires Cascaded(c)
    ensures var d := Ticks(c, n); Cascaded(d) && d.ta.latch == c.ta.latch && d.tb.latch == c.tb.latch
  {
    if n > 0 {
      StaysCascaded(c, n - 1);
      TickGears(Ticks(c, n - 1));
    }
  }

  lemma {:induction false} TickPaid(d: Chip)
    requires Cascaded(d)
    ensures Paid(d.ta.counter, d.ta.latch, PER_TICK, TickTimers(d).1, Tick(d).ta.counter)
    ensures Paid(d.tb.counter, d.tb.latch, TickTimers(d).1, TickTimers(d).2, Tick(d).tb.counter)
    ensures Tick(d).icr[TB_BIT] <==> d.icr[TB_BIT] || TickTimers(d).2 > 0
  {
    TickGears(d);
  }

  lemma {:induction false} PaidStep(c: Chip, i: nat)
    requires Cascaded(c)
    ensures Paid(CountersA(c)(i), c.ta.latch, PER_TICK, FeedA(c)(i), CountersA(c)(i + 1))
    ensures Paid(CountersB(c)(i), c.tb.latch, FeedA(c)(i), FeedB(c)(i), CountersB(c)(i + 1))
  {
    StaysCascaded(c, i);
    TickPaid(Ticks(c, i));
  }

  ghost predicate PaidAt(latch: nat, counter: nat -> nat, pulses: nat -> nat, wraps: nat -> nat, i: nat)
  {
    Paid(counter(i), latch, pulses(i), wraps(i), counter(i + 1))
  }

  /** The account of a whole run, tick by tick. */
  lemma {:induction false} PaidAlong(latch: nat, counter: nat -> nat, pulses: nat -> nat, wraps: nat -> nat, n: nat)
    requires forall i {:trigger PaidAt(latch, counter, pulses, wraps, i)} :: 0 <= i < n ==> PaidAt(latch, counter, pulses, wraps, i)
    ensures Paid(counter(0), latch, SumTo(pulses, n), SumTo(wraps, n), counter(n))
  {
    if n > 0 {
      PaidAlong(latch, counter, pulses, wraps, n - 1);
      assert PaidAt(latch, counter, pulses, wraps, n - 1);
      PaidOn(counter(0), latch, SumTo(pulses, n - 1), SumTo(wraps, n - 1), counter(n - 1), pulses(n - 1), wraps(n - 1), counter(n));
    } else {
      Distribute(latch, 0, 0);
    }
  }

  lemma {:induction false} SumConstant(f: nat -> nat, k: nat, n: nat)
    requires forall i {:trigger f(i)} :: 0 <= i < n ==> f(i) == k
    ensures SumTo(f, n) == k * n
  {
    if n > 0 {
      SumConstant(f, k, n - 1);
      Distribute(k, n - 1, 1);
    }
  }

  lemma {:induction false} PaidA(c: Chip, n: nat)
    requires Cascaded(c)
    ensures Paid(CountersA(c)(0), c.ta.latch, PER_TICK * n, WrapsA(c, n), CountersA(c)(n))
  {
    var pulses := (i: nat) => PER_TICK;
    forall i | 0 <= i < n
      ensures PaidAt(c.ta.latch, CountersA(c), pulses, FeedA(c), i)
    {
      PaidStep(c, i);
    }
    PaidAlong(c.ta.latch, CountersA(c), pulses, FeedA(c), n);
    SumConstant(pulses, PER_TICK, n);
  }

  lemma {:induction false} PaidB(c: Chip, n: nat)
    requires Cascaded(c)
    ensures Paid(CountersB(c)(0), c.tb.latch, WrapsA(c, n), WrapsB(c, n), CountersB(c)(n))
  {
    forall i | 0 <= i < n
      ensures PaidAt(c.tb.latch, CountersB(c), FeedA(c), FeedB(c), i)
    {
      PaidStep(c, i);
    }
    PaidAlong(c.tb.latch, CountersB(c), FeedA(c), FeedB(c), n);
  }

  lemma {:induction false} FlagStep(c: Chip, i: nat)
    requires Cascaded(c)
    ensures FlagsB(c)(i + 1) <==> FlagsB(c)(i) || FeedB(c)(i) > 0
  {
    StaysCascaded(c, i);
    TickPaid(Ticks(c, i));
  }

  ghost predicate RaisedAt(flag: nat -> bool, wraps: nat -> nat, i: nat)
  {
    flag(i + 1) <==> flag(i) || wraps(i) > 0
  }

  lemma {:induction false} FlagAlong(flag: nat -> bool, wraps: nat -> nat, n: nat)
    requires forall i {:trigger RaisedAt(flag, wraps, i)} :: 0 <= i < n ==> RaisedAt(flag, wraps, i)
    ensures flag(n) <==> flag(0) || SumTo(wraps, n) > 0
  {
    if n > 0 {
      FlagAlong(flag, wraps, n - 1);
      assert RaisedAt(flag, wraps, n - 1);
    }
  }

  lemma {:induction false} FlagB(c: Chip, n: nat)
    requires Cascaded(c)
    ensures FlagsB(c)(n) <==> FlagsB(c)(0) || WrapsB(c, n) > 0
  {
    forall i | 0 <= i < n
      ensures RaisedAt(FlagsB(c), FeedB(c), i)
    {
      FlagStep(c, i);
    }
    FlagAlong(FlagsB(c), FeedB(c), n);
  }

  lemma {:induction false} TicksGear(c: Chip, n: nat, k: nat)
    requires Cascaded(c) && k == PER_TICK * n
    ensures Geared(c, Ticks(c, n), k, WrapsA(c, n), WrapsB(c, n))
  {
    StaysCascaded(c, n);
    PaidA(c, n);
    PaidB(c, n);
    FlagB(c, n);
  }

  // ---------- closed form ----------

  /** Underflows of a continuous timer that starts at `c` and takes `n` pulses. */
  function Wraps(c: nat, latch: nat, n: nat): nat
    requires latch >= 1
  {
    if n == 0 || n < c then 0 else 1 + (n - c) / latch
  }

  /** Where its counter then stands. */
  function Rest(c: nat, latch: nat, n: nat): int
    requires latch >= 1
  {
    if n == 0 || n < c then c - n else latch - (n - c) % latch
  }

  lemma {:induction false} PaidIs(c: nat, latch: nat, n: nat, u: nat, left: nat)
    requires latch >= 1 && Paid(c, latch, n, u, left)
    ensures u == Wraps(c, latch, n) && left == Rest(c, latch, n)
  {
    if u == 0 {
      Distribute(latch, 0, 0);
    } else {
      Distribute(latch, u - 1, 1);
      MulGap(latch, -1, u - 1);
      DivUnique(n - c, latch, u - 1, latch - left);
    }
  }

  /** Main result: over any number of ticks and from any counters whatever, timer A has counted every E-clock count, timer B
      every underflow of A, and B's flag is up exactly if B underflowed. */
  lemma {:induction false} CascadeCounts(c: Chip, n: nat)
    requires Cascaded(c)
    ensures var d := Ticks(c, n);
            var a, b := WrapsA(c, n), WrapsB(c, n);
            && a == Wraps(c.ta.counter, c.ta.latch, PER_TICK * n) && d.ta.counter == Rest(c.ta.counter, c.ta.latch, PER_TICK * n)
            && b == Wraps(c.tb.counter, c.tb.latch, a) && d.tb.counter == Rest(c.tb.counter, c.tb.latch, a)
            && (d.icr[TB_BIT] <==> c.icr[TB_BIT] || b > 0)
  {
    TicksGear(c, n, PER_TICK * n);
    var d := Ticks(c, n);
    PaidIs(c.ta.counter, c.ta.latch, PER_TICK * n, WrapsA(c, n), d.ta.counter);
    PaidIs(c.tb.counter, c.tb.latch, WrapsA(c, n), WrapsB(c, n), d.tb.counter);
  }

  lemma {:induction false} ManyWraps(c: nat, latch: nat, n: nat)
    requires c < 65536 && 1 <= latch < 65536 && n >= PER_TICK * 655360
    ensures Wraps(c, latch, n) >= 65536
  {
    var q := (n - c) / latch;
    assert n - c == latch * q + (n - c) % latch;
    MulGap(latch, q, 65535);
    MulGap(65535, latch, 65535);
  }

  /** From any counters, both timers are within their latches at the latest after 655360 ticks, and stay there. */
  lemma {:induction false} CascadeEntersRange(c: Chip, n: nat)
    requires Cascaded(c) && n >= 655360
    ensures InRange(Ticks(c, n))
  {
    TicksGear(c, n, PER_TICK * n);
    CascadeCounts(c, n);
    ManyWraps(c.ta.counter, c.ta.latch, PER_TICK * n);
  }

  // ---------- one counter ----------

  /** How far into its period of LA * LB counts the pair is. */
  ghost function Phase(c: Chip): int
  {
    (c.ta.latch - c.ta.counter) + c.ta.latch * (c.tb.latch - c.tb.counter)
  }

  ghost function Period(c: Chip): nat { c.ta.latch * c.tb.latch }

  lemma {:induction false} PhaseMoves(la: nat, lb: nat, ca: int, cb: int, da: int, db: int, n: nat, a: nat, b: nat)
    requires ca + a * la == n + da && cb + b * lb == a + db
    ensures (la - ca) + la * (lb - cb) + n == (la - da) + la * (lb - db) + (la * lb) * b
  {
    assert la * (lb - cb) == la * (lb - (a + db - b * lb));
    assert la * (lb - (a + db - b * lb)) == la * (lb - db) - la * a + la * (b * lb);
    assert la * (b * lb) == (la * lb) * b;
  }

  lemma {:induction false} PhaseBound(la: nat, lb: nat, ca: int, cb: int)
    requires 1 <= ca <= la && 1 <= cb <= lb
    ensures 0 <= (la - ca) + la * (lb - cb) < la * lb
  {
    MulGap(la, lb - cb, lb);
    MulGap(la, -1, lb - cb);
  }

  /** Once within its latches a timer stays there. */
  lemma {:induction false} StaysInRange(c: Chip, d: Chip, n: nat, a: nat, b: nat)
    requires InRange(c) && Geared(c, d, n, a, b)
    ensures InRange(d)
  {
    Distribute(c.ta.latch, 0, 0);
    Distribute(c.tb.latch, 0, 0);
  }

  lemma {:induction false} PhaseKept(c: Chip, d: Chip, n: nat, a: nat, b: nat)
    requires InRange(c) && Geared(c, d, n, a, b)
    ensures InRange(d) && Phase(c) + n == Phase(d) + Period(c) * b && 0 <= Phase(d) < Period(c)
  {
    StaysInRange(c, d, n, a, b);
    PhaseMoves(c.ta.latch, c.tb.latch, c.ta.counter, c.tb.counter, d.ta.counter, d.tb.counter, n, a, b);
    PhaseBound(d.ta.latch, d.tb.latch, d.ta.counter, d.tb.counter);
  }

  /** From `c` to `d` the pair counts `n` like one counter of its period, wrapping `b` times. */
  ghost predicate OneCounter(c: Chip, d: Chip, n: nat, b: nat)
  {
    Period(c) > 0 && InRange(d) && Phase(d) == (Phase(c) + n) % Period(c) && b == (Phase(c) + n) / Period(c)
  }

  lemma {:induction false} PhaseClosed(c: Chip, d: Chip, n: nat, a: nat, b: nat)
    requires InRange(c) && Geared(c, d, n, a, b)
    ensures OneCounter(c, d, n, b)
  {
    PhaseKept(c, d, n, a, b);
    DivUnique(Phase(c) + n, Period(c), b, Phase(d));
  }

  /** Main result: with both counters within their latches the pair is a single counter modulo LA * LB fed 7093 counts a tick;
      timer B underflows once per full period. */
  lemma {:induction false} CascadeIsMixedRadix(c: Chip, n: nat)
    requires Cascaded(c) && InRange(c)
    ensures OneCounter(c, Ticks(c, n), PER_TICK * n, WrapsB(c, n))
  {
    TicksGear(c, n, PER_TICK * n);
    PhaseClosed(c, Ticks(c, n), PER_TICK * n, WrapsA(c, n), WrapsB(c, n));
  }
}
