/** One 8520 countdown timer: how it is programmed, and why counting in batches is counting one pulse at a time. */
module CiaTimer {
  import opened Bits

  /** `control` is CRA or CRB: bit 0 START, 1 PBON, 2 OUTMODE, 3 RUNMODE, 4 LOAD, 5 and up INMODE. `pin` is PB6 or PB7. */
  datatype Timer = Timer(latch: Nat16, counter: Nat16, control: Byte, pin: bool)

  const GUARD := 128

  predicate Started(t: Timer) { t.control[0] }

  predicate OneShot(t: Timer) { t.control[3] }

  function SetStart(b: Byte, on: bool): Byte { [on] + b[1..] }

  /** The counter runs out: the pin moves if it is routed, the latch is reloaded, and a one-shot timer stops. */
  function Underflow(t: Timer): Timer
  {
    t.(counter := t.latch,
       control := if OneShot(t) then SetStart(t.control, false) else t.control,
       pin := if t.control[1] then t.control[2] && !t.pin else t.pin)
  }

  /** Counts `dec` pulses, giving up after `guard` underflows; the second result is the number of underflows. */
  function Countdown(t: Timer, dec: nat, guard: nat): (Timer, nat)
    decreases guard, t
  {
    if dec == 0 || guard == 0 then (t, 0)
    else if t.counter > dec then (t.(counter := t.counter - dec), 0)
    else
      var r := Countdown(Underflow(t), if OneShot(t) then 0 else dec - t.counter, guard - 1);
      (r.0, r.1 + 1)
  }

  // ---------- the reference: one pulse at a time ----------

  /** A timer that can be pulsed one at a time: continuous ones need something in the latch. */
  predicate Usable(t: Timer) { t.latch >= 1 || OneShot(t) }

  /** One pulse on a usable timer. A counter found at zero wraps first, without using the pulse up. */
  function Pulse(t: Timer): (r: (Timer, nat))
    requires Usable(t)
    ensures r.0.latch == t.latch && Usable(r.0)
    decreases if Started(t) && t.counter == 0 then 1 else 0
  {
    if !Started(t) then (t, 0)
    else if t.counter == 0 then var r := Pulse(Underflow(t)); (r.0, r.1 + 1)
    else if t.counter == 1 then (Underflow(t), 1)
    else (t.(counter := t.counter - 1), 0)
  }

  function Pulses(t: Timer, n: nat): (r: (Timer, nat))
    requires Usable(t)
    ensures r.0.latch == t.latch && Usable(r.0)
    decreases n
  {
    if n == 0 then (t, 0)
    else
      var p := Pulse(t);
      var r := Pulses(p.0, n - 1);
      (r.0, p.1 + r.1)
  }

  lemma {:induction false} PulsesSplit(t: Timer, a: nat, b: nat)
    requires Usable(t)
    ensures var p := Pulses(t, a);
            var q := Pulses(p.0, b);
            Pulses(t, a + b) == (q.0, p.1 + q.1)
    decreases a
  {
    if a > 0 {
      PulsesSplit(Pulse(t).0, a - 1, b);
    }
  }

  lemma {:induction false} PulsesStopped(t: Timer, n: nat)
    requires Usable(t) && !Started(t)
    ensures Pulses(t, n) == (t, 0)
  {
    if n > 0 {
      PulsesStopped(t, n - 1);
    }
  }

  lemma {:induction false} PulsesBelow(t: Timer, n: nat)
    requires Usable(t) && Started(t) && n < t.counter
    ensures Pulses(t, n) == (t.(counter := t.counter - n), 0)
    decreases n
  {
    if n > 0 {
      PulsesBelow(t.(counter := t.counter - 1), n - 1);
    }
  }

  lemma {:induction false} LastPulse(t: Timer, n: nat)
    requires Usable(t) && Started(t) && t.counter <= 1 && n > 0
    ensures var r := Pulses(Underflow(t), n - t.counter);
            Pulses(t, n) == (r.0, r.1 + 1)
  {
  }

  /** The pulses that bring the counter to its next underflow. */
  lemma {:induction false} PulsesWrap(t: Timer, n: nat)
    requires Usable(t) && Started(t) && t.counter <= n && n > 0
    ensures var r := Pulses(Underflow(t), n - t.counter);
            Pulses(t, n) == (r.0, r.1 + 1)
  {
    if t.counter <= 1 {
      LastPulse(t, n);
    } else {
      var k := t.counter - 1;
      PulsesBelow(t, k);
      PulsesSplit(t, k, n - k);
      LastPulse(t.(counter := 1), n - k);
    }
  }

  /** Below the guard a batch is its pulses. */
  lemma {:induction false} BatchBelowGuard(t: Timer, n: nat, guard: nat)
    requires Usable(t) && Started(t) && guard >= 1
    requires OneShot(t) || n <= t.counter + (guard - 1) * t.latch
    ensures Countdown(t, n, guard) == Pulses(t, n)
    decreases guard
  {
    if n > 0 {
      if t.counter > n {
        PulsesBelow(t, n);
      } else {
        PulsesWrap(t, n);
        if OneShot(t) {
          PulsesStopped(Underflow(t), n - t.counter);
        } else if guard > 1 {
          assert (guard - 1) * t.latch == t.latch + (guard - 2) * t.latch;
          BatchBelowGuard(Underflow(t), n - t.counter, guard - 1);
        }
      }
    }
  }

  /** Pulses on a continuous timer always show. */
  lemma {:induction false} PulsesMove(t: Timer, n: nat)
    requires 1 <= t.counter <= t.latch && Started(t) && !OneShot(t) && n > 0
    ensures Pulses(t, n).1 > 0 || Pulses(t, n).0.counter < t.counter
  {
    if n < t.counter {
      PulsesBelow(t, n);
    } else {
      PulsesWrap(t, n);
    }
  }

  lemma {:induction false} BatchPastGuard(t: Timer, n: nat, guard: nat)
    requires !OneShot(t) && n > t.counter + guard * t.latch
    ensures Countdown(t, n, guard + 1).1 == guard + 1 && Countdown(t, n, guard + 1).0.counter == t.latch
    decreases guard
  {
    var u := Underflow(t);
    if guard > 0 {
      assert guard * t.latch == t.latch + (guard - 1) * t.latch;
      BatchPastGuard(u, n - t.counter, guard - 1);
    }
  }

  /** `n` pulses take a counter from `c` to `left` with `u` reloads of `latch`, and none is lost. */
  ghost predicate Paid(c: nat, latch: nat, n: nat, u: nat, left: nat)
  {
    c + u * latch == n + left && (n > 0 ==> left >= 1) && (u > 0 ==> left <= latch) && (n == 0 ==> u == 0)
  }

  /** `n` pulses on a continuous timer lead to `r`: every pulse is either an underflow's worth or still in the counter. */
  ghost predicate Accounted(t: Timer, n: nat, r: (Timer, nat))
  {
    && r.0.latch == t.latch && r.0.control == t.control
    && Paid(t.counter, t.latch, n, r.1, r.0.counter)
  }

  lemma {:induction false} AccountedOn(t: Timer, n: nat, r: (Timer, nat))
    requires t.counter <= n && n > 0 && t.latch >= 1 && !OneShot(t) && Accounted(Underflow(t), n - t.counter, r)
    ensures Accounted(t, n, (r.0, r.1 + 1))
  {
    assert (r.1 + 1) * t.latch == r.1 * t.latch + t.latch;
  }

  /** Below the guard a batch on a continuous timer loses no pulse. */
  lemma {:induction false} ContinuousKept(t: Timer, n: nat, guard: nat)
    requires t.latch >= 1 && !OneShot(t) && guard >= 1 && n <= t.counter + (guard - 1) * t.latch
    ensures Accounted(t, n, Countdown(t, n, guard))
    decreases guard
  {
    if n > 0 && t.counter <= n {
      var u := Underflow(t);
      if guard > 1 {
        assert (guard - 1) * t.latch == t.latch + (guard - 2) * t.latch;
        ContinuousKept(u, n - t.counter, guard - 1);
      }
      AccountedOn(t, n, Countdown(u, n - t.counter, guard - 1));
    }
  }

  lemma {:induction false} ReloadCount(latch: nat, u: nat, guard: nat, left: nat)
    requires guard >= 1 && u * latch == (guard - 1) * latch + left && 1 <= left <= latch
    ensures u == guard && left == latch
  {
    MulGap(latch, u, guard);
    MulGap(latch, guard - 1, u);
    MulGap(latch, guard, u);
    assert guard * latch == (guard - 1) * latch + latch;
  }

  lemma {:induction false} AtGuard(t: Timer, guard: nat, m: nat, r: (Timer, nat))
    requires guard >= 2 && m == t.counter + (guard - 1) * t.latch && m > 0 && Accounted(t, m, r)
    ensures r.1 == guard && r.0.counter == t.latch
  {
    if r.1 > 0 {
      ReloadCount(t.latch, r.1, guard, r.0.counter);
    } else {
      MulGap(t.latch, -1, guard - 1);
    }
  }

  /** Where the last reload the guard allows leaves a timer. */
  lemma {:induction false} GuardReached(t: Timer, guard: nat, m: nat)
    requires t.latch >= 1 && Started(t) && !OneShot(t) && guard >= 2 && m == t.counter + (guard - 1) * t.latch && m > 0
    ensures var r := Pulses(t, m);
            r.1 == guard && r.0.counter == t.latch && Started(r.0) && !OneShot(r.0)
  {
    BatchBelowGuard(t, m, guard);
    ContinuousKept(t, m, guard);
    AtGuard(t, guard, m, Pulses(t, m));
  }

  /** Past the guard the batch drops pulses, and it shows. */
  lemma {:induction false} PulsesDropped(t: Timer, n: nat, guard: nat, m: nat)
    requires t.latch >= 1 && Started(t) && !OneShot(t) && guard >= 2 && m == t.counter + (guard - 1) * t.latch && n > m > 0
    ensures Countdown(t, n, guard) != Pulses(t, n)
  {
    BatchPastGuard(t, n, guard - 1);
    GuardReached(t, guard, m);
    PulsesSplit(t, m, n - m);
    PulsesMove(Pulses(t, m).0, n - m);
  }

  /** Main result: a batch of `n` pulses leaves the timer, its pin and the number of underflows exactly as `n` single pulses
      would, if and only if the timer is one-shot or `n` stays within the counter and 127 reloads. */
  lemma {:induction false} BatchIsPulses(t: Timer, n: nat)
    requires Usable(t) && Started(t)
    ensures Countdown(t, n, GUARD) == Pulses(t, n) <==> OneShot(t) || n <= t.counter + 127 * t.latch
  {
    BatchEither(t, n, GUARD);
  }

  lemma {:induction false} BatchEither(t: Timer, n: nat, guard: nat)
    requires Usable(t) && Started(t) && guard >= 2
    ensures Countdown(t, n, guard) == Pulses(t, n) <==> OneShot(t) || n <= t.counter + (guard - 1) * t.latch
  {
    if OneShot(t) || n <= t.counter + (guard - 1) * t.latch {
      BatchBelowGuard(t, n, guard);
    } else {
      MulGap(t.latch, 0, guard - 1);
      PulsesDropped(t, n, guard, t.counter + (guard - 1) * t.latch);
    }
  }

  /** With nothing in the latch a continuous timer that runs out spins until the guard stops it. */
  lemma {:induction false} EmptyLatch(t: Timer, n: nat)
    requires t.latch == 0 && !OneShot(t) && n > t.counter
    ensures Countdown(t, n, GUARD) == (Countdown(t, n, GUARD).0, GUARD) && Countdown(t, n, GUARD).0.counter == 0
  {
    BatchPastGuard(t, n, 127);
  }
}
