/** Advancing Paula in batches is advancing it one master clock at a time, and a channel plays its block in a loop. */
module PaulaLaws {
  import opened Bits
  import opened Paula

  ghost predicate Playable(l: Lane) { l.chan.per >= 1 && l.chan.len >= 1 }

  function Loaded(l: Lane): Lane { l.(chan := Reload(l.chan)) }

  // ---------- the reference: one master clock at a time ----------

  function Cycle(ram: seq<Nat8>, att: Attach, l: Lane): (r: Lane)
    requires Playable(l)
    ensures Playable(r) && r.chan.per == l.chan.per
    decreases if l.chan.counter == 0 then 1 else 0
  {
    if l.chan.counter == 0 then Cycle(ram, att, Expire(ram, att, Loaded(l)))
    else if l.chan.counter == 1 then Expire(ram, att, Loaded(l))
    else Loaded(l).(chan := Reload(l.chan).(counter := l.chan.counter - 1))
  }

  function Cycles(ram: seq<Nat8>, att: Attach, l: Lane, n: nat): (r: Lane)
    requires Playable(l)
    ensures Playable(r) && r.chan.per == l.chan.per
    decreases n
  {
    if n == 0 then l else Cycles(ram, att, Cycle(ram, att, l), n - 1)
  }

  lemma {:induction false} CyclesSplit(ram: seq<Nat8>, att: Attach, l: Lane, a: nat, b: nat)
    requires Playable(l)
    ensures Cycles(ram, att, l, a + b) == Cycles(ram, att, Cycles(ram, att, l, a), b)
    decreases a
  {
    if a > 0 {
      CyclesSplit(ram, att, Cycle(ram, att, l), a - 1, b);
    }
  }

  lemma {:induction false} CyclesBelow(ram: seq<Nat8>, att: Attach, l: Lane, n: nat)
    requires Playable(l) && 0 < n < l.chan.counter
    ensures Cycles(ram, att, l, n) == Loaded(l).(chan := Reload(l.chan).(counter := l.chan.counter - n))
    decreases n
  {
    if n > 1 {
      CyclesBelow(ram, att, Cycle(ram, att, l), n - 1);
    }
  }

  lemma {:induction false} CyclesExpire(ram: seq<Nat8>, att: Attach, l: Lane, n: nat)
    requires Playable(l) && l.chan.counter <= n && n > 0
    ensures Playable(Expire(ram, att, Loaded(l)))
    ensures Cycles(ram, att, l, n) == Cycles(ram, att, Expire(ram, att, Loaded(l)), n - l.chan.counter)
  {
    var k := l.chan.counter;
    if k > 1 {
      CyclesBelow(ram, att, l, k - 1);
      CyclesSplit(ram, att, l, k - 1, n - k + 1);
    }
  }

  /** How many of `n` clocks fit up to the last expiry that `steps` allows. */
  function Clocks(n: nat, counter: nat, per: nat, steps: nat): nat
    requires steps >= 1
  {
    if n <= counter + (steps - 1) * per then n else counter + (steps - 1) * per
  }

  lemma {:induction false} ClocksAfter(n: nat, counter: nat, per: nat, steps: nat)
    requires steps > 1 && per >= 1 && counter <= n && n > 0
    ensures Clocks(n, counter, per, steps) == counter + Clocks(n - counter, per, per, steps - 1)
    ensures Clocks(n, counter, per, steps) > 0
  {
    assert (steps - 1) * per == per + (steps - 2) * per;
    MulGap(per, -1, steps - 2);
  }

  ghost predicate Expired(ram: seq<Nat8>, att: Attach, l: Lane, e: Lane)
  {
    && e == Expire(ram, att, Loaded(l))
    && Playable(e) && e.chan.counter == e.chan.per == l.chan.per
  }

  lemma {:induction false} PlayExpire(ram: seq<Nat8>, att: Attach, l: Lane, n: nat, steps: nat) returns (e: Lane)
    requires Playable(l) && steps >= 1 && l.chan.counter <= n && n > 0
    ensures Expired(ram, att, l, e)
    ensures Play(ram, att, l, n, steps) == Play(ram, att, e, n - l.chan.counter, steps - 1)
  {
    e := Expire(ram, att, Loaded(l));
  }

  lemma {:induction false} PlayBelow(ram: seq<Nat8>, att: Attach, l: Lane, n: nat, steps: nat)
    requires Playable(l) && steps >= 1 && (l.chan.counter > n || n == 0)
    ensures Play(ram, att, l, n, steps) == Cycles(ram, att, l, n)
  {
    if n > 0 {
      CyclesBelow(ram, att, l, n);
    }
  }

  lemma {:induction false} PlayLast(ram: seq<Nat8>, att: Attach, l: Lane, n: nat)
    requires Playable(l) && 1 <= l.chan.counter <= n
    ensures Play(ram, att, l, n, 1) == Cycles(ram, att, l, l.chan.counter)
  {
    var e := PlayExpire(ram, att, l, n, 1);
    CyclesExpire(ram, att, l, l.chan.counter);
  }

  /** Main result: a call is exactly as many single clocks as fit before the cap on expiries, attached or not. */
  lemma {:induction false} PlayIsCycles(ram: seq<Nat8>, att: Attach, l: Lane, n: nat, steps: nat)
    requires Playable(l) && steps >= 1 && (l.chan.counter >= 1 || steps >= 2)
    ensures Play(ram, att, l, n, steps) == Cycles(ram, att, l, Clocks(n, l.chan.counter, l.chan.per, steps))
    decreases steps
  {
    var c := l.chan;
    MulGap(c.per, -1, steps - 1);
    if c.counter > n || n == 0 {
      PlayBelow(ram, att, l, n, steps);
    } else if steps == 1 {
      PlayLast(ram, att, l, n);
    } else {
      var e := PlayExpire(ram, att, l, n, steps);
      PlayIsCycles(ram, att, e, n - c.counter, steps - 1);
      ClocksAfter(n, c.counter, c.per, steps);
      CyclesExpire(ram, att, l, Clocks(n, c.counter, c.per, steps));
    }
  }

  lemma {:induction false} CounterFalls(ram: seq<Nat8>, att: Attach, l: Lane, n: nat)
    requires Playable(l)
    ensures Cycles(ram, att, l, n).chan.counter + n >= l.chan.counter
    decreases n
  {
    if n > 0 {
      CounterFalls(ram, att, Cycle(ram, att, l), n - 1);
    }
  }

  /** Main result: two calls are one, as long as the one stays below the cap. */
  lemma {:induction false} PlayBatches(ram: seq<Nat8>, att: Attach, l: Lane, a: nat, b: nat)
    requires Playable(l) && a + b <= l.chan.counter + 31 * l.chan.per
    ensures Play(ram, att, Play(ram, att, l, a, CAP), b, CAP) == Play(ram, att, l, a + b, CAP)
  {
    PlayIsCycles(ram, att, l, a, CAP);
    PlayIsCycles(ram, att, l, a + b, CAP);
    var m := Cycles(ram, att, l, a);
    CounterFalls(ram, att, l, a);
    PlayIsCycles(ram, att, m, b, CAP);
    CyclesSplit(ram, att, l, a, b);
  }

  /** Main result: over any sequence of calls of at most 31 periods, the lane is where the total number of clocks puts it. */
  lemma {:induction false} CallsAddUp(ram: seq<Nat8>, att: Attach, l: Lane, calls: seq<nat>)
    requires Playable(l) && forall i :: 0 <= i < |calls| ==> calls[i] <= 31 * l.chan.per
    ensures Calls(ram, att, l, calls) == Cycles(ram, att, l, Sum(calls))
    decreases |calls|
  {
    if calls != [] {
      PlayIsCycles(ram, att, l, calls[0], CAP);
      CallsAddUp(ram, att, Cycles(ram, att, l, calls[0]), calls[1..]);
      CyclesSplit(ram, att, l, calls[0], Sum(calls[1..]));
    }
  }

  function Calls(ram: seq<Nat8>, att: Attach, l: Lane, calls: seq<nat>): Lane
    decreases |calls|
  {
    if calls == [] then l else Calls(ram, att, Play(ram, att, l, calls[0], CAP), calls[1..])
  }

  function Sum(calls: seq<nat>): nat
  {
    if calls == [] then 0 else calls[0] + Sum(calls[1..])
  }
}
