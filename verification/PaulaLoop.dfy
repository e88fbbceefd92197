/** Where a channel is after any number of clocks: the block is played in a loop, and its interrupt comes once per round. */
module PaulaLoop {
  import opened Bits
  import opened Paula
  import opened PaulaLaws

  /** A channel about to play its first block. */
  ghost predicate Fresh(l: Lane)
  {
    var c := l.chan;
    Playable(l) && c.counter == c.per && !c.low && c.ptr == c.lc && c.left == c.len
  }

  /** Where the `n`-th word since the start comes from. */
  function Address(c: Channel, n: nat): nat
    requires c.len >= 1
  {
    c.lc + 2 * (n % c.len)
  }

  /** The word held after `n` fetches. */
  function Held(ram: seq<Nat8>, c: Channel, n: nat): Nat16
    requires c.len >= 1
  {
    if n == 0 then c.dat else Fetched(ram, Address(c, n - 1), Held(ram, c, n - 1))
  }

  /** A block has just ended and the next clock will start the loop again. */
  predicate AtEnd(k: nat, len: nat)
    requires len >= 1
  {
    k % 2 == 0 && k > 0 && (k / 2) % len == 0
  }

  /** A word as a volume. */
  function Volume(d: Nat16): (v: nat)
    ensures v <= 64
  {
    if d / 64 % 2 == 1 then 64 else d % 64
  }

  /** The words held after any number of fetches. */
  function Words(ram: seq<Nat8>, c: Channel): nat -> Nat16
    requires c.len >= 1
  {
    (n: nat) => Held(ram, c, n)
  }

  // The next channel's volume and period, and whose turn it is, after `n` fetches of a modulator that held `h(i)` after i of
  // them: with one attach bit every word goes to that register, with both words 1, 3, 5, ... go to the volume and words
  // 2, 4, 6, ... to the period.

  function VolumeAfter(h: nat -> Nat16, att: Attach, vol: nat, n: nat): nat
  {
    if !att.vol || n == 0 then vol else Volume(h(if att.per && n % 2 == 0 then n - 1 else n))
  }

  function PeriodAfter(h: nat -> Nat16, att: Attach, per: Nat16, n: nat): Nat16
  {
    if !att.per || n == 0 || (att.vol && n == 1) then per else h(if att.vol && n % 2 == 1 then n - 1 else n)
  }

  function PhaseAfter(att: Attach, c: Channel, n: nat): bool
  {
    if att.vol && att.per then n % 2 == 1 else c.phase
  }

  /** A modulator attached both ways starts with the volume. */
  predicate Starts(att: Attach, l: Lane) { att.vol && att.per ==> !l.chan.phase }

  /** The lane at the `k`-th expiry. */
  function AfterExpiries(ram: seq<Nat8>, att: Attach, l: Lane, k: nat): Lane
    requires l.chan.len >= 1
  {
    var c := l.chan;
    var n := k / 2;
    l.(chan := c.(low := k % 2 == 1, dat := Held(ram, c, n), phase := PhaseAfter(att, c, n),
                  ptr := if AtEnd(k, c.len) then c.lc + 2 * c.len else Address(c, n),
                  left := if AtEnd(k, c.len) then 0 else c.len - n % c.len),
       vol := VolumeAfter(Words(ram, c), att, l.vol, n), per := PeriodAfter(Words(ram, c), att, l.per, n), irq := l.irq || n >= c.len)
  }

  lemma {:induction false} NextMod(n: nat, m: nat)
    requires m >= 1
    ensures (n + 1) % m == if n % m == m - 1 then 0 else n % m + 1
    ensures n % m == 0 && n > 0 ==> n >= m
    ensures n < m ==> n % m == n
  {
    var q, r := n / m, n % m;
    assert n == r + m * q;
    if r == m - 1 {
      assert m * (q + 1) == m * q + m;
      DivUnique(n + 1, m, q + 1, 0);
    } else {
      DivUnique(n + 1, m, q, r + 1);
    }
    MulGap(m, 0, q);
    if n < m {
      DivUnique(n, m, 0, n);
    }
  }

  /** Reloading undoes the end of a block and nothing else. */
  lemma {:induction false} LoadedAt(ram: seq<Nat8>, att: Attach, l: Lane, k: nat)
    requires Fresh(l)
    ensures var s := AfterExpiries(ram, att, l, k);
            Loaded(s) == s.(chan := s.chan.(ptr := Address(l.chan, k / 2), left := l.chan.len - (k / 2) % l.chan.len))
  {
    NextMod(k / 2, l.chan.len);
  }

  /** `s` passes words on like a modulator after `n` fetches. */
  predicate Passing(h: nat -> Nat16, att: Attach, l: Lane, n: nat, s: Lane)
  {
    s.vol == VolumeAfter(h, att, l.vol, n) && s.per == PeriodAfter(h, att, l.per, n) && s.chan.phase == PhaseAfter(att, l.chan, n)
  }

  /** Where one word goes. */
  lemma {:induction false} NextTarget(att: Attach, s: Lane)
    ensures var t, d := Modulate(att, s), s.chan.dat;
            && t.vol == (if att.vol && (!att.per || !s.chan.phase) then Volume(d) else s.vol)
            && t.per == (if att.per && (!att.vol || s.chan.phase) then d else s.per)
            && t.chan == s.chan.(phase := s.chan.phase != (att.vol && att.per)) && t.irq == s.irq
  {
  }

  lemma {:induction false} TargetsOn(h: nat -> Nat16, att: Attach, l: Lane, n: nat)
    ensures VolumeAfter(h, att, l.vol, n + 1) ==
      if att.vol && (!att.per || n % 2 == 0) then Volume(h(n + 1)) else VolumeAfter(h, att, l.vol, n)
    ensures PeriodAfter(h, att, l.per, n + 1) ==
      if att.per && (!att.vol || n % 2 == 1) then h(n + 1) else PeriodAfter(h, att, l.per, n)
  {
  }

  lemma {:induction false} PassesOn(h: nat -> Nat16, att: Attach, l: Lane, n: nat, s: Lane)
    requires Starts(att, l) && Passing(h, att, l, n, s) && s.chan.dat == h(n + 1)
    ensures var t := Modulate(att, s); Passing(h, att, l, n + 1, t) && t.chan == s.chan.(phase := t.chan.phase) && t.irq == s.irq
  {
    NextTarget(att, s);
    TargetsOn(h, att, l, n);
  }

  /** One more word of the round. */
  lemma {:induction false} RoundOn(n: nat, len: nat)
    requires len >= 1
    ensures len - n % len - 1 == if (n + 1) % len == 0 then 0 else len - (n + 1) % len
    ensures n % len + 1 == if (n + 1) % len == 0 then len else (n + 1) % len
    ensures n >= len || (n + 1) % len == 0 <==> n + 1 >= len
  {
    NextMod(n, len);
  }

  /** A fetch: what it loads, where it goes, and what is left. */
  lemma {:induction false} FetchIs(ram: seq<Nat8>, att: Attach, m: Lane, s: Lane)
    requires m.chan.low && m.chan.left > 0
    requires var c := m.chan; s == m.(chan := c.(counter := c.per, low := false, dat := Fetched(ram, c.ptr, c.dat), ptr := c.ptr + 2))
    ensures var t := Modulate(att, s);
            Expire(ram, att, m) == t.(chan := t.chan.(left := m.chan.left - 1), irq := t.irq || m.chan.left == 1)
  {
    NextTarget(att, s);
  }

  lemma {:induction false} NextFetch(ram: seq<Nat8>, att: Attach, l: Lane, k: nat, n: nat, m: Lane)
    requires Fresh(l) && Starts(att, l) && k == 2 * n + 1 && m == Loaded(AfterExpiries(ram, att, l, k))
    ensures Expire(ram, att, m) == AfterExpiries(ram, att, l, k + 1)
  {
    LoadedAt(ram, att, l, k);
    RoundOn(n, l.chan.len);
    assert k / 2 == n && (k + 1) / 2 == n + 1;
    var c := m.chan;
    var s := m.(chan := c.(counter := c.per, low := false, dat := Fetched(ram, c.ptr, c.dat), ptr := c.ptr + 2));
    FetchIs(ram, att, m, s);
    PassesOn(Words(ram, l.chan), att, l, n, s);
  }

  lemma {:induction false} NextByte(ram: seq<Nat8>, att: Attach, l: Lane, k: nat)
    requires Fresh(l) && k % 2 == 0
    ensures Expire(ram, att, Loaded(AfterExpiries(ram, att, l, k))) == AfterExpiries(ram, att, l, k + 1)
  {
    LoadedAt(ram, att, l, k);
    NextMod(k / 2, l.chan.len);
    assert (k + 1) / 2 == k / 2;
  }

  lemma {:induction false} OnePeriod(ram: seq<Nat8>, att: Attach, l: Lane, s: Lane, k: nat)
    requires Fresh(l) && Starts(att, l) && s == AfterExpiries(ram, att, l, k)
    ensures Playable(s) && s.chan.counter == s.chan.per == l.chan.per
    ensures Cycles(ram, att, s, s.chan.per) == AfterExpiries(ram, att, l, k + 1)
  {
    CyclesExpire(ram, att, s, s.chan.per);
    if k % 2 == 1 {
      NextFetch(ram, att, l, k, k / 2, Loaded(s));
    } else {
      NextByte(ram, att, l, k);
    }
  }

  lemma {:induction false} PeriodsBefore(k: nat, per: nat)
    requires k > 0
    ensures k * per == (k - 1) * per + per && (k - 1) * per >= 0
  {
    MulGap(per, -1, k - 1);
  }

  lemma {:induction false} NoExpiry(ram: seq<Nat8>, att: Attach, l: Lane)
    requires Fresh(l) && Starts(att, l)
    ensures AfterExpiries(ram, att, l, 0) == l
  {
    NextMod(0, l.chan.len);
  }

  lemma {:induction false} ExpiriesAre(ram: seq<Nat8>, att: Attach, l: Lane, k: nat, m: nat)
    requires Fresh(l) && Starts(att, l) && m == k * l.chan.per
    ensures Cycles(ram, att, l, m) == AfterExpiries(ram, att, l, k)
    decreases k
  {
    if k == 0 {
      NoExpiry(ram, att, l);
    } else {
      var p := l.chan.per;
      PeriodsBefore(k, p);
      ExpiriesAre(ram, att, l, k - 1, m - p);
      CyclesSplit(ram, att, l, m - p, p);
      OnePeriod(ram, att, l, AfterExpiries(ram, att, l, k - 1), k - 1);
    }
  }

  /** `t` is `r` clocks after the expiry that led to `s`. */
  ghost predicate InPeriod(s: Lane, r: nat, t: Lane)
    requires r <= s.chan.counter
  {
    t == if r == 0 then s else Loaded(s).(chan := Reload(s.chan).(counter := s.chan.counter - r))
  }

  lemma {:induction false} WithinPeriod(ram: seq<Nat8>, att: Attach, l: Lane, k: nat, m: nat, r: nat)
    requires Fresh(l) && Starts(att, l) && m == k * l.chan.per && r < l.chan.per
    ensures InPeriod(AfterExpiries(ram, att, l, k), r, Cycles(ram, att, l, m + r))
  {
    ExpiriesAre(ram, att, l, k, m);
    var s := AfterExpiries(ram, att, l, k);
    OnePeriod(ram, att, l, s, k);
    CyclesSplit(ram, att, l, m, r);
    if r > 0 {
      CyclesBelow(ram, att, s, r);
    }
  }

  /** Main result: after `n` clocks the channel has seen n / per expiries; the word it holds, the byte it plays, its pointer,
      its length and its interrupt are those of a block played round and round, and with attach bits set its words have gone
      to the next channel's volume and period by turns. */
  lemma {:induction false} PlaysLoop(ram: seq<Nat8>, att: Attach, l: Lane, n: nat, k: nat, r: nat)
    requires Fresh(l) && Starts(att, l) && k == n / l.chan.per && r == n % l.chan.per
    ensures InPeriod(AfterExpiries(ram, att, l, k), r, Cycles(ram, att, l, n))
  {
    var m := n - r;
    WholePeriods(n, l.chan.per, k);
    WithinPeriod(ram, att, l, k, m, r);
  }

  /** Main result: the same over any sequence of calls of at most 31 periods each, `n` being the clocks they add up to. */
  lemma {:induction false} CallsPlayLoop(ram: seq<Nat8>, att: Attach, l: Lane, calls: seq<nat>, n: nat, k: nat, r: nat)
    requires Fresh(l) && Starts(att, l) && forall i :: 0 <= i < |calls| ==> calls[i] <= 31 * l.chan.per
    requires n == Sum(calls) && k == n / l.chan.per && r == n % l.chan.per
    ensures InPeriod(AfterExpiries(ram, att, l, k), r, Calls(ram, att, l, calls))
  {
    CallsAddUp(ram, att, l, calls);
    PlaysLoop(ram, att, l, n, k, r);
  }

  lemma {:induction false} WholePeriods(n: nat, per: nat, k: nat)
    requires per >= 1 && k == n / per
    ensures n - n % per == k * per && n % per <= n
  {
    MulGap(per, -1, k);
  }

  /** Main result: an interrupt acknowledged at any expiry comes back with exactly the next fetch that completes a round. */
  lemma {:induction false} InterruptEachRound(ram: seq<Nat8>, att: Attach, l: Lane, k: nat)
    requires Fresh(l) && Starts(att, l)
    ensures Expire(ram, att, Loaded(AfterExpiries(ram, att, l, k).(irq := false))).irq <==> k % 2 == 1 && ((k + 1) / 2) % l.chan.len == 0
  {
    LoadedAt(ram, att, l, k);
    NextMod(k / 2, l.chan.len);
    assert k % 2 == 1 ==> (k + 1) / 2 == k / 2 + 1;
  }

  /** Setting a channel up makes it fresh, with the first word of the block already in its data register and six bits of volume. */
  lemma {:induction false} SetIsFresh(c: Channel, ram: seq<Nat8>, ptr: nat, len: Nat16, per: Nat16, vol: Nat16, att: Attach, l: Lane)
    requires len >= 1 && per >= 1 && l.chan == SetChannel(c, ram, ptr, len, per, vol)
    ensures Fresh(l) && Starts(att, l)
    ensures l.chan.lc == ptr && l.chan.len == len && l.chan.per == per && l.chan.vol == vol % 64
    ensures l.chan.dat == if ptr + 1 < |ram| then ReadWord(ram, ptr) else c.dat
  {
  }

  // ---------- modulation ----------

  /** Main result: after n clocks, f words fetched: with volume attach alone the next channel's volume is the last word fetched
      and its period untouched; with period attach alone the other way round; with both, the n-th word goes to the volume if n
      is odd and to the period if n is even. */
  lemma {:induction false} ModulatorFeeds(ram: seq<Nat8>, att: Attach, l: Lane, n: nat, f: nat)
    requires Fresh(l) && Starts(att, l) && f == n / l.chan.per / 2
    ensures var s := Cycles(ram, att, l, n);
            && (!att.vol ==> s.vol == l.vol) && (!att.per ==> s.per == l.per)
            && (att.vol && !att.per && f > 0 ==> s.vol == Volume(Held(ram, l.chan, f)))
            && (att.per && !att.vol && f > 0 ==> s.per == Held(ram, l.chan, f))
            && (att.vol && att.per && f > 0 ==> s.vol == Volume(Held(ram, l.chan, if f % 2 == 1 then f else f - 1)))
            && (att.vol && att.per && f > 1 ==> s.per == Held(ram, l.chan, f - f % 2))
            && (f == 0 ==> s.vol == l.vol) && (f == 0 || (att.vol && f == 1) ==> s.per == l.per)
  {
    PlaysLoop(ram, att, l, n, n / l.chan.per, n % l.chan.per);
  }
}
