/** All four channels over any sequence of advances: whose turn changes what, which block each channel plays, and what a
    modulator feeds the channel after it. */
module PaulaMixer {
  import opened Bits
  import opened Paula
  import opened PaulaLaws
  import opened PaulaLoop
  import opened PaulaUnit

  /** The mixer after a sequence of calls. */
  function Advances(m: Mixer, ram: seq<Nat8>, calls: seq<nat>): (r: Mixer)
    requires Valid(m)
    ensures Valid(r)
    decreases |calls|
  {
    if calls == [] then m else Advances(Advance(m, ram, calls[0]), ram, calls[1..])
  }

  /** Main result: with master DMA off no call changes anything. */
  lemma {:induction false} MasterOff(m: Mixer, ram: seq<Nat8>, calls: seq<nat>)
    requires Valid(m) && !m.master
    ensures Advances(m, ram, calls) == m
    decreases |calls|
  {
    if calls != [] {
      MasterOff(m, ram, calls[1..]);
    }
  }

  // ---------- one turn ----------

  /** No channel modulates channel `ch`. */
  predicate Unmodulated(m: Mixer, ch: nat)
    requires Valid(m) && ch < 4
  {
    ch == 0 || (!m.vols[ch - 1] && !m.pers[ch - 1])
  }

  /** What channel `ch` does to the next one: ADKCON bit ch attaches its volume, bit ch + 4 its period. */
  function AdkBits(m: Mixer, ch: nat): Attach
    requires Valid(m) && ch < 4
  {
    Attach(ch < 3 && m.vols[ch], ch < 3 && m.pers[ch])
  }

  /** Whatever is attached, a channel does not change its own volume, period and length, and without an attach bit not those
      of the next one. */
  lemma {:induction false} PlayKeepsOwn(ram: seq<Nat8>, att: Attach, l: Lane, n: nat, steps: nat)
    ensures var r := Play(ram, att, l, n, steps);
            && r.chan.vol == l.chan.vol && r.chan.per == l.chan.per && r.chan.len == l.chan.len
            && (!att.vol ==> r.vol == l.vol) && (!att.per ==> r.per == l.per)
    decreases steps
  {
    var r := Loaded(l);
    if n > 0 && steps > 0 && r.chan.left > 0 && r.chan.counter <= n {
      PlayKeepsOwn(ram, att, Expire(ram, att, r), n - r.chan.counter, steps - 1);
    }
  }

  /** The switches stay. */
  predicate SameSwitches(m: Mixer, r: Mixer) { r == m.(channels := r.channels, irqs := r.irqs) }

  lemma {:induction false} PutElsewhere(m: Mixer, j: nat, l: Lane, ch: nat)
    requires Valid(m) && j < 4 && ch < 4 && j != ch
    requires l.chan.vol == m.channels[j].vol && l.chan.per == m.channels[j].per
    requires j + 1 == ch ==> l.vol == m.channels[ch].vol && l.per == m.channels[ch].per
    ensures LaneOf(PutLane(m, j, l), ch) == LaneOf(m, ch) && SameSwitches(m, PutLane(m, j, l))
  {
  }

  lemma {:induction false} PutHere(m: Mixer, ch: nat, l: Lane)
    requires Valid(m) && ch < 4 && (ch == 3 ==> l.vol == 0 && l.per == 0)
    ensures LaneOf(PutLane(m, ch, l), ch) == l && SameSwitches(m, PutLane(m, ch, l))
  {
  }

  /** Another channel's turn leaves an unmodulated channel alone. */
  lemma {:induction false} OthersTurn(m: Mixer, ram: seq<Nat8>, j: nat, ch: nat, n: nat)
    requires Valid(m) && j < 4 && ch < 4 && j != ch && Unmodulated(m, ch)
    ensures LaneOf(AdvanceOne(m, ram, j, n), ch) == LaneOf(m, ch) && SameSwitches(m, AdvanceOne(m, ram, j, n))
  {
    if Active(m, j) {
      var l := Play(ram, AttachOf(m, j), LaneOf(m, j), n, CAP);
      PlayKeepsOwn(ram, AttachOf(m, j), LaneOf(m, j), n, CAP);
      PutElsewhere(m, j, l, ch);
    }
  }

  /** A channel's lane after its turn. */
  function Turn(m: Mixer, ram: seq<Nat8>, ch: nat, n: nat): Lane
    requires Valid(m) && ch < 4
  {
    if m.enabled[ch] && m.channels[ch].per > 0 && m.channels[ch].len > 0
    then Play(ram, AdkBits(m, ch), LaneOf(m, ch), n, CAP)
    else LaneOf(m, ch)
  }

  lemma {:induction false} OwnTurn(m: Mixer, ram: seq<Nat8>, ch: nat, n: nat)
    requires Valid(m) && ch < 4
    ensures LaneOf(AdvanceOne(m, ram, ch, n), ch) == Turn(m, ram, ch, n) && SameSwitches(m, AdvanceOne(m, ram, ch, n))
  {
    if Active(m, ch) {
      PlayKeepsOwn(ram, AdkBits(m, ch), LaneOf(m, ch), n, CAP);
      PutHere(m, ch, Play(ram, AdkBits(m, ch), LaneOf(m, ch), n, CAP));
    }
  }

  lemma {:induction false} SameTurn(m: Mixer, r: Mixer, ram: seq<Nat8>, ch: nat, n: nat)
    requires Valid(m) && Valid(r) && SameSwitches(m, r) && ch < 4 && LaneOf(r, ch) == LaneOf(m, ch)
    ensures Turn(r, ram, ch, n) == Turn(m, ram, ch, n)
  {
  }

  lemma {:induction false} FirstTurns(m: Mixer, ram: seq<Nat8>, ch: nat, n: nat, k: nat)
    requires Valid(m) && ch < 4 && Unmodulated(m, ch) && k <= 4
    ensures var r := AdvanceFirst(m, ram, k, n);
            SameSwitches(m, r) && LaneOf(r, ch) == if ch < k then Turn(m, ram, ch, n) else LaneOf(m, ch)
  {
    if k > 0 {
      FirstTurns(m, ram, ch, n, k - 1);
      var r := AdvanceFirst(m, ram, k - 1, n);
      if k - 1 == ch {
        OwnTurn(r, ram, ch, n);
        SameTurn(m, r, ram, ch, n);
      } else {
        OthersTurn(r, ram, k - 1, ch, n);
      }
    }
  }

  /** Main result: with master DMA on, an advance by n clocks takes an unmodulated channel, and what it feeds the next one,
      exactly as many single clocks on as its cap allows if it is enabled with a period and a length, and nowhere otherwise. */
  lemma {:induction false} AdvancePlays(m: Mixer, ram: seq<Nat8>, n: nat, ch: nat)
    requires Valid(m) && m.master && ch < 4 && Unmodulated(m, ch)
    ensures var r, c := Advance(m, ram, n), m.channels[ch];
            && SameSwitches(m, r)
            && LaneOf(r, ch) == if m.enabled[ch] && c.per > 0 && c.len > 0
                                then Cycles(ram, AdkBits(m, ch), LaneOf(m, ch), Clocks(n, c.counter, c.per, 32))
                                else LaneOf(m, ch)
  {
    FirstTurns(m, ram, ch, n, 4);
    if Active(m, ch) {
      PlayIsCycles(ram, AdkBits(m, ch), LaneOf(m, ch), n, CAP);
    }
  }

  // ---------- sequences of calls ----------

  lemma {:induction false} AdvanceTurns(m: Mixer, ram: seq<Nat8>, n: nat, ch: nat)
    requires Valid(m) && m.master && ch < 4 && Unmodulated(m, ch)
    ensures var r := Advance(m, ram, n);
            && SameSwitches(m, r) && LaneOf(r, ch) == Turn(m, ram, ch, n) && Active(r, ch) == Active(m, ch)
  {
    FirstTurns(m, ram, ch, n, 4);
    PlayKeepsOwn(ram, AdkBits(m, ch), LaneOf(m, ch), n, CAP);
  }

  /** Over any calls an unmodulated channel is where its own calls take it. */
  lemma {:induction false} CallsTurn(m: Mixer, ram: seq<Nat8>, calls: seq<nat>, ch: nat)
    requires Valid(m) && m.master && ch < 4 && Unmodulated(m, ch)
    ensures LaneOf(Advances(m, ram, calls), ch) ==
      if Active(m, ch) then Calls(ram, AdkBits(m, ch), LaneOf(m, ch), calls) else LaneOf(m, ch)
    decreases |calls|
  {
    if calls != [] {
      AdvanceTurns(m, ram, calls[0], ch);
      CallsTurn(Advance(m, ram, calls[0]), ram, calls[1..], ch);
    }
  }

  /** A channel about to play its first block, with calls that stay below its cap. */
  ghost predicate Playing(m: Mixer, calls: seq<nat>, ch: nat)
    requires Valid(m) && ch < 4
  {
    && m.master && m.enabled[ch] && Unmodulated(m, ch) && Fresh(LaneOf(m, ch)) && Starts(AdkBits(m, ch), LaneOf(m, ch))
    && forall i :: 0 <= i < |calls| ==> calls[i] <= 31 * m.channels[ch].per
  }

  /** Main result: over any sequence of advances, whatever the other channels do, an unmodulated channel plays its block round
      and round by the clocks the calls add up to. */
  lemma {:induction false} MixerPlaysLoop(m: Mixer, ram: seq<Nat8>, calls: seq<nat>, ch: nat, n: nat, k: nat, r: nat)
    requires Valid(m) && ch < 4 && Playing(m, calls, ch)
    requires n == Sum(calls) && k == n / m.channels[ch].per && r == n % m.channels[ch].per
    ensures InPeriod(AfterExpiries(ram, AdkBits(m, ch), LaneOf(m, ch), k), r, LaneOf(Advances(m, ram, calls), ch))
  {
    CallsTurn(m, ram, calls, ch);
    CallsPlayLoop(ram, AdkBits(m, ch), LaneOf(m, ch), calls, n, k, r);
  }

  /** Main result: over any sequence of advances, f words fetched by channel ch set the next channel's registers: its volume if
      only bit ch of ADKCON is set, its period if only bit ch + 4 is, both by turns if both are, and neither otherwise. */
  lemma {:induction false} MixerModulates(m: Mixer, ram: seq<Nat8>, calls: seq<nat>, ch: nat, f: nat)
    requires Valid(m) && ch < 3 && Playing(m, calls, ch) && f == Sum(calls) / m.channels[ch].per / 2 && f > 0
    ensures var before, after := m.channels[ch + 1], Advances(m, ram, calls).channels[ch + 1];
            var c := m.channels[ch];
            && after.vol == (if !m.vols[ch] then before.vol
                             else Volume(Held(ram, c, if m.pers[ch] && f % 2 == 0 then f - 1 else f)))
            && after.per == (if !m.pers[ch] || (m.vols[ch] && f == 1) then before.per
                             else Held(ram, c, if m.vols[ch] && f % 2 == 1 then f - 1 else f))
  {
    var l := LaneOf(m, ch);
    CallsTurn(m, ram, calls, ch);
    CallsAddUp(ram, AdkBits(m, ch), l, calls);
    ModulatorFeeds(ram, AdkBits(m, ch), l, Sum(calls), f);
    assert LaneOf(Advances(m, ram, calls), ch).vol == Advances(m, ram, calls).channels[ch + 1].vol;
  }
}
