/** All four channels: without modulation they do not touch each other, so advancing the mixer adds up too; and Paula as the
    emulator keeps it, proved against the state machine. */
module PaulaUnit {
  import opened Bits
  import opened Paula
  import opened PaulaLaws

  ghost predicate NoAttach(m: Mixer)
    requires Valid(m)
  {
    forall j :: 0 <= j < 3 ==> !m.vols[j] && !m.pers[j]
  }

  predicate Active(m: Mixer, j: nat)
    requires Valid(m) && j < 4
  {
    m.enabled[j] && m.channels[j].per > 0 && m.channels[j].len > 0
  }

  /** What playing without modulation leaves alone. */
  ghost predicate Settings(l: Lane, r: Lane)
  {
    r.vol == l.vol && r.per == l.per && r.chan.vol == l.chan.vol && r.chan.per == l.chan.per && r.chan.len == l.chan.len
  }

  lemma {:induction false} PlayKeeps(ram: seq<Nat8>, l: Lane, n: nat, steps: nat)
    ensures Settings(l, Play(ram, Attach(false, false), l, n, steps))
    decreases steps
  {
    var r := Loaded(l);
    if n > 0 && steps > 0 && r.chan.left > 0 && r.chan.counter <= n {
      PlayKeeps(ram, Expire(ram, Attach(false, false), r), n - r.chan.counter, steps - 1);
    }
  }

  /** Lane `j` after an advance, if its channel had its turn. */
  ghost function LaneAfter(m: Mixer, ram: seq<Nat8>, j: nat, cycles: nat): Lane
    requires Valid(m) && j < 4
  {
    if Active(m, j) then Play(ram, AttachOf(m, j), LaneOf(m, j), cycles, CAP) else LaneOf(m, j)
  }

  /** The first `k` channels of `m` have had their turn in `r`, the rest have not. */
  ghost predicate Moved(m: Mixer, r: Mixer, ram: seq<Nat8>, k: nat, cycles: nat)
    requires Valid(m) && Valid(r)
  {
    && r == m.(channels := r.channels, irqs := r.irqs)
    && forall j {:trigger LaneOf(r, j)} :: 0 <= j < 4 ==> LaneOf(r, j) == if j < k then LaneAfter(m, ram, j, cycles) else LaneOf(m, j)
  }

  lemma {:induction false} MovedOne(m: Mixer, r: Mixer, ram: seq<Nat8>, k: nat, cycles: nat)
    requires Valid(m) && Valid(r) && NoAttach(m) && k < 4 && Moved(m, r, ram, k, cycles)
    ensures Moved(m, AdvanceOne(r, ram, k, cycles), ram, k + 1, cycles)
  {
    var l := LaneOf(r, k);
    assert l == LaneOf(m, k);
    var s := AdvanceOne(r, ram, k, cycles);
    var p := Play(ram, Attach(false, false), l, cycles, CAP);
    PlayKeeps(ram, l, cycles, CAP);
    forall j | 0 <= j < 4
      ensures LaneOf(s, j) == if j < k + 1 then LaneAfter(m, ram, j, cycles) else LaneOf(m, j)
    {
      assert LaneOf(r, j) == if j < k then LaneAfter(m, ram, j, cycles) else LaneOf(m, j);
    }
  }

  lemma {:induction false} AdvanceMoves(m: Mixer, ram: seq<Nat8>, k: nat, cycles: nat)
    requires Valid(m) && NoAttach(m) && k <= 4
    ensures Moved(m, AdvanceFirst(m, ram, k, cycles), ram, k, cycles)
  {
    if k > 0 {
      AdvanceMoves(m, ram, k - 1, cycles);
      MovedOne(m, AdvanceFirst(m, ram, k - 1, cycles), ram, k - 1, cycles);
    }
  }

  lemma {:induction false} SameLanes(r: Mixer, s: Mixer)
    requires Valid(r) && Valid(s) && s == r.(channels := s.channels, irqs := s.irqs)
    requires forall j {:trigger LaneOf(r, j)} :: 0 <= j < 4 ==> LaneOf(r, j) == LaneOf(s, j)
    ensures r == s
  {
    forall j | 0 <= j < 4
      ensures r.channels[j] == s.channels[j] && r.irqs[j] == s.irqs[j]
    {
      assert LaneOf(r, j) == LaneOf(s, j);
    }
    assert r.channels == s.channels && r.irqs == s.irqs;
  }

  /** Lane by lane, two advances are one. */
  lemma {:induction false} LaneBatches(m: Mixer, r: Mixer, ram: seq<Nat8>, j: nat, a: nat, b: nat)
    requires Valid(m) && Valid(r) && NoAttach(m) && j < 4 && Moved(m, r, ram, 4, a)
    requires Active(m, j) ==> a + b <= m.channels[j].counter + 31 * m.channels[j].per
    ensures LaneAfter(r, ram, j, b) == LaneAfter(m, ram, j, a + b)
  {
    assert LaneOf(r, j) == LaneAfter(m, ram, j, a);
    PlayKeeps(ram, LaneOf(m, j), a, CAP);
    if Active(m, j) {
      PlayBatches(ram, AttachOf(m, j), LaneOf(m, j), a, b);
    }
  }

  /** Main result: with no attach bits and every playing channel below its cap, advancing by `a` and then by `b` clocks is
      advancing by their sum, in every register of all four channels and every interrupt request. */
  lemma {:induction false} MixerBatches(m: Mixer, ram: seq<Nat8>, a: nat, b: nat)
    requires Valid(m) && NoAttach(m)
    requires forall j :: 0 <= j < 4 && Active(m, j) ==> a + b <= m.channels[j].counter + 31 * m.channels[j].per
    ensures Advance(Advance(m, ram, a), ram, b) == Advance(m, ram, a + b)
  {
    if m.master {
      var r, s := Advance(m, ram, a), Advance(m, ram, a + b);
      AdvanceMoves(m, ram, 4, a);
      AdvanceMoves(m, ram, 4, a + b);
      AdvanceMoves(r, ram, 4, b);
      var t := Advance(r, ram, b);
      forall j | 0 <= j < 4
        ensures LaneOf(t, j) == LaneOf(s, j)
      {
        LaneBatches(m, r, ram, j, a, b);
        assert LaneOf(t, j) == LaneAfter(r, ram, j, b);
        assert LaneOf(s, j) == LaneAfter(m, ram, j, a + b);
      }
      SameLanes(t, s);
    }
  }

  // ---------- in place ----------

  method ModulateNext(att: Attach, l: Lane) returns (m: Lane)
    ensures m == Modulate(att, l)
  {
    m := l;
    if att.vol || att.per {
      var d := l.chan.dat;
      if att.vol && (!att.per || !l.chan.phase) {
        m := m.(vol := if d / 64 % 2 == 1 then 64 else d % 64);
      } else {
        m := m.(per := d);
      }
      if att.vol && att.per {
        m := m.(chan := m.chan.(phase := !m.chan.phase));
      }
    }
  }

  method ExpirePeriod(ram: array<Nat8>, att: Attach, l: Lane) returns (m: Lane)
    ensures m == Expire(ram[..], att, l)
  {
    m := l.(chan := l.chan.(counter := l.chan.per));
    if !m.chan.low {
      m := m.(chan := m.chan.(low := true));
    } else {
      m := m.(chan := m.chan.(low := false));
      var c := m.chan;
      if c.ptr + 1 < ram.Length {
        c := c.(dat := ReadWord(ram[..], c.ptr));
      }
      m := ModulateNext(att, m.(chan := c.(ptr := c.ptr + 2)));
      if m.chan.left > 0 {
        m := m.(chan := m.chan.(left := m.chan.left - 1));
      }
      if m.chan.left == 0 {
        m := m.(irq := true);
      }
    }
  }

  /** One channel's share of an advance. */
  method PlayLane(ram: array<Nat8>, att: Attach, l0: Lane, cycles: nat) returns (l: Lane)
    ensures l == Play(ram[..], att, l0, cycles, CAP)
  {
    l := l0;
    var remaining: nat, steps: nat := cycles, CAP;
    while remaining > 0 && steps > 0
      invariant Play(ram[..], att, l, remaining, steps) == Play(ram[..], att, l0, cycles, CAP)
      decreases steps
    {
      steps := steps - 1;
      if l.chan.left == 0 {
        l := l.(chan := l.chan.(ptr := l.chan.lc, left := l.chan.len));
        if l.chan.left == 0 {
          return;
        }
      }
      if l.chan.counter > remaining {
        l := l.(chan := l.chan.(counter := l.chan.counter - remaining));
        return;
      }
      remaining := remaining - l.chan.counter;
      l := ExpirePeriod(ram, att, l);
    }
  }

  class AudioUnit {
    const channels: array<Channel>
    const irqs: array<bool>
    const ram: array<Nat8>
    var master: bool
    var enabled: seq<bool>
    var vols: seq<bool>
    var pers: seq<bool>

    ghost function View(): Mixer
      reads this, channels, irqs
    {
      Mixer(channels[..], irqs[..], master, enabled, vols, pers)
    }

    constructor (ram: array<Nat8>)
      ensures Valid(View()) && fresh(channels) && fresh(irqs) && this.ram == ram && !master
    {
      channels := new Channel[4](_ => Channel(0, 0, 0, 0, 0, 0, false, 0, 0, false));
      irqs := new bool[4](_ => false);
      this.ram := ram;
      master, enabled, vols, pers := false, Zeros(4), Zeros(3), Zeros(3);
    }

    method AdvanceChannel(ch: nat, cycles: nat)
      requires Valid(View()) && ch < 4
      modifies channels, irqs
      ensures View() == AdvanceOne(old(View()), ram[..], ch, cycles)
    {
      var c := channels[ch];
      if !enabled[ch] || c.per == 0 || c.len == 0 {
        return;
      }
      var att := if ch < 3 then Attach(vols[ch], pers[ch]) else Attach(false, false);
      var l := if ch < 3 then Lane(c, channels[ch + 1].vol, channels[ch + 1].per, irqs[ch]) else Lane(c, 0, 0, irqs[ch]);
      l := PlayLane(ram, att, l, cycles);
      channels[ch] := l.chan;
      if ch < 3 {
        channels[ch + 1] := channels[ch + 1].(vol := l.vol, per := l.per);
      }
      irqs[ch] := l.irq;
    }

    /** `cycles` master clocks for the whole unit. */
    method AdvanceAll(cycles: nat)
      requires Valid(View())
      modifies channels, irqs
      ensures View() == Advance(old(View()), ram[..], cycles)
    {
      if !master {
        return;
      }
      ghost var m := View();
      for ch := 0 to 4
        invariant View() == AdvanceFirst(m, ram[..], ch, cycles)
      {
        AdvanceChannel(ch, cycles);
      }
    }

    method Configure(ch: nat, ptr: nat, len: Nat16, per: Nat16, vol: Nat16)
      requires Valid(View()) && ch < 4
      modifies channels
      ensures View() == old(View()).(channels := old(channels[..])[ch := SetChannel(old(channels[ch]), ram[..], ptr, len, per, vol)])
    {
      var a := channels[ch].(lc := ptr, ptr := ptr, len := len, left := len, per := per, counter := per);
      a := a.(vol := vol % 64, low := false, phase := false);
      if a.ptr + 1 < ram.Length {
        a := a.(dat := ReadWord(ram[..], a.ptr));
      }
      channels[ch] := a;
    }
  }
}
