/** Paula's audio DMA: four channels counting down periods, fetching words in a loop, optionally modulating each other. */
module Paula {
  import opened Bits

  /** `left` counts the words still to fetch; `low` says the low byte of `dat` is playing. */
  datatype Channel = Channel(lc: nat, ptr: nat, len: Nat16, left: Nat16, per: Nat16, counter: Nat16, low: bool, dat: Nat16,
                             vol: nat, phase: bool)

  /** Whether a channel modulates the volume or the period of the next one. */
  datatype Attach = Attach(vol: bool, per: bool)

  /** A channel at work: itself, the next channel's volume and period, and the channel's interrupt request. */
  datatype Lane = Lane(chan: Channel, vol: nat, per: Nat16, irq: bool)

  const CAP := 32

  function ReadWord(ram: seq<Nat8>, addr: nat): Nat16
    requires addr + 1 < |ram|
  {
    var high: nat := ram[addr];
    256 * high + ram[addr + 1]
  }

  /** The word at `addr`, or the one already held when `addr` is outside the guest RAM. */
  function Fetched(ram: seq<Nat8>, addr: nat, held: Nat16): Nat16
  {
    if addr + 1 < |ram| then ReadWord(ram, addr) else held
  }

  /** Start of a block: working registers load from the latches. */
  function Reload(c: Channel): Channel
  {
    if c.left == 0 then c.(ptr := c.lc, left := c.len) else c
  }

  function Modulate(att: Attach, l: Lane): Lane
  {
    if !att.vol && !att.per then l
    else
      var d := l.chan.dat;
      var m := if att.vol && (!att.per || !l.chan.phase) then l.(vol := if d / 64 % 2 == 1 then 64 else d % 64) else l.(per := d);
      if att.vol && att.per then m.(chan := m.chan.(phase := !m.chan.phase)) else m
  }

  function FetchNext(ram: seq<Nat8>, att: Attach, l: Lane): Lane
  {
    var c := l.chan;
    var left := if c.left > 0 then c.left - 1 else 0;
    var m := Modulate(att, l.(chan := c.(dat := Fetched(ram, c.ptr, c.dat), ptr := c.ptr + 2)));
    m.(chan := m.chan.(left := left), irq := m.irq || left == 0)
  }

  /** The period runs out: the other byte plays, and after the low byte the next word is fetched. */
  function Expire(ram: seq<Nat8>, att: Attach, l: Lane): Lane
  {
    var c := l.chan;
    var m := l.(chan := c.(counter := c.per, low := !c.low));
    if c.low then FetchNext(ram, att, m) else m
  }

  /** `remaining` master clocks, giving up after `steps` expiries. */
  function Play(ram: seq<Nat8>, att: Attach, l: Lane, remaining: nat, steps: nat): Lane
    decreases steps, l
  {
    if remaining == 0 || steps == 0 then l
    else
      var r := l.(chan := Reload(l.chan));
      if r.chan.left == 0 then r
      else if r.chan.counter > remaining then r.(chan := r.chan.(counter := r.chan.counter - remaining))
      else Play(ram, att, Expire(ram, att, r), remaining - r.chan.counter, steps - 1)
  }

  // ---------- all four channels ----------

  datatype Mixer = Mixer(channels: seq<Channel>, irqs: seq<bool>, master: bool, enabled: seq<bool>, vols: seq<bool>, pers: seq<bool>)

  predicate Valid(m: Mixer)
  {
    |m.channels| == 4 && |m.irqs| == 4 && |m.enabled| == 4 && |m.vols| == 3 && |m.pers| == 3
  }

  function AttachOf(m: Mixer, ch: nat): Attach
    requires Valid(m) && ch < 4
  {
    if ch < 3 then Attach(m.vols[ch], m.pers[ch]) else Attach(false, false)
  }

  function LaneOf(m: Mixer, ch: nat): Lane
    requires Valid(m) && ch < 4
  {
    if ch < 3 then Lane(m.channels[ch], m.channels[ch + 1].vol, m.channels[ch + 1].per, m.irqs[ch])
    else Lane(m.channels[ch], 0, 0, m.irqs[ch])
  }

  function PutLane(m: Mixer, ch: nat, l: Lane): (r: Mixer)
    requires Valid(m) && ch < 4
    ensures Valid(r)
  {
    var cs := m.channels[ch := l.chan];
    m.(channels := if ch < 3 then cs[ch + 1 := cs[ch + 1].(vol := l.vol, per := l.per)] else cs, irqs := m.irqs[ch := l.irq])
  }

  function AdvanceOne(m: Mixer, ram: seq<Nat8>, ch: nat, cycles: nat): (r: Mixer)
    requires Valid(m) && ch < 4
    ensures Valid(r)
  {
    if !m.enabled[ch] || m.channels[ch].per == 0 || m.channels[ch].len == 0 then m
    else PutLane(m, ch, Play(ram, AttachOf(m, ch), LaneOf(m, ch), cycles, CAP))
  }

  function AdvanceFirst(m: Mixer, ram: seq<Nat8>, k: nat, cycles: nat): (r: Mixer)
    requires Valid(m) && k <= 4
    ensures Valid(r)
  {
    if k == 0 then m else AdvanceOne(AdvanceFirst(m, ram, k - 1, cycles), ram, k - 1, cycles)
  }

  function Advance(m: Mixer, ram: seq<Nat8>, cycles: nat): (r: Mixer)
    requires Valid(m)
    ensures Valid(r)
  {
    if m.master then AdvanceFirst(m, ram, 4, cycles) else m
  }

  /** A channel set up directly: pointer and counters loaded, the first word fetched. */
  function SetChannel(c: Channel, ram: seq<Nat8>, ptr: nat, len: Nat16, per: Nat16, vol: Nat16): Channel
  {
    Channel(ptr, ptr, len, len, per, per, false, Fetched(ram, ptr, c.dat), vol % 64, false)
  }
}
