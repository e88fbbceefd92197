/** The DMA slot table of one scanline: 227 slots shared out by fixed regions and priority. */
module DmaSlots {

  const SLOTS := 227

  datatype Channel = Free | Refresh | Bitplane | Copper | Sprite | Audio | Disk | Blitter | Cpu

  /** What the line is programmed to do: the enable bits of DMACON and the display fetch registers. */
  datatype Setup = Setup(diskOn: bool, audioOn: bool, spriteOn: bool, bitplaneOn: bool, copperOn: bool, blitterOn: bool,
                         priority: bool, depth: nat, hires: bool, ddfStart: nat, ddfStop: nat)

  // ---------- counting ----------

  /** How many of the first n slots belong to a channel. */
  function Count(t: seq<Channel>, ch: Channel, n: nat): (c: nat)
    requires n <= |t|
    ensures c <= n
  {
    if n == 0 then 0 else Count(t, ch, n - 1) + (if t[n - 1] == ch then 1 else 0)
  }

  /** How many of the first n slots are free and odd: the ones the copper may use. */
  function OddFree(t: seq<Channel>, n: nat): (c: nat)
    requires n <= |t|
    ensures c <= n
  {
    if n == 0 then 0 else OddFree(t, n - 1) + (if t[n - 1] == Free && (n - 1) % 2 == 1 then 1 else 0)
  }

  /** The blitter may use slot i: it is free, and without priority it is not a fourth free one. */
  predicate Eligible(t: seq<Channel>, pri: bool, i: nat)
    requires i < |t|
  {
    t[i] == Free && (pri || Count(t, Free, i) % 4 != 3)
  }

  function EligibleBefore(t: seq<Channel>, pri: bool, n: nat): (c: nat)
    requires n <= |t|
    ensures c <= n
  {
    if n == 0 then 0 else EligibleBefore(t, pri, n - 1) + (if Eligible(t, pri, n - 1) then 1 else 0)
  }

  // ---------- the owner of each slot, stage by stage ----------

  function FixedOwner(i: nat): Channel
  {
    if i < 4 then Refresh else if i <= 6 then Disk else if i <= 10 then Audio else if i <= 26 then Sprite else Free
  }

  predicate Enabled(p: Setup, ch: Channel)
  {
    match ch
    case Disk => p.diskOn
    case Audio => p.audioOn
    case Sprite => p.spriteOn
    case _ => true
  }

  function BaseTable(p: Setup): (t: seq<Channel>)
    ensures |t| == SLOTS
  {
    seq(SLOTS, i requires 0 <= i < SLOTS => if Enabled(p, FixedOwner(i)) then FixedOwner(i) else Free)
  }

  /** The order in which planes are fetched within a fetch unit. */
  function PlaneAt(hires: bool, j: nat): nat
    requires j < 8
  {
    if hires then [0, 2, 1, 3, 4, 6, 5, 7][j] else [0, 4, 2, 6, 1, 5, 3, 7][j]
  }

  function FetchStart(p: Setup): nat { if p.ddfStart / 4 < 24 then 24 else p.ddfStart / 4 }

  function FetchStop(p: Setup): (n: nat)
    ensures n <= SLOTS
  {
    if p.ddfStop / 4 > SLOTS then SLOTS else p.ddfStop / 4
  }

  /** A bitplane fetch falls on slot i. */
  predicate Fetches(p: Setup, i: nat)
  {
    p.bitplaneOn && FetchStart(p) <= i < FetchStop(p) &&
    PlaneAt(p.hires, (i - FetchStart(p)) % (if p.hires then 4 else 8)) < p.depth
  }

  function WithBitplanes(t: seq<Channel>, p: Setup): (r: seq<Channel>)
    ensures |r| == |t|
  {
    seq(|t|, i requires 0 <= i < |t| => if t[i] == Free && Fetches(p, i) then Bitplane else t[i])
  }

  function WithCopper(t: seq<Channel>, on: bool, max: nat): (r: seq<Channel>)
    ensures |r| == |t|
  {
    seq(|t|, i requires 0 <= i < |t| =>
      if on && t[i] == Free && i % 2 == 1 && OddFree(t, i) < max then Copper else t[i])
  }

  /** The blitter takes eligible slots while it has words left. */
  function WithBlitter(t: seq<Channel>, pri: bool, words: nat): (r: seq<Channel>)
    ensures |r| == |t|
  {
    seq(|t|, i requires 0 <= i < |t| => if Eligible(t, pri, i) && EligibleBefore(t, pri, i) < words then Blitter else t[i])
  }

  function WithCpu(t: seq<Channel>): (r: seq<Channel>)
    ensures |r| == |t|
  {
    seq(|t|, i requires 0 <= i < |t| => if t[i] == Free then Cpu else t[i])
  }

  /** The table the blitter finds. */
  function Offered(p: Setup): (t: seq<Channel>)
    ensures |t| == SLOTS
  {
    WithCopper(WithBitplanes(BaseTable(p), p), p.copperOn, 32)
  }

  function LineTable(p: Setup, words: nat): (t: seq<Channel>)
    ensures |t| == SLOTS
  {
    WithCpu(WithBlitter(Offered(p), p.priority, words))
  }

  // ---------- the table in place ----------

  method ResetSlots(slots: array<Channel>)
    requires slots.Length == SLOTS
    modifies slots
    ensures forall i :: 0 <= i < SLOTS ==> slots[i] == FixedOwner(i)
  {
    for i := 0 to SLOTS
      invariant forall j :: 0 <= j < i ==> slots[j] == Free
    {
      slots[i] := Free;
    }
    for i := 0 to 4
      invariant forall j :: 0 <= j < SLOTS ==> slots[j] == if j < i then Refresh else Free
    {
      slots[i] := Refresh;
    }
    for i := 4 to 7
      invariant forall j :: 0 <= j < SLOTS ==> slots[j] == if j < i then FixedOwner(j) else Free
    {
      slots[i] := Disk;
    }
    for i := 7 to 11
      invariant forall j :: 0 <= j < SLOTS ==> slots[j] == if j < i then FixedOwner(j) else Free
    {
      slots[i] := Audio;
    }
    for i := 11 to 27
      invariant forall j :: 0 <= j < SLOTS ==> slots[j] == if j < i then FixedOwner(j) else Free
    {
      slots[i] := Sprite;
    }
  }

  method ReleaseIfDisabled(slots: array<Channel>, ch: Channel, on: bool)
    modifies slots
    ensures forall i :: 0 <= i < slots.Length ==> slots[i] == if !on && old(slots[i]) == ch then Free else old(slots[i])
  {
    if !on {
      for i := 0 to slots.Length
        invariant forall j :: 0 <= j < slots.Length ==>
          slots[j] == if j < i && old(slots[j]) == ch then Free else old(slots[j])
      {
        if slots[i] == ch {
          slots[i] := Free;
        }
      }
    }
  }

  method AllocBitplanes(slots: array<Channel>, p: Setup)
    requires slots.Length == SLOTS
    modifies slots
    ensures slots[..] == WithBitplanes(old(slots[..]), p)
  {
    if !p.bitplaneOn || p.depth == 0 {
      return;
    }
    var bpu := p.depth;
    if bpu > 8 { bpu := 8; }
    var start := p.ddfStart / 4;
    if start < 18 { start := 18; }
    if start < 24 { start := 24; }
    var stop := p.ddfStop / 4;
    if stop > SLOTS { stop := SLOTS; }
    if stop <= start {
      return;
    }
    for i := start to stop
      invariant forall j :: 0 <= j < SLOTS ==>
        slots[j] == if j < i && old(slots[j]) == Free && Fetches(p, j) then Bitplane else old(slots[j])
    {
      var plane := PlaneAt(p.hires, (i - start) % (if p.hires then 4 else 8));
      if plane < bpu && slots[i] == Free {
        slots[i] := Bitplane;
      }
    }
  }

  lemma {:induction false} OddFreeGrows(t: seq<Channel>, m: nat, n: nat)
    requires m <= n <= |t|
    ensures OddFree(t, m) <= OddFree(t, n)
  {
    if m < n {
      OddFreeGrows(t, m, n - 1);
    }
  }

  lemma {:induction false} OddFreeMonotone(t: seq<Channel>, m: nat)
    requires m <= |t|
    ensures forall n :: m <= n <= |t| ==> OddFree(t, m) <= OddFree(t, n)
  {
    forall n | m <= n <= |t|
      ensures OddFree(t, m) <= OddFree(t, n)
    {
      OddFreeGrows(t, m, n);
    }
  }

  /** The copper's allocation as far as slot `n`. */
  function CopperTo(t: seq<Channel>, max: nat, n: nat): (r: seq<Channel>)
    ensures |r| == |t|
  {
    seq(|t|, i requires 0 <= i < |t| => if i < n && t[i] == Free && i % 2 == 1 && OddFree(t, i) < max then Copper else t[i])
  }

  lemma {:induction false} CopperNext(t: seq<Channel>, max: nat, n: nat)
    requires n < |t| && OddFree(t, n) < max
    ensures CopperTo(t, max, n + 1) == if t[n] == Free && n % 2 == 1 then CopperTo(t, max, n)[n := Copper] else CopperTo(t, max, n)
  {
  }

  lemma {:induction false} CopperDone(t: seq<Channel>, max: nat, n: nat)
    requires n <= |t| && (n == |t| || OddFree(t, n) >= max)
    ensures CopperTo(t, max, n) == WithCopper(t, true, max)
  {
    OddFreeMonotone(t, n);
  }

  method AllocCopper(slots: array<Channel>, on: bool, max: nat)
    requires slots.Length == SLOTS && max > 0
    modifies slots
    ensures slots[..] == WithCopper(old(slots[..]), on, max)
  {
    ghost var t := slots[..];
    if !on {
      assert WithCopper(t, false, max) == t;
      return;
    }
    var given, i := 0, 0;
    assert CopperTo(t, max, 0) == t;
    while i < SLOTS && given < max
      invariant i <= SLOTS && given == OddFree(t, i) && slots[..] == CopperTo(t, max, i)
      decreases SLOTS - i
    {
      CopperNext(t, max, i);
      assert slots[i] == slots[..][i] == t[i];
      if slots[i] == Free && i % 2 == 1 {
        slots[i] := Copper;
        given := given + 1;
      }
      i := i + 1;
    }
    CopperDone(t, max, i);
  }

  /** Remaining free slots go to the CPU; `cpu` counts them. */
  method FinishSlots(slots: array<Channel>) returns (cpu: nat)
    requires slots.Length == SLOTS
    modifies slots
    ensures slots[..] == WithCpu(old(slots[..])) && cpu == Count(old(slots[..]), Free, SLOTS)
  {
    ghost var t := slots[..];
    cpu := 0;
    for i := 0 to SLOTS
      invariant cpu == Count(t, Free, i)
      invariant forall j :: 0 <= j < SLOTS ==> slots[j] == if j < i && t[j] == Free then Cpu else t[j]
    {
      if slots[i] == Free {
        slots[i] := Cpu;
        cpu := cpu + 1;
      }
    }
  }

  method BaseSlots(slots: array<Channel>, p: Setup)
    requires slots.Length == SLOTS
    modifies slots
    ensures slots[..] == BaseTable(p)
  {
    ResetSlots(slots);
    ReleaseIfDisabled(slots, Disk, p.diskOn);
    ReleaseIfDisabled(slots, Audio, p.audioOn);
    ReleaseIfDisabled(slots, Sprite, p.spriteOn);
    ReleaseIfDisabled(slots, Bitplane, p.bitplaneOn);
    ReleaseIfDisabled(slots, Copper, p.copperOn);
    ReleaseIfDisabled(slots, Blitter, p.blitterOn);
  }

  /** Everything that claims slots before the blitter does. */
  method PrepareSlots(slots: array<Channel>, p: Setup)
    requires slots.Length == SLOTS
    modifies slots
    ensures slots[..] == Offered(p)
  {
    BaseSlots(slots, p);
    AllocBitplanes(slots, p);
    AllocCopper(slots, p.copperOn, 32);
  }
}
