/** What the slot table guarantees for every programming of a line and every blitter load. */
module SlotGuarantees {
  import opened Bits
  import opened DmaSlots

  // ---------- the blitter's share ----------

  /** With priority the blitter may use every free slot; without, it leaves one in four. */
  lemma {:induction false} EligibleShare(t: seq<Channel>, pri: bool, n: nat)
    requires n <= |t|
    ensures var f := Count(t, Free, n); EligibleBefore(t, pri, n) == if pri then f else f - f / 4
  {
    if n > 0 {
      EligibleShare(t, pri, n - 1);
    }
  }

  /** The blitter gets as many slots as it has words or eligible slots, whichever is less; the rest stay free. */
  lemma {:induction false} BlitterShare(t: seq<Channel>, pri: bool, words: nat, n: nat)
    requires n <= |t| && Count(t, Blitter, n) == 0
    ensures var r, k := WithBlitter(t, pri, words), Min(words, EligibleBefore(t, pri, n));
      Count(r, Blitter, n) == k && Count(r, Free, n) == Count(t, Free, n) - k
  {
    if n > 0 {
      BlitterShare(t, pri, words, n - 1);
    }
  }

  lemma {:induction false} CpuShare(t: seq<Channel>, n: nat)
    requires n <= |t| && Count(t, Cpu, n) == 0
    ensures Count(WithCpu(t), Cpu, n) == Count(t, Free, n)
  {
    if n > 0 {
      CpuShare(t, n - 1);
    }
  }

  lemma {:induction false} NoneYet(t: seq<Channel>, ch: Channel, n: nat)
    requires n <= |t| && forall i :: 0 <= i < n ==> t[i] != ch
    ensures Count(t, ch, n) == 0
  {
    if n > 0 {
      NoneYet(t, ch, n - 1);
    }
  }

  /** Main result: the CPU gets every slot left after the copper that the blitter cannot use or does not need;
      without blitter priority that is never less than a quarter. */
  lemma {:induction false} CpuGuarantee(p: Setup, words: nat)
    ensures var t := Offered(p);
      var f, cpu := Count(t, Free, SLOTS), Count(LineTable(p, words), Cpu, SLOTS);
      cpu == f - Min(words, if p.priority then f else f - f / 4) && (!p.priority ==> cpu >= f / 4)
  {
    var t := Offered(p);
    var b := WithBlitter(t, p.priority, words);
    NoneYet(t, Blitter, SLOTS);
    NoneYet(b, Cpu, SLOTS);
    BlitterShare(t, p.priority, words, SLOTS);
    EligibleShare(t, p.priority, SLOTS);
    CpuShare(b, SLOTS);
  }

  /** Main result: the blitter's DMA enable bit changes nothing, in the table or in what the blitter gets. */
  lemma {:induction false} BlitterNotGated(p: Setup, on: bool, words: nat)
    ensures LineTable(p.(blitterOn := on), words) == LineTable(p, words)
  {
    var q := p.(blitterOn := on);
    assert BaseTable(q) == BaseTable(p);
    assert WithBitplanes(BaseTable(q), q) == WithBitplanes(BaseTable(p), p);
  }

  lemma {:induction false} CpuKeeps(t: seq<Channel>, n: nat)
    requires n <= |t|
    ensures Count(WithCpu(t), Blitter, n) == Count(t, Blitter, n)
  {
    if n > 0 {
      CpuKeeps(t, n - 1);
    }
  }

  /** Main result: the blitter gets exactly the smaller of its words and the eligible slots, and so no slot if and only if it
      has no words or the line has no eligible slot. */
  lemma {:induction false} BlitterGuarantee(p: Setup, words: nat)
    ensures var got, room := Count(LineTable(p, words), Blitter, SLOTS), EligibleBefore(Offered(p), p.priority, SLOTS);
      got == Min(words, room) && (got == 0 <==> words == 0 || room == 0)
  {
    var t := Offered(p);
    NoneYet(t, Blitter, SLOTS);
    BlitterShare(t, p.priority, words, SLOTS);
    CpuKeeps(WithBlitter(t, p.priority, words), SLOTS);
  }

  lemma {:induction false} EligibleCounted(t: seq<Channel>, pri: bool, i: nat, n: nat)
    requires i < n <= |t| && Eligible(t, pri, i)
    ensures EligibleBefore(t, pri, n) > 0
  {
    if i < n - 1 {
      EligibleCounted(t, pri, i, n - 1);
    }
  }

  lemma {:induction false} FreeLine(p: Setup)
    requires !p.bitplaneOn && !p.copperOn
    ensures Offered(p)[100] == Free
  {
    assert BaseTable(p)[100] == Free;
  }

  /** A line with every DMA enable bit clear, the blitter's included, still gives the blitter slots. */
  lemma {:induction false} SlotsWithoutEnable()
    ensures var p := Setup(false, false, false, false, false, false, true, 0, false, 0, 0);
      Count(LineTable(p, 1), Blitter, SLOTS) == 1
  {
    var p := Setup(false, false, false, false, false, false, true, 0, false, 0, 0);
    BlitterGuarantee(p, 1);
    FreeLine(p);
    EligibleCounted(Offered(p), true, 100, SLOTS);
  }

  // ---------- the copper's share ----------

  lemma {:induction false} CopperShare(t: seq<Channel>, max: nat, n: nat)
    requires n <= |t| && Count(t, Copper, n) == 0
    ensures Count(WithCopper(t, true, max), Copper, n) == Min(max, OddFree(t, n))
  {
    if n > 0 {
      CopperShare(t, max, n - 1);
    }
  }

  /** Later stages neither give nor take copper slots. */
  lemma {:induction false} CopperKept(t: seq<Channel>, pri: bool, words: nat, n: nat)
    requires n <= |t|
    ensures Count(WithCpu(WithBlitter(t, pri, words)), Copper, n) == Count(t, Copper, n)
  {
    if n > 0 {
      CopperKept(t, pri, words, n - 1);
    }
  }

  /** Main result: the copper holds its slots out of the odd ones, as many as there are up to 32. */
  lemma {:induction false} CopperGuarantee(p: Setup, words: nat)
    ensures Count(LineTable(p, words), Copper, SLOTS) ==
      if p.copperOn then Min(32, OddFree(WithBitplanes(BaseTable(p), p), SLOTS)) else 0
    ensures forall i :: 0 <= i < SLOTS && LineTable(p, words)[i] == Copper ==> i % 2 == 1
  {
    var t := WithBitplanes(BaseTable(p), p);
    NoneYet(t, Copper, SLOTS);
    CopperShare(t, 32, SLOTS);
    if !p.copperOn {
      NoneYet(Offered(p), Copper, SLOTS);
    }
    CopperKept(Offered(p), p.priority, words, SLOTS);
  }

  // ---------- owners ----------

  /** Main result: every slot is owned, enabled fixed slots keep their owner, and bitplane slots are exactly the fetch slots
      of the window that no fixed channel holds. */
  lemma {:induction false} OwnerGuarantee(p: Setup, words: nat, i: nat)
    requires i < SLOTS
    ensures LineTable(p, words)[i] != Free
    ensures i <= 26 && Enabled(p, FixedOwner(i)) ==> LineTable(p, words)[i] == FixedOwner(i)
    ensures LineTable(p, words)[i] == Bitplane <==> Fetches(p, i) && BaseTable(p)[i] == Free
    ensures LineTable(p, words)[i] == Bitplane ==> 24 <= i && p.ddfStart / 4 <= i < p.ddfStop / 4
  {
    assert Offered(p)[i] == Free ==> LineTable(p, words)[i] in {Blitter, Cpu};
    assert Offered(p)[i] != Free ==> LineTable(p, words)[i] == Offered(p)[i];
  }
}
