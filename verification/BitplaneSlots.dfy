/** Which slots of a line the display takes: the fetch pattern of every unit of the window, and how many slots that makes. */
module BitplaneSlots {
  import opened Bits
  import opened DmaSlots
  import SlotGuarantees

  // ---------- fixed channels by slot number ----------

  /** Main result: refresh holds slots 0 to 3, and disk 4 to 6, audio 7 to 10 and sprites 11 to 26 just when enabled. */
  lemma {:induction false} FixedSlots(p: Setup, words: nat, i: nat)
    requires i < SLOTS
    ensures var ch := LineTable(p, words)[i];
            && (ch == Refresh <==> i <= 3)
            && (ch == Disk <==> p.diskOn && 4 <= i <= 6)
            && (ch == Audio <==> p.audioOn && 7 <= i <= 10)
            && (ch == Sprite <==> p.spriteOn && 11 <= i <= 26)
  {
    assert Offered(p)[i] == Free ==> LineTable(p, words)[i] in {Blitter, Cpu};
    assert Offered(p)[i] != Free ==> LineTable(p, words)[i] == Offered(p)[i];
  }

  // ---------- one fetch unit ----------

  /** The first slot of the display window: DDFSTRT in slots, but not before slot 24. */
  function Opens(p: Setup): nat { if p.ddfStart / 4 >= 24 then p.ddfStart / 4 else 24 }

  /** The slot after the window: DDFSTOP in slots, but not past the line. */
  function Closes(p: Setup): nat { if p.ddfStop / 4 <= 227 then p.ddfStop / 4 else 227 }

  /** The slots of a fetch unit. */
  function Unit(p: Setup): (n: nat)
    ensures n == 4 || n == 8
  {
    if p.hires then 4 else 8
  }

  /** How many bitplanes must be on for slot j of a unit to fetch. */
  function Needs(p: Setup, j: nat): (n: nat)
    requires j < Unit(p)
    ensures n >= 1
  {
    if p.hires then [1, 3, 2, 4][j] else [1, 5, 3, 7, 2, 6, 4, 8][j]
  }

  /** No fixed channel holds a slot of the window. */
  predicate Clear(p: Setup) { Opens(p) >= 27 || !p.spriteOn }

  /** Slot j of unit u. */
  function SlotOf(p: Setup, u: nat, j: nat): nat { Opens(p) + Unit(p) * u + j }

  lemma {:induction false} InUnit(p: Setup, u: nat, j: nat)
    requires j < Unit(p)
    ensures (SlotOf(p, u, j) - Opens(p)) % Unit(p) == j
  {
    DivUnique(SlotOf(p, u, j) - Opens(p), Unit(p), u, j);
  }

  lemma {:induction false} PatternNeeds(p: Setup, j: nat)
    requires j < Unit(p)
    ensures PlaneAt(p.hires, j) + 1 == Needs(p, j)
  {
  }

  lemma {:induction false} FetchIf(p: Setup, u: nat, j: nat)
    requires j < Unit(p) && SlotOf(p, u, j) < Closes(p) && p.bitplaneOn
    ensures Fetches(p, SlotOf(p, u, j)) <==> Needs(p, j) <= p.depth
  {
    InUnit(p, u, j);
    PatternNeeds(p, j);
  }

  /** Main result: with bitplane DMA on, slot j of every unit of the window, unless a sprite holds it, is a bitplane fetch just when
      enough planes are on for it: in low resolution 1, 5, 3, 7, 2, 6, 4 and 8, in high resolution 1, 3, 2 and 4. */
  lemma {:induction false} UnitPattern(p: Setup, words: nat, u: nat, j: nat)
    requires j < Unit(p) && SlotOf(p, u, j) < Closes(p) && p.bitplaneOn && (SlotOf(p, u, j) >= 27 || !p.spriteOn)
    ensures LineTable(p, words)[SlotOf(p, u, j)] == Bitplane <==> Needs(p, j) <= p.depth
  {
    FetchIf(p, u, j);
    SlotGuarantees.OwnerGuarantee(p, words, SlotOf(p, u, j));
  }

  /** Main result: outside the window, or with bitplane DMA off, no slot is a bitplane fetch. */
  lemma {:induction false} OutsideWindow(p: Setup, words: nat, i: nat)
    requires i < SLOTS && (!p.bitplaneOn || i < Opens(p) || Closes(p) <= i)
    ensures LineTable(p, words)[i] != Bitplane
  {
    SlotGuarantees.OwnerGuarantee(p, words, i);
  }

  // ---------- counting ----------

  /** How many of the first r slots of a unit fetch. */
  function Taken(p: Setup, r: nat): (n: nat)
    requires r <= Unit(p)
    ensures n <= r
  {
    if r == 0 then 0 else Taken(p, r - 1) + (if Needs(p, r - 1) <= p.depth then 1 else 0)
  }

  /** A whole unit fetches each plane once: as many slots as planes are on, up to eight or four. */
  lemma {:induction false} WholeUnit(p: Setup)
    ensures Taken(p, Unit(p)) == Min(p.depth, Unit(p))
  {
    assert Taken(p, 4) == Taken(p, 3) + (if Needs(p, 3) <= p.depth then 1 else 0);
    assert Taken(p, 3) == Taken(p, 2) + (if Needs(p, 2) <= p.depth then 1 else 0);
    assert Taken(p, 2) == Taken(p, 1) + (if Needs(p, 1) <= p.depth then 1 else 0);
    assert Taken(p, 1) == (if Needs(p, 0) <= p.depth then 1 else 0);
    if !p.hires {
      assert Taken(p, 8) == Taken(p, 7) + (if Needs(p, 7) <= p.depth then 1 else 0);
      assert Taken(p, 7) == Taken(p, 6) + (if Needs(p, 6) <= p.depth then 1 else 0);
      assert Taken(p, 6) == Taken(p, 5) + (if Needs(p, 5) <= p.depth then 1 else 0);
      assert Taken(p, 5) == Taken(p, 4) + (if Needs(p, 4) <= p.depth then 1 else 0);
    }
  }

  lemma {:induction false} CountNext(t: seq<Channel>, n: nat)
    requires n < |t|
    ensures Count(t, Bitplane, n + 1) == Count(t, Bitplane, n) + (if t[n] == Bitplane then 1 else 0)
  {
  }

  lemma {:induction false} SlotCount(p: Setup, words: nat, u: nat, j: nat)
    requires j < Unit(p) && SlotOf(p, u, j) < Closes(p) && p.bitplaneOn && Clear(p)
    ensures var t := LineTable(p, words);
      Count(t, Bitplane, SlotOf(p, u, j) + 1) == Count(t, Bitplane, SlotOf(p, u, j)) + (if Needs(p, j) <= p.depth then 1 else 0)
  {
    UnitPattern(p, words, u, j);
    CountNext(LineTable(p, words), SlotOf(p, u, j));
  }

  /** The first r slots of unit u. */
  lemma {:induction false} UnitCount(p: Setup, words: nat, u: nat, r: nat)
    requires r <= Unit(p) && SlotOf(p, u, r) <= Closes(p) && p.bitplaneOn && Clear(p)
    ensures var t := LineTable(p, words);
            Count(t, Bitplane, SlotOf(p, u, r)) == Count(t, Bitplane, SlotOf(p, u, 0)) + Taken(p, r)
  {
    if r > 0 {
      UnitCount(p, words, u, r - 1);
      SlotCount(p, words, u, r - 1);
    }
  }

  lemma {:induction false} NextUnit(p: Setup, u: nat)
    ensures SlotOf(p, u + 1, 0) == SlotOf(p, u, Unit(p)) && SlotOf(p, u, 0) <= SlotOf(p, u + 1, 0)
  {
  }

  lemma {:induction false} OneMoreUnit(p: Setup, words: nat, u: nat, m: nat)
    requires SlotOf(p, u + 1, 0) <= Closes(p) && p.bitplaneOn && Clear(p) && m == Min(p.depth, Unit(p))
    ensures SlotOf(p, u, 0) <= Closes(p)
    ensures Count(LineTable(p, words), Bitplane, SlotOf(p, u + 1, 0)) == Count(LineTable(p, words), Bitplane, SlotOf(p, u, 0)) + m
  {
    NextUnit(p, u);
    UnitCount(p, words, u, Unit(p));
    WholeUnit(p);
  }

  lemma {:induction false} UnitsCount(p: Setup, words: nat, u: nat, m: nat)
    requires SlotOf(p, u, 0) <= Closes(p) && p.bitplaneOn && Clear(p) && m == Min(p.depth, Unit(p))
    ensures Count(LineTable(p, words), Bitplane, SlotOf(p, u, 0)) == u * m
  {
    if u == 0 {
      BeforeWindow(p, words, Opens(p));
    } else {
      OneMoreUnit(p, words, u - 1, m);
      UnitsCount(p, words, u - 1, m);
      UnitSum(u, m);
    }
  }

  lemma {:induction false} UnitSum(u: nat, m: nat)
    requires u > 0
    ensures u * m == (u - 1) * m + m
  {
  }

  lemma {:induction false} BeforeWindow(p: Setup, words: nat, n: nat)
    requires n <= SLOTS && n <= Opens(p)
    ensures Count(LineTable(p, words), Bitplane, n) == 0
  {
    if n > 0 {
      BeforeWindow(p, words, n - 1);
      OutsideWindow(p, words, n - 1);
      CountNext(LineTable(p, words), n - 1);
    }
  }

  lemma {:induction false} AfterWindow(p: Setup, words: nat, n: nat)
    requires Closes(p) <= n <= SLOTS
    ensures Count(LineTable(p, words), Bitplane, n) == Count(LineTable(p, words), Bitplane, Closes(p))
  {
    if Closes(p) < n {
      AfterWindow(p, words, n - 1);
      OutsideWindow(p, words, n - 1);
      CountNext(LineTable(p, words), n - 1);
    }
  }

  /** Main result: a window of u whole units and r slots more takes min(planes, unit) slots for every unit and the slots of the
      started one; the rest of the line holds no bitplane slot. */
  lemma {:induction false} LineTakes(p: Setup, words: nat, u: nat, r: nat)
    requires p.bitplaneOn && Clear(p) && r < Unit(p) && SlotOf(p, u, r) == Closes(p)
    ensures Count(LineTable(p, words), Bitplane, SLOTS) == u * Min(p.depth, if p.hires then 4 else 8) + Taken(p, r)
  {
    UnitsCount(p, words, u, Min(p.depth, Unit(p)));
    UnitCount(p, words, u, r);
    AfterWindow(p, words, SLOTS);
  }

  /** An empty window takes none. */
  lemma {:induction false} NoWindow(p: Setup, words: nat)
    requires !p.bitplaneOn || Closes(p) <= Opens(p) || p.depth == 0
    ensures Count(LineTable(p, words), Bitplane, SLOTS) == 0
  {
    forall i | 0 <= i < SLOTS
      ensures LineTable(p, words)[i] != Bitplane
    {
      SlotGuarantees.OwnerGuarantee(p, words, i);
    }
    SlotGuarantees.NoneYet(LineTable(p, words), Bitplane, SLOTS);
  }
}
