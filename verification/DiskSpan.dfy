/** Transfers that take several ticks: where on the track each tick's words lie, and that RAM and track hold them in order. */
module DiskSpan {
  import opened Bits
  import opened Mfm
  import opened Track
  import opened TrackReader
  import opened FloppyDrive
  import opened FloppyRun
  import opened DiskRead
  import opened DiskLiveness
  import opened DiskWrite

  /** The head of a running transfer: its position, whether the sync was found, and the words still to come. */
  datatype Head = Head(pos: nat, found: bool, left: nat)

  /** Words of `size` bits that a tick can move from `pos`: up to a ninth of a turn, or to the end of the track. */
  function Fit(left: nat, pos: nat, size: nat): nat
    requires size > 0
  {
    if pos > TRACK_BITS then 0
    else
      var room := (if pos + TICK <= TRACK_BITS then TICK else TRACK_BITS - pos) / size;
      if room < left then room else left
  }

  lemma {:induction false} FitIs(words: nat, pos: nat, size: nat)
    requires size > 0 && pos <= TRACK_BITS
    ensures Count(words, pos, Min(pos + TICK, TRACK_BITS), size) == Fit(words, pos, size)
  {
  }

  // ---------- reading ----------

  /** Where the data of this tick starts, or -1. */
  function ReadFirst(s: seq<bool>, h: Head): (p: int)
    requires |s| == TRACK_BITS && h.pos <= TRACK_BITS
    ensures p == -1 || 0 <= p <= TRACK_BITS
  {
    if h.found then h.pos
    else
      var p := SecondWord(s, SYNC, h.pos, Min(h.pos + TICK, TRACK_BITS));
      if p < 0 then -1 else p + 16
  }

  /** The head after one tick: past the words read, then on by a ninth of a turn. */
  function HeadRead(s: seq<bool>, h: Head): (r: Head)
    requires |s| == TRACK_BITS && h.pos <= TRACK_BITS
    ensures r.pos <= TRACK_BITS && r.left <= h.left
  {
    var p := ReadFirst(s, h);
    if p < 0 then h.(pos := HeadAfter(h.pos))
    else
      var k := Fit(h.left, p, 32);
      FitStays(h.left, p, 32);
      Head(HeadAfter(p + 32 * k), true, h.left - k)
  }

  lemma {:induction false} FitStays(left: nat, pos: nat, size: nat)
    requires size > 0 && pos <= TRACK_BITS
    ensures pos + size * Fit(left, pos, size) <= TRACK_BITS && Fit(left, pos, size) <= left
  {
    FitIs(left, pos, size);
  }

  /** The bytes of one tick. */
  function BytesRead(s: seq<bool>, h: Head): (bytes: seq<Byte>)
    requires |s| == TRACK_BITS && h.pos <= TRACK_BITS
    ensures |bytes| == 2 * (h.left - HeadRead(s, h).left) && |bytes| % 2 == 0
  {
    var p := ReadFirst(s, h);
    if p < 0 then [] else FitStays(h.left, p, 32); ReadBytes(s, p, 2 * Fit(h.left, p, 32))
  }

  /** The bytes of `n` ticks, run after run. */
  function Delivered(s: seq<bool>, h: Head, n: nat): (bytes: seq<Byte>)
    requires |s| == TRACK_BITS && h.pos <= TRACK_BITS
    ensures |bytes| % 2 == 0
    decreases n
  {
    if n == 0 || h.left == 0 then [] else BytesRead(s, h) + Delivered(s, HeadRead(s, h), n - 1)
  }

  function HeadOf(d: Drive): Head { Head(d.bitPos, d.dmaSyncFound, d.dmaWords) }

  lemma {:induction false} FirstIs(d: Drive)
    requires Reading(d)
    ensures ReadStart(d, TICK) == ReadFirst(d.mfm, HeadOf(d))
  {
  }

  /** From `d` to `r` the words `bytes` were stored behind each other, and the pointer and the count moved along with them. */
  ghost predicate Spanned(d: Drive, ram: seq<Byte>, r: Outcome, bytes: seq<Byte>)
  {
    && |bytes| % 2 == 0 && r.ram == StoreBytes(ram, d.dmaPtr, bytes) && r.d.dmaPtr == d.dmaPtr + |bytes|
    && r.d.dmaPtr + 2 * r.d.dmaWords == d.dmaPtr + 2 * d.dmaWords
  }

  lemma {:induction false} NoneSpanned(d: Drive, ram: seq<Byte>, e: Drive)
    requires e.dmaPtr == d.dmaPtr && e.dmaWords == d.dmaWords
    ensures forall blk :: Spanned(d, ram, Outcome(e, ram, blk), [])
  {
    assert StoreBytes(ram, d.dmaPtr, []) == ram;
  }

  lemma {:induction false} TickSearches(d: Drive, ram: seq<Byte>)
    requires Reading(d) && ReadFirst(d.mfm, HeadOf(d)) == -1
    ensures HeadOf(Tick(d, ram).d) == HeadRead(d.mfm, HeadOf(d)) && Tick(d, ram).d.mfm == d.mfm
    ensures Spanned(d, ram, Tick(d, ram), [])
  {
    FirstIs(d);
    TickIsRead(d, ram);
    NoneSpanned(d, ram, Tick(d, ram).d);
  }

  lemma {:induction false} ReadFromIs(d: Drive, ram: seq<Byte>, p: nat, k: nat)
    requires Reading(d) && p <= TRACK_BITS && k == Fit(d.dmaWords, p, 32) && p + 32 * k <= TRACK_BITS && k <= d.dmaWords
    ensures ReadFrom(d, ram, p, TICK) ==
            Outcome(d.(dmaSyncFound := true, bitPos := p + 32 * k, dmaPtr := d.dmaPtr + 2 * k, dmaWords := d.dmaWords - k,
                       dmaActive := k < d.dmaWords),
                    StoreBytes(ram, d.dmaPtr, ReadBytes(d.mfm, p, 2 * k)), k == d.dmaWords)
  {
    FitIs(d.dmaWords, p, 32);
  }

  lemma {:induction false} TickFrom(d: Drive, ram: seq<Byte>, p: nat)
    requires Reading(d) && ReadStart(d, TICK) == p
    ensures var r := ReadFrom(d, ram, p, TICK); Tick(d, ram) == r.(d := Rotate(r.d, TICK))
  {
    TickIsRead(d, ram);
  }

  lemma {:induction false} MovedOn(d: Drive, ram: seq<Byte>, p: nat, k: nat, r: Outcome)
    requires d.mfmBits == TRACK_BITS && k <= d.dmaWords && p + 32 * k <= TRACK_BITS == |d.mfm|
    requires r.d == Rotate(d.(dmaSyncFound := true, bitPos := p + 32 * k, dmaPtr := d.dmaPtr + 2 * k, dmaWords := d.dmaWords - k,
                              dmaActive := k < d.dmaWords), TICK)
    requires r.ram == StoreBytes(ram, d.dmaPtr, ReadBytes(d.mfm, p, 2 * k))
    ensures HeadOf(r.d) == Head(HeadAfter(p + 32 * k), true, d.dmaWords - k) && r.d.mfm == d.mfm
    ensures Spanned(d, ram, r, ReadBytes(d.mfm, p, 2 * k))
  {
  }

  lemma {:induction false} TickMoves(d: Drive, ram: seq<Byte>, p: nat, bytes: seq<Byte>)
    requires Reading(d) && ReadFirst(d.mfm, HeadOf(d)) == p && bytes == BytesRead(d.mfm, HeadOf(d))
    ensures HeadOf(Tick(d, ram).d) == HeadRead(d.mfm, HeadOf(d)) && Tick(d, ram).d.mfm == d.mfm
    ensures Spanned(d, ram, Tick(d, ram), bytes)
  {
    var k := Fit(d.dmaWords, p, 32);
    FirstIs(d);
    FitStays(d.dmaWords, p, 32);
    TickFrom(d, ram, p);
    ReadFromIs(d, ram, p, k);
    MovedOn(d, ram, p, k, Tick(d, ram));
  }

  /** One tick of a read against its head. */
  lemma {:induction false} TickReads(d: Drive, ram: seq<Byte>, r: Outcome)
    requires Reading(d) && r == Tick(d, ram)
    ensures HeadOf(r.d) == HeadRead(d.mfm, HeadOf(d)) && r.d.mfm == d.mfm
    ensures Spanned(d, ram, r, BytesRead(d.mfm, HeadOf(d)))
  {
    var p := ReadFirst(d.mfm, HeadOf(d));
    if p < 0 {
      TickSearches(d, ram);
    } else {
      TickMoves(d, ram, p, BytesRead(d.mfm, HeadOf(d)));
    }
  }

  /** Storing one run behind another is storing both. */
  lemma {:induction false} StoreOn(ram: seq<Byte>, ptr: nat, a: seq<Byte>, b: seq<Byte>)
    requires |a| % 2 == 0 && |b| % 2 == 0
    ensures StoreBytes(StoreBytes(ram, ptr, a), ptr + |a|, b) == StoreBytes(ram, ptr, a + b)
  {
  }

  lemma {:induction false} SpannedOn(d: Drive, ram: seq<Byte>, q: Outcome, a: seq<Byte>, r: Outcome, b: seq<Byte>)
    requires Spanned(d, ram, q, a) && Spanned(q.d, q.ram, r, b)
    ensures Spanned(d, ram, r, a + b)
  {
    StoreOn(ram, d.dmaPtr, a, b);
  }

  /** A read that is running or has run out. */
  ghost predicate Running(d: Drive)
  {
    if d.dmaWords > 0 then Reading(d) else Valid(d) && !d.dmaActive
  }

  lemma {:induction false} IdleTick(d: Drive, ram: seq<Byte>)
    requires Valid(d) && !d.dmaActive && d.dmaWords == 0
    ensures var r := Tick(d, ram); Running(r.d) && r.d.dmaWords == 0 && Spanned(d, ram, r, [])
  {
    NoneSpanned(d, ram, Tick(d, ram).d);
  }

  /** What a tick does to a read that is running or has run out. */
  ghost predicate Linked(q: Outcome, r: Outcome)
  {
    && Running(q.d) && Running(r.d) && r.d.mfm == q.d.mfm
    && (if q.d.dmaWords > 0 then HeadOf(r.d) == HeadRead(q.d.mfm, HeadOf(q.d)) && Spanned(q.d, q.ram, r, BytesRead(q.d.mfm, HeadOf(q.d)))
        else r.d.dmaWords == 0 && Spanned(q.d, q.ram, r, []))
  }

  lemma {:induction false} TickLinks(q: Outcome, r: Outcome)
    requires Running(q.d) && r == Tick(q.d, q.ram)
    ensures Linked(q, r)
  {
    if q.d.dmaWords > 0 {
      TickReads(q.d, q.ram, r);
      Progress(q.d, q.ram);
    } else {
      IdleTick(q.d, q.ram);
    }
  }

  lemma {:induction false} TicksNext(d: Drive, ram: seq<Byte>, n: nat)
    requires Valid(d)
    ensures var q := Ticks(d, ram, n); Valid(q.d) && Ticks(d, ram, n + 1) == Tick(q.d, q.ram)
    decreases n
  {
    if n > 0 {
      TicksNext(Tick(d, ram).d, Tick(d, ram).ram, n - 1);
    }
  }

  ghost predicate LinkedAt(rs: seq<Outcome>, i: nat)
    requires i + 1 < |rs|
  {
    Linked(rs[i], rs[i + 1])
  }

  lemma {:induction false} SpansIdle(rs: seq<Outcome>)
    requires rs != [] && rs[0].d.dmaWords == 0 && forall i {:trigger LinkedAt(rs, i)} :: 0 <= i < |rs| - 1 ==> LinkedAt(rs, i)
    ensures Spanned(rs[0].d, rs[0].ram, rs[|rs| - 1], []) && rs[|rs| - 1].d.dmaWords == 0
  {
    var n := |rs| - 1;
    if n == 0 {
      NoneSpanned(rs[0].d, rs[0].ram, rs[0].d);
    } else {
      var front := rs[..n];
      forall i | 0 <= i < n - 1
        ensures LinkedAt(front, i)
      {
        assert LinkedAt(rs, i);
      }
      SpansIdle(front);
      assert LinkedAt(rs, n - 1);
      SpannedOn(rs[0].d, rs[0].ram, rs[n - 1], [], rs[n], []);
    }
  }

  /** The runs of a linked sequence of states add up. */
  lemma {:induction false} SpansAlong(rs: seq<Outcome>, s: seq<bool>, h: Head)
    requires rs != [] && forall i {:trigger LinkedAt(rs, i)} :: 0 <= i < |rs| - 1 ==> LinkedAt(rs, i)
    requires |s| == TRACK_BITS && rs[0].d.mfm == s && h == HeadOf(rs[0].d) && h.pos <= TRACK_BITS
    ensures Spanned(rs[0].d, rs[0].ram, rs[|rs| - 1], Delivered(s, h, |rs| - 1))
    decreases |rs|
  {
    var n := |rs| - 1;
    if h.left == 0 {
      SpansIdle(rs);
    } else if n == 0 {
      NoneSpanned(rs[0].d, rs[0].ram, rs[0].d);
    } else {
      var tail, g := rs[1..], HeadRead(s, h);
      assert LinkedAt(rs, 0);
      forall i | 0 <= i < n - 1
        ensures LinkedAt(tail, i)
      {
        assert LinkedAt(rs, i + 1);
      }
      SpansAlong(tail, s, g);
      SpannedOn(rs[0].d, rs[0].ram, rs[1], BytesRead(s, h), rs[n], Delivered(s, g, n - 1));
    }
  }

  lemma {:induction false} KeepsRunning(d: Drive, ram: seq<Byte>, n: nat)
    requires Running(d)
    ensures Running(Ticks(d, ram, n).d)
  {
    if n > 0 {
      KeepsRunning(d, ram, n - 1);
      TicksNext(d, ram, n - 1);
      TickLinks(Ticks(d, ram, n - 1), Ticks(d, ram, n));
    }
  }

  lemma {:induction false} NextLinked(d: Drive, ram: seq<Byte>, i: nat)
    requires Running(d)
    ensures Linked(Ticks(d, ram, i), Ticks(d, ram, i + 1))
  {
    KeepsRunning(d, ram, i);
    TicksNext(d, ram, i);
    TickLinks(Ticks(d, ram, i), Ticks(d, ram, i + 1));
  }

  /** Main result: over any number of ticks, wherever they split it, a read stores the runs its head passes over one behind the
      other from where its pointer stood, and pointer plus words to come never changes. */
  lemma {:induction false} ReadSpans(d: Drive, ram: seq<Byte>, n: nat)
    requires Running(d)
    ensures Spanned(d, ram, Ticks(d, ram, n), Delivered(d.mfm, HeadOf(d), n))
  {
    var rs := seq(n + 1, i requires 0 <= i <= n => Ticks(d, ram, i));
    forall i | 0 <= i < n
      ensures LinkedAt(rs, i)
    {
      NextLinked(d, ram, i);
    }
    SpansAlong(rs, d.mfm, HeadOf(d));
  }

  /** Main result: when a read of w words into RAM completes, RAM holds its 2w bytes, all of them and in order, and is otherwise
      unchanged. */
  lemma {:induction false} ReadFills(d: Drive, ram: seq<Byte>, n: nat)
    requires Reading(d) && d.dmaPtr + 2 * d.dmaWords <= |ram| && CompletesAt(d, ram, n)
    ensures var ptr, bytes := d.dmaPtr, Delivered(d.mfm, HeadOf(d), n);
            |bytes| == 2 * d.dmaWords && Ticks(d, ram, n).ram == ram[..ptr] + bytes + ram[ptr + 2 * d.dmaWords..]
  {
    ReadSpans(d, ram, n);
    CompletedEmpty(d, ram, n);
    FilledWhole(d, ram, Ticks(d, ram, n), Delivered(d.mfm, HeadOf(d), n));
  }

  lemma {:induction false} FilledWhole(d: Drive, ram: seq<Byte>, r: Outcome, bytes: seq<Byte>)
    requires Spanned(d, ram, r, bytes) && r.d.dmaWords == 0 && d.dmaPtr + 2 * d.dmaWords <= |ram|
    ensures |bytes| == 2 * d.dmaWords && r.ram == ram[..d.dmaPtr] + bytes + ram[d.dmaPtr + 2 * d.dmaWords..]
  {
  }

  lemma {:induction false} CompletedEmpty(d: Drive, ram: seq<Byte>, n: nat)
    requires Reading(d) && n > 0 && Ticks(d, ram, n).blk && !Ticks(d, ram, n).d.dmaActive
    requires forall m :: 0 < m < n ==> Ticks(d, ram, m).d.dmaActive
    ensures Ticks(d, ram, n).d.dmaWords == 0
    decreases n
  {
    Progress(d, ram);
    if n > 1 {
      var q := Tick(d, ram);
      assert q == Ticks(d, ram, 1);
      forall m | 0 < m < n - 1
        ensures Ticks(q.d, q.ram, m).d.dmaActive
      {
        assert Ticks(d, ram, m + 1) == Ticks(q.d, q.ram, m);
      }
      CompletedEmpty(q.d, q.ram, n - 1);
    }
  }

  // ---------- writing ----------

  /** A write transfer is under way, or has run out of words. */
  ghost predicate Gated(d: Drive)
  {
    Valid(d) && (if d.dmaWords > 0 then d.loaded && d.motor && d.dmaActive && d.dmaWrite && d.dmaSync == SYNC else !d.dmaActive)
  }

  function WriteFirst(s: seq<bool>, h: Head): (p: int)
    requires |s| == TRACK_BITS && h.pos <= TRACK_BITS
    ensures p == -1 || 0 <= p <= TRACK_BITS
  {
    if h.found then h.pos
    else
      var p := FindWord(s, SYNC, h.pos, Min(h.pos + TICK, TRACK_BITS));
      if p < 0 then -1 else p + 16
  }

  function HeadWrite(s: seq<bool>, h: Head): (r: Head)
    requires |s| == TRACK_BITS && h.pos <= TRACK_BITS
    ensures r.pos <= TRACK_BITS && r.left <= h.left
  {
    var p := WriteFirst(s, h);
    if p < 0 then h.(pos := HeadAfter(h.pos))
    else
      var k := Fit(h.left, p, 16);
      FitStays(h.left, p, 16);
      Head(HeadAfter(p + 16 * k), true, h.left - k)
  }

  /** Words written in one tick, and where. */
  datatype Burst = Burst(pos: nat, words: nat)

  function BurstOf(s: seq<bool>, h: Head): (b: Burst)
    requires |s| == TRACK_BITS && h.pos <= TRACK_BITS
    ensures b.pos + 16 * b.words <= TRACK_BITS && b.words == h.left - HeadWrite(s, h).left
  {
    var p := WriteFirst(s, h);
    if p < 0 then Burst(0, 0) else FitStays(h.left, p, 16); Burst(p, Fit(h.left, p, 16))
  }

  /** The bursts of `n` ticks of a write that starts on the track `s`. */
  function Bursts(s: seq<bool>, h: Head, n: nat): (bs: seq<Burst>)
    requires |s| == TRACK_BITS && h.pos <= TRACK_BITS
    ensures forall i :: 0 <= i < |bs| ==> bs[i].pos + 16 * bs[i].words <= TRACK_BITS
    decreases n
  {
    if n == 0 || h.left == 0 then [] else [BurstOf(s, h)] + Bursts(s, HeadWrite(s, h), n - 1)
  }

  function Total(bs: seq<Burst>): nat
  {
    if bs == [] then 0 else bs[0].words + Total(bs[1..])
  }

  /** The track after the bursts took their words from RAM, one behind the other from `ptr`. */
  function Burned(s: seq<bool>, ram: seq<Byte>, ptr: nat, bs: seq<Burst>): (r: seq<bool>)
    requires forall i :: 0 <= i < |bs| ==> bs[i].pos + 16 * bs[i].words <= |s|
    ensures |r| == |s|
    decreases |bs|
  {
    if bs == [] then s
    else Burned(Splice(s, bs[0].pos, RamWords(ram, ptr, bs[0].words)), ram, ptr + 2 * bs[0].words, bs[1..])
  }

  /** From `q` to `r` exactly these bursts went from RAM to the track. */
  ghost predicate Burnt(q: Outcome, r: Outcome, bs: seq<Burst>)
  {
    && (forall i :: 0 <= i < |bs| ==> bs[i].pos + 16 * bs[i].words <= |q.d.mfm|)
    && r.ram == q.ram && r.d.mfm == Burned(q.d.mfm, q.ram, q.d.dmaPtr, bs) && r.d.dmaPtr == q.d.dmaPtr + 2 * Total(bs)
    && r.d.dmaPtr + 2 * r.d.dmaWords == q.d.dmaPtr + 2 * q.d.dmaWords
  }

  /** What a tick does to a write. */
  ghost predicate Fed(q: Outcome, r: Outcome)
  {
    && Gated(q.d) && Gated(r.d)
    && (if q.d.dmaWords > 0 then HeadOf(r.d) == HeadWrite(q.d.mfm, HeadOf(q.d)) && Burnt(q, r, [BurstOf(q.d.mfm, HeadOf(q.d))])
        else r.d.dmaWords == 0 && Burnt(q, r, []))
  }

  lemma {:induction false} GateIs(d: Drive)
    requires Gated(d) && d.dmaWords > 0
    ensures WriteStart(d, TICK) == WriteFirst(d.mfm, HeadOf(d))
  {
  }

  lemma {:induction false} GateSearches(q: Outcome, r: Outcome)
    requires Gated(q.d) && q.d.dmaWords > 0 && WriteFirst(q.d.mfm, HeadOf(q.d)) == -1 && r == Tick(q.d, q.ram)
    ensures Fed(q, r)
  {
    GateIs(q.d);
    TickIsTransfer(q.d, q.ram);
    assert RamWords(q.ram, q.d.dmaPtr, 0) == [];
    assert r.d == Rotate(q.d, TICK);
  }

  lemma {:induction false} CommitTouches(d: Drive)
    requires Valid(d) && d.mfmBits == TRACK_BITS
    ensures Commit(d) == d.(adf := Commit(d).adf, dirty := Commit(d).dirty)
  {
    var dec := DecodeTrack(d.mfm);
    if dec.found > 0 {
      var adf := PutTrack(d.adf, CurrentTrack(d), Flatten(dec.sectors));
      assert Commit(d) == d.(adf := adf, dirty := d.dirty || adf != d.adf);
    }
  }

  /** The drive at the end of a write tick: the words on the track, perhaps committed, and the head turned on. */
  ghost predicate Turned(d: Drive, e: Drive, r: Drive)
  {
    r == Rotate(e.(adf := r.adf, dirty := r.dirty), TICK) && e.mfmBits == TRACK_BITS
  }

  lemma {:induction false} TickBurns(d: Drive, ram: seq<Byte>, p: nat, k: nat, e: Drive)
    requires Gated(d) && d.dmaWords > 0 && WriteStart(d, TICK) == p && k == Fit(d.dmaWords, p, 16)
    requires k <= d.dmaWords && p + 16 * k <= TRACK_BITS && e == PutWords(d, ram, p, k)
    ensures Tick(d, ram).ram == ram && Turned(d, e, Tick(d, ram).d)
  {
    FitIs(d.dmaWords, p, 16);
    TickIsTransfer(d, ram);
    CommitTouches(e);
  }

  lemma {:induction false} BurnedOne(d: Drive, ram: seq<Byte>, p: nat, k: nat, e: Drive, q: Outcome, r: Outcome)
    requires Gated(d) && d.dmaWords > 0 && k <= d.dmaWords && p + 16 * k <= TRACK_BITS && e == PutWords(d, ram, p, k)
    requires q.d == d && q.ram == ram && r.ram == ram && Turned(d, e, r.d) && Valid(r.d)
    ensures Gated(r.d) && HeadOf(r.d) == Head(HeadAfter(p + 16 * k), true, d.dmaWords - k) && Burnt(q, r, [Burst(p, k)])
  {
    assert [Burst(p, k)][1..] == [];
  }

  lemma {:induction false} TickFeeds(q: Outcome, r: Outcome)
    requires Gated(q.d) && q.d.dmaWords > 0 && r == Tick(q.d, q.ram)
    ensures Fed(q, r)
  {
    var p := WriteFirst(q.d.mfm, HeadOf(q.d));
    if p < 0 {
      GateSearches(q, r);
    } else {
      var k := Fit(q.d.dmaWords, p, 16);
      GateIs(q.d);
      FitStays(q.d.dmaWords, p, 16);
      var e := PutWords(q.d, q.ram, p, k);
      TickBurns(q.d, q.ram, p, k, e);
      BurnedOne(q.d, q.ram, p, k, e, q, r);
    }
  }

  lemma {:induction false} IdleFeeds(q: Outcome, r: Outcome)
    requires Gated(q.d) && q.d.dmaWords == 0 && r == Tick(q.d, q.ram)
    ensures Fed(q, r)
  {
  }

  /** Once the sync is found the track no longer matters for where the head goes. */
  lemma {:induction false} FoundAnywhere(s: seq<bool>, t: seq<bool>, h: Head, n: nat)
    requires |s| == |t| == TRACK_BITS && h.pos <= TRACK_BITS && h.found
    ensures BurstOf(s, h) == BurstOf(t, h) && HeadWrite(s, h) == HeadWrite(t, h) && Bursts(s, h, n) == Bursts(t, h, n)
    decreases n
  {
    if n > 0 && h.left > 0 {
      FoundAnywhere(s, t, HeadWrite(s, h), n - 1);
    }
  }

  lemma {:induction false} BurntThen(q: Outcome, r: Outcome, b: Burst, t: Outcome, bs: seq<Burst>)
    requires |q.d.mfm| == |r.d.mfm| && Burnt(q, r, [b]) && Burnt(r, t, bs)
    ensures Burnt(q, t, [b] + bs)
  {
    assert [b][1..] == [] && ([b] + bs)[1..] == bs;
    var once := Splice(q.d.mfm, b.pos, RamWords(q.ram, q.d.dmaPtr, b.words));
    assert Burned(q.d.mfm, q.ram, q.d.dmaPtr, [b]) == Burned(once, q.ram, q.d.dmaPtr + 2 * b.words, []) == once;
    assert Total([b]) == b.words;
  }

  ghost predicate FedAt(rs: seq<Outcome>, i: nat)
    requires i + 1 < |rs|
  {
    Fed(rs[i], rs[i + 1])
  }

  lemma {:induction false} FeedsIdle(rs: seq<Outcome>)
    requires rs != [] && rs[0].d.dmaWords == 0 && forall i {:trigger FedAt(rs, i)} :: 0 <= i < |rs| - 1 ==> FedAt(rs, i)
    ensures Burnt(rs[0], rs[|rs| - 1], [])
    decreases |rs|
  {
    if |rs| > 1 {
      assert FedAt(rs, 0);
      forall i | 0 <= i < |rs| - 2
        ensures FedAt(rs[1..], i)
      {
        assert FedAt(rs, i + 1);
      }
      FeedsIdle(rs[1..]);
    }
  }

  lemma {:induction false} FeedsAlong(rs: seq<Outcome>, s: seq<bool>, h: Head)
    requires rs != [] && forall i {:trigger FedAt(rs, i)} :: 0 <= i < |rs| - 1 ==> FedAt(rs, i)
    requires |s| == |rs[0].d.mfm| == TRACK_BITS && (h.found || rs[0].d.mfm == s) && h == HeadOf(rs[0].d) && h.pos <= TRACK_BITS
    ensures Burnt(rs[0], rs[|rs| - 1], Bursts(s, h, |rs| - 1))
    decreases |rs|
  {
    var n := |rs| - 1;
    if h.left == 0 {
      FeedsIdle(rs);
    } else if n > 0 {
      var tail, g, b := rs[1..], HeadWrite(s, h), BurstOf(s, h);
      assert FedAt(rs, 0);
      if h.found {
        FoundAnywhere(rs[0].d.mfm, s, h, 0);
      }
      forall i | 0 <= i < n - 1
        ensures FedAt(tail, i)
      {
        assert FedAt(rs, i + 1);
      }
      SearchKeeps(rs[0], rs[1], s, h);
      FeedsAlong(tail, s, g);
      BurntThen(rs[0], rs[1], b, rs[n], Bursts(s, g, n - 1));
    }
  }

  lemma {:induction false} SearchKeeps(q: Outcome, r: Outcome, s: seq<bool>, h: Head)
    requires |s| == |q.d.mfm| == TRACK_BITS && (h.found || q.d.mfm == s) && h.pos <= TRACK_BITS && Burnt(q, r, [BurstOf(s, h)])
    ensures |r.d.mfm| == TRACK_BITS && (HeadWrite(s, h).found || r.d.mfm == s)
  {
    if !HeadWrite(s, h).found {
      var none := [Burst(0, 0)];
      assert [BurstOf(s, h)] == none && none[1..] == [] && RamWords(q.ram, q.d.dmaPtr, 0) == [];
      assert Burned(s, q.ram, q.d.dmaPtr, none) == Burned(Splice(s, 0, []), q.ram, q.d.dmaPtr, []) == s;
    }
  }

  lemma {:induction false} KeepsGated(d: Drive, ram: seq<Byte>, n: nat)
    requires Gated(d)
    ensures Gated(Ticks(d, ram, n).d)
  {
    if n > 0 {
      KeepsGated(d, ram, n - 1);
      TicksNext(d, ram, n - 1);
      NextFeeds(Ticks(d, ram, n - 1), Ticks(d, ram, n));
    }
  }

  lemma {:induction false} NextFeeds(q: Outcome, r: Outcome)
    requires Gated(q.d) && r == Tick(q.d, q.ram)
    ensures Fed(q, r)
  {
    if q.d.dmaWords > 0 {
      TickFeeds(q, r);
    } else {
      IdleFeeds(q, r);
    }
  }

  lemma {:induction false} NextFed(d: Drive, ram: seq<Byte>, i: nat)
    requires Gated(d)
    ensures Fed(Ticks(d, ram, i), Ticks(d, ram, i + 1))
  {
    KeepsGated(d, ram, i);
    TicksNext(d, ram, i);
    NextFeeds(Ticks(d, ram, i), Ticks(d, ram, i + 1));
  }

  /** Main result: over any number of ticks, wherever they split it, a write puts its words, in order from where its pointer
      stood, on the stretches of track its head passes over, and on nothing else. */
  lemma {:induction false} WriteSpans(d: Drive, ram: seq<Byte>, n: nat)
    requires Gated(d)
    ensures Burnt(Outcome(d, ram, false), Ticks(d, ram, n), Bursts(d.mfm, HeadOf(d), n))
  {
    var rs := seq(n + 1, i requires 0 <= i <= n => Ticks(d, ram, i));
    forall i | 0 <= i < n
      ensures FedAt(rs, i)
    {
      NextFed(d, ram, i);
    }
    FeedsAlong(rs, d.mfm, HeadOf(d));
  }
}
