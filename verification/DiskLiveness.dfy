/** A disk read left alone always completes: a sync is found within two ticks and no two ticks pass without a word. */
module DiskLiveness {
  import opened Bits
  import opened Mfm
  import opened Track
  import opened TrackReader
  import opened TrackRoundTrip
  import opened FloppyDrive
  import opened DiskRead

  lemma MovedSome(d: Drive, pos: nat)
    requires d.mfmBits == TRACK_BITS && d.dmaWords > 0 && pos + 32 <= TRACK_BITS
    ensures Moved(d, pos, TICK, 32) > 0
  {
    assert Min(pos + TICK, TRACK_BITS) - pos >= 32;
  }

  /** The same disk, track and head position. */
  ghost predicate SameTrack(d: Drive, e: Drive)
  {
    e.adf == d.adf && e.mfm == d.mfm && e.cyl == d.cyl && e.head == d.head && e.loaded == d.loaded && e.motor == d.motor
  }

  lemma {:induction false} KeepsReading(d: Drive, e: Drive)
    requires Reading(d) && Valid(e) && SameTrack(d, e) && e.dmaActive && !e.dmaWrite && e.dmaSync == d.dmaSync
    ensures Reading(e)
  {
    assert TrackData(e) == TrackData(d);
  }

  /** Where the head is taken from by the rotation: the transfer's end, or where it was. */
  function HeadAfter(pos: nat): nat { if pos + TICK >= TRACK_BITS then pos + TICK - TRACK_BITS else pos + TICK }

  lemma {:induction false} TickWithoutStart(d: Drive, ram: seq<Byte>)
    requires Reading(d) && ReadStart(d, TICK) == -1
    ensures Tick(d, ram) == Outcome(d.(bitPos := HeadAfter(d.bitPos)), ram, false)
  {
    TickIsRead(d, ram);
  }

  lemma {:induction false} TickWithStart(d: Drive, ram: seq<Byte>, p: nat)
    requires Reading(d) && ReadStart(d, TICK) == p
    ensures var r, k := Tick(d, ram), Moved(d, p, TICK, 32);
      r.blk == (k == d.dmaWords) && r.d.bitPos == HeadAfter(p + 32 * k) && r.d.dmaWords == d.dmaWords - k &&
      r.d.dmaActive == (k < d.dmaWords) && r.d.dmaSyncFound && SameTrack(d, r.d) && !r.d.dmaWrite && r.d.dmaSync == SYNC
  {
    TickIsRead(d, ram);
  }

  lemma {:induction false} StartOf(d: Drive) returns (p: int)
    requires Reading(d)
    ensures p == ReadStart(d, TICK)
    ensures d.dmaSyncFound ==> p == d.bitPos
    ensures !d.dmaSyncFound && d.bitPos <= HeaderSync(SECTORS - 1) ==> 0 <= p && p + 32 <= TRACK_BITS
    ensures !d.dmaSyncFound && HeaderSync(SECTORS - 1) < d.bitPos ==> p == -1
  {
    p := ReadStart(d, TICK);
    if !d.dmaSyncFound {
      var k := Locate(d.bitPos);
      if BeforeHeader(d.bitPos, k) {
        StartBeforeHeader(d.mfm, d.bitPos, k);
        StartOfRead(d, DataSync(k));
      } else if InHeader(d.bitPos, k) {
        StartInHeader(d.mfm, d.bitPos, k);
        StartOfRead(d, if k + 1 < SECTORS then HeaderSync(k + 1) else -1);
      } else {
        StartPastLast(d.mfm, d.bitPos);
        StartOfRead(d, -1);
      }
    }
  }

  /** What one tick of a running read keeps, and what it achieves: a word moved, or the head in the first ninth. */
  ghost predicate Progressed(d: Drive, r: Outcome)
  {
    r.d.bitPos < TRACK_BITS && (r.blk <==> !r.d.dmaActive) && (r.blk <==> r.d.dmaWords == 0) &&
    (r.d.dmaActive ==> Reading(r.d)) && (d.dmaSyncFound ==> r.d.dmaSyncFound) &&
    (if r.d.dmaWords < d.dmaWords then r.d.dmaSyncFound else r.d.dmaWords == d.dmaWords && r.d.bitPos <= TICK)
  }

  lemma {:induction false} Progress(d: Drive, ram: seq<Byte>)
    requires Reading(d)
    ensures Progressed(d, Tick(d, ram))
    ensures d.bitPos <= TICK ==> Tick(d, ram).d.dmaWords < d.dmaWords
  {
    var p := StartOf(d);
    var r := Tick(d, ram);
    if p < 0 {
      TickWithoutStart(d, ram);
      KeepsReading(d, r.d);
    } else {
      TickWithStart(d, ram, p);
      if p + 32 <= TRACK_BITS {
        MovedSome(d, p);
      }
      if r.d.dmaActive {
        KeepsReading(d, r.d);
      }
    }
  }

  /** The drive after n ticks, with the interrupt state of the last one. */
  function Ticks(d: Drive, ram: seq<Byte>, n: nat): (r: Outcome)
    requires Valid(d)
    decreases n
  {
    if n == 0 then Outcome(d, ram, false)
    else if n == 1 then Tick(d, ram)
    else Ticks(Tick(d, ram).d, Tick(d, ram).ram, n - 1)
  }

  /** The read is still running after every tick before the n-th and ends with the interrupt at the n-th. */
  ghost predicate CompletesAt(d: Drive, ram: seq<Byte>, n: nat)
    requires Valid(d)
  {
    n > 0 && Ticks(d, ram, n).blk && !Ticks(d, ram, n).d.dmaActive &&
    forall m :: 0 < m < n ==> !Ticks(d, ram, m).blk && Ticks(d, ram, m).d.dmaActive
  }

  lemma {:induction false} CompletesLater(d: Drive, ram: seq<Byte>, n: nat)
    requires Valid(d) && !Tick(d, ram).blk && Tick(d, ram).d.dmaActive
    requires CompletesAt(Tick(d, ram).d, Tick(d, ram).ram, n)
    ensures CompletesAt(d, ram, n + 1)
  {
    var r := Tick(d, ram);
    forall m | 0 < m < n + 1
      ensures !Ticks(d, ram, m).blk && Ticks(d, ram, m).d.dmaActive
    {
      if m > 1 {
        assert Ticks(d, ram, m) == Ticks(r.d, r.ram, m - 1);
      }
    }
  }

  /** A sync is found within two ticks. */
  lemma {:induction false} SyncWithinTwo(d: Drive, ram: seq<Byte>)
    requires Reading(d)
    ensures Tick(d, ram).d.dmaSyncFound || Ticks(d, ram, 2).d.dmaSyncFound
  {
    Progress(d, ram);
    var r := Tick(d, ram);
    if !r.d.dmaSyncFound {
      Progress(r.d, r.ram);
      assert Ticks(d, ram, 2) == Ticks(r.d, r.ram, 1);
    }
  }

  /** Main result: a read of w words completes, with its interrupt, within 2w ticks. */
  lemma {:induction false} ReadCompletes(d: Drive, ram: seq<Byte>) returns (n: nat)
    requires Reading(d)
    ensures n <= 2 * d.dmaWords && (d.bitPos <= TICK ==> n <= 2 * d.dmaWords - 1) && CompletesAt(d, ram, n)
    decreases d.dmaWords, if d.bitPos <= TICK then 0 else 1
  {
    Progress(d, ram);
    var r := Tick(d, ram);
    if r.blk {
      n := 1;
    } else {
      var m := ReadCompletes(r.d, r.ram);
      CompletesLater(d, ram, m);
      n := m + 1;
    }
  }
}
