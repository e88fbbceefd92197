/** Reading sectors by disk DMA: what one tick delivers, and exactly when that is sector data. */
module DiskRead {
  import opened Bits
  import opened Mfm
  import opened SyncUniqueness
  import opened Track
  import opened TrackReader
  import opened TrackRoundTrip
  import opened FloppyDrive

  const TICK := 11378

  /** A spinning drive whose track carries the ADF data under the head. */
  ghost predicate Spinning(d: Drive)
  {
    Valid(d) && d.loaded && d.motor && Carries(d.mfm, TrackData(d))
  }

  /** A read transfer for the standard sync word is under way. */
  ghost predicate Reading(d: Drive)
  {
    Spinning(d) && d.dmaActive && !d.dmaWrite && d.dmaSync == SYNC
  }

  /** The head stands where the next sync word is the header sync of sector k. */
  predicate BeforeHeader(pos: nat, k: nat)
  {
    k < SECTORS && pos <= HeaderSync(k) && (k > 0 ==> DataSync(k - 1) < pos)
  }

  /** The head stands inside the header of sector k: the next sync word is its data sync. */
  predicate InHeader(pos: nat, k: nat)
  {
    k < SECTORS && HeaderSync(k) < pos <= DataSync(k)
  }

  function SearchEnd(pos: nat): (end: nat)
    ensures end <= TRACK_BITS
  {
    Min(pos + TICK, TRACK_BITS)
  }

  lemma {:induction false} SecondWordIs(s: seq<bool>, w: Word, pos: nat, end: nat, h: nat, p: int)
    requires end <= |s| && FindWord(s, w, pos, end) == h && FindWord(s, w, h + 208, end) == p
    ensures SecondWord(s, w, pos, end) == p
  {
  }

  lemma {:induction false} StartBeforeHeader(s: seq<bool>, pos: nat, k: nat)
    requires Synced(s) && BeforeHeader(pos, k)
    ensures SecondWord(s, SYNC, pos, SearchEnd(pos)) == DataSync(k)
  {
    NextIsHeader(s, pos, SearchEnd(pos), k);
    NextIsData(s, HeaderSync(k) + 208, SearchEnd(pos), k);
    SecondWordIs(s, SYNC, pos, SearchEnd(pos), HeaderSync(k), DataSync(k));
  }

  lemma {:induction false} StartInHeader(s: seq<bool>, pos: nat, k: nat)
    requires Synced(s) && InHeader(pos, k)
    ensures SecondWord(s, SYNC, pos, SearchEnd(pos)) == if k + 1 < SECTORS then HeaderSync(k + 1) else -1
  {
    var end := SearchEnd(pos);
    NextIsData(s, pos, end, k);
    if k + 1 < SECTORS {
      NextIsHeader(s, DataSync(k) + 208, end, k + 1);
      SecondWordIs(s, SYNC, pos, end, DataSync(k), HeaderSync(k + 1));
    } else {
      NoMoreSync(s, DataSync(k) + 208, end);
      SecondWordIs(s, SYNC, pos, end, DataSync(k), -1);
    }
  }

  lemma {:induction false} StartPastLast(s: seq<bool>, pos: nat)
    requires Synced(s) && DataSync(SECTORS - 1) < pos
    ensures SecondWord(s, SYNC, pos, SearchEnd(pos)) == -1
  {
    NoMoreSync(s, pos, SearchEnd(pos));
  }

  // ---------- one tick ----------

  lemma {:induction false} ReadBytesPrefix(s: seq<bool>, p: nat, m: nat, n: nat)
    requires m <= n && p + 16 * n <= |s|
    ensures ReadBytes(s, p, m) == ReadBytes(s, p, n)[..m]
  {
  }

  lemma MovedAll(d: Drive, pos: nat)
    requires d.mfmBits == TRACK_BITS && 1 <= d.dmaWords <= 256 && pos <= 92576
    ensures Moved(d, pos, TICK, 32) == d.dmaWords
  {
    assert 8192 <= Min(pos + TICK, TRACK_BITS) - pos;
  }

  lemma {:induction false} StartOfRead(d: Drive, p: int)
    requires Valid(d) && d.mfmBits == TRACK_BITS && !d.dmaSyncFound
    requires SecondWord(d.mfm, d.dmaSync, d.bitPos, SearchEnd(d.bitPos)) == p
    ensures ReadStart(d, TICK) == if p < 0 then -1 else p + 16
  {
  }

  /** A transfer that starts at `p` moves its whole block of bytes to memory. */
  lemma {:induction false} TransferFrom(d: Drive, ram: seq<Byte>, p: nat, bytes: seq<Byte>)
    requires Valid(d) && d.mfmBits == TRACK_BITS && d.dmaActive && d.dmaWords <= 256 && p <= 92576 && d.dmaPtr + 2 * d.dmaWords <= |ram|
    requires ReadStart(d, TICK) == p && bytes == ReadBytes(d.mfm, p, 2 * d.dmaWords)
    ensures var r := ReadTransfer(d, ram, TICK);
      r.blk && !r.d.dmaActive && r.ram == ram[..d.dmaPtr] + bytes + ram[d.dmaPtr + |bytes|..]
  {
    MovedAll(d, p);
    assert StoreBytes(ram, d.dmaPtr, bytes) == ram[..d.dmaPtr] + bytes + ram[d.dmaPtr + |bytes|..];
  }

  lemma {:induction false} TickIsRead(d: Drive, ram: seq<Byte>)
    requires Valid(d) && d.loaded && d.motor && d.dmaActive && !d.dmaWrite
    ensures var r := ReadTransfer(d, ram, TICK); Tick(d, ram) == r.(d := Rotate(r.d, TICK))
  {
  }

  lemma {:induction false} Launched(d: Drive, ptr: nat, n: nat)
    requires d.loaded && 1 <= n <= 256
    ensures StartRead(d, ptr, n, SYNC) == d.(dmaPtr := ptr, dmaWords := n, dmaSync := SYNC, dmaSyncFound := false,
                                             dmaActive := true, dmaWrite := false)
  {
    assert SYNC[0] && !Zeros(16)[0];
  }

  /** A read of `n` words launched now ends in one tick with `bytes` in RAM and the interrupt raised. */
  ghost predicate Stored(d: Drive, ram: seq<Byte>, ptr: nat, n: nat, bytes: seq<Byte>)
    requires Valid(d) && 1 <= n <= 256 && ptr + 2 * n <= |ram|
  {
    var r := Tick(StartRead(d, ptr, n, SYNC), ram);
    r.blk && !r.d.dmaActive && r.ram == ram[..ptr] + bytes + ram[ptr + 2 * n..]
  }

  /** A launched read whose second sync is at `p` is complete after one tick and has stored the bytes behind it. */
  lemma {:induction false} LaunchedRead(d: Drive, ram: seq<Byte>, ptr: nat, n: nat, p: nat, bytes: seq<Byte>)
    requires Valid(d) && d.loaded && d.motor && 1 <= n <= 256 && ptr + 2 * n <= |ram| && p <= 92560
    requires SecondWord(d.mfm, SYNC, d.bitPos, SearchEnd(d.bitPos)) == p
    requires bytes == ReadBytes(d.mfm, p + 16, 2 * n)
    ensures Stored(d, ram, ptr, n, bytes)
  {
    var d1 := StartRead(d, ptr, n, SYNC);
    Launched(d, ptr, n);
    StartOfRead(d1, p);
    TransferFrom(d1, ram, p + 16, bytes);
    TickIsRead(d1, ram);
  }

  lemma {:induction false} SectorBytes(s: seq<bool>, t: seq<Byte>, k: nat, n: nat)
    requires Carries(s, t) && k < SECTORS && n <= SECTOR_SIZE
    ensures ReadBytes(s, DataSync(k) + 16, n) == Sector(t, k)[..n]
  {
    assert CarriesSector(s, t, k);
    ReadBytesPrefix(s, DataSync(k) + 16, n, SECTOR_SIZE + 2);
    assert Body(Sector(t, k))[..n] == Sector(t, k)[..n];
  }

  /** One tick after the launch the transfer is complete and memory holds the sector, and nothing else changed. */
  ghost predicate Delivers(d: Drive, ram: seq<Byte>, ptr: nat, n: nat, k: nat)
    requires Valid(d) && 1 <= n <= 256 && ptr + 2 * n <= |ram|
  {
    k < SECTORS && Stored(d, ram, ptr, n, Sector(TrackData(d), k)[..2 * n])
  }

  /** Main result: from anywhere before the header of sector k, a read of up to a sector takes one tick and yields sector k. */
  lemma {:induction false} ReadDelivers(d: Drive, ram: seq<Byte>, ptr: nat, n: nat, k: nat)
    requires Spinning(d) && BeforeHeader(d.bitPos, k) && 1 <= n <= 256 && ptr + 2 * n <= |ram|
    ensures Delivers(d, ram, ptr, n, k)
  {
    StartBeforeHeader(d.mfm, d.bitPos, k);
    SectorBytes(d.mfm, TrackData(d), k, 2 * n);
    LaunchedRead(d, ram, ptr, n, DataSync(k), Sector(TrackData(d), k)[..2 * n]);
  }

  // ---------- where it goes wrong ----------

  /** The bytes start with the header of sector k, as far as they go. */
  ghost predicate StartsWithHeader(bytes: seq<Byte>, k: nat)
  {
    forall i :: 0 <= i < 24 && i < |bytes| ==> bytes[i] == Header(k)[i]
  }

  lemma {:induction false} HeaderBytes(s: seq<bool>, t: seq<Byte>, k: nat, bytes: seq<Byte>)
    requires Carries(s, t) && k < SECTORS && HeaderSync(k) + 16 + 16 * |bytes| <= |s|
    requires bytes == ReadBytes(s, HeaderSync(k) + 16, |bytes|)
    ensures StartsWithHeader(bytes, k)
  {
    assert CarriesSector(s, t, k);
    var hdr := ReadBytes(s, HeaderSync(k) + 16, 24);
    forall i | 0 <= i < 24 && i < |bytes|
      ensures bytes[i] == hdr[i]
    {
    }
  }

  /** From inside the header of sector k the transfer locks on to the next header and delivers the bytes behind its sync, which
      by `HeaderBytes` start with that header. */
  lemma {:induction false} ReadDeliversHeader(d: Drive, ram: seq<Byte>, ptr: nat, n: nat, k: nat, p: nat, bytes: seq<Byte>)
    requires Spinning(d) && InHeader(d.bitPos, k) && k + 1 < SECTORS && 1 <= n <= 256 && ptr + 2 * n <= |ram|
    requires p == HeaderSync(k + 1) && bytes == ReadBytes(d.mfm, p + 16, 2 * n)
    ensures Stored(d, ram, ptr, n, bytes)
  {
    StartInHeader(d.mfm, d.bitPos, k);
    LaunchedRead(d, ram, ptr, n, p, bytes);
  }

  /** From the last header on, the tick finds no second sync and delivers nothing. */
  lemma {:induction false} ReadFindsNothing(d: Drive, ram: seq<Byte>, ptr: nat, n: nat)
    requires Spinning(d) && HeaderSync(SECTORS - 1) < d.bitPos && 1 <= n <= 256
    ensures !Tick(StartRead(d, ptr, n, SYNC), ram).blk
  {
    var d1 := StartRead(d, ptr, n, SYNC);
    Launched(d, ptr, n);
    if d.bitPos <= DataSync(SECTORS - 1) {
      StartInHeader(d.mfm, d.bitPos, SECTORS - 1);
    } else {
      StartPastLast(d.mfm, d.bitPos);
    }
    StartOfRead(d1, -1);
    TickIsRead(d1, ram);
  }

  /** Every head position is before a header, inside one, or past the last data sync. */
  lemma Locate(pos: nat) returns (k: nat)
    ensures BeforeHeader(pos, k) || InHeader(pos, k) || DataSync(SECTORS - 1) < pos
  {
    if pos <= 960 {
      k := 0;
    } else {
      k := (pos - 961) / 9120;
      if k < SECTORS && pos > DataSync(k) {
        k := k + 1;
      }
    }
  }

  ghost predicate SomeDelivery(d: Drive, ram: seq<Byte>, ptr: nat, n: nat)
    requires Valid(d) && 1 <= n <= 256 && ptr + 2 * n <= |ram|
  {
    exists k :: 0 <= k && Delivers(d, ram, ptr, n, k)
  }

  /** Launched at `pos`, a read delivers sector data in the next tick whatever the disk holds. */
  ghost predicate AlwaysDelivers(pos: nat, n: nat)
    requires 1 <= n <= 256
  {
    forall d: Drive, ram: seq<Byte>, ptr: nat ::
      Spinning(d) && d.bitPos == pos && ptr + 2 * n <= |ram| ==> SomeDelivery(d, ram, ptr, n)
  }

  function BlankDrive(pos: nat): Drive
  {
    Drive(ZeroBytes(DISK_SIZE), true, false, 0, 0, true, false, false,
                pos, TrackStream(ZeroBytes(TRACK_SIZE)), TRACK_BITS, false, false, 0, 0, SYNC, false)
  }

  lemma {:induction false} BlankDriveSpins(pos: nat)
    requires pos <= TRACK_BITS
    ensures Spinning(BlankDrive(pos)) && TrackData(BlankDrive(pos)) == ZeroBytes(TRACK_SIZE)
  {
    assert TrackData(BlankDrive(pos)) == ZeroBytes(TRACK_SIZE);
    TrackCarries(ZeroBytes(TRACK_SIZE));
  }

  lemma {:induction false} FormatByteStored(d: Drive, ram: seq<Byte>, n: nat, k: nat)
    requires Spinning(d) && InHeader(d.bitPos, k) && k + 1 < SECTORS && 1 <= n <= 256 && 2 * n <= |ram|
    ensures |Tick(StartRead(d, 0, n, SYNC), ram).ram| > 0 && Tick(StartRead(d, 0, n, SYNC), ram).ram[0] == Ones(8)
  {
    var p := HeaderSync(k + 1);
    StartInHeader(d.mfm, d.bitPos, k);
    assert CarriesSector(d.mfm, TrackData(d), k + 1);
    var bytes := ReadBytes(d.mfm, p + 16, 2 * n);
    LaunchedRead(d, ram, 0, n, p, bytes);
    assert bytes[0] == ReadBytes(d.mfm, p + 16, 24)[0] == Header(k + 1)[0] == Ones(8);
  }

  lemma {:induction false} BlankByteDelivered(d: Drive, ram: seq<Byte>, n: nat, j: nat)
    requires Valid(d) && TrackData(d) == ZeroBytes(TRACK_SIZE) && 1 <= n <= 256 && 2 * n <= |ram|
    requires Delivers(d, ram, 0, n, j)
    ensures |Tick(StartRead(d, 0, n, SYNC), ram).ram| > 0 && Tick(StartRead(d, 0, n, SYNC), ram).ram[0] == Zeros(8)
  {
    assert Sector(TrackData(d), j)[..2 * n][0] == Zeros(8);
  }

  /** On a blank disk, a read launched inside a header stores the format byte 0xFF where data would be zero. */
  lemma {:induction false} NoDeliveryInHeader(d: Drive, ram: seq<Byte>, n: nat, k: nat)
    requires Spinning(d) && TrackData(d) == ZeroBytes(TRACK_SIZE) && InHeader(d.bitPos, k) && k + 1 < SECTORS
    requires 1 <= n <= 256 && 2 * n <= |ram|
    ensures !SomeDelivery(d, ram, 0, n)
  {
    FormatByteStored(d, ram, n, k);
    assert Ones(8)[0] != Zeros(8)[0];
    if j :| 0 <= j && Delivers(d, ram, 0, n, j) {
      BlankByteDelivered(d, ram, n, j);
      assert false;
    }
  }

  lemma {:induction false} SomethingMissing(pos: nat, n: nat)
    requires pos <= TRACK_BITS && 1 <= n <= 256 && forall k :: 0 <= k ==> !BeforeHeader(pos, k)
    ensures !AlwaysDelivers(pos, n)
  {
    var d, ram := BlankDrive(pos), ZeroBytes(512);
    BlankDriveSpins(pos);
    var k := Locate(pos);
    if InHeader(pos, k) && k + 1 < SECTORS {
      NoDeliveryInHeader(d, ram, n, k);
    } else {
      ReadFindsNothing(d, ram, 0, n);
    }
    assert !SomeDelivery(d, ram, 0, n);
  }

  /** Exactly when the mid-header restart is harmless: the next sync word under the head is a header sync. */
  lemma {:induction false} DeliveryIff(pos: nat, n: nat)
    requires pos <= TRACK_BITS && 1 <= n <= 256
    ensures AlwaysDelivers(pos, n) <==> exists k :: 0 <= k && BeforeHeader(pos, k)
  {
    if k :| 0 <= k && BeforeHeader(pos, k) {
      forall d: Drive, ram: seq<Byte>, ptr: nat | Spinning(d) && d.bitPos == pos && ptr + 2 * n <= |ram|
        ensures SomeDelivery(d, ram, ptr, n)
      {
        ReadDelivers(d, ram, ptr, n, k);
      }
    } else {
      SomethingMissing(pos, n);
    }
  }
}
