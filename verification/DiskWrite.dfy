/** Writing a sector by disk DMA: from raw words in RAM, through the track, to the disk image. */
module DiskWrite {
  import opened Bits
  import opened Crc16
  import opened Mfm
  import opened SyncUniqueness
  import opened Track
  import opened TrackReader
  import opened TrackRoundTrip
  import opened FloppyDrive
  import opened FloppyRun
  import opened DiskRead

  /** RAM holds the raw words of a block, encoded after a data bit `prev` of the writer's choice. */
  ghost predicate Encoded(ram: seq<Byte>, ptr: nat, block: seq<Byte>, prev: bool)
  {
    forall i :: 0 <= i < |block| ==> PeekWord(ram, ptr + 2 * i) == Encode(block[i], if i == 0 then prev else block[i - 1][0])
  }

  // ---------- a block spliced into a track ----------

  lemma {:induction false} SpliceOutside(s: seq<bool>, pos: nat, ws: seq<Word>, i: nat)
    requires pos + 16 * |ws| <= |s| && i < |s| && !(pos <= i < pos + 16 * |ws|)
    ensures Splice(s, pos, ws)[i] == s[i]
    decreases |ws|
  {
    if ws != [] {
      SpliceOutside(s, pos, ws[..|ws| - 1], i);
    }
  }

  lemma {:induction false} OverwriteWord(s: seq<bool>, p: nat, w: Word)
    requires p + 16 <= |s|
    ensures WordAt(Overwrite(s, p, w), p) == w
  {
  }

  lemma {:induction false} OverwriteElsewhere(s: seq<bool>, p: nat, w: Word, q: nat)
    requires p + 16 <= |s| && q + 16 <= |s| && (q + 16 <= p || p + 16 <= q)
    ensures WordAt(Overwrite(s, p, w), q) == WordAt(s, q)
  {
  }

  lemma {:induction false} SpliceInside(s: seq<bool>, pos: nat, ws: seq<Word>, i: nat)
    requires pos + 16 * |ws| <= |s| && i < |ws|
    ensures WordAt(Splice(s, pos, ws), pos + 16 * i) == ws[i]
    decreases |ws|
  {
    var n := |ws| - 1;
    var before := Splice(s, pos, ws[..n]);
    if i < n {
      SpliceInside(s, pos, ws[..n], i);
      OverwriteElsewhere(before, pos + 16 * n, ws[n], pos + 16 * i);
    } else {
      OverwriteWord(before, pos + 16 * n, ws[n]);
    }
  }

  /** `u` is the track `s` with other bits in the body of sector `k`. */
  ghost predicate Rewritten(s: seq<bool>, u: seq<bool>, k: nat)
  {
    && |s| == |u| == TRACK_BITS && k < SECTORS
    && forall i :: 0 <= i < TRACK_BITS && !(DataSync(k) + 16 <= i < DataSync(k) + 8240) ==> u[i] == s[i]
  }

  lemma {:induction false} SameWord(s: seq<bool>, u: seq<bool>, k: nat, q: nat)
    requires Rewritten(s, u, k) && q + 16 <= TRACK_BITS && (q <= DataSync(k) || DataSync(k) + 8240 <= q)
    ensures WordAt(u, q) == WordAt(s, q)
  {
  }

  lemma {:induction false} SameBytes(s: seq<bool>, u: seq<bool>, k: nat, pos: nat, n: nat)
    requires Rewritten(s, u, k) && pos + 16 * n <= TRACK_BITS && (pos + 16 * n <= DataSync(k) + 16 || DataSync(k) + 8240 <= pos)
    ensures ReadBytes(u, pos, n) == ReadBytes(s, pos, n)
  {
    forall i | 0 <= i < n
      ensures WordAt(u, pos + 16 * i) == WordAt(s, pos + 16 * i)
    {
      SameWord(s, u, k, pos + 16 * i);
    }
  }

  /** The track data with sector `k` replaced. */
  function Replaced(t: seq<Byte>, k: nat, data: seq<Byte>): (r: seq<Byte>)
    requires |t| == TRACK_SIZE && k < SECTORS && |data| == SECTOR_SIZE
    ensures |r| == TRACK_SIZE
  {
    t[..512 * k] + data + t[512 * k + 512..]
  }

  lemma {:induction false} ReplacedSector(t: seq<Byte>, k: nat, data: seq<Byte>, j: nat)
    requires |t| == TRACK_SIZE && k < SECTORS && |data| == SECTOR_SIZE && j < SECTORS
    ensures Sector(Replaced(t, k, data), j) == if j == k then data else Sector(t, j)
  {
  }

  lemma {:induction false} QuietKept(s: seq<bool>, u: seq<bool>, k: nat, from: nat, to: nat)
    requires Rewritten(s, u, k) && Quiet(s, from, to) && (to <= DataSync(k) || DataSync(k) + 8240 <= from)
    ensures Quiet(u, from, to)
  {
    forall q | from <= q < to
      ensures !HasWord(u, SYNC, q)
    {
      if q + 16 <= TRACK_BITS {
        SameWord(s, u, k, q);
        assert !HasWord(s, SYNC, q);
      }
    }
  }

  lemma {:induction false} HeaderKept(s: seq<bool>, u: seq<bool>, k: nat, j: nat)
    requires Rewritten(s, u, k) && j < SECTORS && Quiet(s, After(j), HeaderSync(j))
    requires HasWord(s, SYNC, HeaderSync(j)) && HasWord(s, SYNC, DataSync(j))
    ensures ReadBytes(u, HeaderSync(j) + 16, 24) == ReadBytes(s, HeaderSync(j) + 16, 24) && Quiet(u, After(j), HeaderSync(j))
    ensures HasWord(u, SYNC, HeaderSync(j)) && HasWord(u, SYNC, DataSync(j))
  {
    SameBytes(s, u, k, HeaderSync(j) + 16, 24);
    SameWord(s, u, k, HeaderSync(j));
    SameWord(s, u, k, DataSync(j));
    QuietKept(s, u, k, After(j), HeaderSync(j));
  }

  lemma {:induction false} BodyKept(s: seq<bool>, u: seq<bool>, k: nat, j: nat)
    requires Rewritten(s, u, k) && j < SECTORS && j != k
    ensures ReadBytes(u, DataSync(j) + 16, SECTOR_SIZE + 2) == ReadBytes(s, DataSync(j) + 16, SECTOR_SIZE + 2)
  {
    SameBytes(s, u, k, DataSync(j) + 16, SECTOR_SIZE + 2);
  }

  lemma {:induction false} SectorKept(s: seq<bool>, t: seq<Byte>, u: seq<bool>, k: nat, data: seq<Byte>, t': seq<Byte>, j: nat)
    requires |t| == |t'| == TRACK_SIZE && Rewritten(s, u, k) && |data| == SECTOR_SIZE && j < SECTORS && ReadableSector(s, t, j)
    requires ReadBytes(u, DataSync(k) + 16, SECTOR_SIZE + 2) == Body(data) && Sector(t', j) == if j == k then data else Sector(t, j)
    ensures ReadableSector(u, t', j)
  {
    HeaderKept(s, u, k, j);
    if j != k {
      BodyKept(s, u, k, j);
    }
  }

  /** A track with one body rewritten decodes to the track data with that sector replaced, whatever sync patterns the new bits
      may happen to hold: the decoder does not look for syncs inside a body. */
  lemma {:induction false} RewrittenReadable(s: seq<bool>, t: seq<Byte>, u: seq<bool>, k: nat, data: seq<Byte>)
    requires Readable(s, t) && Rewritten(s, u, k) && |data| == SECTOR_SIZE
    requires ReadBytes(u, DataSync(k) + 16, SECTOR_SIZE + 2) == Body(data)
    ensures Readable(u, Replaced(t, k, data))
  {
    forall j | 0 <= j < SECTORS
      ensures ReadableSector(u, Replaced(t, k, data), j)
    {
      ReplacedSector(t, k, data, j);
      SectorKept(s, t, u, k, data, Replaced(t, k, data), j);
    }
    QuietKept(s, u, k, After(SECTORS), TRACK_BITS);
  }

  // ---------- the transfer ----------

  lemma {:induction false} SplicedKeeps(s: seq<bool>, k: nat, ws: seq<Word>)
    requires |s| == TRACK_BITS && k < SECTORS && |ws| == SECTOR_SIZE + 2
    ensures Rewritten(s, Splice(s, DataSync(k) + 16, ws), k)
  {
    forall i | 0 <= i < TRACK_BITS && !(DataSync(k) + 16 <= i < DataSync(k) + 8240)
      ensures Splice(s, DataSync(k) + 16, ws)[i] == s[i]
    {
      SpliceOutside(s, DataSync(k) + 16, ws, i);
    }
  }

  /** Words that decode to a block, spliced in, read back as the block. */
  lemma {:induction false} SplicedReads(s: seq<bool>, pos: nat, ws: seq<Word>, block: seq<Byte>)
    requires |ws| == |block| && pos + 16 * |ws| <= |s| && forall i :: 0 <= i < |ws| ==> Decode(ws[i]) == block[i]
    ensures ReadBytes(Splice(s, pos, ws), pos, |block|) == block
  {
    forall i | 0 <= i < |block|
      ensures ReadBytes(Splice(s, pos, ws), pos, |block|)[i] == block[i]
    {
      SpliceInside(s, pos, ws, i);
    }
  }

  lemma {:induction false} EncodedDecodes(ram: seq<Byte>, ptr: nat, block: seq<Byte>, prev: bool)
    requires Encoded(ram, ptr, block, prev)
    ensures forall i :: 0 <= i < |block| ==> Decode(RamWords(ram, ptr, |block|)[i]) == block[i]
  {
    forall i | 0 <= i < |block|
      ensures Decode(RamWords(ram, ptr, |block|)[i]) == block[i]
    {
      DecodeEncode(block[i], if i == 0 then prev else block[i - 1][0]);
    }
  }

  lemma {:induction false} SplicedReadable(s: seq<bool>, t: seq<Byte>, ram: seq<Byte>, ptr: nat, k: nat, data: seq<Byte>, prev: bool)
    requires Carries(s, t) && k < SECTORS && |data| == SECTOR_SIZE && Encoded(ram, ptr, Body(data), prev)
    ensures Readable(Splice(s, DataSync(k) + 16, RamWords(ram, ptr, SECTOR_SIZE + 2)), Replaced(t, k, data))
  {
    var ws := RamWords(ram, ptr, SECTOR_SIZE + 2);
    CarriesReadable(s, t);
    SplicedKeeps(s, k, ws);
    EncodedDecodes(ram, ptr, Body(data), prev);
    SplicedReads(s, DataSync(k) + 16, ws, Body(data));
    RewrittenReadable(s, t, Splice(s, DataSync(k) + 16, ws), k, data);
  }

  // ---------- the commit ----------

  lemma {:induction false} ReplacedSame(t: seq<Byte>, k: nat, data: seq<Byte>)
    requires |t| == TRACK_SIZE && k < SECTORS && |data| == SECTOR_SIZE
    ensures Replaced(t, k, data) == t <==> data == Sector(t, k)
  {
    ReplacedSector(t, k, data, k);
    if data == Sector(t, k) {
      assert Replaced(t, k, data) == t;
    }
  }

  /** `e` is `d` with sector `k` of the track under the head replaced in the image, and dirty exactly if that changed it. */
  ghost predicate SectorWritten(d: Drive, e: Drive, k: nat, data: seq<Byte>)
    requires k < SECTORS && |data| == SECTOR_SIZE
  {
    && Valid(d) && Valid(e) && CurrentTrack(e) == CurrentTrack(d) && TrackData(e) == Replaced(TrackData(d), k, data)
    && (forall other :: 0 <= other < 160 && other != CurrentTrack(d) ==> TrackOf(e.adf, other) == TrackOf(d.adf, other))
    && (e.dirty <==> d.dirty || data != Sector(TrackData(d), k))
  }

  lemma {:induction false} CommittedIs(e: Drive, t: seq<Byte>)
    requires Valid(e) && e.mfmBits == TRACK_BITS && Readable(e.mfm, t)
    ensures TrackData(Commit(e)) == t && Commit(e).adf == PutTrack(e.adf, CurrentTrack(e), t)
  {
    DecodeRest(e.mfm, t, 0, Nothing());
    var dec := DecodeTrack(e.mfm);
    assert dec == Decoded(SECTORS, Sectors(t));
    CommittedTrack(e, dec);
    SectorsInjective(TrackData(Commit(e)), t);
    PutTrackAt(e.adf, CurrentTrack(e), Flatten(dec.sectors), CurrentTrack(e));
    assert TrackData(Commit(e)) == Flatten(dec.sectors);
  }

  lemma {:induction false} PutTrackSame(adf: seq<Byte>, track: nat, t: seq<Byte>)
    requires |adf| == DISK_SIZE && track < 160 && |t| == TRACK_SIZE
    ensures PutTrack(adf, track, t) == adf <==> t == TrackOf(adf, track)
  {
    PutTrackAt(adf, track, t, track);
    if t == TrackOf(adf, track) {
      assert PutTrack(adf, track, t) == adf;
    }
  }

  lemma {:induction false} CommitWrites(e: Drive, k: nat, data: seq<Byte>)
    requires Valid(e) && e.mfmBits == TRACK_BITS && k < SECTORS && |data| == SECTOR_SIZE
    requires Readable(e.mfm, Replaced(TrackData(e), k, data))
    ensures SectorWritten(e, Commit(e), k, data)
  {
    var t := Replaced(TrackData(e), k, data);
    CommittedIs(e, t);
    forall other | 0 <= other < 160 && other != CurrentTrack(e)
      ensures TrackOf(Commit(e).adf, other) == TrackOf(e.adf, other)
    {
      PutTrackAt(e.adf, CurrentTrack(e), t, other);
    }
    PutTrackSame(e.adf, CurrentTrack(e), t);
    ReplacedSame(TrackData(e), k, data);
    CommitDirty(e, t);
  }

  lemma {:induction false} CommitDirty(e: Drive, t: seq<Byte>)
    requires Valid(e) && e.mfmBits == TRACK_BITS && Readable(e.mfm, t)
    ensures Commit(e).dirty <==> e.dirty || Commit(e).adf != e.adf
  {
  }

  // ---------- launch and tick ----------

  lemma {:induction false} WriteFinds(d: Drive, k: nat)
    requires Spinning(d) && HeaderSync(k) < d.bitPos <= DataSync(k) && k < SECTORS && d.dmaSync == SYNC && !d.dmaSyncFound
    ensures WriteStart(d, TICK) == DataSync(k) + 16
  {
    NextIsData(d.mfm, d.bitPos, Min(d.bitPos + TICK, TRACK_BITS), k);
  }

  lemma {:induction false} WholeBlock(d: Drive, k: nat)
    requires d.mfmBits == TRACK_BITS && d.dmaWords == SECTOR_SIZE + 2 && k < SECTORS
    ensures Moved(d, DataSync(k) + 16, TICK, 16) == SECTOR_SIZE + 2
  {
    var pos := DataSync(k) + 16;
    var n := Moved(d, pos, TICK, 16);
    assert Min(pos + TICK, TRACK_BITS) >= pos + 8224;
  }

  lemma {:induction false} WholeTransfer(d: Drive, ram: seq<Byte>, p: nat, e: Drive)
    requires Valid(d) && d.mfmBits == TRACK_BITS && d.dmaActive && p + 16 * d.dmaWords <= TRACK_BITS
    requires WriteStart(d, TICK) == p && Moved(d, p, TICK, 16) == d.dmaWords && e == PutWords(d, ram, p, d.dmaWords)
    ensures WriteTransfer(d, ram, TICK) == Outcome(Commit(e), ram, true)
  {
  }

  lemma {:induction false} TickIsTransfer(d: Drive, ram: seq<Byte>)
    requires Valid(d) && d.loaded && d.motor && d.dmaActive && d.dmaWrite
    ensures var r := WriteTransfer(d, ram, TICK); Tick(d, ram) == r.(d := Rotate(r.d, TICK))
  {
  }

  lemma {:induction false} TickWritesBlock(d: Drive, ram: seq<Byte>, k: nat, e: Drive)
    requires Spinning(d) && HeaderSync(k) < d.bitPos <= DataSync(k) && k < SECTORS
    requires d.dmaActive && d.dmaWrite && d.dmaSync == SYNC && !d.dmaSyncFound && d.dmaWords == SECTOR_SIZE + 2
    requires e == PutWords(d, ram, DataSync(k) + 16, SECTOR_SIZE + 2)
    ensures Tick(d, ram) == Outcome(Rotate(Commit(e), TICK), ram, true)
  {
    WriteFinds(d, k);
    WholeBlock(d, k);
    WholeTransfer(d, ram, DataSync(k) + 16, e);
    TickIsTransfer(d, ram);
  }

  lemma {:induction false} RotatedWritten(d: Drive, e: Drive, k: nat, data: seq<Byte>)
    requires k < SECTORS && |data| == SECTOR_SIZE && SectorWritten(d, e, k, data) && e.mfmBits == TRACK_BITS
    ensures SectorWritten(d, Rotate(e, TICK), k, data)
  {
    var r := Rotate(e, TICK);
    assert r == e.(bitPos := r.bitPos);
  }

  /** Main result: with the head between the header sync and the data sync of sector k, and RAM holding the raw words of 512
      bytes and their CRC, a write of 514 words takes one tick, raises the interrupt, and leaves those bytes in image sector k,
      every other sector and track unchanged, and dirty set exactly if something changed. */
  lemma {:induction false} WriteDelivers(d: Drive, ram: seq<Byte>, ptr: nat, k: nat, data: seq<Byte>, prev: bool)
    requires Spinning(d) && !d.writeProtect && k < SECTORS && HeaderSync(k) < d.bitPos <= DataSync(k)
    requires |data| == SECTOR_SIZE && Encoded(ram, ptr, Body(data), prev)
    ensures var r := Tick(StartWrite(d, ptr, SECTOR_SIZE + 2), ram);
            r.blk && !r.d.dmaActive && r.ram == ram && SectorWritten(d, r.d, k, data)
  {
    var e := WriteOutcome(d, ram, ptr, k);
    SplicedReadable(d.mfm, TrackData(d), ram, ptr, k, data, prev);
    assert TrackData(e) == TrackData(d);
    CommitWrites(e, k, data);
    WrittenFrom(d, e, Rotate(Commit(e), TICK), k, data);
  }

  /** The drive at the moment the words are on the track, and what the tick makes of it. */
  lemma {:induction false} WriteOutcome(d: Drive, ram: seq<Byte>, ptr: nat, k: nat) returns (e: Drive)
    requires Spinning(d) && !d.writeProtect && k < SECTORS && HeaderSync(k) < d.bitPos <= DataSync(k)
    ensures Valid(e) && e.mfmBits == TRACK_BITS && !e.dmaActive && SameImage(d, e)
    ensures e.mfm == Splice(d.mfm, DataSync(k) + 16, RamWords(ram, ptr, SECTOR_SIZE + 2))
    ensures Tick(StartWrite(d, ptr, SECTOR_SIZE + 2), ram) == Outcome(Rotate(Commit(e), TICK), ram, true)
  {
    var d1 := StartWrite(d, ptr, SECTOR_SIZE + 2);
    LaunchedWrite(d, ptr);
    e := PutWords(d1, ram, DataSync(k) + 16, SECTOR_SIZE + 2);
    TickWritesBlock(d1, ram, k, e);
  }

  ghost predicate SameImage(d: Drive, e: Drive)
  {
    e.adf == d.adf && e.dirty == d.dirty && e.cyl == d.cyl && e.head == d.head
  }

  lemma {:induction false} WrittenFrom(d: Drive, e: Drive, f: Drive, k: nat, data: seq<Byte>)
    requires k < SECTORS && |data| == SECTOR_SIZE && Valid(d) && SameImage(d, e) && Valid(e) && e.mfmBits == TRACK_BITS
    requires SectorWritten(e, Commit(e), k, data) && f == Rotate(Commit(e), TICK)
    ensures SectorWritten(d, f, k, data)
  {
    RotatedWritten(e, Commit(e), k, data);
    assert TrackData(e) == TrackData(d);
  }

  lemma {:induction false} LaunchedWrite(d: Drive, ptr: nat)
    requires Spinning(d) && !d.writeProtect
    ensures StartWrite(d, ptr, SECTOR_SIZE + 2) ==
            d.(dmaPtr := ptr, dmaWords := SECTOR_SIZE + 2, dmaSync := SYNC, dmaSyncFound := false, dmaActive := true, dmaWrite := true)
    ensures Spinning(StartWrite(d, ptr, SECTOR_SIZE + 2)) && TrackData(StartWrite(d, ptr, SECTOR_SIZE + 2)) == TrackData(d)
  {
  }

  /** Main result: what was written is what is read. After the write, a seek back to the track and a read from before the
      sector's header deliver the bytes that were written. */
  lemma {:induction false} WriteThenRead(d: Drive, e: Drive, ram: seq<Byte>, k: nat, data: seq<Byte>, pos: nat, ptr: nat, n: nat)
    requires k < SECTORS && |data| == SECTOR_SIZE && SectorWritten(d, e, k, data) && e.loaded && e.motor
    requires BeforeHeader(pos, k) && 1 <= n <= 256 && ptr + 2 * n <= |ram|
    ensures Stored(Seek(e, d.cyl, d.head).(bitPos := pos), ram, ptr, n, data[..2 * n])
  {
    var f := Seek(e, d.cyl, d.head).(bitPos := pos);
    SeekBack(d, e, f, pos);
    ReplacedSector(TrackData(d), k, data, k);
    ReadDelivers(f, ram, ptr, n, k);
  }

  lemma {:induction false} SeekBack(d: Drive, e: Drive, f: Drive, pos: nat)
    requires Valid(d) && Valid(e) && CurrentTrack(e) == CurrentTrack(d) && e.loaded && e.motor && pos <= TRACK_BITS
    requires f == Seek(e, d.cyl, d.head).(bitPos := pos)
    ensures Spinning(f) && TrackData(f) == TrackData(e) && f.bitPos == pos
  {
    SeekFresh(e, d.cyl, d.head);
    TrackCarries(TrackData(e));
    assert 2 * d.cyl + d.head == 2 * e.cyl + e.head;
  }
}
