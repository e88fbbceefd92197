/** What a commit does to sectors that do not decode: they keep their image data only if nothing decoded or they were blank. */
module CommitLoss {
  import opened Bits
  import opened Mfm
  import opened SyncUniqueness
  import opened Track
  import opened TrackReader
  import opened TrackRoundTrip
  import opened FloppyDrive
  import opened FloppyRun

  /** Some turn of the decoder from `pos` on yields sector `k`. */
  ghost predicate Yields(s: seq<bool>, pos: nat, k: nat)
    decreases |s| - pos
  {
    match NextTurn(s, pos)
    case Stop => false
    case Skip(next) => Yields(s, next, k)
    case Good(next, sec, _) => sec == k || Yields(s, next, k)
  }

  /** A sector no turn yields is left as it was, on every stream. */
  lemma {:induction false} Unyielded(s: seq<bool>, pos: nat, acc: Decoded, k: nat)
    requires WellFormed(acc) && k < SECTORS && !Yields(s, pos, k)
    ensures DecodeFrom(s, pos, acc).sectors[k] == acc.sectors[k]
    decreases |s| - pos
  {
    match NextTurn(s, pos)
    case Stop =>
    case Skip(next) => Unyielded(s, next, acc, k);
    case Good(next, sec, data) => Unyielded(s, next, Decoded(acc.found + 1, acc.sectors[sec := data]), k);
  }

  /** Main result: a sector no turn of the decoder yields keeps its image data through a commit if and only if nothing decoded
      or that data was all zero already. */
  lemma {:induction false} UndecodedKeptIff(d: Drive, k: nat)
    requires Valid(d) && d.mfmBits == TRACK_BITS && k < SECTORS && !Yields(d.mfm, 0, k)
    ensures Sector(TrackData(Commit(d)), k) == Sector(TrackData(d), k) <==>
            DecodeTrack(d.mfm).found == 0 || Sector(TrackData(d), k) == ZeroBytes(SECTOR_SIZE)
  {
    var dec := DecodeTrack(d.mfm);
    Unyielded(d.mfm, 0, Nothing(), k);
    if dec.found > 0 {
      CommittedTrack(d, dec);
      assert Sectors(TrackData(Commit(d)))[k] == dec.sectors[k] == ZeroBytes(SECTOR_SIZE);
    }
  }

  // ---------- a track with one sector left ----------

  /** The track of `t` wiped from the second header on. */
  function Wiped(t: seq<Byte>): (s: seq<bool>)
    requires |t| == TRACK_SIZE
    ensures |s| == TRACK_BITS
  {
    TrackStream(t)[..10080] + Zeros(92320)
  }

  lemma {:induction false} WipedSyncs(t: seq<Byte>, q: nat)
    requires |t| == TRACK_SIZE
    ensures HasWord(Wiped(t), SYNC, q) <==> q == HeaderSync(0) || q == DataSync(0)
  {
    SyncPositions(t);
    var s, w := TrackStream(t), Wiped(t);
    assert HasWord(s, SYNC, q) <==> IsSyncPos(q);
    if q + 16 <= 10080 {
      assert WordAt(w, q) == WordAt(s, q);
      if q == HeaderSync(0) || q == DataSync(0) {
        assert IsSyncPos(q);
      }
    } else if q + 16 <= |w| {
      assert !WordAt(w, q)[0] && SYNC[0];
    }
  }

  lemma {:induction false} WipedReads(t: seq<Byte>, pos: nat, n: nat)
    requires |t| == TRACK_SIZE && pos + 16 * n <= 10080
    ensures ReadBytes(Wiped(t), pos, n) == ReadBytes(TrackStream(t), pos, n)
  {
    forall i | 0 <= i < n
      ensures WordAt(Wiped(t), pos + 16 * i) == WordAt(TrackStream(t), pos + 16 * i)
    {
    }
  }

  /** Syncs are read at 960 and 1360 only. */
  ghost predicate OnlyFirst(w: seq<bool>)
  {
    |w| == TRACK_BITS && forall q {:trigger HasWord(w, SYNC, q)} :: 0 <= q ==> (HasWord(w, SYNC, q) <==> q == 960 || q == 1360)
  }

  lemma {:induction false} FirstTurn(w: seq<bool>, data: seq<Byte>)
    requires OnlyFirst(w) && |data| == SECTOR_SIZE
    requires ReadBytes(w, 976, 24) == Header(0) && ReadBytes(w, 1376, SECTOR_SIZE + 2) == Body(data)
    ensures NextTurn(w, 0) == Good(9600, 0, data)
  {
    assert HasWord(w, SYNC, 960) && HasWord(w, SYNC, 1360);
    FindWordFirst(w, SYNC, 0, |w|, 960);
    FindWordFirst(w, SYNC, 1360, |w|, 1360);
    HeaderIsOk(0);
    BodyIsOk(data);
    GoodTurn(w, 0, 960, Header(0), 1360, Body(data));
  }

  lemma {:induction false} NothingAfter(w: seq<bool>)
    requires OnlyFirst(w)
    ensures NextTurn(w, 9600) == Stop
  {
    FindWordNone(w, SYNC, 9600, |w|);
  }

  /** The decoder finds the first sector and then nothing. */
  lemma {:induction false} WipedTurns(t: seq<Byte>, w: seq<bool>)
    requires |t| == TRACK_SIZE && w == Wiped(t)
    ensures NextTurn(w, 0) == Good(9600, 0, Sector(t, 0)) && NextTurn(w, 9600) == Stop
  {
    forall q: nat
      ensures HasWord(w, SYNC, q) <==> q == 960 || q == 1360
    {
      WipedSyncs(t, q);
    }
    WipedReads(t, 976, 24);
    WipedReads(t, 1376, SECTOR_SIZE + 2);
    ReadHeaderBack(t, 0);
    ReadBodyBack(t, 0);
    FirstTurn(w, Sector(t, 0));
    NothingAfter(w);
  }

  lemma {:induction false} WipedDecodes(t: seq<Byte>, w: seq<bool>)
    requires |t| == TRACK_SIZE && w == Wiped(t)
    ensures DecodeTrack(w).found == 1 && !Yields(w, 0, 1)
  {
    WipedTurns(t, w);
    DecodeStep(w, 0, Nothing(), Good(9600, 0, Sector(t, 0)));
    DecodeStep(w, 9600, Decoded(1, Nothing().sectors[0 := Sector(t, 0)]), Stop);
    assert !Yields(w, 9600, 1);
  }

  /** Something decodes, but not sector 1, and a commit turns its non-zero image data to zeros. */
  ghost predicate Loses(d: Drive)
  {
    && Valid(d) && d.mfmBits == TRACK_BITS && DecodeTrack(d.mfm).found > 0 && !Yields(d.mfm, 0, 1)
    && Sector(TrackData(d), 1) != ZeroBytes(SECTOR_SIZE) && Sector(TrackData(Commit(d)), 1) == ZeroBytes(SECTOR_SIZE)
  }

  lemma {:induction false} WipedLoses(d: Drive, t: seq<Byte>)
    requires Valid(d) && d.mfmBits == TRACK_BITS && |t| == TRACK_SIZE && d.mfm == Wiped(t)
    requires Sector(TrackData(d), 1) != ZeroBytes(SECTOR_SIZE)
    ensures Loses(d)
  {
    WipedDecodes(t, d.mfm);
    var dec := DecodeTrack(d.mfm);
    Unyielded(d.mfm, 0, Nothing(), 1);
    CommittedTrack(d, dec);
    assert Sectors(TrackData(Commit(d)))[1] == dec.sectors[1] == ZeroBytes(SECTOR_SIZE);
  }

  function Filled(n: nat): seq<Byte> { seq(n, _ => Ones(8)) }

  /** A clean drive whose disk is filled with 0xFF bytes and whose track lost all sectors but the first. */
  function WipedDrive(): Drive
  {
    Drive(Filled(DISK_SIZE), true, false, 0, 0, true, false, false,
          0, Wiped(Filled(TRACK_SIZE)), TRACK_BITS, false, false, 0, 0, SYNC, false)
  }

  lemma {:induction false} FilledSector(d: Drive)
    requires Valid(d) && d.adf == Filled(DISK_SIZE)
    ensures Sector(TrackData(d), 1) != ZeroBytes(SECTOR_SIZE)
  {
    var i := 5632 * CurrentTrack(d);
    assert d.adf[i + 512] == Ones(8);
    assert TrackData(d)[512] == d.adf[i + 512];
    assert Sector(TrackData(d), 1)[0] == TrackData(d)[512];
    assert Ones(8)[0] && !Zeros(8)[0];
  }

  /** Undecodable sectors do not survive a commit: on this drive sector 1 is lost. */
  lemma {:induction false} SectorLost()
    ensures Loses(WipedDrive())
  {
    var d := WipedDrive();
    FilledSector(d);
    WipedLoses(d, Filled(TRACK_SIZE));
  }
}
