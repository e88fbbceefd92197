/** Reading a generated track: where the next sync is, and that every sector comes back. */
module TrackRoundTrip {
  import opened Bits
  import opened Crc16
  import CrcLaws
  import opened Mfm
  import opened SyncUniqueness
  import opened Track
  import opened TrackReader

  function Sectors(t: seq<Byte>): (r: seq<seq<Byte>>)
    requires |t| == TRACK_SIZE
    ensures |r| == SECTORS
  {
    seq(SECTORS, k requires 0 <= k < SECTORS => Sector(t, k))
  }

  /** From anywhere past the data sync of sector k-1, the next sync found is the header sync of sector k. */
  lemma {:induction false} NextIsHeader(s: seq<bool>, pos: nat, end: nat, k: nat)
    requires Synced(s) && k < SECTORS && end <= TRACK_BITS
    requires pos <= HeaderSync(k) && (k > 0 ==> DataSync(k - 1) < pos)
    ensures FindWord(s, SYNC, pos, end) == if HeaderSync(k) + 16 <= end then HeaderSync(k) else -1
  {
    assert IsSyncPos(HeaderSync(k)) && HasWord(s, SYNC, HeaderSync(k));
    assert forall q :: pos <= q < HeaderSync(k) ==> !HasWord(s, SYNC, q);
    if HeaderSync(k) + 16 <= end {
      FindWordFirst(s, SYNC, pos, end, HeaderSync(k));
    } else {
      FindWordNone(s, SYNC, pos, end);
    }
  }

  /** From anywhere past the header sync of sector k, the next sync found is its data sync. */
  lemma {:induction false} NextIsData(s: seq<bool>, pos: nat, end: nat, k: nat)
    requires Synced(s) && k < SECTORS && end <= TRACK_BITS
    requires HeaderSync(k) < pos <= DataSync(k)
    ensures FindWord(s, SYNC, pos, end) == if DataSync(k) + 16 <= end then DataSync(k) else -1
  {
    assert IsSyncPos(DataSync(k)) && HasWord(s, SYNC, DataSync(k));
    assert forall q :: pos <= q < DataSync(k) ==> !HasWord(s, SYNC, q);
    if DataSync(k) + 16 <= end {
      FindWordFirst(s, SYNC, pos, end, DataSync(k));
    } else {
      FindWordNone(s, SYNC, pos, end);
    }
  }

  lemma {:induction false} NoMoreSync(s: seq<bool>, pos: nat, end: nat)
    requires Synced(s) && DataSync(SECTORS - 1) < pos && end <= TRACK_BITS
    ensures FindWord(s, SYNC, pos, end) == -1
  {
    assert forall q :: pos <= q ==> !HasWord(s, SYNC, q);
    FindWordNone(s, SYNC, pos, end);
  }

  lemma {:induction false} ReadCells(s: seq<bool>, cells: seq<Cell>, n: nat, p: nat, data: seq<Byte>)
    requires Encodes(s, cells) && n + |data| <= |cells| && p == 16 * n
    requires cells[n..n + |data|] == DataCells(data)
    ensures ReadBytes(s, p, |data|) == data
  {
    forall i | 0 <= i < |data|
      ensures ReadBytes(s, p, |data|)[i] == data[i]
    {
      assert cells[n + i] == cells[n..n + |data|][i] == Data(data[i]);
      DecodeCell(s, cells, n + i);
    }
  }

  lemma {:induction false} ReadHeaderBack(t: seq<Byte>, k: nat)
    requires |t| == TRACK_SIZE && k < SECTORS
    ensures ReadBytes(TrackStream(t), HeaderSync(k) + 16, 24) == Header(k)
  {
    var cells, n := HeaderBlock(t, k);
    ReadCells(TrackStream(t), cells, n, HeaderSync(k) + 16, Header(k));
  }

  lemma {:induction false} ReadBodyBack(t: seq<Byte>, k: nat)
    requires |t| == TRACK_SIZE && k < SECTORS
    ensures ReadBytes(TrackStream(t), DataSync(k) + 16, SECTOR_SIZE + 2) == Body(Sector(t, k))
  {
    var cells, n := BodyBlock(t, k);
    ReadCells(TrackStream(t), cells, n, DataSync(k) + 16, Body(Sector(t, k)));
  }

  /** A stream laid out as a track that holds the data `t`, as far as a reader can tell. */
  ghost predicate Carries(s: seq<bool>, t: seq<Byte>)
  {
    |t| == TRACK_SIZE && Synced(s) && forall k :: 0 <= k < SECTORS ==> CarriesSector(s, t, k)
  }

  ghost predicate CarriesSector(s: seq<bool>, t: seq<Byte>, k: nat)
    requires |t| == TRACK_SIZE && |s| == TRACK_BITS && k < SECTORS
  {
    ReadBytes(s, HeaderSync(k) + 16, 24) == Header(k) &&
    ReadBytes(s, DataSync(k) + 16, SECTOR_SIZE + 2) == Body(Sector(t, k))
  }

  lemma {:induction false} TrackCarries(t: seq<Byte>)
    requires |t| == TRACK_SIZE
    ensures Carries(TrackStream(t), t)
  {
    SyncPositions(t);
    forall k | 0 <= k < SECTORS
      ensures CarriesSector(TrackStream(t), t, k)
    {
      ReadHeaderBack(t, k);
      ReadBodyBack(t, k);
    }
  }

  lemma JoinHiLo(w: Word)
    ensures Join(Hi(w), Lo(w)) == w
  {
  }

  lemma {:induction false} HeaderIsOk(k: nat)
    requires k < SECTORS
    ensures HeaderOk(Header(k)) && Value(Header(k)[2]) == k
  {
    var c := Crc(HeaderBody(k));
    assert Header(k)[..20] == HeaderBody(k);
    assert Header(k)[20] == Hi(c) && Header(k)[21] == Lo(c);
    JoinHiLo(c);
    assert Pow2(8) == 2 * Pow2(7) && Pow2(7) == 2 * Pow2(6) && Pow2(6) == 2 * Pow2(5) && Pow2(5) == 2 * Pow2(4);
    ValueOfNat(k, 8);
    assert Header(k)[2] == HeaderBody(k)[2] == OfNat(k, 8);
  }

  lemma {:induction false} BodyIsOk(data: seq<Byte>)
    requires |data| == SECTOR_SIZE
    ensures BodyOk(Body(data)) && Body(data)[..SECTOR_SIZE] == data
  {
    assert Body(data)[..SECTOR_SIZE] == data;
    JoinHiLo(Crc(data));
  }

  lemma {:induction false} GoodTurn(s: seq<bool>, pos: nat, h: nat, hdr: seq<Byte>, d: nat, body: seq<Byte>)
    requires pos + 16 < |s| && h + 400 <= |s| && d + 8240 <= |s|
    requires FindSync(s, pos) == h && ReadBytes(s, h + 16, 24) == hdr && HeaderOk(hdr)
    requires FindSync(s, h + 400) == d && ReadBytes(s, d + 16, SECTOR_SIZE + 2) == body && BodyOk(body)
    ensures NextTurn(s, pos) == Good(d + 8240, Value(hdr[2]), body[..SECTOR_SIZE])
  {
    TurnAtHeader(s, pos, h, hdr);
  }

  /** Where the decoder stands after collecting k sectors. */
  function After(k: nat): nat { if k == 0 then 0 else DataSync(k - 1) + 8240 }

  /** All the decoder needs of a stream to find the sectors of `t`: blocks behind their syncs, and no sync in the gaps. */
  ghost predicate Readable(s: seq<bool>, t: seq<Byte>)
  {
    && |t| == TRACK_SIZE && |s| == TRACK_BITS && (forall k :: 0 <= k < SECTORS ==> ReadableSector(s, t, k))
    && Quiet(s, After(SECTORS), TRACK_BITS)
  }

  ghost predicate ReadableSector(s: seq<bool>, t: seq<Byte>, k: nat)
    requires |t| == TRACK_SIZE && |s| == TRACK_BITS && k < SECTORS
  {
    && CarriesSector(s, t, k) && HasWord(s, SYNC, HeaderSync(k)) && HasWord(s, SYNC, DataSync(k))
    && Quiet(s, After(k), HeaderSync(k))
  }

  /** No sync starts between `from` and `to`. */
  ghost predicate Quiet(s: seq<bool>, from: nat, to: nat)
  {
    forall q :: from <= q < to ==> !HasWord(s, SYNC, q)
  }

  lemma {:induction false} InGap(q: nat, k: nat)
    requires k <= SECTORS && After(k) <= q && (k < SECTORS ==> q < HeaderSync(k))
    ensures !IsSyncPos(q)
  {
  }

  lemma {:induction false} GapBefore(s: seq<bool>, k: nat)
    requires Synced(s) && k < SECTORS
    ensures HasWord(s, SYNC, HeaderSync(k)) && HasWord(s, SYNC, DataSync(k)) && Quiet(s, After(k), HeaderSync(k))
  {
    assert IsSyncPos(HeaderSync(k)) && IsSyncPos(DataSync(k));
    forall q | After(k) <= q < HeaderSync(k)
      ensures !HasWord(s, SYNC, q)
    {
      InGap(q, k);
    }
  }

  lemma {:induction false} CarriesReadable(s: seq<bool>, t: seq<Byte>)
    requires Carries(s, t)
    ensures Readable(s, t)
  {
    forall k | 0 <= k < SECTORS
      ensures ReadableSector(s, t, k)
    {
      assert CarriesSector(s, t, k);
      GapBefore(s, k);
    }
    forall q | After(SECTORS) <= q < TRACK_BITS
      ensures !HasWord(s, SYNC, q)
    {
      InGap(q, SECTORS);
    }
  }

  lemma {:induction false} NextBlocks(s: seq<bool>, k: nat)
    requires |s| == TRACK_BITS && k < SECTORS && Quiet(s, After(k), HeaderSync(k))
    requires HasWord(s, SYNC, HeaderSync(k)) && HasWord(s, SYNC, DataSync(k))
    ensures FindSync(s, After(k)) == HeaderSync(k) && FindSync(s, HeaderSync(k) + 400) == DataSync(k)
  {
    FindWordFirst(s, SYNC, After(k), |s|, HeaderSync(k));
    FindWordFirst(s, SYNC, DataSync(k), |s|, DataSync(k));
  }

  lemma {:induction false} SectorTurn(s: seq<bool>, pos: nat, k: nat, data: seq<Byte>)
    requires |s| == TRACK_BITS && k < SECTORS && |data| == SECTOR_SIZE && pos <= HeaderSync(k)
    requires FindSync(s, pos) == HeaderSync(k) && ReadBytes(s, HeaderSync(k) + 16, 24) == Header(k)
    requires FindSync(s, HeaderSync(k) + 400) == DataSync(k) && ReadBytes(s, DataSync(k) + 16, SECTOR_SIZE + 2) == Body(data)
    ensures NextTurn(s, pos) == Good(DataSync(k) + 8240, k, data)
  {
    HeaderIsOk(k);
    BodyIsOk(data);
    GoodTurn(s, pos, HeaderSync(k), Header(k), DataSync(k), Body(data));
  }

  /** From where sector k-1 ended, one turn of the decoder yields exactly sector k. */
  lemma {:induction false} TurnAtSector(s: seq<bool>, t: seq<Byte>, k: nat)
    requires Readable(s, t) && k < SECTORS
    ensures NextTurn(s, After(k)) == Good(After(k + 1), k, Sector(t, k))
  {
    assert ReadableSector(s, t, k);
    NextBlocks(s, k);
    SectorTurn(s, After(k), k, Sector(t, k));
  }

  /** The first k sectors have been collected. */
  ghost predicate Collected(acc: Decoded, t: seq<Byte>, k: nat)
    requires |t| == TRACK_SIZE && k <= SECTORS
  {
    WellFormed(acc) && acc.found == k && forall j :: 0 <= j < k ==> acc.sectors[j] == Sector(t, j)
  }

  lemma {:induction false} DecodeRest(s: seq<bool>, t: seq<Byte>, k: nat, acc: Decoded)
    requires Readable(s, t) && k <= SECTORS && Collected(acc, t, k)
    ensures DecodeFrom(s, After(k), acc) == Decoded(SECTORS, Sectors(t))
    decreases SECTORS - k
  {
    if k == SECTORS {
      FindWordNone(s, SYNC, After(k), |s|);
      DecodeStep(s, After(k), acc, Stop);
      assert acc.sectors == Sectors(t);
    } else {
      TurnAtSector(s, t, k);
      DecodeStep(s, After(k), acc, Good(After(k + 1), k, Sector(t, k)));
      DecodeRest(s, t, k + 1, Decoded(k + 1, acc.sectors[k := Sector(t, k)]));
    }
  }

  /** Main result: decoding a generated track finds 11 sectors, and they are the original ones. */
  lemma {:induction false} RoundTrip(t: seq<Byte>)
    requires |t| == TRACK_SIZE
    ensures DecodeTrack(TrackStream(t)) == Decoded(SECTORS, Sectors(t))
  {
    TrackCarries(t);
    CarriesReadable(TrackStream(t), t);
    DecodeRest(TrackStream(t), t, 0, Nothing());
  }

  // ---------- damaged sectors ----------

  lemma {:induction false} BodyCheck(body: seq<Byte>)
    requires |body| == SECTOR_SIZE + 2
    ensures BodyOk(body) <==> Crc(body) == CrcLaws.NONE
  {
    var hi, lo := body[SECTOR_SIZE], body[SECTOR_SIZE + 1];
    assert body == body[..SECTOR_SIZE] + [hi, lo];
    CrcLaws.NoRemainder(body[..SECTOR_SIZE], hi, lo);
  }

  /** Main result: a stored sector damaged within sixteen consecutive bits, in its data or its CRC, is never accepted. */
  lemma {:induction false} BurstRejected(data: seq<Byte>, body: seq<Byte>, i: nat)
    requires |data| == SECTOR_SIZE && |body| == SECTOR_SIZE + 2 && body != Body(data) && i + 16 <= 8 * |body|
    requires forall k :: 0 <= k < 8 * |body| && !(i <= k < i + 16) ==>
      CrcLaws.Transmitted(body)[k] == CrcLaws.Transmitted(Body(data))[k]
    ensures !BodyOk(body)
  {
    BodyIsOk(data);
    BodyCheck(Body(data));
    BodyCheck(body);
    CrcLaws.BurstSeen(body, Body(data), i);
  }
}
