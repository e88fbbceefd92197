/** The raw layout of one double-density track: eleven sectors, each with a header and a data block behind a sync word. */
module Track {
  import opened Bits
  import opened Crc16
  import opened Mfm
  import opened SyncUniqueness

  const SECTORS := 11
  const SECTOR_SIZE := 512
  const TRACK_SIZE := 5632
  const TRACK_BITS := 102400
  const CELLS := 6400
  

  function Sector(t: seq<Byte>, sec: nat): (d: seq<Byte>)
    requires |t| == TRACK_SIZE && sec < SECTORS
    ensures |d| == SECTOR_SIZE
  {
    t[512 * sec..512 * (sec + 1)]
  }

  function ZeroBytes(n: nat): (r: seq<Byte>)
    ensures |r| == n && forall i :: 0 <= i < n ==> r[i] == Zeros(8)
  {
    seq(n, i => Zeros(8))
  }

  /** Format byte, track, sector number, distance, label. */
  function HeaderBody(sec: nat): (h: seq<Byte>)
    ensures |h| == 20
  {
    [Ones(8), Zeros(8), OfNat(sec, 8), Zeros(8)] + ZeroBytes(16)
  }

  function Header(sec: nat): (h: seq<Byte>)
    ensures |h| == 24
  {
    HeaderBody(sec) + [Hi(Crc(HeaderBody(sec))), Lo(Crc(HeaderBody(sec))), Zeros(8), Zeros(8)]
  }

  /** The sector data followed by its checksum, high byte first. */
  function Body(data: seq<Byte>): (b: seq<Byte>)
    ensures |b| == |data| + 2
  {
    data + [Hi(Crc(data)), Lo(Crc(data))]
  }

  /** Cell `o` of a sector: sync, 24 header bytes, sync, 514 body bytes, gap of 30. */
  function SectorCell(sec: nat, data: seq<Byte>, o: nat): Cell
    requires |data| == SECTOR_SIZE
  {
    if o == 0 || o == 25 then Sync
    else if o < 25 then Data(Header(sec)[o - 1])
    else if o < 540 then Data(Body(data)[o - 26])
    else Data(Zeros(8))
  }

  /** Cell `j` of the track: gap of 60, eleven sectors, gap to the end. */
  function TrackCell(t: seq<Byte>, j: nat): Cell
    requires |t| == TRACK_SIZE
  {
    if j < 60 || 6330 <= j then Data(Zeros(8))
    else SectorCell((j - 60) / 570, Sector(t, (j - 60) / 570), (j - 60) % 570)
  }

  function TrackCells(t: seq<Byte>): (cells: seq<Cell>)
    requires |t| == TRACK_SIZE
    ensures |cells| == CELLS
  {
    seq(CELLS, j requires 0 <= j < CELLS => TrackCell(t, j))
  }

  function TrackStream(t: seq<Byte>): (s: seq<bool>)
    requires |t| == TRACK_SIZE
    ensures |s| == TRACK_BITS
  {
    Stream(TrackCells(t))
  }

  // ---------- sync positions ----------

  function HeaderSync(k: nat): nat { 960 + 9120 * k }

  function DataSync(k: nat): nat { 1360 + 9120 * k }

  lemma {:induction false} TrackCellAt(t: seq<Byte>, sec: nat, o: nat)
    requires |t| == TRACK_SIZE && sec < SECTORS && o < 570
    ensures TrackCells(t)[60 + 570 * sec + o] == SectorCell(sec, Sector(t, sec), o)
  {
    var j := 60 + 570 * sec + o;
    assert (j - 60) / 570 == sec && (j - 60) % 570 == o;
  }

  function DataCells(data: seq<Byte>): (cells: seq<Cell>)
    ensures |cells| == |data|
  {
    seq(|data|, i requires 0 <= i < |data| => Data(data[i]))
  }

  lemma {:induction false} HeaderCells(t: seq<Byte>, sec: nat)
    requires |t| == TRACK_SIZE && sec < SECTORS
    ensures var n := 60 + 570 * sec;
      TrackCells(t)[n] == Sync && TrackCells(t)[n + 1..n + 25] == DataCells(Header(sec))
  {
    var cells, n, h := TrackCells(t), 60 + 570 * sec, Header(sec);
    TrackCellAt(t, sec, 0);
    forall i | 0 <= i < 24
      ensures cells[n + 1..n + 25][i] == DataCells(h)[i]
    {
      TrackCellAt(t, sec, 1 + i);
    }
  }

  lemma {:induction false} BodyCells(t: seq<Byte>, sec: nat)
    requires |t| == TRACK_SIZE && sec < SECTORS
    ensures var n := 60 + 570 * sec;
      TrackCells(t)[n + 25] == Sync && TrackCells(t)[n + 26..n + 540] == DataCells(Body(Sector(t, sec)))
  {
    var cells, n, body := TrackCells(t), 60 + 570 * sec, Body(Sector(t, sec));
    TrackCellAt(t, sec, 25);
    forall i | 0 <= i < 514
      ensures cells[n + 26..n + 540][i] == DataCells(body)[i]
    {
      TrackCellAt(t, sec, 26 + i);
    }
  }

  lemma {:induction false} GapCells(t: seq<Byte>, sec: nat)
    requires |t| == TRACK_SIZE && sec < SECTORS
    ensures var n := 60 + 570 * sec;
      TrackCells(t)[n + 540..n + 570] == DataCells(ZeroBytes(30))
  {
    var cells, n := TrackCells(t), 60 + 570 * sec;
    forall i | 0 <= i < 30
      ensures cells[n + 540..n + 570][i] == DataCells(ZeroBytes(30))[i]
    {
      TrackCellAt(t, sec, 540 + i);
    }
  }

  lemma {:induction false} TrackFramed(t: seq<Byte>)
    requires |t| == TRACK_SIZE
    ensures Framed(TrackCells(t))
  {
    var cells := TrackCells(t);
    forall j | 0 <= j < |cells| && cells[j].Sync?
      ensures !LastBit(cells[..j]) && (j + 1 < |cells| ==> cells[j + 1].Data?)
    {
      var sec, o := (j - 60) / 570, (j - 60) % 570;
      assert o == 0 || o == 25;
      TrackCellAt(t, sec, o + 1);
      LastBitAfter(cells, j);
      if o == 25 {
        TrackCellAt(t, sec, 24);
      } else if sec > 0 {
        TrackCellAt(t, sec - 1, 570 - 1);
      }
    }
  }

  lemma {:induction false} SyncCellOnly(t: seq<Byte>, j: nat) returns (k: nat)
    requires |t| == TRACK_SIZE && j < CELLS && TrackCells(t)[j].Sync?
    ensures k < SECTORS && (16 * j == HeaderSync(k) || 16 * j == DataSync(k))
  {
    k := (j - 60) / 570;
    var o := (j - 60) % 570;
    assert j == 60 + 570 * k + o && (o == 0 || o == 25);
  }

  ghost predicate IsSyncPos(p: nat)
  {
    exists k :: 0 <= k < SECTORS && (p == HeaderSync(k) || p == DataSync(k))
  }

  /** Sync cells stand where the layout puts them and nowhere else. */
  ghost predicate LaidOut(cells: seq<Cell>)
  {
    |cells| == CELLS && Framed(cells) &&
    (forall j :: 0 <= j < CELLS && cells[j].Sync? ==> IsSyncPos(16 * j)) &&
    (forall k {:trigger HeaderSync(k)} :: 0 <= k < SECTORS ==> cells[60 + 570 * k].Sync? && cells[85 + 570 * k].Sync?)
  }

  lemma {:induction false} TrackLaidOut(t: seq<Byte>)
    requires |t| == TRACK_SIZE
    ensures LaidOut(TrackCells(t))
  {
    var cells := TrackCells(t);
    TrackFramed(t);
    forall j | 0 <= j < CELLS && cells[j].Sync?
      ensures IsSyncPos(16 * j)
    {
      var k := SyncCellOnly(t, j);
    }
    forall k | 0 <= k < SECTORS
      ensures cells[60 + 570 * k].Sync? && cells[85 + 570 * k].Sync?
    {
      TrackCellAt(t, k, 0);
      TrackCellAt(t, k, 25);
    }
  }

  lemma {:induction false} LayoutSyncs(s: seq<bool>, cells: seq<Cell>, p: nat)
    requires Encodes(s, cells) && LaidOut(cells) && p + 16 <= |s|
    ensures HasWord(s, SYNC, p) <==> IsSyncPos(p)
  {
    SyncOnlyAtSyncCells(s, cells, p);
    if IsSyncPos(p) {
      var j := SyncPosIsCell(p);
      assert cells[p / 16].Sync?;
    }
  }

  lemma SyncPosIsCell(p: nat) returns (k: nat)
    requires IsSyncPos(p)
    ensures k < SECTORS && p % 16 == 0 && (p / 16 == 60 + 570 * k || p / 16 == 85 + 570 * k)
    ensures HeaderSync(k) == 960 + 9120 * k
  {
    k :| 0 <= k < SECTORS && (p == HeaderSync(k) || p == DataSync(k));
  }

  /** The sync word is read at exactly the 22 emitted positions, over all bit offsets. */
  ghost predicate Synced(s: seq<bool>)
  {
    |s| == TRACK_BITS && forall p {:trigger HasWord(s, SYNC, p)} :: 0 <= p ==> (HasWord(s, SYNC, p) <==> IsSyncPos(p))
  }

  /** Main result: whatever the track holds, no stray sync word can be read in it. */
  lemma {:induction false} SyncPositions(t: seq<Byte>)
    requires |t| == TRACK_SIZE
    ensures Synced(TrackStream(t))
  {
    var s, cells := TrackStream(t), TrackCells(t);
    StreamEncodes(cells);
    TrackLaidOut(t);
    forall p {:trigger HasWord(s, SYNC, p)} | 0 <= p
      ensures HasWord(s, SYNC, p) <==> IsSyncPos(p)
    {
      if p + 16 <= TRACK_BITS {
        LayoutSyncs(s, cells, p);
      }
    }
  }

  lemma {:induction false} HeaderBlock(t: seq<Byte>, k: nat) returns (cells: seq<Cell>, n: nat)
    requires |t| == TRACK_SIZE && k < SECTORS
    ensures n + 24 <= |cells| && Encodes(TrackStream(t), cells)
    ensures 16 * n == HeaderSync(k) + 16 && cells[n..n + 24] == DataCells(Header(k))
  {
    StreamEncodes(TrackCells(t));
    HeaderCells(t, k);
    cells, n := TrackCells(t), 61 + 570 * k;
  }

  lemma {:induction false} BodyBlock(t: seq<Byte>, k: nat) returns (cells: seq<Cell>, n: nat)
    requires |t| == TRACK_SIZE && k < SECTORS
    ensures n + 514 <= |cells| && Encodes(TrackStream(t), cells)
    ensures 16 * n == DataSync(k) + 16 && cells[n..n + 514] == DataCells(Body(Sector(t, k)))
  {
    StreamEncodes(TrackCells(t));
    BodyCells(t, k);
    cells, n := TrackCells(t), 86 + 570 * k;
  }
}
