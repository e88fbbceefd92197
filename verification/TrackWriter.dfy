/** Generation of a raw track from 5632 bytes of sector data. */
module TrackWriter {
  import opened Bits
  import opened Crc16
  import opened Mfm
  import opened Track

  /** The first `n` cells are in the buffer and the encoder's running bit is right. */
  ghost predicate Written(bits: seq<Byte>, cells: seq<Cell>, n: nat, pos: nat, prev: bool)
  {
    n <= |cells| && 16 * |cells| <= 8 * |bits| && pos == 16 * n &&
    Unpack(bits)[..16 * n] == Stream(cells[..n]) && prev == LastBit(cells[..n])
  }

  lemma {:induction false} WrittenStep(before: seq<Byte>, after: seq<Byte>, cells: seq<Cell>, n: nat, pos: nat, prev: bool)
    requires Written(before, cells, n, pos, prev) && n < |cells| && |after| == |before|
    requires Unpack(after) == Overwrite(Unpack(before), pos, CellWord(cells[n], prev))
    ensures Unpack(after)[..16 * (n + 1)] == Stream(cells[..n + 1])
    ensures LastBit(cells[..n + 1]) == if cells[n].Data? then cells[n].b[0] else prev
  {
    assert cells[..n + 1][..n] == cells[..n];
    assert Unpack(after)[..16 * (n + 1)] == Unpack(before)[..16 * n] + Raw(CellWord(cells[n], prev));
  }

  method EmitByte(bits: array<Byte>, pos: nat, data: Byte, prev: bool, ghost cells: seq<Cell>, ghost n: nat)
    returns (pos': nat, prev': bool)
    requires Written(bits[..], cells, n, pos, prev) && n < |cells| && cells[n] == Data(data)
    modifies bits
    ensures Written(bits[..], cells, n + 1, pos', prev')
  {
    ghost var before := bits[..];
    var mfm;
    mfm, prev' := EncodeByte(data, prev);
    WriteWord(bits, pos, mfm);
    WrittenStep(before, bits[..], cells, n, pos, prev);
    pos' := pos + 16;
  }

  method EmitSync(bits: array<Byte>, pos: nat, prev: bool, ghost cells: seq<Cell>, ghost n: nat) returns (pos': nat)
    requires Written(bits[..], cells, n, pos, prev) && n < |cells| && cells[n] == Sync
    modifies bits
    ensures Written(bits[..], cells, n + 1, pos', prev)
  {
    ghost var before := bits[..];
    WriteWord(bits, pos, SYNC);
    WrittenStep(before, bits[..], cells, n, pos, prev);
    pos' := pos + 16;
  }

  lemma {:induction false} BlockCell(cells: seq<Cell>, n: nat, data: seq<Byte>, i: nat)
    requires n + |data| <= |cells| && cells[n..n + |data|] == DataCells(data) && i < |data|
    ensures cells[n + i] == Data(data[i])
  {
    assert cells[n + i] == cells[n..n + |data|][i];
  }

  /** Emits a block of bytes. */
  method EmitBytes(bits: array<Byte>, pos: nat, data: seq<Byte>, prev: bool, ghost cells: seq<Cell>, ghost n: nat)
    returns (pos': nat, prev': bool)
    requires Written(bits[..], cells, n, pos, prev) && n + |data| <= |cells|
    requires cells[n..n + |data|] == DataCells(data)
    modifies bits
    ensures Written(bits[..], cells, n + |data|, pos', prev')
  {
    pos', prev' := pos, prev;
    ghost var m := n;
    for i := 0 to |data|
      invariant m == n + i && Written(bits[..], cells, m, pos', prev')
    {
      BlockCell(cells, n, data, i);
      pos', prev' := EmitByte(bits, pos', data[i], prev', cells, m);
      m := m + 1;
    }
  }

  method EmitHeader(bits: array<Byte>, pos: nat, sec: nat, prev: bool, ghost cells: seq<Cell>, ghost n: nat)
    returns (pos': nat, prev': bool)
    requires Written(bits[..], cells, n, pos, prev) && n + 25 <= |cells|
    requires cells[n] == Sync && cells[n + 1..n + 25] == DataCells(Header(sec))
    modifies bits
    ensures Written(bits[..], cells, n + 25, pos', prev')
  {
    pos' := EmitSync(bits, pos, prev, cells, n);
    var fixed := [Ones(8), Zeros(8), OfNat(sec, 8), Zeros(8)] + ZeroBytes(16);
    var crc := ComputeCrc(fixed);
    var hdr := fixed + [Hi(crc), Lo(crc), Zeros(8), Zeros(8)];
    assert hdr == Header(sec);
    pos', prev' := EmitBytes(bits, pos', hdr, prev, cells, n + 1);
  }

  method EmitBody(bits: array<Byte>, pos: nat, data: seq<Byte>, prev: bool, ghost cells: seq<Cell>, ghost n: nat)
    returns (pos': nat, prev': bool)
    requires |data| == SECTOR_SIZE
    requires Written(bits[..], cells, n, pos, prev) && n + 515 <= |cells|
    requires cells[n] == Sync && cells[n + 1..n + 515] == DataCells(Body(data))
    modifies bits
    ensures Written(bits[..], cells, n + 515, pos', prev')
  {
    pos' := EmitSync(bits, pos, prev, cells, n);
    var crc := ComputeCrc(data);
    var body := data + [Hi(crc), Lo(crc)];
    assert body == Body(data);
    pos', prev' := EmitBytes(bits, pos', body, prev, cells, n + 1);
  }

  method EmitSector(bits: array<Byte>, pos: nat, sec: nat, t: seq<Byte>, prev: bool) returns (pos': nat, prev': bool)
    requires |t| == TRACK_SIZE && sec < SECTORS
    requires Written(bits[..], TrackCells(t), 60 + 570 * sec, pos, prev)
    modifies bits
    ensures Written(bits[..], TrackCells(t), 60 + 570 * (sec + 1), pos', prev')
  {
    ghost var cells, n := TrackCells(t), 60 + 570 * sec;
    HeaderCells(t, sec);
    BodyCells(t, sec);
    GapCells(t, sec);
    pos', prev' := EmitHeader(bits, pos, sec, prev, cells, n);
    pos', prev' := EmitBody(bits, pos', t[512 * sec..512 * (sec + 1)], prev', cells, n + 25);
    pos', prev' := EmitBytes(bits, pos', ZeroBytes(30), prev', cells, n + 540);
  }

  /** Writes the whole track: every bit of the buffer is determined by the data. */
  method GenerateTrack(t: seq<Byte>, bits: array<Byte>) returns (pos: nat)
    requires |t| == TRACK_SIZE && 8 * bits.Length == TRACK_BITS
    modifies bits
    ensures pos == TRACK_BITS && Unpack(bits[..]) == TrackStream(t)
  {
    var prev := false;
    ghost var cells := TrackCells(t);
    assert cells[0..60] == DataCells(ZeroBytes(60));
    pos, prev := EmitBytes(bits, 0, ZeroBytes(60), prev, cells, 0);
    for sec := 0 to SECTORS
      invariant Written(bits[..], cells, 60 + 570 * sec, pos, prev)
    {
      pos, prev := EmitSector(bits, pos, sec, t, prev);
    }
    ghost var n := 6330;
    while pos < TRACK_BITS
      invariant 6330 <= n <= CELLS && Written(bits[..], cells, n, pos, prev)
    {
      pos, prev := EmitByte(bits, pos, Zeros(8), prev, cells, n);
      n := n + 1;
    }
    assert cells[..n] == cells;
    assert Unpack(bits[..])[..16 * n] == Unpack(bits[..]);
  }
}
