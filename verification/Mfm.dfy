/** Modified frequency modulation of bytes, and the packed bit buffer the track lives in. */
module Mfm {
  import opened Bits

  /** 0x4489: a data byte 0xA1 with one clock bit left out. */
  const SYNC: Word := [true, false, false, true, false, false, false, true,
                       false, false, true, false, false, false, true, false]

  // ---------- packed bit buffer, most significant bit first ----------

  /** The bit stream held in a packed buffer. */
  function Unpack(bytes: seq<Byte>): (s: seq<bool>)
    ensures |s| == 8 * |bytes|
  {
    seq(8 * |bytes|, p requires 0 <= p < 8 * |bytes| => bytes[p / 8][7 - p % 8])
  }

  function WordAt(s: seq<bool>, p: nat): (w: Word)
    requires p + 16 <= |s|
  {
    seq(16, i requires 0 <= i < 16 => s[p + 15 - i])
  }

  /** The sixteen stream bits of a word. */
  function Raw(w: Word): (s: seq<bool>)
    ensures |s| == 16
  {
    seq(16, i requires 0 <= i < 16 => w[15 - i])
  }

  function Overwrite(s: seq<bool>, p: nat, w: Word): (r: seq<bool>)
    requires p + 16 <= |s|
    ensures |r| == |s|
  {
    s[..p] + Raw(w) + s[p + 16..]
  }

  method SetBit(bits: array<Byte>, pos: nat, bit: bool)
    requires pos < 8 * bits.Length
    modifies bits
    ensures Unpack(bits[..]) == old(Unpack(bits[..]))[pos := bit]
  {
    bits[pos / 8] := bits[pos / 8][7 - pos % 8 := bit];
  }

  method ReadWord(bits: seq<Byte>, pos: nat) returns (w: Word)
    requires pos + 16 <= 8 * |bits|
    ensures w == WordAt(Unpack(bits), pos)
  {
    w := Zeros(16);
    ghost var s := Unpack(bits);
    for i := 0 to 16
      invariant forall k :: 0 <= k < 16 ==> w[k] == (k < i && s[pos + i - 1 - k])
    {
      w := ShiftIn(w, bits[(pos + i) / 8][7 - (pos + i) % 8]);
    }
  }

  method WriteWord(bits: array<Byte>, pos: nat, w: Word)
    requires pos + 16 <= 8 * bits.Length
    modifies bits
    ensures Unpack(bits[..]) == Overwrite(old(Unpack(bits[..])), pos, w)
  {
    ghost var s := Unpack(bits[..]);
    for i := 0 to 16
      invariant Unpack(bits[..]) == s[..pos] + Raw(w)[..i] + s[pos + i..]
    {
      SetBit(bits, pos + i, w[15 - i]);
    }
  }

  // ---------- one byte ----------

  /** The encoding of a byte: data bit j in bit 2j, and above it a clock bit set exactly between two zero data bits. */
  function Encode(data: Byte, prev: bool): (w: Word)
  {
    seq(16, m requires 0 <= m < 16 =>
      if m % 2 == 0 then data[m / 2]
      else !data[m / 2] && !(if m == 15 then prev else data[m / 2 + 1]))
  }

  lemma EncodeBits(data: Byte, prev: bool, j: nat)
    requires j < 8
    ensures Encode(data, prev)[2 * j] == data[j]
    ensures Encode(data, prev)[2 * j + 1] == (!data[j] && !(if j == 7 then prev else data[j + 1]))
  {
  }

  function Decode(w: Word): (data: Byte)
  {
    seq(8, j requires 0 <= j < 8 => w[2 * j])
  }

  lemma DecodeEncode(data: Byte, prev: bool)
    ensures Decode(Encode(data, prev)) == data
  {
  }

  method EncodeByte(data: Byte, prev: bool) returns (out: Word, prev': bool)
    ensures out == Encode(data, prev) && prev' == data[0]
  {
    out := Zeros(16);
    prev' := prev;
    for i := 8 downto 0
      invariant prev' == if i == 8 then prev else data[i]
      invariant forall m :: 0 <= m < 16 ==> out[m] == (m < 16 - 2 * i && Encode(data, prev)[m + 2 * i])
    {
      var bit := data[i];
      var clock := !bit && !prev';
      ghost var before := out;
      out := ShiftIn(ShiftIn(out, clock), bit);
      prev' := bit;
      assert forall m :: 2 <= m < 16 ==> out[m] == before[m - 2];
      assert out[1] == Encode(data, prev)[2 * i + 1] && out[0] == Encode(data, prev)[2 * i];
    }
  }

  method DecodeWord(w: Word) returns (data: Byte)
    ensures data == Decode(w)
  {
    data := Zeros(8);
    for n := 0 to 8
      invariant forall j :: 0 <= j < 8 ==> data[j] == (j < n && w[2 * (j + 8 - n)])
    {
      data := ShiftIn(data, w[14 - 2 * n]);
    }
  }

  // ---------- cell streams ----------

  /** What the track writer emits: an encoded data byte, or the raw sync word. */
  datatype Cell = Data(b: Byte) | Sync

  /** The encoder's running data bit after a run of cells; a sync word leaves it alone. */
  function LastBit(cells: seq<Cell>): bool
  {
    if cells == [] then false
    else match cells[|cells| - 1]
      case Data(b) => b[0]
      case Sync => LastBit(cells[..|cells| - 1])
  }

  function CellWord(c: Cell, prev: bool): Word
  {
    match c
    case Data(b) => Encode(b, prev)
    case Sync => SYNC
  }

  function Stream(cells: seq<Cell>): (s: seq<bool>)
    ensures |s| == 16 * |cells|
  {
    if cells == [] then []
    else
      var rest := cells[..|cells| - 1];
      Stream(rest) + Raw(CellWord(cells[|cells| - 1], LastBit(rest)))
  }

  lemma {:induction false} StreamAt(cells: seq<Cell>, j: nat)
    requires j < |cells|
    ensures WordAt(Stream(cells), 16 * j) == CellWord(cells[j], LastBit(cells[..j]))
  {
    var rest := cells[..|cells| - 1];
    if j < |rest| {
      StreamAt(rest, j);
      assert rest[..j] == cells[..j];
      assert WordAt(Stream(cells), 16 * j) == WordAt(Stream(rest), 16 * j);
    } else {
      assert rest == cells[..j];
    }
  }

  /** The stream read back cell by cell. */
  ghost predicate Encodes(s: seq<bool>, cells: seq<Cell>)
  {
    |s| == 16 * |cells| && forall j {:trigger CellAt(s, cells, j)} :: 0 <= j < |cells| ==> CellAt(s, cells, j)
  }

  ghost predicate CellAt(s: seq<bool>, cells: seq<Cell>, j: nat)
    requires |s| == 16 * |cells| && j < |cells|
  {
    WordAt(s, 16 * j) == CellWord(cells[j], LastBit(cells[..j]))
  }

  lemma {:induction false} StreamEncodes(cells: seq<Cell>)
    ensures Encodes(Stream(cells), cells)
  {
    forall j | 0 <= j < |cells|
      ensures CellAt(Stream(cells), cells, j)
    {
      StreamAt(cells, j);
    }
  }

  /** Reading a data cell back yields its byte, whatever the running bit was. */
  lemma {:induction false} DecodeCell(s: seq<bool>, cells: seq<Cell>, j: nat)
    requires Encodes(s, cells) && j < |cells| && cells[j].Data?
    ensures Decode(WordAt(s, 16 * j)) == cells[j].b
  {
    assert CellAt(s, cells, j);
    DecodeEncode(cells[j].b, LastBit(cells[..j]));
  }
}
