/** One floppy drive as a value: an ADF image, the raw track under the head, and the disk DMA state. */
module FloppyDrive {
  import opened Bits
  import opened Crc16
  import opened Mfm
  import opened Track
  import opened TrackReader

  const CYLINDERS := 80
  const DISK_SIZE := 901120

  datatype Drive = Drive(
    adf: seq<Byte>, loaded: bool, dirty: bool,
    cyl: int, head: int, motor: bool, writeProtect: bool, chngCleared: bool,
    bitPos: nat, mfm: seq<bool>, mfmBits: nat,
    dmaActive: bool, dmaWrite: bool, dmaPtr: nat, dmaWords: nat, dmaSync: Word, dmaSyncFound: bool)

  ghost predicate Valid(d: Drive)
  {
    |d.adf| == DISK_SIZE && |d.mfm| == TRACK_BITS &&
    0 <= d.cyl < CYLINDERS && 0 <= d.head < 2 &&
    (d.mfmBits == 0 || d.mfmBits == TRACK_BITS) && d.bitPos <= TRACK_BITS &&
    (d.loaded ==> d.mfmBits == TRACK_BITS) && (d.dmaActive ==> d.dmaWords > 0)
  }

  // ---------- head position and the track under it ----------

  function TrackOf(adf: seq<Byte>, track: nat): (t: seq<Byte>)
    requires |adf| == DISK_SIZE && track < 160
    ensures |t| == TRACK_SIZE
  {
    adf[5632 * track..5632 * track + 5632]
  }

  function CurrentTrack(d: Drive): (n: nat)
    requires Valid(d)
    ensures n < 160
  {
    2 * d.cyl + d.head
  }

  /** The ADF data of the track under the head. */
  function TrackData(d: Drive): (t: seq<Byte>)
    requires Valid(d)
    ensures |t| == TRACK_SIZE
  {
    TrackOf(d.adf, CurrentTrack(d))
  }

  function Regenerate(d: Drive): (r: Drive)
    requires Valid(d.(mfmBits := TRACK_BITS)) && (d.mfmBits == 0 || d.mfmBits == TRACK_BITS)
    ensures Valid(r)
  {
    if d.loaded then d.(mfm := TrackStream(TrackData(d.(mfmBits := TRACK_BITS))), mfmBits := TRACK_BITS) else d
  }

  function Clamp(x: int, top: int): int { if x < 0 then 0 else if x >= top then top - 1 else x }

  function Seek(d: Drive, cyl: int, head: int): (r: Drive)
    requires Valid(d)
    ensures Valid(r)
  {
    Regenerate(d.(cyl := Clamp(cyl, CYLINDERS), head := Clamp(head, 2))).(bitPos := 0)
  }

  function Step(d: Drive, inward: bool): (r: Drive)
    requires Valid(d)
    ensures Valid(r)
  {
    Seek(d, if inward then d.cyl + 1 else d.cyl - 1, d.head)
  }

  // ---------- disk handling ----------

  function Load(d: Drive, data: seq<Byte>): (r: Drive)
    requires Valid(d)
    ensures Valid(r)
  {
    if |data| != DISK_SIZE then d
    else Regenerate(d.(adf := data, loaded := true, cyl := 0, head := 0, bitPos := 0,
                       dmaActive := false, dirty := false, chngCleared := false))
  }

  function Eject(d: Drive): (r: Drive)
    ensures Valid(d) ==> Valid(r)
  {
    d.(loaded := false, dmaActive := false, motor := false, mfmBits := 0, dirty := false, chngCleared := false)
  }

  /** Installs a freshly built image; unlike a load it leaves a running transfer active. */
  function Install(d: Drive, image: seq<Byte>): (r: Drive)
    requires Valid(d) && |image| == DISK_SIZE
    ensures Valid(r)
  {
    Regenerate(d.(adf := image, loaded := true, cyl := 0, head := 0, bitPos := 0, dirty := false, chngCleared := false))
  }

  predicate WritableSector(d: Drive, track: int, sector: int)
  {
    d.loaded && !d.writeProtect && 0 <= track < 160 && 0 <= sector < SECTORS
  }

  function PutSector(adf: seq<Byte>, track: nat, sector: nat, data: seq<Byte>): (r: seq<Byte>)
    requires |adf| == DISK_SIZE && track < 160 && sector < SECTORS && |data| == SECTOR_SIZE
    ensures |r| == DISK_SIZE
  {
    var at := 5632 * track + 512 * sector;
    adf[..at] + data + adf[at + 512..]
  }

  function WriteSector(d: Drive, track: int, sector: int, data: seq<Byte>): (r: Drive)
    requires Valid(d) && |data| == SECTOR_SIZE
    ensures Valid(r)
  {
    if !WritableSector(d, track, sector) then d else
    var d1 := d.(adf := PutSector(d.adf, track, sector, data), dirty := true);
    if CurrentTrack(d) == track then Regenerate(d1) else d1
  }

  // ---------- disk DMA ----------

  function Words(dsklen: nat): nat { if dsklen % 0x4000 == 0 then 0x8000 else dsklen % 0x4000 }

  function StartRead(d: Drive, ptr: nat, dsklen: nat, sync: Word): (r: Drive)
    ensures Valid(d) ==> Valid(r)
  {
    if !d.loaded then d
    else d.(dmaPtr := ptr, dmaWords := Words(dsklen), dmaSync := if sync == Zeros(16) then SYNC else sync,
            dmaSyncFound := false, dmaActive := true, dmaWrite := false)
  }

  function StartWrite(d: Drive, ptr: nat, dsklen: nat): (r: Drive)
    ensures Valid(d) ==> Valid(r)
  {
    if !d.loaded || d.writeProtect then d
    else d.(dmaPtr := ptr, dmaWords := Words(dsklen), dmaSync := SYNC,
            dmaSyncFound := false, dmaActive := true, dmaWrite := true)
  }

  /** Chip RAM with whole words stored from `ptr`; a word that does not fit is dropped. */
  function StoreBytes(ram: seq<Byte>, ptr: nat, bytes: seq<Byte>): (r: seq<Byte>)
    requires |bytes| % 2 == 0
    ensures |r| == |ram|
  {
    seq(|ram|, i requires 0 <= i < |ram| =>
      if ptr <= i < ptr + |bytes| && ptr + 2 * ((i - ptr) / 2) + 2 <= |ram| then bytes[i - ptr] else ram[i])
  }

  function PeekWord(ram: seq<Byte>, addr: nat): Word
  {
    if addr + 2 > |ram| then Zeros(16) else Join(ram[addr], ram[addr + 1])
  }

  function RamWords(ram: seq<Byte>, ptr: nat, k: nat): (ws: seq<Word>)
    ensures |ws| == k
  {
    seq(k, i requires 0 <= i < k => PeekWord(ram, ptr + 2 * i))
  }

  function Splice(s: seq<bool>, pos: nat, ws: seq<Word>): (r: seq<bool>)
    requires pos + 16 * |ws| <= |s|
    ensures |r| == |s|
  {
    if ws == [] then s
    else Overwrite(Splice(s, pos, ws[..|ws| - 1]), pos + 16 * (|ws| - 1), ws[|ws| - 1])
  }

  /** The second occurrence of `w`, searched for from 208 bits past the first, or -1. */
  function SecondWord(s: seq<bool>, w: Word, pos: nat, end: nat): (p: int)
    requires end <= |s|
    ensures p == -1 || (pos <= p && p + 16 <= end)
  {
    var h := FindWord(s, w, pos, end);
    if h < 0 then -1 else FindWord(s, w, h + 208, end)
  }

  /** Where a read transfer takes its first data bit in this tick, or -1: past the second sync, counted from the head. */
  function ReadStart(d: Drive, bits: nat): (p: int)
    requires Valid(d)
    ensures p == -1 || 0 <= p <= TRACK_BITS
  {
    if d.dmaSyncFound then d.bitPos else
    var p := SecondWord(d.mfm, d.dmaSync, d.bitPos, Min(d.bitPos + bits, d.mfmBits));
    if p < 0 then -1 else p + 16
  }

  datatype Outcome = Outcome(d: Drive, ram: seq<Byte>, blk: bool)

  /** How many of `words` units of `size` bits fit between `pos` and `limit`. */
  function Count(words: nat, pos: nat, limit: nat, size: nat): (k: nat)
    requires size > 0
    ensures k <= words && (k == 0 || pos + size * k <= limit) && (k == words || pos + size * (k + 1) > limit)
  {
    if limit < pos then assert pos + size > limit; 0 else
    var fit := (limit - pos) / size;
    assert size * fit <= limit - pos < size * (fit + 1);
    if fit < words then fit else Fits(size, words, fit); words
  }

  /** Number of whole units of `size` bits moved from `pos` in one tick. */
  function Moved(d: Drive, pos: nat, bits: nat, size: nat): (k: nat)
    requires size > 0
    ensures k <= d.dmaWords && (pos <= d.mfmBits ==> pos + size * k <= d.mfmBits)
  {
    Count(d.dmaWords, pos, Min(pos + bits, d.mfmBits), size)
  }

  lemma Fits(size: nat, k: nat, fit: nat)
    requires k <= fit
    ensures size * k <= size * fit
  {
  }

  function ReadTransfer(d: Drive, ram: seq<Byte>, bits: nat): (r: Outcome)
    requires Valid(d) && d.mfmBits == TRACK_BITS && d.dmaActive
    ensures Valid(r.d) && r.d.mfmBits == TRACK_BITS
  {
    var pos := ReadStart(d, bits);
    if pos < 0 then Outcome(d, ram, false) else ReadFrom(d, ram, pos, bits)
  }

  /** The words of one tick, from `pos` on. */
  function ReadFrom(d: Drive, ram: seq<Byte>, pos: nat, bits: nat): (r: Outcome)
    requires Valid(d) && d.mfmBits == TRACK_BITS && d.dmaActive && pos <= TRACK_BITS
    ensures Valid(r.d) && r.d.mfmBits == TRACK_BITS
  {
    var k := Moved(d, pos, bits, 32);
    Outcome(d.(dmaSyncFound := true, bitPos := pos + 32 * k, dmaPtr := d.dmaPtr + 2 * k,
               dmaWords := d.dmaWords - k, dmaActive := k < d.dmaWords),
            StoreBytes(ram, d.dmaPtr, ReadBytes(d.mfm, pos, 2 * k)), k == d.dmaWords)
  }

  function WriteStart(d: Drive, bits: nat): (p: int)
    requires Valid(d)
    ensures p == -1 || 0 <= p <= TRACK_BITS
  {
    if d.dmaSyncFound then d.bitPos else
    var p := FindWord(d.mfm, d.dmaSync, d.bitPos, Min(d.bitPos + bits, d.mfmBits));
    if p < 0 then -1 else p + 16
  }

  function Flatten(sectors: seq<seq<Byte>>): (t: seq<Byte>)
    requires forall k :: 0 <= k < |sectors| ==> |sectors[k]| == SECTOR_SIZE
    ensures |t| == 512 * |sectors|
  {
    if sectors == [] then [] else Flatten(sectors[..|sectors| - 1]) + sectors[|sectors| - 1]
  }

  function PutTrack(adf: seq<Byte>, track: nat, t: seq<Byte>): (r: seq<Byte>)
    requires |adf| == DISK_SIZE && track < 160 && |t| == TRACK_SIZE
    ensures |r| == DISK_SIZE
  {
    adf[..5632 * track] + t + adf[5632 * track + 5632..]
  }

  /** End of a write: if anything decodes, the whole decoded track replaces the ADF track; dirty records a change. */
  function Commit(d: Drive): (r: Drive)
    requires Valid(d) && d.mfmBits == TRACK_BITS
    ensures Valid(r)
  {
    var dec := DecodeTrack(d.mfm);
    if dec.found == 0 then d else
    var adf := PutTrack(d.adf, CurrentTrack(d), Flatten(dec.sectors));
    d.(adf := adf, dirty := d.dirty || adf != d.adf)
  }

  /** The drive after `k` words from `ram` went onto the track at `pos`. */
  function PutWords(d: Drive, ram: seq<Byte>, pos: nat, k: nat): (r: Drive)
    requires Valid(d) && pos + 16 * k <= TRACK_BITS && k <= d.dmaWords
    ensures Valid(r)
  {
    d.(dmaSyncFound := true, bitPos := pos + 16 * k, dmaPtr := d.dmaPtr + 2 * k, dmaWords := d.dmaWords - k,
       mfm := Splice(d.mfm, pos, RamWords(ram, d.dmaPtr, k)), dmaActive := k < d.dmaWords)
  }

  function WriteTransfer(d: Drive, ram: seq<Byte>, bits: nat): (r: Outcome)
    requires Valid(d) && d.mfmBits == TRACK_BITS && d.dmaActive
    ensures Valid(r.d) && r.d.mfmBits == TRACK_BITS
  {
    var pos := WriteStart(d, bits);
    if pos < 0 then Outcome(d, ram, false) else
    var k := Moved(d, pos, bits, 16);
    var d1 := PutWords(d, ram, pos, k);
    Outcome(if k == d.dmaWords then Commit(d1) else d1, ram, k == d.dmaWords)
  }

  function BitsPerTick(mfmBits: nat): nat { if mfmBits < 5 then 1 else (mfmBits + 4) / 9 }

  /** One rotation step of one drive. */
  function Tick(d: Drive, ram: seq<Byte>): (r: Outcome)
    requires Valid(d)
    ensures Valid(r.d)
  {
    if !d.motor || !d.loaded then Outcome(d, ram, false) else Turn(d, ram, BitsPerTick(d.mfmBits))
  }

  /** The transfer of one tick, then the rotation. */
  function Turn(d: Drive, ram: seq<Byte>, bits: nat): (r: Outcome)
    requires Valid(d) && d.loaded && bits <= TRACK_BITS
    ensures Valid(r.d)
  {
    var moved := Transfer(d, ram, bits);
    moved.(d := Rotate(moved.d, bits))
  }

  function Transfer(d: Drive, ram: seq<Byte>, bits: nat): (r: Outcome)
    requires Valid(d) && d.loaded
    ensures Valid(r.d) && r.d.mfmBits == d.mfmBits
  {
    if !d.dmaActive then Outcome(d, ram, false)
    else if d.dmaWrite then WriteTransfer(d, ram, bits)
    else ReadTransfer(d, ram, bits)
  }

  function Rotate(d: Drive, bits: nat): Drive
  {
    d.(bitPos := if d.bitPos + bits >= d.mfmBits then d.bitPos + bits - d.mfmBits else d.bitPos + bits)
  }

  // ---------- single-word port ----------

  datatype WordRead = WordRead(d: Drive, w: Word)

  function PortRead(d: Drive): (r: WordRead)
    requires Valid(d)
    ensures Valid(r.d)
  {
    if !d.loaded || !d.dmaActive || d.bitPos + 32 > d.mfmBits then WordRead(d, Zeros(16)) else
    var b := ReadBytes(d.mfm, d.bitPos, 2);
    WordRead(d.(bitPos := d.bitPos + 32), Join(b[0], b[1]))
  }

  predicate PortAccepts(d: Drive)
  {
    d.loaded && d.dmaActive && d.dmaWrite && !d.writeProtect && d.bitPos + 16 <= d.mfmBits
  }

  datatype PortWritten = PortWritten(d: Drive, blk: bool)

  /** The drive after one word went onto the track under the head. */
  function PutWord(d: Drive, w: Word): (r: Drive)
    requires Valid(d) && PortAccepts(d)
    ensures Valid(r)
  {
    d.(mfm := Overwrite(d.mfm, d.bitPos, w), dmaPtr := d.dmaPtr + 2, bitPos := d.bitPos + 16,
       dmaWords := d.dmaWords - 1, dmaActive := d.dmaWords > 1)
  }

  function PortWrite(d: Drive, w: Word): (r: PortWritten)
    requires Valid(d)
    ensures Valid(r.d)
  {
    if !PortAccepts(d) then PortWritten(d, false) else
    var d1 := PutWord(d, w);
    if d1.dmaWords == 0 then PortWritten(Commit(d1), true) else PortWritten(d1, false)
  }
}
