/** The floppy controller as it runs: drive state updated in place, the raw track in a packed buffer. */
module FloppyUnit {
  import opened Bits
  import opened Crc16
  import opened Mfm
  import opened Track
  import TrackWriter
  import opened TrackReader
  import opened FloppyDrive

  class Unit {
    var adf: seq<Byte>
    var loaded: bool
    var dirty: bool
    var cyl: int
    var head: int
    var motor: bool
    var writeProtect: bool
    var chngCleared: bool
    var bitPos: nat
    const track: array<Byte>
    var mfmBits: nat
    var dmaActive: bool
    var dmaWrite: bool
    var dmaPtr: nat
    var dmaWords: nat
    var dmaSync: Word
    var dmaSyncFound: bool

    /** The state as a value. */
    function View(): Drive
      reads this, track
    {
      Drive(adf, loaded, dirty, cyl, head, motor, writeProtect, chngCleared, bitPos, Unpack(track[..]), mfmBits,
            dmaActive, dmaWrite, dmaPtr, dmaWords, dmaSync, dmaSyncFound)
    }

    ghost predicate Ok()
      reads this, track
    {
      track.Length == 12800 && Valid(View())
    }

    constructor ()
      ensures Ok() && fresh(track) && !loaded && !dmaActive
    {
      adf := ZeroBytes(DISK_SIZE);
      loaded, dirty, motor, writeProtect, chngCleared := false, false, false, false, false;
      cyl, head, bitPos, mfmBits := 0, 0, 0, 0;
      dmaActive, dmaWrite, dmaPtr, dmaWords, dmaSync, dmaSyncFound := false, false, 0, 0, Zeros(16), false;
      track := new Byte[12800](_ => Zeros(8));
    }

    method RegenerateTrack()
      requires track.Length == 12800 && Valid(View().(mfmBits := TRACK_BITS)) && (mfmBits == 0 || mfmBits == TRACK_BITS)
      modifies this`mfmBits, track
      ensures View() == Regenerate(old(View()))
    {
      if !loaded {
        return;
      }
      var n := 2 * cyl + head;
      mfmBits := TrackWriter.GenerateTrack(adf[5632 * n..5632 * n + 5632], track);
    }

    /** A new image is in the drive, before its raw track is generated. */
    method Insert(data: seq<Byte>)
      modifies this`adf, this`loaded, this`dirty, this`chngCleared
      ensures View() == old(View()).(adf := data, loaded := true, dirty := false, chngCleared := false)
    {
      adf, loaded, dirty, chngCleared := data, true, false, false;
    }

    method Recalibrate()
      modifies this`cyl, this`head, this`bitPos
      ensures View() == old(View()).(cyl := 0, head := 0, bitPos := 0)
    {
      cyl, head, bitPos := 0, 0, 0;
    }

    method LoadAdf(data: seq<Byte>) returns (ok: bool)
      requires Ok()
      modifies this, track
      ensures View() == Load(old(View()), data) && ok == (|data| == DISK_SIZE)
    {
      if |data| != DISK_SIZE {
        return false;
      }
      Insert(data);
      Recalibrate();
      dmaActive := false;
      RegenerateTrack();
      return true;
    }

    method EjectDisk()
      requires Ok()
      modifies this
      ensures View() == Eject(old(View()))
    {
      loaded, dmaActive, motor := false, false, false;
      Forget();
    }

    method Forget()
      modifies this`mfmBits, this`dirty, this`chngCleared
      ensures View() == old(View()).(mfmBits := 0, dirty := false, chngCleared := false)
    {
      mfmBits, dirty, chngCleared := 0, false, false;
    }

    method InstallImage(image: seq<Byte>)
      requires Ok() && |image| == DISK_SIZE
      modifies this, track
      ensures View() == Install(old(View()), image)
    {
      Insert(image);
      Recalibrate();
      RegenerateTrack();
    }

    method PlaceHead(c: int, h: int)
      requires Ok()
      modifies this`cyl, this`head
      ensures View() == old(View()).(cyl := Clamp(c, CYLINDERS), head := Clamp(h, 2))
    {
      var c1 := Clamped(c, CYLINDERS);
      var h1 := Clamped(h, 2);
      cyl, head := c1, h1;
    }

    method Rewind()
      modifies this`bitPos
      ensures View() == old(View()).(bitPos := 0)
    {
      bitPos := 0;
    }

    method SeekTo(c: int, h: int)
      requires Ok()
      modifies this, track
      ensures View() == Seek(old(View()), c, h)
    {
      PlaceHead(c, h);
      RegenerateTrack();
      Rewind();
    }

    method StepHead(inward: bool)
      requires Ok()
      modifies this, track
      ensures View() == Step(old(View()), inward)
    {
      SeekTo(if inward then cyl + 1 else cyl - 1, head);
    }

    method PutAt(at: nat, data: seq<Byte>)
      requires Ok() && at + |data| <= DISK_SIZE
      modifies this`adf, this`dirty
      ensures View() == old(View()).(adf := old(adf)[..at] + data + old(adf)[at + |data|..], dirty := true)
    {
      adf := adf[..at] + data + adf[at + |data|..];
      dirty := true;
    }

    method StoreSector(n: int, sector: int, data: seq<Byte>) returns (ok: bool)
      requires Ok() && |data| == SECTOR_SIZE
      modifies this, track
      ensures View() == WriteSector(old(View()), n, sector, data) && ok == WritableSector(old(View()), n, sector)
    {
      if !loaded || writeProtect || n < 0 || n >= 160 || sector < 0 || sector >= SECTORS {
        return false;
      }
      PutAt(5632 * n + 512 * sector, data);
      if 2 * cyl + head == n {
        RegenerateTrack();
      }
      return true;
    }

    // ---------- launching a transfer ----------

    method Aim(ptr: nat, words: nat, sync: Word)
      modifies this`dmaPtr, this`dmaWords, this`dmaSync
      ensures View() == old(View()).(dmaPtr := ptr, dmaWords := words, dmaSync := sync)
    {
      dmaPtr, dmaWords, dmaSync := ptr, words, sync;
    }

    method Arm(write: bool)
      modifies this`dmaSyncFound, this`dmaActive, this`dmaWrite
      ensures View() == old(View()).(dmaSyncFound := false, dmaActive := true, dmaWrite := write)
    {
      dmaSyncFound, dmaActive, dmaWrite := false, true, write;
    }

    method LaunchRead(ptr: nat, dsklen: nat, sync: Word) returns (ok: bool)
      requires Ok()
      modifies this
      ensures View() == StartRead(old(View()), ptr, dsklen, sync) && ok == loaded
    {
      ok := loaded;
      if ok {
        var words := dsklen % 0x4000;
        if words == 0 { words := 0x8000; }
        Aim(ptr, words, if sync == Zeros(16) then SYNC else sync);
        Arm(false);
      }
    }

    method LaunchWrite(ptr: nat, dsklen: nat) returns (ok: bool)
      requires Ok()
      modifies this
      ensures View() == StartWrite(old(View()), ptr, dsklen) && ok == (loaded && !writeProtect)
    {
      ok := loaded && !writeProtect;
      if ok {
        var words := dsklen % 0x4000;
        if words == 0 { words := 0x8000; }
        Aim(ptr, words, SYNC);
        Arm(true);
      }
    }

    // ---------- read transfer ----------

    method FindReadStart(bits: nat) returns (p: int)
      requires Ok() && mfmBits == TRACK_BITS
      ensures p == ReadStart(View(), bits)
    {
      if dmaSyncFound {
        return bitPos;
      }
      p := FindSecond(track[..], dmaSync, bitPos, Min(bitPos + bits, mfmBits));
      if p >= 0 {
        p := p + 16;
      }
    }

    method FindWriteStart(bits: nat) returns (p: int)
      requires Ok() && mfmBits == TRACK_BITS
      ensures p == WriteStart(View(), bits)
    {
      if dmaSyncFound {
        return bitPos;
      }
      p := SearchWord(track[..], dmaSync, bitPos, Min(bitPos + bits, mfmBits));
      if p >= 0 {
        p := p + 16;
      }
    }

    /** The transfer went on by `k` words and the head stands at `pos`. */
    method Advance(pos: nat, k: nat)
      requires k <= dmaWords
      modifies this`bitPos, this`dmaPtr, this`dmaWords
      ensures View() == old(View()).(bitPos := pos, dmaPtr := old(dmaPtr) + 2 * k, dmaWords := old(dmaWords) - k)
    {
      bitPos, dmaPtr, dmaWords := pos, dmaPtr + 2 * k, dmaWords - k;
    }

    method Note(active: bool)
      modifies this`dmaSyncFound, this`dmaActive
      ensures View() == old(View()).(dmaSyncFound := true, dmaActive := active)
    {
      dmaSyncFound, dmaActive := true, active;
    }

    method Settle(pos: nat, k: nat)
      requires k <= dmaWords
      modifies this
      ensures View() == old(View()).(bitPos := pos, dmaPtr := old(dmaPtr) + 2 * k, dmaWords := old(dmaWords) - k,
                                     dmaSyncFound := true, dmaActive := k < old(dmaWords))
    {
      var active := k < dmaWords;
      Advance(pos, k);
      Note(active);
    }

    method TransferFrom(ram: array<Byte>, pos: nat, bits: nat) returns (blk: bool)
      requires Ok() && mfmBits == TRACK_BITS && dmaActive && ram != track && pos <= TRACK_BITS
      modifies this, ram
      ensures Outcome(View(), ram[..], blk) == ReadFrom(old(View()), old(ram[..]), pos, bits)
    {
      var k := MoveWords(track[..], ram, pos, Min(pos + bits, mfmBits), dmaPtr, dmaWords);
      blk := k == dmaWords;
      Settle(pos + 32 * k, k);
    }

    method TransferIn(ram: array<Byte>, bits: nat) returns (blk: bool)
      requires Ok() && mfmBits == TRACK_BITS && dmaActive && ram != track
      modifies this, ram
      ensures Outcome(View(), ram[..], blk) == ReadTransfer(old(View()), old(ram[..]), bits)
    {
      var pos := FindReadStart(bits);
      if pos < 0 {
        return false;
      }
      blk := TransferFrom(ram, pos, bits);
    }

    /** Decodes the track and brings the ADF up to date with it. */
    method CommitTrack()
      requires Ok() && mfmBits == TRACK_BITS
      modifies this`adf, this`dirty
      ensures View() == Commit(old(View()))
    {
      var dec := DecodeBuffer(track[..], mfmBits);
      if dec.found > 0 {
        adf, dirty := CommitSectors(adf, dirty, 2 * cyl + head, dec.sectors);
      }
    }

    method StreamOut(ram: array<Byte>, pos: nat, limit: nat) returns (k: nat)
      requires Ok() && ram != track && pos <= TRACK_BITS && limit <= TRACK_BITS
      modifies this, track
      ensures k == Count(old(dmaWords), pos, limit, 16) && pos + 16 * k <= TRACK_BITS
      ensures View() == PutWords(old(View()), ram[..], pos, k)
    {
      k := BurnWords(track, ram, pos, limit, dmaPtr, dmaWords);
      Settle(pos + 16 * k, k);
    }

    method TransferOut(ram: array<Byte>, bits: nat) returns (blk: bool)
      requires Ok() && mfmBits == TRACK_BITS && dmaActive && ram != track
      modifies this, track
      ensures Outcome(View(), ram[..], blk) == WriteTransfer(old(View()), old(ram[..]), bits)
    {
      var pos := FindWriteStart(bits);
      if pos < 0 {
        return false;
      }
      var k := StreamOut(ram, pos, Min(pos + bits, mfmBits));
      blk := dmaWords == 0;
      if blk {
        CommitTrack();
      }
    }

    method Spin(bits: nat)
      modifies this`bitPos
      ensures View() == Rotate(old(View()), bits)
    {
      bitPos := bitPos + bits;
      if bitPos >= mfmBits {
        bitPos := bitPos - mfmBits;
      }
    }

    method RunTransfer(ram: array<Byte>, bits: nat) returns (blk: bool)
      requires Ok() && ram != track && loaded
      modifies this, track, ram
      ensures Outcome(View(), ram[..], blk) == Transfer(old(View()), old(ram[..]), bits)
    {
      blk := false;
      if dmaActive {
        if dmaWrite {
          blk := TransferOut(ram, bits);
        } else {
          blk := TransferIn(ram, bits);
        }
      }
    }

    method TurnBy(ram: array<Byte>, bits: nat) returns (blk: bool)
      requires Ok() && ram != track && loaded && bits <= TRACK_BITS
      modifies this, track, ram
      ensures Outcome(View(), ram[..], blk) == FloppyDrive.Turn(old(View()), old(ram[..]), bits)
    {
      blk := RunTransfer(ram, bits);
      Spin(bits);
    }

    /** One rotation step; `blk` asks for the disk interrupt. */
    method RunTick(ram: array<Byte>) returns (blk: bool)
      requires Ok() && ram != track
      modifies this, track, ram
      ensures Outcome(View(), ram[..], blk) == Tick(old(View()), old(ram[..]))
    {
      if !motor || !loaded || mfmBits == 0 {
        return false;
      }
      var bits := (mfmBits + 4) / 9;
      if bits == 0 { bits := 1; }
      blk := TurnBy(ram, bits);
    }

    method ReadPort() returns (w: Word)
      requires Ok()
      modifies this
      ensures WordRead(View(), w) == PortRead(old(View()))
    {
      if !loaded || !dmaActive || bitPos + 32 > mfmBits {
        return Zeros(16);
      }
      var b := ReadBlock(track[..], mfmBits, bitPos, 2);
      bitPos := bitPos + 32;
      return Join(b[0], b[1]);
    }

    method WritePort(w: Word) returns (blk: bool)
      requires Ok()
      modifies this, track
      ensures PortWritten(View(), blk) == PortWrite(old(View()), w)
    {
      if !loaded || !dmaActive || !dmaWrite || writeProtect || bitPos + 16 > mfmBits {
        return false;
      }
      ghost var d := View();
      WriteWord(track, bitPos, w);
      Advance(bitPos + 16, 1);
      blk := dmaWords == 0;
      dmaActive := !blk;
      assert View() == PutWord(d, w);
      if blk {
        CommitTrack();
      }
    }
  }

  lemma CountIs(words: nat, pos: nat, limit: nat, size: nat, k: nat)
    requires size > 0 && k <= words
    requires (k == 0 || pos + size * k <= limit) && (k == words || pos + size * (k + 1) > limit)
    ensures Count(words, pos, limit, size) == k
  {
    var c := Count(words, pos, limit, size);
    if c < k {
      Fits(size, c + 1, k);
    }
    if k < c {
      Fits(size, k + 1, c);
    }
  }

  /** The image with the first `s` sectors of a track replaced. */
  function PutSectors(adf: seq<Byte>, track: nat, sectors: seq<seq<Byte>>): (r: seq<Byte>)
    requires |adf| == DISK_SIZE && track < 160 && |sectors| <= SECTORS
    requires forall k :: 0 <= k < |sectors| ==> |sectors[k]| == SECTOR_SIZE
    ensures |r| == DISK_SIZE
  {
    adf[..5632 * track] + Flatten(sectors) + adf[5632 * track + 512 * |sectors|..]
  }

  lemma {:induction false} PutSectorsMore(adf: seq<Byte>, track: nat, sectors: seq<seq<Byte>>, n: nat)
    requires |adf| == DISK_SIZE && track < 160 && n < |sectors| <= SECTORS
    requires forall k :: 0 <= k < |sectors| ==> |sectors[k]| == SECTOR_SIZE
    ensures var r, at := PutSectors(adf, track, sectors[..n]), 5632 * track + 512 * n;
      r[at..at + 512] == adf[at..at + 512] &&
      PutSectors(adf, track, sectors[..n + 1]) == r[..at] + sectors[n] + r[at + 512..]
  {
    assert sectors[..n + 1][..n] == sectors[..n];
  }

  method ReplaceIfDifferent(adf: seq<Byte>, at: nat, data: seq<Byte>) returns (r: seq<Byte>, changed: bool)
    requires at + |data| <= |adf|
    ensures r == adf[..at] + data + adf[at + |data|..] && changed == (adf[at..at + |data|] != data)
    ensures !changed ==> r == adf
  {
    changed := adf[at..at + |data|] != data;
    r := adf;
    if changed {
      r := adf[..at] + data + adf[at + |data|..];
    } else {
      assert adf == adf[..at] + adf[at..at + |data|] + adf[at + |data|..];
    }
  }

  lemma ReplacedDiffers(adf0: seq<Byte>, adf: seq<Byte>, at: nat, data: seq<Byte>)
    requires |adf0| == |adf| && at + |data| <= |adf| && adf0[at..at + |data|] == adf[at..at + |data|] != data
    ensures adf[..at] + data + adf[at + |data|..] != adf0
  {
    assert (adf[..at] + data + adf[at + |data|..])[at..at + |data|] == data;
  }

  /** Copies one sector into the image if it differs; up to there the image is the original. */
  method CommitSector(ghost adf0: seq<Byte>, adf: seq<Byte>, track: nat, s: nat, data: seq<Byte>)
    returns (adf': seq<Byte>, changed: bool)
    requires |adf0| == |adf| == DISK_SIZE && track < 160 && s < SECTORS && |data| == SECTOR_SIZE
    requires adf[5632 * track + 512 * s..5632 * track + 512 * s + 512] == adf0[5632 * track + 512 * s..5632 * track + 512 * s + 512]
    ensures adf' == adf[..5632 * track + 512 * s] + data + adf[5632 * track + 512 * s + 512..]
    ensures (changed ==> adf' != adf0) && (!changed ==> adf' == adf)
  {
    adf', changed := ReplaceIfDifferent(adf, 5632 * track + 512 * s, data);
    if changed {
      ReplacedDiffers(adf0, adf, 5632 * track + 512 * s, data);
    }
  }

  /** Copies every sector that differs from the image into it. */
  method CommitSectors(adf0: seq<Byte>, dirty0: bool, track: nat, sectors: seq<seq<Byte>>)
    returns (adf: seq<Byte>, dirty: bool)
    requires |adf0| == DISK_SIZE && track < 160 && |sectors| == SECTORS
    requires forall k :: 0 <= k < SECTORS ==> |sectors[k]| == SECTOR_SIZE
    ensures adf == PutTrack(adf0, track, Flatten(sectors)) && dirty == (dirty0 || adf != adf0)
  {
    adf, dirty := adf0, dirty0;
    var changed;
    assert PutSectors(adf0, track, sectors[..0]) == adf0;
    for s := 0 to SECTORS
      invariant adf == PutSectors(adf0, track, sectors[..s]) && dirty == (dirty0 || adf != adf0)
    {
      PutSectorsMore(adf0, track, sectors, s);
      adf, changed := CommitSector(adf0, adf, track, s, sectors[s]);
      dirty := dirty || changed;
    }
    assert sectors[..SECTORS] == sectors;
  }

  method FindSecond(bits: seq<Byte>, w: Word, pos: nat, end: nat) returns (p: int)
    requires end <= 8 * |bits|
    ensures p == SecondWord(Unpack(bits), w, pos, end)
  {
    var header := SearchWord(bits, w, pos, end);
    if header < 0 {
      return -1;
    }
    p := SearchWord(bits, w, header + 208, end);
  }

  /** Stores one word in chip RAM; a word past the end is dropped. */
  method PokeWord(ram: array<Byte>, addr: nat, hi: Byte, lo: Byte)
    modifies ram
    ensures ram[..] == StoreBytes(old(ram[..]), addr, [hi, lo])
  {
    if addr + 2 <= ram.Length {
      ram[addr], ram[addr + 1] := hi, lo;
    }
  }

  method Clamped(x: int, top: nat) returns (r: int)
    requires top > 0
    ensures r == Clamp(x, top)
  {
    r := x;
    if r < 0 { r := 0; }
    if r >= top { r := top - 1; }
  }

  /** Storing two more bytes after a stored block is storing the longer block. */
  lemma StoreMore(ram: seq<Byte>, ptr: nat, bytes: seq<Byte>, more: seq<Byte>)
    requires |bytes| % 2 == 0 && |more| == 2
    ensures StoreBytes(StoreBytes(ram, ptr, bytes), ptr + |bytes|, more) == StoreBytes(ram, ptr, bytes + more)
  {
  }

  lemma ReadMore(s: seq<bool>, pos: nat, k: nat)
    requires pos + 32 * (k + 1) <= |s|
    ensures ReadBytes(s, pos, 2 * k) + ReadBytes(s, pos + 32 * k, 2) == ReadBytes(s, pos, 2 * (k + 1))
  {
  }

  /** Decodes one word of the track into chip RAM. */
  method CopyWord(bits: seq<Byte>, ram: array<Byte>, pos: nat, addr: nat)
    requires pos + 32 <= 8 * |bits|
    modifies ram
    ensures ram[..] == StoreBytes(old(ram[..]), addr, ReadBytes(Unpack(bits), pos, 2))
  {
    var w0 := ReadWord(bits, pos);
    var w1 := ReadWord(bits, pos + 16);
    var b0 := DecodeWord(w0);
    var b1 := DecodeWord(w1);
    assert ReadBytes(Unpack(bits), pos, 2) == [b0, b1];
    PokeWord(ram, addr, b0, b1);
  }

  /** Decodes words of the track into chip RAM until `words` are done or the next would pass `limit`. */
  method MoveWords(bits: seq<Byte>, ram: array<Byte>, pos: nat, limit: nat, ptr: nat, words: nat)
    returns (k: nat)
    requires limit <= 8 * |bits| && pos <= 8 * |bits|
    modifies ram
    ensures k == Count(words, pos, limit, 32)
    ensures ram[..] == StoreBytes(old(ram[..]), ptr, ReadBytes(Unpack(bits), pos, 2 * k))
  {
    ghost var s, before := Unpack(bits), ram[..];
    k := 0;
    assert ram[..] == StoreBytes(before, ptr, ReadBytes(s, pos, 0));
    while k < words && pos + 32 * (k + 1) <= limit
      invariant k <= words && pos + 32 * k <= 8 * |bits| && (k == 0 || pos + 32 * k <= limit)
      invariant ram[..] == StoreBytes(before, ptr, ReadBytes(s, pos, 2 * k))
      decreases words - k
    {
      CopyWord(bits, ram, pos + 32 * k, ptr + 2 * k);
      StoreMore(before, ptr, ReadBytes(s, pos, 2 * k), ReadBytes(s, pos + 32 * k, 2));
      ReadMore(s, pos, k);
      k := k + 1;
    }
    CountIs(words, pos, limit, 32, k);
  }

  lemma {:induction false} SpliceMore(s: seq<bool>, pos: nat, ws: seq<Word>, w: Word)
    requires pos + 16 * |ws| + 16 <= |s|
    ensures Splice(s, pos, ws + [w]) == Overwrite(Splice(s, pos, ws), pos + 16 * |ws|, w)
  {
    assert (ws + [w])[..|ws|] == ws;
  }

  method FetchWord(ram: array<Byte>, addr: nat) returns (w: Word)
    ensures w == PeekWord(ram[..], addr)
  {
    if addr + 2 > ram.Length {
      return Zeros(16);
    }
    return Join(ram[addr], ram[addr + 1]);
  }

  method BurnWord(track: array<Byte>, ram: array<Byte>, pos: nat, k: nat, ptr: nat, ghost s: seq<bool>)
    requires track != ram && |s| == 8 * track.Length && pos + 16 * (k + 1) <= |s|
    requires Unpack(track[..]) == Splice(s, pos, RamWords(ram[..], ptr, k))
    modifies track
    ensures Unpack(track[..]) == Splice(s, pos, RamWords(ram[..], ptr, k + 1))
  {
    var w := FetchWord(ram, ptr + 2 * k);
    WriteWord(track, pos + 16 * k, w);
    SpliceMore(s, pos, RamWords(ram[..], ptr, k), w);
    assert RamWords(ram[..], ptr, k) + [w] == RamWords(ram[..], ptr, k + 1);
  }

  /** Writes raw words from chip RAM onto the track until `words` are done or the next would pass `limit`. */
  method BurnWords(track: array<Byte>, ram: array<Byte>, pos: nat, limit: nat, ptr: nat, words: nat)
    returns (k: nat)
    requires track != ram && limit <= 8 * track.Length && pos <= 8 * track.Length
    modifies track
    ensures k == Count(words, pos, limit, 16) && pos + 16 * k <= 8 * track.Length
    ensures Unpack(track[..]) == Splice(old(Unpack(track[..])), pos, RamWords(ram[..], ptr, k))
  {
    ghost var s := Unpack(track[..]);
    k := 0;
    while k < words && pos + 16 * (k + 1) <= limit
      invariant k <= words && (k == 0 || pos + 16 * k <= limit)
      invariant Unpack(track[..]) == Splice(s, pos, RamWords(ram[..], ptr, k))
      decreases words - k
    {
      BurnWord(track, ram, pos, k, ptr, s);
      k := k + 1;
    }
    CountIs(words, pos, limit, 16, k);
  }
}
