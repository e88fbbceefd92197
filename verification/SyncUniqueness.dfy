/** The sync word can be read only where a sync word was emitted, at any bit alignment. */
module SyncUniqueness {
  import opened Bits
  import opened Mfm

  predicate HasWord(s: seq<bool>, w: Word, p: nat)
  {
    p + 16 <= |s| && WordAt(s, p) == w
  }

  /** Every sync cell is emitted while the encoder's running data bit is zero, and is followed by a data byte. */
  ghost predicate Framed(cells: seq<Cell>)
  {
    forall j :: 0 <= j < |cells| && cells[j].Sync? ==>
      !LastBit(cells[..j]) && (j + 1 < |cells| ==> cells[j + 1].Data?)
  }

  lemma HoleInSync(o: nat)
    requires 0 < o < 16 && o % 2 == 0
    requires !SYNC[16 - o] && !SYNC[15 - o] && !SYNC[14 - o]
    ensures o == 10
  {
    assert o in {2, 4, 6, 8, 10, 12, 14};
  }

  /** Within one cell, a zero clock between two zero data bits is the sixth clock of a sync word. */
  lemma {:induction false} HoleInCell(w: Word, c: Cell, prev: bool, o: nat)
    requires w == CellWord(c, prev)
    requires 0 < o < 16 && o % 2 == 0
    requires !w[16 - o] && !w[15 - o] && !w[14 - o]
    ensures c.Sync? && o == 10
  {
    match c
    case Data(b) =>
      var k := 7 - o / 2;
      assert 14 - o == 2 * k && 16 - o == 2 * (k + 1);
      EncodeBits(b, prev, k);
      EncodeBits(b, prev, k + 1);
    case Sync =>
      HoleInSync(o);
  }

  lemma {:induction false} LastBitAfter(cells: seq<Cell>, j: nat)
    requires 0 < j <= |cells|
    ensures LastBit(cells[..j]) == if cells[j - 1].Data? then cells[j - 1].b[0] else LastBit(cells[..j - 1])
  {
    assert cells[..j][j - 1] == cells[j - 1];
    assert cells[..j][..j - 1] == cells[..j - 1];
  }

  /** The top two bits of a cell word are not both zero if the running bit is zero. */
  lemma {:induction false} FirstPair(c: Cell, prev: bool)
    requires !prev || c.Sync?
    ensures CellWord(c, prev)[15] || CellWord(c, prev)[14]
  {
    if c.Data? {
      EncodeBits(c.b, prev, 7);
    }
  }

  /** The bottom bit of a cell word is its data bit, or the last bit of the sync word. */
  lemma {:induction false} BottomBit(c: Cell, prev: bool)
    ensures CellWord(c, prev)[0] == (c.Sync? || c.b[0])
  {
    if c.Data? {
      EncodeBits(c.b, prev, 0);
    }
  }

  lemma WordBits(s: seq<bool>, j: nat, o: nat)
    requires 16 * j + 16 <= |s| && o < 16
    ensures WordAt(s, 16 * j)[15 - o] == s[16 * j + o]
  {
  }

  /** At a cell boundary there is no such hole. */
  lemma {:induction false} NoHoleAtStart(s: seq<bool>, cells: seq<Cell>, j: nat)
    requires Encodes(s, cells) && 0 < j < |cells|
    ensures s[16 * j - 1] || s[16 * j] || s[16 * j + 1]
  {
    WordBits(s, j - 1, 15);
    WordBits(s, j, 0);
    WordBits(s, j, 1);
    assert CellAt(s, cells, j - 1) && CellAt(s, cells, j);
    BottomBit(cells[j - 1], LastBit(cells[..j - 1]));
    LastBitAfter(cells, j);
    if !s[16 * j - 1] {
      FirstPair(cells[j], LastBit(cells[..j]));
    }
  }

  lemma {:induction false} HoleAt(s: seq<bool>, cells: seq<Cell>, j: nat, o: nat)
    requires Encodes(s, cells) && j < |cells| && 0 < o < 16 && o % 2 == 0
    requires !s[16 * j + o - 1] && !s[16 * j + o] && !s[16 * j + o + 1]
    ensures cells[j].Sync? && o == 10
  {
    WordBits(s, j, o - 1);
    WordBits(s, j, o);
    WordBits(s, j, o + 1);
    assert CellAt(s, cells, j);
    HoleInCell(WordAt(s, 16 * j), cells[j], LastBit(cells[..j]), o);
  }

  /** A clock bit and its two neighbouring data bits are all zero only inside a sync word, at its sixth clock. */
  lemma {:induction false} ClockHole(s: seq<bool>, cells: seq<Cell>, q: nat)
    requires Encodes(s, cells)
    requires 0 < q && q + 1 < |s| && q % 2 == 0
    requires !s[q - 1] && !s[q] && !s[q + 1]
    ensures cells[q / 16].Sync? && q % 16 == 10
  {
    if q % 16 > 0 {
      HoleAt(s, cells, q / 16, q % 16);
    } else {
      NoHoleAtStart(s, cells, q / 16);
    }
  }

  /** Right after a sync word the first clock and data bit are not both zero. */
  lemma {:induction false} AfterSync(s: seq<bool>, cells: seq<Cell>, j: nat)
    requires Encodes(s, cells)
    requires Framed(cells) && j + 1 < |cells| && cells[j].Sync?
    ensures s[16 * j + 16] || s[16 * j + 17]
  {
    WordBits(s, j + 1, 0);
    WordBits(s, j + 1, 1);
    assert CellAt(s, cells, j + 1);
    LastBitAfter(cells, j + 1);
    FirstPair(cells[j + 1], LastBit(cells[..j + 1]));
  }

  lemma {:induction false} NoStraySync(s: seq<bool>, cells: seq<Cell>, p: nat)
    requires Encodes(s, cells) && Framed(cells) && HasWord(s, SYNC, p)
    ensures p % 16 == 0 && cells[p / 16].Sync?
  {
    var w := WordAt(s, p);
    assert w == SYNC;
    if p % 2 == 0 {
      assert !w[6] && !w[5] && !w[4];
      ClockHole(s, cells, p + 10);
    } else {
      assert !w[13] && !w[12] && !w[11] && !w[6] && !w[5];
      ClockHole(s, cells, p + 3);
      AfterSync(s, cells, p / 16);
    }
  }

  /** Main result: a framed cell stream reads as the sync word exactly at its sync cells. */
  lemma {:induction false} SyncOnlyAtSyncCells(s: seq<bool>, cells: seq<Cell>, p: nat)
    requires Encodes(s, cells) && Framed(cells) && p + 16 <= |s|
    ensures HasWord(s, SYNC, p) <==> p % 16 == 0 && cells[p / 16].Sync?
  {
    if p % 16 == 0 {
      assert CellAt(s, cells, p / 16);
    }
    if HasWord(s, SYNC, p) {
      NoStraySync(s, cells, p);
    }
  }
}
