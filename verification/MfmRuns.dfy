/** What MFM is for: on an encoded stream no two ones touch and no four zeros follow each other. */
module MfmRuns {
  import opened Bits
  import opened Mfm
  import opened SyncUniqueness

  ghost predicate AllData(cells: seq<Cell>)
  {
    forall j :: 0 <= j < |cells| ==> cells[j].Data?
  }

  /** Data bit `n` of a run of bytes, in the order the bits go out. */
  function DataBit(cells: seq<Cell>, n: nat): bool
    requires n < 8 * |cells| && cells[n / 8].Data?
  {
    cells[n / 8].b[7 - n % 8]
  }

  lemma {:induction false} CellBits(s: seq<bool>, cells: seq<Cell>, j: nat, i: nat)
    requires Encodes(s, cells) && j < |cells| && cells[j].Data? && i < 8
    ensures s[16 * j + 2 * i + 1] == cells[j].b[7 - i]
    ensures s[16 * j + 2 * i] == (!cells[j].b[7 - i] && !(if i == 0 then LastBit(cells[..j]) else cells[j].b[8 - i]))
  {
    assert CellAt(s, cells, j);
    WordBits(s, j, 2 * i);
    WordBits(s, j, 2 * i + 1);
    EncodeBits(cells[j].b, LastBit(cells[..j]), 7 - i);
  }

  /** Data bits go out in the odd places; a clock pulse stands before one exactly if it and the bit before it are zero. */
  lemma {:induction false} BitsOut(s: seq<bool>, cells: seq<Cell>, n: nat)
    requires Encodes(s, cells) && AllData(cells) && n < 8 * |cells|
    ensures s[2 * n + 1] == DataBit(cells, n)
    ensures s[2 * n] == (!DataBit(cells, n) && !(n > 0 && DataBit(cells, n - 1)))
  {
    var j, i := n / 8, n % 8;
    CellBits(s, cells, j, i);
    if i == 0 && j > 0 {
      LastBitAfter(cells, j);
      assert (n - 1) / 8 == j - 1 && (n - 1) % 8 == 7;
    } else if i > 0 {
      assert (n - 1) / 8 == j && (n - 1) % 8 == i - 1;
    }
  }

  /** Main result: in the encoding of any bytes, at any position, no two ones are adjacent and at most three zeros come in a
      row. */
  lemma {:induction false} RunLengths(s: seq<bool>, cells: seq<Cell>, q: nat)
    requires Encodes(s, cells) && AllData(cells)
    ensures q + 1 < |s| ==> !(s[q] && s[q + 1])
    ensures q + 3 < |s| ==> s[q] || s[q + 1] || s[q + 2] || s[q + 3]
  {
    var n := q / 2;
    if q + 1 < |s| {
      BitsOut(s, cells, n);
      if n + 1 < 8 * |cells| {
        BitsOut(s, cells, n + 1);
      }
    }
  }
}
