/** Decoding of a raw track back into sectors. */
module TrackReader {
  import opened Bits
  import opened Crc16
  import opened Mfm
  import opened SyncUniqueness
  import opened Track

  /** The first position at or after `start` where `w` is read wholly before `end`, or -1. */
  function FindWord(s: seq<bool>, w: Word, start: nat, end: nat): (r: int)
    requires end <= |s|
    ensures r == -1 || (start <= r && r + 16 <= end && HasWord(s, w, r))
    decreases end - start
  {
    if start + 16 > end then -1
    else if HasWord(s, w, start) then start
    else FindWord(s, w, start + 1, end)
  }

  /** The result is pinned down: the first position at or after `start` where the word is read. */
  lemma {:induction false} FindWordFirst(s: seq<bool>, w: Word, start: nat, end: nat, p: nat)
    requires end <= |s| && start <= p && p + 16 <= end && HasWord(s, w, p)
    requires forall q :: start <= q < p ==> !HasWord(s, w, q)
    ensures FindWord(s, w, start, end) == p
    decreases p - start
  {
    if start < p {
      FindWordFirst(s, w, start + 1, end, p);
    }
  }

  lemma {:induction false} FindWordNone(s: seq<bool>, w: Word, start: nat, end: nat)
    requires end <= |s|
    requires forall q :: start <= q && q + 16 <= end ==> !HasWord(s, w, q)
    ensures FindWord(s, w, start, end) == -1
    decreases end - start
  {
    if start + 16 <= end {
      FindWordNone(s, w, start + 1, end);
    }
  }

  function FindSync(s: seq<bool>, start: nat): (r: int)
    ensures r == -1 || (start <= r && HasWord(s, SYNC, r))
  {
    FindWord(s, SYNC, start, |s|)
  }

  function ReadBytes(s: seq<bool>, pos: nat, n: nat): (r: seq<Byte>)
    requires pos + 16 * n <= |s|
    ensures |r| == n
  {
    seq(n, i requires 0 <= i < n => Decode(WordAt(s, pos + 16 * i)))
  }

  datatype Decoded = Decoded(found: nat, sectors: seq<seq<Byte>>)

  ghost predicate WellFormed(d: Decoded)
  {
    |d.sectors| == SECTORS && forall k :: 0 <= k < SECTORS ==> |d.sectors[k]| == SECTOR_SIZE
  }

  predicate HeaderOk(hdr: seq<Byte>)
    requires |hdr| == 24
  {
    Crc(hdr[..20]) == Join(hdr[20], hdr[21]) && Value(hdr[2]) < SECTORS
  }

  predicate BodyOk(body: seq<Byte>)
    requires |body| == SECTOR_SIZE + 2
  {
    Crc(body[..SECTOR_SIZE]) == Join(body[SECTOR_SIZE], body[SECTOR_SIZE + 1])
  }

  /** One turn of the decoder: stop, skip ahead, or a good sector found. */
  datatype Turn = Stop | Skip(next: nat) | Good(next: nat, sec: nat, data: seq<Byte>)

  function NextTurn(s: seq<bool>, pos: nat): (r: Turn)
    ensures !r.Stop? ==> pos < r.next <= |s|
    ensures r.Good? ==> r.sec < SECTORS && |r.data| == SECTOR_SIZE
  {
    if pos + 16 >= |s| then Stop else
    var sync := FindSync(s, pos);
    if sync < 0 || sync + 400 > |s| then Stop else
    var hdr := ReadBytes(s, sync + 16, 24);
    if !HeaderOk(hdr) then Skip(sync + 400) else
    BodyTurn(s, sync + 400, Value(hdr[2]))
  }

  function BodyTurn(s: seq<bool>, pos: nat, sec: nat): (r: Turn)
    ensures !r.Stop? ==> pos < r.next <= |s|
    ensures r.Good? ==> r.sec == sec && |r.data| == SECTOR_SIZE
  {
    var sync := FindSync(s, pos);
    if sync < 0 || sync + 16 + 8224 > |s| then Stop else
    var body := ReadBytes(s, sync + 16, SECTOR_SIZE + 2);
    var next := sync + 16 + 8224;
    if BodyOk(body) then Good(next, sec, body[..SECTOR_SIZE]) else Skip(next)
  }

  /** The decoder from stream position `pos` with `acc` decoded so far. */
  function DecodeFrom(s: seq<bool>, pos: nat, acc: Decoded): (r: Decoded)
    requires WellFormed(acc)
    ensures WellFormed(r) && r.found >= acc.found
    decreases |s| - pos
  {
    match NextTurn(s, pos)
    case Stop => acc
    case Skip(next) => DecodeFrom(s, next, acc)
    case Good(next, sec, data) => DecodeFrom(s, next, Decoded(acc.found + 1, acc.sectors[sec := data]))
  }

  function Nothing(): (d: Decoded)
    ensures WellFormed(d)
  {
    Decoded(0, seq(SECTORS, _ => ZeroBytes(SECTOR_SIZE)))
  }

  function DecodeTrack(s: seq<bool>): (r: Decoded)
    ensures WellFormed(r)
  {
    DecodeFrom(s, 0, Nothing())
  }

  method SearchWord(bits: seq<Byte>, w: Word, start: nat, end: nat) returns (r: int)
    requires end <= 8 * |bits|
    ensures r == FindWord(Unpack(bits), w, start, end)
  {
    ghost var s := Unpack(bits);
    r := start;
    while r + 16 <= end
      invariant start <= r && forall q :: start <= q < r ==> !HasWord(s, w, q)
    {
      var here := ReadWord(bits, r);
      if here == w {
        FindWordFirst(s, w, start, end, r);
        return;
      }
      r := r + 1;
    }
    FindWordNone(s, w, start, end);
    r := -1;
  }

  method SearchSync(bits: seq<Byte>, len: nat, start: nat) returns (r: int)
    requires len == 8 * |bits|
    ensures r == FindSync(Unpack(bits), start)
  {
    r := SearchWord(bits, SYNC, start, len);
  }

  method ReadBlock(bits: seq<Byte>, len: nat, pos: nat, n: nat) returns (r: seq<Byte>)
    requires pos + 16 * n <= len == 8 * |bits|
    ensures r == ReadBytes(Unpack(bits), pos, n)
  {
    ghost var s := Unpack(bits);
    r := [];
    for i := 0 to n
      invariant r == ReadBytes(s, pos, i)
    {
      var w := ReadWord(bits, pos + 16 * i);
      var b := DecodeWord(w);
      r := r + [b];
    }
  }

  method ReadHeader(bits: seq<Byte>, len: nat, pos: nat) returns (hdr: seq<Byte>, ok: bool)
    requires pos + 16 * 24 <= len == 8 * |bits|
    ensures hdr == ReadBytes(Unpack(bits), pos, 24) && ok == HeaderOk(hdr)
  {
    hdr := ReadBlock(bits, len, pos, 24);
    var crc := ComputeCrc(hdr[..20]);
    ok := crc == Join(hdr[20], hdr[21]) && Value(hdr[2]) < SECTORS;
  }

  method ReadBody(bits: seq<Byte>, len: nat, pos: nat, sec: nat) returns (turn: Turn)
    requires len == 8 * |bits|
    ensures turn == BodyTurn(Unpack(bits), pos, sec)
  {
    var sync := SearchSync(bits, len, pos);
    if sync < 0 || sync + 16 + 8224 > len {
      return Stop;
    }
    var body := ReadBlock(bits, len, sync + 16, SECTOR_SIZE + 2);
    var crc := ComputeCrc(body[..SECTOR_SIZE]);
    var next := sync + 16 + 8224;
    if crc != Join(body[SECTOR_SIZE], body[SECTOR_SIZE + 1]) {
      return Skip(next);
    }
    return Good(next, sec, body[..SECTOR_SIZE]);
  }

  lemma {:induction false} TurnAtHeader(s: seq<bool>, pos: nat, sync: nat, hdr: seq<Byte>)
    requires pos + 16 < |s| && FindSync(s, pos) == sync && sync + 400 <= |s|
    requires hdr == ReadBytes(s, sync + 16, 24)
    ensures NextTurn(s, pos) == if HeaderOk(hdr) then BodyTurn(s, sync + 400, Value(hdr[2])) else Skip(sync + 400)
  {
  }

  method TakeTurn(bits: seq<Byte>, len: nat, pos: nat) returns (turn: Turn)
    requires len == 8 * |bits|
    ensures turn == NextTurn(Unpack(bits), pos)
  {
    if pos + 16 >= len {
      return Stop;
    }
    var sync := SearchSync(bits, len, pos);
    if sync < 0 || sync + 400 > len {
      return Stop;
    }
    var hdr, ok := ReadHeader(bits, len, sync + 16);
    TurnAtHeader(Unpack(bits), pos, sync, hdr);
    if !ok {
      return Skip(sync + 400);
    }
    turn := ReadBody(bits, len, sync + 400, Value(hdr[2]));
  }

  lemma {:induction false} DecodeStep(s: seq<bool>, pos: nat, acc: Decoded, turn: Turn)
    requires WellFormed(acc) && turn == NextTurn(s, pos)
    ensures DecodeFrom(s, pos, acc) ==
      if turn.Stop? then acc
      else if turn.Skip? then DecodeFrom(s, turn.next, acc)
      else DecodeFrom(s, turn.next, Decoded(acc.found + 1, acc.sectors[turn.sec := turn.data]))
  {
  }

  /** Decodes every sector it can find; sectors it cannot find are left zero. */
  method DecodeBuffer(bits: seq<Byte>, len: nat) returns (d: Decoded)
    requires len == 8 * |bits|
    ensures d == DecodeTrack(Unpack(bits))
  {
    ghost var s := Unpack(bits);
    ghost var result := DecodeTrack(s);
    d := Nothing();
    var pos := 0;
    while true
      invariant pos <= len && WellFormed(d) && result == DecodeFrom(s, pos, d)
      decreases len - pos
    {
      var turn := TakeTurn(bits, len, pos);
      DecodeStep(s, pos, d, turn);
      match turn {
        case Stop => return;
        case Skip(next) => pos := next;
        case Good(next, sec, data) =>
          d := Decoded(d.found + 1, d.sectors[sec := data]);
          pos := next;
      }
    }
  }
}
