/** CRC-16-CCITT as used for sector headers and data: seed 0xFFFF, polynomial 0x1021. */
module Crc16 {
  import opened Bits

  /** 0x1021 */
  const POLY: Word := [true, false, false, false, false, true, false, false,
                       false, false, false, false, true, false, false, false]

  /** One turn of the shift register. */
  function Turn(crc: Word): Word
  {
    if crc[15] then Xor(Shl(crc, 1), POLY) else Shl(crc, 1)
  }

  function Turns(crc: Word, n: nat): Word
  {
    if n == 0 then crc else Turn(Turns(crc, n - 1))
  }

  function Feed(crc: Word, b: Byte): Word
  {
    Turns(Xor(crc, Zeros(8) + b), 8)
  }

  function FeedAll(crc: Word, data: seq<Byte>): Word
  {
    if data == [] then crc else Feed(FeedAll(crc, data[..|data| - 1]), data[|data| - 1])
  }

  function Crc(data: seq<Byte>): Word
  {
    FeedAll(Ones(16), data)
  }

  function Hi(w: Word): Byte { w[8..] }

  function Lo(w: Word): Byte { w[..8] }

  /** `(hi << 8) | lo` */
  function Join(hi: Byte, lo: Byte): Word { lo + hi }

  method ComputeCrc(data: seq<Byte>) returns (crc: Word)
    ensures crc == Crc(data)
  {
    crc := Ones(16);
    for i := 0 to |data|
      invariant crc == FeedAll(Ones(16), data[..i])
    {
      ghost var before := crc;
      crc := Xor(crc, Zeros(8) + data[i]);
      for j := 0 to 8
        invariant crc == Turns(Xor(before, Zeros(8) + data[i]), j)
      {
        if crc[15] {
          crc := Xor(Shl(crc, 1), POLY);
        } else {
          crc := Shl(crc, 1);
        }
      }
      assert data[..i + 1][..i] == data[..i];
    }
    assert data[..|data|] == data;
  }
}
