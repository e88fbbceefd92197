/** What single operations on a drive come to: stored sectors, step pulses, and words read through the data port. */
module DriveOps {
  import opened Bits
  import opened Crc16
  import opened Mfm
  import opened Track
  import opened TrackReader
  import opened TrackRoundTrip
  import opened FloppyDrive
  import opened FloppyRun
  import DiskRead
  import DiskSpan

  // ---------- stored sectors ----------

  /** Sector k of track t of an image. */
  function SectorOf(adf: seq<Byte>, t: nat, k: nat): (d: seq<Byte>)
    requires |adf| == DISK_SIZE && t < 160 && k < SECTORS
    ensures |d| == SECTOR_SIZE
  {
    Sector(TrackOf(adf, t), k)
  }

  lemma {:induction false} SectorIs(adf: seq<Byte>, t: nat, k: nat)
    requires |adf| == DISK_SIZE && t < 160 && k < SECTORS
    ensures SectorOf(adf, t, k) == adf[5632 * t + 512 * k..5632 * t + 512 * k + 512]
  {
    Nested(adf, 5632 * t, 5632, 512 * k, 512);
  }

  lemma {:induction false} Nested(s: seq<Byte>, a: nat, n: nat, b: nat, m: nat)
    requires a + n <= |s| && b + m <= n
    ensures s[a..a + n][b..b + m] == s[a + b..a + b + m]
  {
    var x, y := s[a..a + n][b..b + m], s[a + b..a + b + m];
    assert forall i :: 0 <= i < m ==> x[i] == y[i];
  }

  /** Two stretches of 512 bytes on the 512-byte grid are the same or apart. */
  lemma {:induction false} GridApart(t: nat, k: nat, t': nat, k': nat)
    requires k < SECTORS && k' < SECTORS && (t != t' || k != k')
    ensures var a, b := 5632 * t + 512 * k, 5632 * t' + 512 * k'; a + 512 <= b || b + 512 <= a
  {
  }

  lemma {:induction false} PutApart(adf: seq<Byte>, data: seq<Byte>, a: nat, b: nat)
    requires |data| == 512 && a + 512 <= |adf| && b + 512 <= |adf| && (a + 512 <= b || b + 512 <= a)
    ensures (adf[..a] + data + adf[a + 512..])[b..b + 512] == adf[b..b + 512]
  {
  }

  lemma {:induction false} PutHere(adf: seq<Byte>, data: seq<Byte>, a: nat)
    requires |data| == 512 && a + 512 <= |adf|
    ensures (adf[..a] + data + adf[a + 512..])[a..a + 512] == data
  {
  }

  lemma {:induction false} PutSectorIs(adf: seq<Byte>, track: nat, sector: nat, data: seq<Byte>, t: nat, k: nat)
    requires |adf| == DISK_SIZE && track < 160 && sector < SECTORS && |data| == SECTOR_SIZE && t < 160 && k < SECTORS
    ensures SectorOf(PutSector(adf, track, sector, data), t, k) ==
      if t == track && k == sector then data else SectorOf(adf, t, k)
  {
    var a, b := 5632 * track + 512 * sector, 5632 * t + 512 * k;
    SectorIs(PutSector(adf, track, sector, data), t, k);
    SectorIs(adf, t, k);
    if t == track && k == sector {
      PutHere(adf, data, a);
    } else {
      GridApart(track, sector, t, k);
      PutApart(adf, data, a, b);
    }
  }

  lemma {:induction false} StoreHere(d: Drive, d1: Drive, r: Drive)
    requires Valid(d) && d.loaded && |d1.adf| == DISK_SIZE && d1 == d.(adf := d1.adf, dirty := true) && r == Regenerate(d1)
    ensures r.adf == d1.adf && r.dirty && r.mfm == TrackStream(TrackData(r))
  {
    RegenerateFresh(d1);
  }

  lemma {:induction false} StoreIs(d: Drive, track: int, sector: int, data: seq<Byte>, r: Drive)
    requires Valid(d) && |data| == SECTOR_SIZE && WritableSector(d, track, sector) && r == WriteSector(d, track, sector, data)
    ensures r.adf == PutSector(d.adf, track, sector, data) && r.dirty
    ensures r.mfm == if track == 2 * d.cyl + d.head then TrackStream(TrackData(r)) else d.mfm
  {
    var d1 := d.(adf := PutSector(d.adf, track, sector, data), dirty := true);
    if track == CurrentTrack(d) {
      StoreHere(d, d1, r);
    }
  }

  /** Main result: storing a sector gives that sector the data, leaves the other 1759 alone, marks the disk dirty, and puts the
      data on the raw track when that track is under the head; a protected or absent disk and a bad address change nothing. */
  lemma {:induction false} SectorStored(d: Drive, track: int, sector: int, data: seq<Byte>, t: nat, k: nat, r: Drive)
    requires Valid(d) && |data| == SECTOR_SIZE && t < 160 && k < SECTORS && r == WriteSector(d, track, sector, data)
    ensures d.loaded && !d.writeProtect && 0 <= track < 160 && 0 <= sector < 11 ==>
      SectorOf(r.adf, t, k) == (if t == track && k == sector then data else SectorOf(d.adf, t, k)) && r.dirty &&
      r.mfm == (if track == 2 * d.cyl + d.head then TrackStream(TrackData(r)) else d.mfm)
    ensures !(d.loaded && !d.writeProtect && 0 <= track < 160 && 0 <= sector < 11) ==> r == d
  {
    if WritableSector(d, track, sector) {
      StoreIs(d, track, sector, data, r);
      PutSectorIs(d.adf, track, sector, data, t, k);
    }
  }

  // ---------- step pulses ----------

  /** What the control port can change in a drive, besides the raw track. */
  predicate At(r: Drive, cyl: int, head: int, motor: bool, cleared: bool)
  {
    r.cyl == cyl && r.head == head && r.motor == motor && r.chngCleared == cleared
  }

  lemma {:induction false} SeekIs(d: Drive, cyl: int, head: int, r: Drive)
    requires Valid(d) && r == Seek(d, cyl, head)
    ensures At(r, Clamp(cyl, 80), Clamp(head, 2), d.motor, d.chngCleared) && r.loaded == d.loaded
  {
  }

  /** One cylinder on, in towards 79 or out towards 0. */
  function OneStep(cyl: int, inward: bool): int
  {
    if inward then (if cyl == 79 then 79 else cyl + 1) else if cyl == 0 then 0 else cyl - 1
  }

  lemma {:induction false} SteppedIs(d: Drive, inward: bool, r: Drive)
    requires Valid(d) && r == Stepped(d, inward)
    ensures At(r, OneStep(d.cyl, inward), d.head, d.motor, d.chngCleared || d.loaded) && r.loaded == d.loaded
  {
    SeekIs(d, if inward then d.cyl + 1 else d.cyl - 1, d.head, Step(d, inward));
  }

  lemma {:induction false} TurnedIs(d: Drive, side: int, r: Drive)
    requires Valid(d) && 0 <= side < 2 && r == TurnTo(d, side)
    ensures At(r, d.cyl, side, d.motor, d.chngCleared)
  {
    if d.head != side {
      SeekIs(d, d.cyl, side, r);
    }
  }

  lemma {:induction false} SelectedMoves(d: Drive, step: bool, inward: bool, side: int, r: Drive)
    requires Valid(d) && 0 <= side < 2 && r == TurnTo(if step then Stepped(d, inward) else d, side)
    ensures At(r, if step then OneStep(d.cyl, inward) else d.cyl, side, d.motor, d.chngCleared || (step && d.loaded))
  {
    if step {
      var s := Stepped(d, inward);
      SteppedIs(d, inward, s);
      TurnedIs(s, side, r);
    } else {
      TurnedIs(d, side, r);
    }
  }

  lemma {:induction false} ControlIs(d: Drive, u: nat, prev: Byte, prb: Byte, d1: Drive, r: Drive)
    requires Valid(d) && u < 4 && !prb[3 + u] && r == Control(d, u, prev, prb)
    requires d1 == if prev[3 + u] then d.(motor := !prb[7]) else d
    ensures Valid(d1) && r == TurnTo(if prev[0] && !prb[0] then Stepped(d1, !prb[1]) else d1, if prb[2] then 0 else 1)
  {
  }

  /** Main result: a control-port write moves a selected head one cylinder on a falling /STEP edge, towards the spindle when
      /DIR is low, stopping at both ends, and puts it on side 0 when /SIDE is high; the motor is latched only by the edge that
      selects the unit, on when /MTR is low. */
  lemma {:induction false} ControlMoves(d: Drive, u: nat, prev: Byte, prb: Byte, r: Drive)
    requires Valid(d) && u < 4 && r == Control(d, u, prev, prb)
    ensures r.motor == if prev[3 + u] && !prb[3 + u] then !prb[7] else d.motor
    ensures r.cyl == if !prb[3 + u] && prev[0] && !prb[0] then OneStep(d.cyl, !prb[1]) else d.cyl
    ensures r.head == if prb[3 + u] then d.head else if prb[2] then 0 else 1
    ensures r.chngCleared == (d.chngCleared || (!prb[3 + u] && prev[0] && !prb[0] && d.loaded))
  {
    if prb[3 + u] {
      ControlUnselected(d, u, prev, prb);
    } else {
      var d1 := if prev[3 + u] then d.(motor := !prb[7]) else d;
      ControlIs(d, u, prev, prb, d1, r);
      SelectedMoves(d1, prev[0] && !prb[0], !prb[1], if prb[2] then 0 else 1, r);
    }
  }

  /** One value of the port with /STEP high and one with it low, the unit selected in both. */
  predicate StepLines(u: nat, up: Byte, down: Byte)
    requires u < 4
  {
    up[0] && !down[0] && !up[3 + u] && !down[3 + u] && down[1] == up[1] && down[2] == up[2]
  }

  /** A pulse on /STEP, up and then down, takes the drive from `p` to `r`. */
  ghost predicate Pulsed(u: nat, up: Byte, down: Byte, p: Drive, r: Drive)
    requires u < 4
  {
    Valid(p) && r == Control(Control(p, u, down, up), u, up, down)
  }

  lemma {:induction false} PulseMoves(u: nat, up: Byte, down: Byte, p: Drive, r: Drive)
    requires u < 4 && StepLines(u, up, down) && Pulsed(u, up, down, p, r)
    ensures r.cyl == OneStep(p.cyl, !down[1])
  {
    var q := Control(p, u, down, up);
    ControlMoves(p, u, down, up, q);
    ControlMoves(q, u, up, down, r);
  }

  ghost predicate PulsedAt(u: nat, up: Byte, down: Byte, ds: seq<Drive>, i: nat)
    requires u < 4 && i + 1 < |ds|
  {
    Pulsed(u, up, down, ds[i], ds[i + 1])
  }

  /** Main result: n step pulses move the head n cylinders in the direction of /DIR, but not past cylinder 0 or 79, so that 79
      outward pulses find cylinder 0 from anywhere. */
  lemma {:induction false} PulsesMove(u: nat, up: Byte, down: Byte, ds: seq<Drive>, n: nat)
    requires u < 4 && StepLines(u, up, down) && n < |ds| && Valid(ds[0])
    requires forall i {:trigger PulsedAt(u, up, down, ds, i)} :: 0 <= i < n ==> PulsedAt(u, up, down, ds, i)
    ensures var from := ds[0].cyl;
            ds[n].cyl == if down[1] then (if from < n then 0 else from - n) else if from + n > 79 then 79 else from + n
  {
    if n > 0 {
      PulsesMove(u, up, down, ds, n - 1);
      assert PulsedAt(u, up, down, ds, n - 1);
      PulseMoves(u, up, down, ds[n - 1], ds[n]);
    }
  }

  // ---------- the data port ----------

  /** The words of `n` reads of the data port. */
  function PortReads(d: Drive, n: nat): (r: (Drive, seq<Word>))
    requires Valid(d)
    ensures Valid(r.0) && |r.1| == n
  {
    if n == 0 then (d, []) else
    var p := PortReads(d, n - 1);
    var w := PortRead(p.0);
    (w.d, p.1 + [w.w])
  }

  lemma {:induction false} BytesAt(s: seq<bool>, p: nat, m: nat, n: nat)
    requires m + 2 <= n && p + 16 * n <= |s|
    ensures var b := ReadBytes(s, p + 16 * m, 2); b[0] == ReadBytes(s, p, n)[m] && b[1] == ReadBytes(s, p, n)[m + 1]
  {
    assert p + 16 * m + 16 * 1 == p + 16 * (m + 1);
  }

  /** A drive with an active transfer and the track's data under the head. */
  ghost predicate Serving(d: Drive)
  {
    Valid(d) && d.loaded && d.dmaActive && Carries(d.mfm, TrackData(d))
  }

  lemma {:induction false} PortWordIs(d: Drive, k: nat, i: nat)
    requires Serving(d) && k < SECTORS && i < 256 && d.bitPos == DataSync(k) + 16 + 32 * i
    ensures var r, t := PortRead(d), Sector(TrackData(d), k);
            r.w == Join(t[2 * i], t[2 * i + 1]) && r.d == d.(bitPos := d.bitPos + 32)
  {
    DiskRead.SectorBytes(d.mfm, TrackData(d), k, SECTOR_SIZE);
    BytesAt(d.mfm, DataSync(k) + 16, 2 * i, SECTOR_SIZE);
  }

  /** The first n words of a sector. */
  ghost predicate WordsOf(ws: seq<Word>, t: seq<Byte>)
  {
    2 * |ws| <= |t| && forall i {:trigger ws[i]} :: 0 <= i < |ws| ==> ws[i] == Join(t[2 * i], t[2 * i + 1])
  }

  lemma {:induction false} NextPortWord(d: Drive, e: Drive, t: seq<Byte>, k: nat, ws: seq<Word>, n: nat)
    requires Serving(d) && k < SECTORS && n < 256 && d.bitPos == DataSync(k) + 16 && t == Sector(TrackData(d), k)
    requires e == d.(bitPos := d.bitPos + 32 * n) && |ws| == n && WordsOf(ws, t)
    ensures Valid(e) && PortRead(e).d == d.(bitPos := d.bitPos + 32 * (n + 1)) && WordsOf(ws + [PortRead(e).w], t)
  {
    PortWordIs(e, k, n);
  }

  /** Main result: with the head at the data of sector k, n reads of DSKDAT, up to a whole sector, give its first n words in
      order, high byte first, and move the head past them. */
  lemma {:induction false} PortReadsSector(d: Drive, k: nat, n: nat, t: seq<Byte>)
    requires Serving(d) && k < SECTORS && n <= 256 && d.bitPos == DataSync(k) + 16 && t == Sector(TrackData(d), k)
    ensures PortReads(d, n).0 == d.(bitPos := d.bitPos + 32 * n) && WordsOf(PortReads(d, n).1, t)
  {
    if n > 0 {
      PortReadsSector(d, k, n - 1, t);
      var p := PortReads(d, n - 1);
      NextPortWord(d, p.0, t, k, p.1, n - 1);
    }
  }

  lemma {:induction false} PortPuts(d: Drive, w: Word)
    requires Valid(d) && PortAccepts(d) && d.dmaWords > 1
    ensures PortWrite(d, w) == PortWritten(d.(mfm := Overwrite(d.mfm, d.bitPos, w), dmaPtr := d.dmaPtr + 2,
                                              bitPos := d.bitPos + 16, dmaWords := d.dmaWords - 1), false)
  {
  }

  /** The drive after words written to the data port. */
  function PortWrites(d: Drive, ws: seq<Word>): (r: Drive)
    requires Valid(d)
    ensures Valid(r)
  {
    if ws == [] then d else PortWrite(PortWrites(d, ws[..|ws| - 1]), ws[|ws| - 1]).d
  }

  /** Some words of a longer write have gone onto the track one behind the other, and nothing else has changed. */
  ghost predicate Laid(d: Drive, ws: seq<Word>, r: Drive)
  {
    && |d.mfm| == TRACK_BITS && d.bitPos + 16 * |ws| <= TRACK_BITS && |ws| < d.dmaWords
    && r == d.(mfm := Splice(d.mfm, d.bitPos, ws), dmaPtr := d.dmaPtr + 2 * |ws|, bitPos := d.bitPos + 16 * |ws|,
               dmaWords := d.dmaWords - |ws|)
  }

  lemma {:induction false} LaidMore(d: Drive, ws: seq<Word>, w: Word, r: Drive, q: Drive)
    requires Valid(d) && PortAccepts(d) && Laid(d, ws, r) && |ws| + 1 < d.dmaWords && d.bitPos + 16 * |ws| + 16 <= d.mfmBits
    requires Valid(r) && q == PortWrite(r, w).d
    ensures Laid(d, ws + [w], q) && !PortWrite(r, w).blk
  {
    PortPuts(r, w);
    assert (ws + [w])[..|ws|] == ws;
  }

  /** Main result: words written to DSKDAT during a write, short of its last, lie on the track in order from the head on, and the
      rest of the track, the image and the pointer arithmetic are those of the same words written by DMA. */
  lemma {:induction false} PortLaysWords(d: Drive, ws: seq<Word>)
    requires Valid(d) && PortAccepts(d) && |ws| < d.dmaWords && d.bitPos + 16 * |ws| <= d.mfmBits
    ensures Laid(d, ws, PortWrites(d, ws))
  {
    if ws != [] {
      var n := |ws| - 1;
      PortLaysWords(d, ws[..n]);
      assert ws[..n] + [ws[n]] == ws;
      LaidMore(d, ws[..n], ws[n], PortWrites(d, ws[..n]), PortWrites(d, ws));
    }
  }

  lemma {:induction false} LastWordPut(d: Drive, w: Word, laid: Drive)
    requires Valid(d) && PortAccepts(d) && d.dmaWords == 1
    requires laid == d.(mfm := Overwrite(d.mfm, d.bitPos, w), dmaPtr := d.dmaPtr + 2, bitPos := d.bitPos + 16,
                        dmaWords := 0, dmaActive := false)
    ensures PutWord(d, w) == laid
  {
  }

  lemma {:induction false} LastWordEnds(d: Drive, w: Word, laid: Drive)
    requires Valid(d) && PortAccepts(d) && laid == PutWord(d, w) && laid.dmaWords == 0
    ensures PortWrite(d, w) == PortWritten(Commit(laid), true)
  {
  }

  /** Main result: the last word of a write goes onto the track too, ends the transfer, and commits the track with an interrupt. */
  lemma {:induction false} PortEnds(d: Drive, w: Word, laid: Drive)
    requires Valid(d) && PortAccepts(d) && d.dmaWords == 1
    requires laid == d.(mfm := Overwrite(d.mfm, d.bitPos, w), dmaPtr := d.dmaPtr + 2, bitPos := d.bitPos + 16,
                        dmaWords := 0, dmaActive := false)
    ensures Valid(laid) && laid.mfmBits == TRACK_BITS && PortWrite(d, w) == PortWritten(Commit(laid), true)
  {
    LastWordPut(d, w, laid);
    LastWordEnds(d, w, laid);
  }

  // ---------- launches ----------

  /** The words of a transfer by its length field: 0 stands for 32768. */
  function Length(dsklen: nat): nat { if dsklen % 16384 == 0 then 32768 else dsklen % 16384 }

  /** Main result: a read launched on a spinning drive, with the standard sync word or none given, is a read that has yet to find
      its sync, with the pointer and the words of its length field to come: DiskSpan.ReadFills says what it leaves in RAM.
      Without a disk nothing is launched. */
  lemma {:induction false} LaunchedRead(d: Drive, ptr: nat, dsklen: nat, sync: Word, r: Drive)
    requires Valid(d) && r == StartRead(d, ptr, dsklen, sync)
    ensures !d.loaded ==> r == d
    ensures DiskRead.Spinning(d) && (sync == Zeros(16) || sync == SYNC) ==> DiskRead.Reading(r)
    ensures d.loaded ==> DiskSpan.HeadOf(r) == DiskSpan.Head(d.bitPos, false, Length(dsklen)) && r.dmaPtr == ptr && r.mfm == d.mfm
  {
    if d.loaded {
      assert TrackData(r) == TrackData(d);
    }
  }

  /** Main result: a write launched on a turning, unprotected disk is a write that has yet to find the sync, with the pointer and
      the words of its length field to come: DiskSpan.WriteSpans says what it leaves on the track. Without a disk, or with a
      protected one, nothing is launched. */
  lemma {:induction false} LaunchedWrite(d: Drive, ptr: nat, dsklen: nat, r: Drive)
    requires Valid(d) && r == StartWrite(d, ptr, dsklen)
    ensures !d.loaded || d.writeProtect ==> r == d
    ensures d.loaded && !d.writeProtect ==>
      (d.motor ==> DiskSpan.Gated(r)) && DiskSpan.HeadOf(r) == DiskSpan.Head(d.bitPos, false, Length(dsklen)) && r.dmaPtr == ptr
  {
  }

  // ---------- a disk that cannot be written ----------

  /** No disk, or a protected one with no write under way. */
  ghost predicate Shut(d: Drive) { !d.loaded || (d.writeProtect && !(d.dmaActive && d.dmaWrite)) }

  /** The operations that put in a disk or move its tab. */
  predicate Opens(op: Op) { op.LoadDisk? || op.InstallDisk? || op.SetProtect? }

  /** The image is the same, no dirtier than before, and still cannot be written. */
  ghost predicate StaysShut(d: Drive, r: Drive) { Shut(r) && r.adf == d.adf && (r.dirty ==> d.dirty) }

  lemma {:induction false} HeadMovesShut(d: Drive, cyl: int, head: int, r: Drive)
    requires Valid(d) && Shut(d) && r == Seek(d, cyl, head)
    ensures StaysShut(d, r)
  {
  }

  lemma {:induction false} StepsShut(d: Drive, inward: bool, r: Drive)
    requires Valid(d) && Shut(d) && r == Stepped(d, inward)
    ensures StaysShut(d, r)
  {
    HeadMovesShut(d, if inward then d.cyl + 1 else d.cyl - 1, d.head, Step(d, inward));
  }

  lemma {:induction false} TurnsShut(d: Drive, side: int, r: Drive)
    requires Valid(d) && Shut(d) && r == TurnTo(d, side)
    ensures StaysShut(d, r)
  {
    if d.head != side {
      HeadMovesShut(d, d.cyl, side, r);
    }
  }

  lemma {:induction false} SelectedShut(d: Drive, step: bool, inward: bool, side: int, r: Drive)
    requires Valid(d) && Shut(d) && r == TurnTo(if step then Stepped(d, inward) else d, side)
    ensures StaysShut(d, r)
  {
    if step {
      var s := Stepped(d, inward);
      StepsShut(d, inward, s);
      TurnsShut(s, side, r);
    } else {
      TurnsShut(d, side, r);
    }
  }

  lemma {:induction false} ControlShut(d: Drive, u: nat, prev: Byte, prb: Byte, r: Drive)
    requires Valid(d) && Shut(d) && u < 4 && r == Control(d, u, prev, prb)
    ensures StaysShut(d, r)
  {
    if prb[3 + u] {
      ControlUnselected(d, u, prev, prb);
    } else {
      var d1 := if prev[3 + u] then d.(motor := !prb[7]) else d;
      ControlIs(d, u, prev, prb, d1, r);
      SelectedShut(d1, prev[0] && !prb[0], !prb[1], if prb[2] then 0 else 1, r);
    }
  }

  lemma {:induction false} TickShut(d: Drive, ram: seq<Byte>, r: Drive)
    requires Valid(d) && Shut(d) && r == Tick(d, ram).d
    ensures StaysShut(d, r)
  {
  }

  lemma {:induction false} PortShut(d: Drive, w: Word)
    requires Valid(d) && Shut(d)
    ensures StaysShut(d, PortRead(d).d) && PortWrite(d, w).d == d
  {
  }

  lemma {:induction false} LaunchShut(d: Drive, ptr: nat, len: nat, sync: Word)
    requires Valid(d) && Shut(d)
    ensures StaysShut(d, StartRead(d, ptr, len, sync)) && StartWrite(d, ptr, len) == d
  {
  }

  /** The operations that move the head or turn the disk. */
  predicate Moves(op: Op) { op.SeekTo? || op.StepHead? || op.WritePort? || op.Turn? }

  lemma {:induction false} MoveShut(d: Drive, op: Op, r: Drive)
    requires Valid(d) && Shut(d) && Sensible(op) && Moves(op) && r == Apply(d, op)
    ensures StaysShut(d, r)
  {
    match op
    case SeekTo(cyl, head) => HeadMovesShut(d, cyl, head, r);
    case StepHead(inward) => HeadMovesShut(d, if inward then d.cyl + 1 else d.cyl - 1, d.head, r);
    case WritePort(u, prev, prb) => ControlShut(d, u, prev, prb, r);
    case Turn(ram) => TickShut(d, ram, r);
  }

  lemma {:induction false} RestShut(d: Drive, op: Op, r: Drive)
    requires Valid(d) && Shut(d) && Sensible(op) && !Moves(op) && !Opens(op) && r == Apply(d, op)
    ensures StaysShut(d, r)
  {
    match op
    case ReadDat => PortShut(d, Zeros(16));
    case WriteDat(w) => PortShut(d, w);
    case LaunchRead(ptr, len, sync) => LaunchShut(d, ptr, len, sync);
    case LaunchWrite(ptr, len) => LaunchShut(d, ptr, len, Zeros(16));
    case _ =>
  }

  lemma {:induction false} ApplyShut(d: Drive, op: Op, r: Drive)
    requires Valid(d) && Shut(d) && Sensible(op) && !Opens(op) && r == Apply(d, op)
    ensures StaysShut(d, r)
  {
    if Moves(op) {
      MoveShut(d, op, r);
    } else {
      RestShut(d, op, r);
    }
  }

  ghost predicate AppliedAt(ds: seq<Drive>, ops: seq<Op>, i: nat)
    requires i + 1 < |ds| && i < |ops|
  {
    Valid(ds[i]) && Sensible(ops[i]) && !Opens(ops[i]) && ds[i + 1] == Apply(ds[i], ops[i])
  }

  lemma {:induction false} NextShut(ds: seq<Drive>, ops: seq<Op>, i: nat)
    requires i + 1 < |ds| && i < |ops| && AppliedAt(ds, ops, i) && Shut(ds[i])
    ensures StaysShut(ds[i], ds[i + 1])
  {
    ApplyShut(ds[i], ops[i], ds[i + 1]);
  }

  /** Main result: over every run of operations that puts no disk in and moves no tab, a protected disk with no write under way,
      or an empty drive, keeps its image and never becomes dirty. */
  lemma {:induction false} ProtectedKept(ds: seq<Drive>, ops: seq<Op>, n: nat)
    requires |ds| == |ops| + 1 && n <= |ops| && Shut(ds[0])
    requires forall i {:trigger AppliedAt(ds, ops, i)} :: 0 <= i < n ==> AppliedAt(ds, ops, i)
    ensures StaysShut(ds[0], ds[n])
  {
    if n > 0 {
      ProtectedKept(ds, ops, n - 1);
      assert AppliedAt(ds, ops, n - 1);
      NextShut(ds, ops, n - 1);
    }
  }

  /** Main result: a disk of the right size that is loaded, and any image that is installed, is in the drive unchanged and clean,
      with its first track under the head and the change latch set; a load ends a running transfer, an install does not. A file
      of the wrong size changes nothing. */
  lemma {:induction false} DiskGoesIn(d: Drive, data: seq<Byte>, load: bool, r: Drive)
    requires Valid(d) && (load || |data| == DISK_SIZE) && r == if load then Load(d, data) else Install(d, data)
    ensures |data| != DISK_SIZE ==> r == d
    ensures |data| == DISK_SIZE ==> r.adf == data && r.loaded && !r.dirty && !r.chngCleared && r.cyl == 0 && r.head == 0 && r.bitPos == 0
    ensures |data| == DISK_SIZE ==> r.motor == d.motor && r.writeProtect == d.writeProtect && r.dmaActive == (d.dmaActive && !load)
    ensures |data| == DISK_SIZE ==> r.mfm == TrackStream(TrackOf(data, 0))
  {
  }

  /** Main result: an ejected disk is gone with its motor and any transfer: ticks do nothing until a disk is in again. */
  lemma {:induction false} EjectStops(d: Drive, ram: seq<Byte>)
    requires Valid(d)
    ensures var r := Eject(d);
            && !r.loaded && !r.motor && !r.dmaActive && !r.dirty && !r.chngCleared && r.adf == d.adf
            && Tick(r, ram) == Outcome(r, ram, false)
  {
  }
}
