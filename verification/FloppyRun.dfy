/** Every run of operations on one drive: the raw track agrees with the ADF, and a clean drive is unchanged. */
module FloppyRun {
  import opened Bits
  import opened Mfm
  import opened Track
  import opened TrackReader
  import opened TrackRoundTrip
  import opened FloppyDrive

  // ---------- the drive-control port ----------

  /** The /SEL line of unit u is low. */
  predicate Selects(prb: Byte, u: nat)
    requires u < 4
  {
    !prb[3 + u]
  }

  /** What a write of `prb` to the control port does to unit u; `prev` is the value before it. */
  function Control(d: Drive, u: nat, prev: Byte, prb: Byte): (r: Drive)
    requires Valid(d) && u < 4
    ensures Valid(r)
  {
    var d1 := if !Selects(prev, u) && Selects(prb, u) then d.(motor := !prb[7]) else d;
    if !Selects(prb, u) then d1 else
    var d2 := if prev[0] && !prb[0] then Stepped(d1, !prb[1]) else d1;
    TurnTo(d2, if prb[2] then 0 else 1)
  }

  function Stepped(d: Drive, inward: bool): (r: Drive)
    requires Valid(d)
    ensures Valid(r)
  {
    var s := Step(d, inward);
    if s.loaded then s.(chngCleared := true) else s
  }

  function TurnTo(d: Drive, side: int): (r: Drive)
    requires Valid(d)
    ensures Valid(r)
  {
    if d.head != side then Seek(d, d.cyl, side) else d
  }

  /** The lowest selected unit at or above `u`, or -1. */
  function Select(prb: Byte, u: nat): (r: int)
    requires u <= 4
    ensures r == -1 || (u <= r < 4 && Selects(prb, r))
    ensures forall v :: u <= v < (if r == -1 then 4 else r) ==> !Selects(prb, v)
    decreases 4 - u
  {
    if u == 4 then -1 else if Selects(prb, u) then u else Select(prb, u + 1)
  }

  // ---------- operations on one drive ----------

  datatype Op =
    | LoadDisk(data: seq<Byte>) | EjectDisk | InstallDisk(image: seq<Byte>)
    | SetMotor(on: bool) | SetProtect(on: bool) | SeekTo(cyl: int, head: int) | StepHead(inward: bool)
    | WritePort(u: nat, prev: Byte, prb: Byte)
    | LaunchRead(ptr: nat, len: nat, sync: Word) | LaunchWrite(ptr: nat, len: nat)
    | Turn(ram: seq<Byte>) | ReadDat | WriteDat(w: Word)
    | StoreSector(track: int, sector: int, data: seq<Byte>) | ClearDirty

  predicate Sensible(op: Op)
  {
    match op
    case InstallDisk(image) => |image| == DISK_SIZE
    case WritePort(u, _, _) => u < 4
    case StoreSector(_, _, data) => |data| == SECTOR_SIZE
    case _ => true
  }

  function Apply(d: Drive, op: Op): (r: Drive)
    requires Valid(d) && Sensible(op)
    ensures Valid(r)
  {
    match op
    case LoadDisk(data) => Load(d, data)
    case EjectDisk => Eject(d)
    case InstallDisk(image) => Install(d, image)
    case SetMotor(on) => d.(motor := on)
    case SetProtect(on) => d.(writeProtect := on)
    case SeekTo(cyl, head) => Seek(d, cyl, head)
    case StepHead(inward) => Step(d, inward)
    case WritePort(u, prev, prb) => Control(d, u, prev, prb)
    case LaunchRead(ptr, len, sync) => StartRead(d, ptr, len, sync)
    case LaunchWrite(ptr, len) => StartWrite(d, ptr, len)
    case Turn(ram) => Tick(d, ram).d
    case ReadDat => PortRead(d).d
    case WriteDat(w) => PortWrite(d, w).d
    case StoreSector(track, sector, data) => WriteSector(d, track, sector, data)
    case ClearDirty => d.(dirty := false)
  }

  // ---------- history ----------

  /** A drive with its history: the track was changed by raw words since it was generated, such a change has not been
      decoded back yet, and the image at the last load, install or clearing of the dirty flag. */
  datatype Tracked = Tracked(d: Drive, raw: bool, open: bool, base: seq<Byte>)

  /** A control-port write selects the unit and steps its head or changes its side. */
  predicate PortRegenerates(d: Drive, u: nat, prev: Byte, prb: Byte)
    requires u < 4
  {
    Selects(prb, u) && ((prev[0] && !prb[0]) || d.head != (if prb[2] then 0 else 1))
  }

  /** The raw track is generated afresh by this operation. */
  predicate Regenerates(d: Drive, op: Op)
    requires Valid(d) && Sensible(op)
  {
    match op
    case LoadDisk(data) => |data| == DISK_SIZE
    case InstallDisk(_) => true
    case SeekTo(_, _) => true
    case StepHead(_) => true
    case WritePort(u, prev, prb) => PortRegenerates(d, u, prev, prb)
    case StoreSector(track, sector, _) => WritableSector(d, track, sector) && track == CurrentTrack(d)
    case _ => false
  }

  /** A write transfer ends with this operation and leaves something decodable. */
  predicate Decodes(d: Drive, op: Op)
    requires Valid(d) && Sensible(op)
  {
    var e := Apply(d, op);
    (op.Turn? || op.WriteDat?) && d.dmaActive && d.dmaWrite && !e.dmaActive && DecodeTrack(e.mfm).found > 0
  }

  function Evolve(x: Tracked, op: Op): (y: Tracked)
    requires Valid(x.d) && Sensible(op)
  {
    var e := Apply(x.d, op);
    Tracked(e,
            if Regenerates(x.d, op) then false else x.raw || e.mfm != x.d.mfm,
            if Regenerates(x.d, op) || Decodes(x.d, op) then false else x.open || e.mfm != x.d.mfm,
            if (op.LoadDisk? && |op.data| == DISK_SIZE) || op.InstallDisk? || op.ClearDirty? then e.adf else x.base)
  }

  /** Coherence of track and ADF, and soundness of the dirty flag. */
  ghost predicate Sound(x: Tracked)
  {
    Valid(x.d) &&
    (x.d.loaded ==>
      (!x.raw ==> x.d.mfm == TrackStream(TrackData(x.d))) &&
      (!x.open ==> DecodeTrack(x.d.mfm).sectors == Sectors(TrackData(x.d))) &&
      (!x.d.dirty ==> x.d.adf == x.base))
  }

  // ---------- lemmas ----------

  /** Same disk content and track. */
  ghost predicate SameContent(d: Drive, e: Drive)
  {
    e.adf == d.adf && e.mfm == d.mfm && e.cyl == d.cyl && e.head == d.head && e.dirty == d.dirty
  }

  lemma {:induction false} KeepsSound(x: Tracked, y: Tracked)
    requires Sound(x) && Valid(y.d) && SameContent(x.d, y.d) && (y.d.loaded ==> x.d.loaded)
    requires (x.raw ==> y.raw) && (x.open ==> y.open) && y.base == x.base
    ensures Sound(y)
  {
    assert TrackData(y.d) == TrackData(x.d);
  }

  lemma {:induction false} FreshSound(y: Tracked)
    requires Valid(y.d) && Generated(y.d)
    requires y.d.loaded && !y.d.dirty ==> y.d.adf == y.base
    ensures Sound(y)
  {
    RoundTrip(TrackData(y.d));
  }

  lemma {:induction false} FlattenAt(sectors: seq<seq<Byte>>, k: nat)
    requires forall j :: 0 <= j < |sectors| ==> |sectors[j]| == SECTOR_SIZE
    requires k < |sectors|
    ensures Flatten(sectors)[512 * k..512 * (k + 1)] == sectors[k]
  {
    var rest := sectors[..|sectors| - 1];
    if k < |rest| {
      FlattenAt(rest, k);
      assert Flatten(sectors)[512 * k..512 * (k + 1)] == Flatten(rest)[512 * k..512 * (k + 1)];
    }
  }

  lemma {:induction false} SectorsFlatten(sectors: seq<seq<Byte>>)
    requires |sectors| == SECTORS && forall j :: 0 <= j < SECTORS ==> |sectors[j]| == SECTOR_SIZE
    ensures Sectors(Flatten(sectors)) == sectors
  {
    forall k | 0 <= k < SECTORS
      ensures Sectors(Flatten(sectors))[k] == sectors[k]
    {
      FlattenAt(sectors, k);
    }
  }

  /** Putting a whole track back: that track is the new one, every other track is untouched. */
  lemma {:induction false} PutTrackAt(adf: seq<Byte>, track: nat, t: seq<Byte>, other: nat)
    requires |adf| == DISK_SIZE && track < 160 && other < 160 && |t| == TRACK_SIZE
    ensures TrackOf(PutTrack(adf, track, t), other) == if other == track then t else TrackOf(adf, other)
  {
    var r := PutTrack(adf, track, t);
    if other < track {
      assert forall i :: 5632 * other <= i < 5632 * other + 5632 ==> r[i] == adf[i];
    } else if other > track {
      assert forall i :: 5632 * other <= i < 5632 * other + 5632 ==> r[i] == adf[i];
    }
  }

  lemma {:induction false} PutSectorElsewhere(adf: seq<Byte>, track: nat, sector: nat, data: seq<Byte>, other: nat)
    requires |adf| == DISK_SIZE && track < 160 && other < 160 && other != track
    requires sector < SECTORS && |data| == SECTOR_SIZE
    ensures TrackOf(PutSector(adf, track, sector, data), other) == TrackOf(adf, other)
  {
    var r := PutSector(adf, track, sector, data);
    if other < track {
      assert forall i :: 5632 * other <= i < 5632 * other + 5632 ==> r[i] == adf[i];
    } else {
      assert forall i :: 5632 * other <= i < 5632 * other + 5632 ==> r[i] == adf[i];
    }
  }

  lemma {:induction false} CommittedTrack(d: Drive, dec: Decoded)
    requires Valid(d) && d.mfmBits == TRACK_BITS && dec == DecodeTrack(d.mfm) && dec.found > 0
    ensures Sectors(TrackData(Commit(d))) == dec.sectors
  {
    SectorsFlatten(dec.sectors);
    PutTrackAt(d.adf, CurrentTrack(d), Flatten(dec.sectors), CurrentTrack(d));
  }

  /** After a decodable write ends, the ADF track is what the raw track decodes to, and dirty tells whether it changed. */
  lemma {:induction false} CommitSound(d: Drive)
    requires Valid(d) && d.mfmBits == TRACK_BITS
    ensures var e := Commit(d);
      e.mfm == d.mfm && (!e.dirty ==> !d.dirty && e.adf == d.adf) && (DecodeTrack(d.mfm).found == 0 ==> e == d) &&
      (DecodeTrack(d.mfm).found > 0 ==> DecodeTrack(e.mfm).sectors == Sectors(TrackData(e)))
  {
    var dec := DecodeTrack(d.mfm);
    if dec.found > 0 {
      CommittedTrack(d, dec);
    }
  }

  /** The raw track is exactly the generated one. */
  ghost predicate Generated(d: Drive)
    requires Valid(d)
  {
    d.loaded ==> d.mfm == TrackStream(TrackData(d))
  }

  ghost predicate SameDisk(d: Drive, e: Drive)
  {
    e.adf == d.adf && e.dirty == d.dirty && e.loaded == d.loaded
  }

  lemma {:induction false} RegenerateFresh(d: Drive)
    requires Valid(d)
    ensures SameDisk(d, Regenerate(d))
    ensures d.loaded ==> Regenerate(d).mfm == TrackStream(TrackData(d)) && TrackData(Regenerate(d)) == TrackData(d)
    ensures Generated(Regenerate(d))
  {
  }

  lemma {:induction false} MovedHead(d: Drive, e: Drive)
    requires Valid(d) && Valid(e) && SameDisk(d, e) && e.mfm == d.mfm && e.cyl == d.cyl && e.head == d.head && Generated(d)
    ensures Generated(e)
  {
    assert TrackData(e) == TrackData(d);
  }

  lemma {:induction false} SeekFresh(d: Drive, cyl: int, head: int)
    requires Valid(d)
    ensures SameDisk(d, Seek(d, cyl, head)) && Generated(Seek(d, cyl, head))
  {
    var d1 := d.(cyl := Clamp(cyl, CYLINDERS), head := Clamp(head, 2));
    RegenerateFresh(d1);
    MovedHead(Regenerate(d1), Seek(d, cyl, head));
  }

  lemma {:induction false} SteppedFresh(d: Drive, inward: bool)
    requires Valid(d)
    ensures SameDisk(d, Stepped(d, inward)) && Generated(Stepped(d, inward)) && Stepped(d, inward).head == d.head
  {
    SeekFresh(d, if inward then d.cyl + 1 else d.cyl - 1, d.head);
    MovedHead(Step(d, inward), Stepped(d, inward));
  }

  lemma {:induction false} TurnedFresh(d: Drive, side: int)
    requires Valid(d)
    ensures SameDisk(d, TurnTo(d, side))
    ensures if d.head != side then Generated(TurnTo(d, side)) else TurnTo(d, side) == d
  {
    SeekFresh(d, d.cyl, side);
  }

  /** The part of a control-port write that concerns a selected unit. */
  lemma {:induction false} SelectedFresh(d: Drive, stepping: bool, inward: bool, side: int)
    requires Valid(d)
    ensures var r := TurnTo(if stepping then Stepped(d, inward) else d, side);
      SameDisk(d, r) && (if stepping || d.head != side then Generated(r) else r == d)
  {
    if stepping {
      SteppedFresh(d, inward);
      TurnedFresh(Stepped(d, inward), side);
    } else {
      TurnedFresh(d, side);
    }
  }

  /** What a control-port write does to a unit it selects, once the motor is latched. */
  lemma {:induction false} ControlSelected(d: Drive, d1: Drive, u: nat, prev: Byte, prb: Byte)
    requires Valid(d) && u < 4 && Selects(prb, u) && d1 == if Selects(prev, u) then d else d.(motor := !prb[7])
    ensures var r := Control(d, u, prev, prb);
      SameDisk(d1, r) && (if (prev[0] && !prb[0]) || d1.head != (if prb[2] then 0 else 1) then Generated(r) else r == d1)
  {
    SelectedFresh(d1, prev[0] && !prb[0], !prb[1], if prb[2] then 0 else 1);
  }

  lemma {:induction false} ControlFresh(d: Drive, u: nat, prev: Byte, prb: Byte)
    requires Valid(d) && u < 4
    ensures var r := Control(d, u, prev, prb);
      SameDisk(d, r) && (if PortRegenerates(d, u, prev, prb) then Generated(r) else SameContent(d, r))
  {
    if Selects(prb, u) {
      ControlSelected(d, if Selects(prev, u) then d else d.(motor := !prb[7]), u, prev, prb);
    } else {
      ControlUnselected(d, u, prev, prb);
    }
  }

  lemma {:induction false} ControlUnselected(d: Drive, u: nat, prev: Byte, prb: Byte)
    requires Valid(d) && u < 4 && !Selects(prb, u)
    ensures Control(d, u, prev, prb) == d
  {
  }

  lemma {:induction false} StoreHere(x: Tracked, op: Op)
    requires Sound(x) && Sensible(op) && op.StoreSector?
    requires WritableSector(x.d, op.track, op.sector) && op.track == CurrentTrack(x.d)
    ensures Sound(Evolve(x, op))
  {
    var d := x.d;
    var d1 := d.(adf := PutSector(d.adf, op.track, op.sector, op.data), dirty := true);
    RegenerateFresh(d1);
    FreshSound(Evolve(x, op));
  }

  lemma {:induction false} StoreElsewhere(x: Tracked, op: Op)
    requires Sound(x) && Sensible(op) && op.StoreSector?
    requires WritableSector(x.d, op.track, op.sector) && op.track != CurrentTrack(x.d)
    ensures Sound(Evolve(x, op))
  {
    var d, e := x.d, Apply(x.d, op);
    PutSectorElsewhere(d.adf, op.track, op.sector, op.data, CurrentTrack(d));
    assert e.adf == PutSector(d.adf, op.track, op.sector, op.data) && e.dirty;
    assert TrackData(e) == TrackData(d);
  }

  lemma {:induction false} StoreSound(x: Tracked, op: Op)
    requires Sound(x) && Sensible(op) && op.StoreSector?
    ensures Sound(Evolve(x, op))
  {
    if !WritableSector(x.d, op.track, op.sector) {
      KeepsSound(x, Evolve(x, op));
    } else if op.track == CurrentTrack(x.d) {
      StoreHere(x, op);
    } else {
      StoreElsewhere(x, op);
    }
  }

  lemma {:induction false} TickQuiet(d: Drive, ram: seq<Byte>)
    requires Valid(d) && !(d.motor && d.loaded && d.dmaActive && d.dmaWrite)
    ensures SameContent(d, Tick(d, ram).d) && Tick(d, ram).d.loaded == d.loaded
  {
  }

  /** A write that has put words on the track: still running, or ended through the decoder. */
  ghost predicate Written(d: Drive, d1: Drive, e: Drive)
  {
    Valid(d1) && d1.mfmBits == TRACK_BITS && d1.adf == d.adf && d1.dirty == d.dirty && d1.loaded == d.loaded &&
    d1.cyl == d.cyl && d1.head == d.head &&
    if e.dmaActive then SameContent(d1, e) && e.loaded == d1.loaded
    else SameContent(Commit(d1), e) && e.loaded == d1.loaded
  }

  lemma {:induction false} SectorsInjective(t: seq<Byte>, u: seq<Byte>)
    requires |t| == TRACK_SIZE && |u| == TRACK_SIZE && Sectors(t) == Sectors(u)
    ensures t == u
  {
    forall i | 0 <= i < TRACK_SIZE
      ensures t[i] == u[i]
    {
      var k := i / 512;
      assert Sector(t, k) == Sectors(t)[k] == Sectors(u)[k] == Sector(u, k);
      assert t[i] == Sector(t, k)[i - 512 * k] && u[i] == Sector(u, k)[i - 512 * k];
    }
  }

  lemma {:induction false} EndedSound(x: Tracked, d1: Drive, y: Tracked)
    requires Sound(x) && x.d.loaded && Valid(y.d) && Written(x.d, d1, y.d) && !y.d.dmaActive && y.base == x.base
    requires (x.raw ==> y.raw) && (y.raw || y.d.mfm == x.d.mfm) && DecodeTrack(y.d.mfm).found > 0
    ensures Sound(y)
  {
    CommitSound(d1);
    assert TrackData(y.d) == TrackData(Commit(d1));
    if !y.raw {
      RoundTrip(TrackData(x.d));
      SectorsInjective(TrackData(x.d), TrackData(y.d));
    }
  }

  lemma {:induction false} WrittenSound(x: Tracked, d1: Drive, y: Tracked)
    requires Sound(x) && x.d.loaded && Valid(y.d) && Written(x.d, d1, y.d) && y.base == x.base
    requires (x.raw ==> y.raw) && (y.raw || y.d.mfm == x.d.mfm)
    requires y.d.dmaActive || DecodeTrack(y.d.mfm).found == 0 ==> y.open || (y.d.mfm == x.d.mfm && !x.open)
    ensures Sound(y)
  {
    if !y.d.dmaActive {
      CommitSound(d1);
    }
    if y.d.dmaActive || DecodeTrack(y.d.mfm).found == 0 {
      assert TrackData(y.d) == TrackData(x.d);
    } else {
      EndedSound(x, d1, y);
    }
  }

  lemma {:induction false} TickIsWrite(d: Drive, ram: seq<Byte>)
    requires Valid(d) && d.motor && d.loaded && d.dmaActive && d.dmaWrite
    ensures Tick(d, ram).d == Rotate(WriteTransfer(d, ram, BitsPerTick(d.mfmBits)).d, BitsPerTick(d.mfmBits))
  {
  }

  /** A write tick either finds no start, or leaves the track as `Written` says. */
  lemma {:induction false} TickWrites(d: Drive, ram: seq<Byte>) returns (d1: Drive)
    requires Valid(d) && d.motor && d.loaded && d.dmaActive && d.dmaWrite
    ensures Written(d, d1, Tick(d, ram).d)
  {
    TickIsWrite(d, ram);
    var bits := BitsPerTick(d.mfmBits);
    var pos := WriteStart(d, bits);
    if pos < 0 {
      d1 := d;
    } else {
      d1 := PutWords(d, ram, pos, Moved(d, pos, bits, 16));
    }
  }

  lemma {:induction false} PortWrites(d: Drive, w: Word)
    requires Valid(d) && PortAccepts(d)
    ensures Written(d, PutWord(d, w), PortWrite(d, w).d)
  {
  }

  /** The history after a write operation that ended in drive state `e`. */
  lemma {:induction false} WriteEvolves(x: Tracked, op: Op, d1: Drive)
    requires Sound(x) && (op.Turn? || op.WriteDat?) && x.d.loaded && x.d.dmaActive && x.d.dmaWrite
    requires Written(x.d, d1, Apply(x.d, op))
    ensures Sound(Evolve(x, op))
  {
    WrittenSound(x, d1, Evolve(x, op));
  }

  lemma {:induction false} TickSound(x: Tracked, ram: seq<Byte>)
    requires Sound(x)
    ensures Sound(Evolve(x, Turn(ram)))
  {
    var d := x.d;
    if d.motor && d.loaded && d.dmaActive && d.dmaWrite {
      var d1 := TickWrites(d, ram);
      WriteEvolves(x, Turn(ram), d1);
    } else {
      TickQuiet(d, ram);
      KeepsSound(x, Evolve(x, Turn(ram)));
    }
  }

  lemma {:induction false} PortSound(x: Tracked, w: Word)
    requires Sound(x)
    ensures Sound(Evolve(x, WriteDat(w)))
  {
    if PortAccepts(x.d) {
      PortWrites(x.d, w);
      WriteEvolves(x, WriteDat(w), PutWord(x.d, w));
    } else {
      KeepsSound(x, Evolve(x, WriteDat(w)));
    }
  }

  lemma {:induction false} SeekSound(x: Tracked, op: Op)
    requires Sound(x) && Sensible(op) && op.SeekTo?
    ensures Sound(Evolve(x, op))
  {
    SeekFresh(x.d, op.cyl, op.head);
    FreshSound(Evolve(x, op));
  }

  lemma {:induction false} StepSound(x: Tracked, op: Op)
    requires Sound(x) && Sensible(op) && op.StepHead?
    ensures Sound(Evolve(x, op))
  {
    SeekFresh(x.d, if op.inward then x.d.cyl + 1 else x.d.cyl - 1, x.d.head);
    FreshSound(Evolve(x, op));
  }

  lemma {:induction false} ControlSound(x: Tracked, op: Op)
    requires Sound(x) && Sensible(op) && op.WritePort?
    ensures Sound(Evolve(x, op))
  {
    ControlFresh(x.d, op.u, op.prev, op.prb);
    if Regenerates(x.d, op) {
      FreshSound(Evolve(x, op));
    } else {
      KeepsSound(x, Evolve(x, op));
    }
  }

  lemma {:induction false} DiskChangeSound(x: Tracked, op: Op)
    requires Sound(x) && Sensible(op) && (op.LoadDisk? || op.InstallDisk? || op.EjectDisk?)
    ensures Sound(Evolve(x, op))
  {
    match op
    case LoadDisk(data) => if |data| == DISK_SIZE { FreshSound(Evolve(x, op)); }
    case InstallDisk(_) => FreshSound(Evolve(x, op));
    case EjectDisk =>
  }

  lemma {:induction false} QuietSound(x: Tracked, op: Op)
    requires Sound(x)
    requires op.SetMotor? || op.SetProtect? || op.LaunchRead? || op.LaunchWrite? || op.ReadDat?
    ensures Sound(Evolve(x, op))
  {
    KeepsSound(x, Evolve(x, op));
  }

  /** Every operation keeps a drive sound. */
  lemma {:induction false} EvolveSound(x: Tracked, op: Op)
    requires Sound(x) && Sensible(op)
    ensures Sound(Evolve(x, op))
  {
    match op
    case LoadDisk(_) => DiskChangeSound(x, op);
    case InstallDisk(_) => DiskChangeSound(x, op);
    case EjectDisk => DiskChangeSound(x, op);
    case SeekTo(_, _) => SeekSound(x, op);
    case StepHead(_) => StepSound(x, op);
    case WritePort(_, _, _) => ControlSound(x, op);
    case StoreSector(_, _, _) => StoreSound(x, op);
    case Turn(ram) => TickSound(x, ram);
    case WriteDat(w) => PortSound(x, w);
    case ClearDirty => assert TrackData(Apply(x.d, op)) == TrackData(x.d);
    case _ => QuietSound(x, op);
  }

  // ---------- runs ----------

  function Run(x: Tracked, ops: seq<Op>): (y: Tracked)
    requires Valid(x.d) && forall i :: 0 <= i < |ops| ==> Sensible(ops[i])
    ensures Valid(y.d)
  {
    if ops == [] then x else Evolve(Run(x, ops[..|ops| - 1]), ops[|ops| - 1])
  }

  /** Main result: over every run of a drive that starts empty, the raw track of a loaded drive decodes to the ADF data
      under the head unless a raw write is still open, and a clean drive holds its last loaded or saved image. */
  lemma {:induction false} RunSound(d: Drive, base: seq<Byte>, ops: seq<Op>)
    requires Valid(d) && !d.loaded && forall i :: 0 <= i < |ops| ==> Sensible(ops[i])
    ensures Sound(Run(Tracked(d, false, false, base), ops))
  {
    if ops != [] {
      RunSound(d, base, ops[..|ops| - 1]);
      EvolveSound(Run(Tracked(d, false, false, base), ops[..|ops| - 1]), ops[|ops| - 1]);
    }
  }

  /** What a run without raw words gives the reader of the disk: the track carries the ADF data under the head. */
  lemma {:induction false} SoundCarries(x: Tracked)
    requires Sound(x) && x.d.loaded && !x.raw
    ensures Carries(x.d.mfm, TrackData(x.d))
  {
    TrackCarries(TrackData(x.d));
  }
}
