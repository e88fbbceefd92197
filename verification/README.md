# Chipset verification

A Dafny model of the Amiga chipset emulation in the kernel, and proofs of what it promises.

Machine words are bit sequences, least significant bit first (`Bits`). Each unit is modelled twice. A value state machine
(datatypes and functions) carries the theorems. A class with the emulator's own fields, or a method with the emulator's own
loop, is proved to do exactly what the state machine says (`View() == Spec(old(View()))`). So every theorem about the state
machine is a theorem about the imperative code.

- **Floppy** (`kernel/chipset/floppy.c`): `Crc16`, `Mfm`, `Track`, `TrackWriter`, `TrackReader` are the MFM codec; `CrcLaws`,
  `CrcPolynomial`, `MfmRuns`, `SyncUniqueness` and `TrackRoundTrip` its laws; `FloppyDrive` the drive as a state machine; `DiskRead`,
  `DiskLiveness`, `DiskWrite`, `DiskSpan`, `CommitLoss`, `DriveOps` and `FloppyRun` its laws; `FloppyUnit` and `FloppyController` the code.
- **Blitter** (`kernel/chipset/chip_emu.c`): `Blitter` is the engine as a state machine; `LineGeometry`, `LineMemory`,
  `LineRegisters`, `AreaShift`, `AreaRun`, `AreaFill`, `WordCopy`, `AreaCopy`, `AreaBlit`, `BlitterRun`, `BlitterEndToEnd` its laws; `BlitterUnit` the code.
- **DMA slots** (same file): `DmaSlots` is the per-line table, with its loops; `SlotGuarantees` and `BitplaneSlots` its laws.
- **CIA** (same file): `CiaTimer` and `Cia` are the state machine; `CiaLaws`, `CiaCounters`, `CiaClock`, `CiaSerial`,
  `CiaTicks`, `CiaIdioms` its laws; `CiaUnit` the code.
- **Paula audio DMA** (same file): `Paula` is the state machine; `PaulaLaws`, `PaulaLoop` and `PaulaMixer` its laws; `PaulaUnit`
  the code.
- **Codec path search** (`kernel/audio/hda.c`): `CodecPath` is the search and its laws, `CodecFinder` the code.
- **Profiler** (`kernel/dbg/prof.c`): `Profiler` and `ProfilerUnit`.

## Main results

1. The sync word 0x4489 is read in a generated track at exactly the 22 places it was written, over all bit offsets
   (`Track.SyncPositions`); decoding a generated track gives back all eleven sectors (`TrackRoundTrip.RoundTrip`). Their CRC is the
   remainder modulo x^16 + x^12 + x^5 + 1 (`CrcPolynomial.CrcIsRemainder`).
2. A read DMA delivers sector data in one tick exactly when the next sync under the head is a header sync
   (`DiskRead.DeliveryIff`); from anywhere, every read completes (`DiskLiveness.ReadCompletes`). A write DMA of an encoded sector
   puts it in the image in one tick (`DiskWrite.WriteDelivers`), and it reads back (`DiskWrite.WriteThenRead`). However many ticks
   a transfer takes, its words lie in RAM or on the track one behind the other (`DiskSpan.ReadFills`, `DiskSpan.WriteSpans`).
3. Over every run of drive operations the raw track and the disk image agree, and a clear dirty flag means an unchanged image
   (`FloppyRun.RunSound`); a protected disk keeps its image (`DriveOps.ProtectedKept`).
4. The line blitter draws the correctly rounded line in all eight octants (`LineGeometry.Geometry`), turns on exactly its pixels
   (`LineMemory.DrawsLine`), textures them (`BlitterEndToEnd.TextureAppears`), and inverting twice restores memory
   (`LineMemory.InvertsBack`).
5. The area blitter's barrel shifter is a shift of one big integer (`AreaRun.BlitShifts`), its fill is prefix parity per row
   (`AreaFill.RowFilled`), and its overlapping copy is a memmove (`AreaCopy.CopyIsMove`, `AreaCopy.CopyKeepsRest`). Every word of
   any blit that writes over no source still to be read is given by memory at the launch (`AreaBlit.WordBlitted`).
6. A blit cut up over any sequence of scanline slot tables is the blit done in one go (`BlitterRun.SlotsRefine`,
   `BlitterRun.SlotsComplete`), so from the launch to the finished picture a line appears and a rectangle moves
   (`BlitterEndToEnd.LineAppears`, `BlitterEndToEnd.RectangleMoves`, `BlitterEndToEnd.RectangleBlitted`); the CPU keeps its share
   (`SlotGuarantees.CpuGuarantee`), and the display takes exactly its fetch pattern (`BitplaneSlots.UnitPattern`,
   `BitplaneSlots.LineTakes`).
7. Batched timer counting is single counting exactly below the guard (`CiaTimer.BatchIsPulses`); over any ticks and CNT edges the
   timers count exactly the pulses their modes let through (`CiaTicks.TicksCount`, `CiaTicks.EdgesCount`), so a delay ends in the
   tick it should (`CiaTicks.DelayEnds`); two cascaded timers are one
   mixed-radix counter (`CiaCounters.CascadeCounts`, `CiaCounters.CascadeIsMixedRadix`), and so is the clock
   (`CiaClock.ClockIsMixedRadix`); the interrupt line follows the flags over every run (`CiaLaws.LineFollows`).
8. Advancing Paula in batches adds up (`PaulaLaws.PlayIsCycles`, `PaulaUnit.MixerBatches`), and a channel loops over its block
   (`PaulaLoop.CallsPlayLoop`), whatever the other three do (`PaulaMixer.MixerPlaysLoop`), feeding the next one what its attach
   bits say (`PaulaMixer.MixerModulates`).
9. The codec path search is sound and complete (`CodecFinder.FindFromPin`), and takes the first live entry at every hop
   (`CodecPath.TakesFirstLive`).
10. The profiler's table is exact or silent for every instruction pointer (`Profiler.ExactOrSilent`), and its report is the front
    of the ranking (`ProfilerUnit.Report`).

## Where the code differs from what one might expect

- `kernel/chipset/floppy.c:538` says that undecodable sectors keep their image data. The code copies the zero-filled decode
  buffer over them as soon as one sector decodes (`CommitLoss.SectorLost`). They keep it exactly if nothing decodes or it was
  zero already (`CommitLoss.UndecodedKeptIff`).
- A read that starts between a header sync and its data sync takes the data sync for a header, locks on to the next header and
  delivers header bytes (`DiskRead.ReadDeliversHeader`); `DiskRead.DeliveryIff` gives the exact condition.
- The blitter gets slots whether or not its DMA bit is set (`SlotGuarantees.SlotsWithoutEnable`,
  `SlotGuarantees.BlitterNotGated`): the release at `kernel/chipset/chip_emu.c:2164` runs before any blitter slot exists. It gets
  none exactly if it has no words or the line has no eligible slot (`SlotGuarantees.BlitterGuarantee`).
- A line launched over a running area blit leaves both engines active (`BlitterRun.LaunchConsistent`).
- A continuous timer with an empty latch that runs out spins until the guard stops it (`CiaTimer.EmptyLatch`).
- A channel configured directly keeps six bits of its volume, so the full volume 64 becomes 0 (`PaulaLoop.SetIsFresh`); a modulator
  does set 64 (`PaulaLoop.ModulatorFeeds`).
- A line whose C and D pointers differ writes only its first drawn pixel through D (`LineRegisters.PlotApart`,
  `LineRegisters.OnlyFirst`).
- `kernel/audio/hda.c:354` says that nodes already on the path are skipped. The code compares a connection with the nodes above
  the current one but not with the current one, so a widget that lists itself may be visited twice in a row
  (`CodecPath.SelfHopTaken`); `CodecPath.SelfHopIff` and `CodecPath.SimpleIff` give the exact conditions.

## Model

| member | source | states |
|---|---|---|
| `Crc16.ComputeCrc` | kernel/chipset/floppy.c:49-60 | the byte loop is the shift register with seed 0xFFFF and polynomial 0x1021; what that register is good for is stated in the four rows below |
| `CrcLaws.CrcLinear` | kernel/chipset/floppy.c:49-60 | the CRCs of two blocks differ by what their difference alone leaves in an empty register |
| `CrcLaws.NoRemainder` | kernel/chipset/floppy.c:49-60 | a block and two check bytes leave no remainder if and only if the check bytes are the block's CRC |
| `CrcLaws.BurstSeen` | kernel/chipset/floppy.c:49-60 | two blocks that differ only within sixteen consecutive bits, at any alignment, have different CRCs |
| `CrcPolynomial.CrcIsRemainder` | kernel/chipset/floppy.c:49-60 | a word is the CRC of a block if and only if some quotient times x^16 + x^12 + x^5 + 1 plus that word is 0xFFFF ahead of the block's bits, moved up by sixteen, in every coefficient over GF(2) |
| `CrcPolynomial.RemainderUnique` | kernel/chipset/floppy.c:49-60 | two quotients and remainders of the same dividend have the same remainder |
| `TrackRoundTrip.BurstRejected` | kernel/chipset/floppy.c:220-233 | a stored sector damaged within sixteen consecutive bits of data or CRC is never accepted by the decoder |
| `Mfm.SetBit` | kernel/chipset/floppy.c:18-22 | exactly the addressed bit of the packed buffer changes |
| `Mfm.ReadWord` | kernel/chipset/floppy.c:29-36 | the sixteen stream bits at any bit offset, first bit most significant |
| `Mfm.WriteWord` | kernel/chipset/floppy.c:38-43 | the sixteen stream bits at the offset become the word, every other bit stays |
| `Mfm.DecodeEncode` | kernel/chipset/floppy.c:68-92 | decoding an encoded byte gives the byte back, whatever the bit before |
| `MfmRuns.RunLengths` | kernel/chipset/floppy.c:68-78 | in the encoding of any bytes no two ones are adjacent and at most three zeros come in a row, at any position |
| `Mfm.EncodeByte` | kernel/chipset/floppy.c:68-78 | the loop computes the MFM word and leaves the last data bit as running bit |
| `Mfm.DecodeWord` | kernel/chipset/floppy.c:81-92 | the loop collects the data bits of an MFM word |
| `Mfm.StreamAt` | kernel/chipset/floppy.c:101-122 | each cell of a stream is encoded with the last data bit before it, syncs left out |
| `Mfm.DecodeCell` | kernel/chipset/floppy.c:81-92 | a data cell read from the stream decodes to its byte |
| `SyncUniqueness.ClockHole` | kernel/chipset/floppy.c:68-78 | three zero bits around an even offset of an encoded stream occur only at the missing clock of a sync |
| `SyncUniqueness.AfterSync` | kernel/chipset/floppy.c:101-171 | the two bits after a sync in a framed stream are not both zero, which rules out a sync straddling its end |
| `SyncUniqueness.NoStraySync` | kernel/chipset/floppy.c:101-171 | a sync read at any bit offset of a framed stream is one that was written |
| `SyncUniqueness.SyncOnlyAtSyncCells` | kernel/chipset/floppy.c:68-171 | for every framed stream and every bit offset, a sync is read there if and only if a sync cell was written there |
| `Track.TrackFramed` | kernel/chipset/floppy.c:126-171 | every generated track has a zero bit before each sync, which is what uniqueness needs |
| `Track.SyncPositions` | kernel/chipset/floppy.c:126-171 | for every track content, syncs are read at exactly the 22 positions 960+9120k and 1360+9120k |
| `Track.HeaderBlock` | kernel/chipset/floppy.c:126-171 | the 24 cells after a header sync are the sector's header with its CRC |
| `Track.BodyBlock` | kernel/chipset/floppy.c:126-171 | the 514 cells after a data sync are the sector's data with its CRC |
| `TrackWriter.EmitByte` | kernel/chipset/floppy.c:101-106 | appends one data cell and keeps the written prefix |
| `TrackWriter.EmitSync` | kernel/chipset/floppy.c:109-113 | appends one sync cell and leaves the running bit alone |
| `TrackWriter.EmitBytes` | kernel/chipset/floppy.c:116-122 | appends a block of data cells |
| `TrackWriter.EmitHeader` | kernel/chipset/floppy.c:137-150 | appends a sync and a sector header with its CRC |
| `TrackWriter.EmitBody` | kernel/chipset/floppy.c:152-159 | appends a sync, the sector data and its CRC |
| `TrackWriter.EmitSector` | kernel/chipset/floppy.c:134-163 | appends one whole sector with its gaps |
| `TrackWriter.GenerateTrack` | kernel/chipset/floppy.c:126-171 | fills the buffer to exactly 102400 bits with the stream of the track |
| `TrackReader.FindWordFirst` | kernel/chipset/floppy.c:177-183 | the search finds the first position holding the word, or none if there is none |
| `TrackReader.SearchSync` | kernel/chipset/floppy.c:177-183 | the bit-by-bit loop returns the first sync at or after the start, or -1 |
| `TrackReader.ReadBlock` | kernel/chipset/floppy.c:185-237 | decodes a run of bytes from the stream |
| `TrackReader.DecodeBuffer` | kernel/chipset/floppy.c:185-237 | the decoding loop with its header, CRC and restart rules computes the decoded sectors and their number |
| `TrackRoundTrip.TrackCarries` | kernel/chipset/floppy.c:126-171 | header and data blocks of every sector can be read back at their positions |
| `TrackRoundTrip.TurnAtSector` | kernel/chipset/floppy.c:185-237 | on any stream with its blocks behind their syncs and no sync in the gaps, the decoder turn after sector k-1 yields exactly sector k |
| `TrackRoundTrip.RoundTrip` | kernel/chipset/floppy.c:126-237 | for every 5632-byte track, decoding the generated track finds 11 sectors with the original contents |
| `DiskRead.LaunchedRead` | kernel/chipset/floppy.c:442-608 | a launched read that finds its second sync at p ends in one tick with the bytes after p in RAM and the rest of RAM unchanged |
| `DiskRead.ReadDelivers` | kernel/chipset/floppy.c:442-608 | from anywhere before the header of sector k, a read of 1 to 256 words takes one tick, raises the interrupt and leaves exactly the sector's first bytes in RAM |
| `DiskRead.ReadDeliversHeader` | kernel/chipset/floppy.c:442-499 | from inside a header the read delivers the bytes behind the next header's sync, for every length |
| `DiskRead.HeaderBytes` | kernel/chipset/floppy.c:442-499 | those bytes start with that header |
| `DiskRead.ReadFindsNothing` | kernel/chipset/floppy.c:442-499 | past the last header sync the tick delivers nothing |
| `DiskRead.DeliveryIff` | kernel/chipset/floppy.c:442-608 | a read launched at a head position delivers sector data whatever the disk holds, if and only if the next sync is a header sync |
| `DiskLiveness.Progress` | kernel/chipset/floppy.c:442-588 | every tick of a reading drive, wherever its head stands, keeps the head in range and moves words or brings the head to the start of the track, from which the next tick moves some |
| `DiskLiveness.SyncWithinTwo` | kernel/chipset/floppy.c:442-588 | a read finds a sync within two ticks |
| `DiskLiveness.ReadCompletes` | kernel/chipset/floppy.c:442-608 | a read of w words on a spinning, undisturbed drive raises the interrupt within 2w ticks |
| `DiskSpan.ReadSpans` | kernel/chipset/floppy.c:442-588 | over any number of ticks, wherever they cut it, a read has stored the runs of bytes its head passed over one behind the other from its pointer, by a head that is moved by rotation alone; pointer plus twice the words to come never changes |
| `DiskSpan.ReadFills` | kernel/chipset/floppy.c:442-588 | when a read of w words completes, RAM is what it was with its 2w bytes from the pointer on, all of them and in order |
| `DriveOps.LaunchedRead` | kernel/chipset/floppy.c:594-608 | a launched read has its pointer, the words of its length field (0 stands for 32768), the standard sync when none is given, and its sync still to find; without a disk nothing changes |
| `DiskWrite.RewrittenReadable` | kernel/chipset/floppy.c:185-237 | a track with the body of one sector rewritten decodes to the same sectors with that one replaced, whatever sync patterns the new bits hold |
| `DiskWrite.WriteDelivers` | kernel/chipset/floppy.c:502-625 | with the head before data sync k and RAM holding the raw words of 512 bytes and their CRC, a 514-word write ends in one tick with those bytes in image sector k, everything else unchanged, and dirty set exactly if something changed |
| `DiskWrite.WriteThenRead` | kernel/chipset/floppy.c:442-625 | after such a write, a seek back and a read deliver the bytes that were written |
| `DiskSpan.WriteSpans` | kernel/chipset/floppy.c:502-588 | over any number of ticks a write has put its words from RAM, in order from its pointer, on the stretches of track its head passed over after the sync, and on nothing else |
| `DriveOps.LaunchedWrite` | kernel/chipset/floppy.c:610-625 | a launched write has its pointer, its words and its sync still to find; without a disk, or with a protected one, nothing changes |
| `CommitLoss.Unyielded` | kernel/chipset/floppy.c:185-237 | on every stream, a sector no decoder turn yields is left as it was |
| `CommitLoss.UndecodedKeptIff` | kernel/chipset/floppy.c:532-547 | a sector no decoder turn yields keeps its image data through a commit if and only if nothing decoded or that data was all zero |
| `CommitLoss.SectorLost` | kernel/chipset/floppy.c:535-546 | a drive on which one sector decodes and the non-zero image data of another is turned to zeros |
| `FloppyRun.PutTrackAt` | kernel/chipset/floppy.c:534-547 | committing a track changes that track of the image and no other |
| `FloppyRun.CommitSound` | kernel/chipset/floppy.c:502-550 | after a decodable write ends, the image track is what the raw track decodes to, and dirty tells whether anything changed |
| `FloppyRun.SeekFresh` | kernel/chipset/floppy.c:341-360 | after a seek the raw track is the one generated from the image |
| `FloppyRun.ControlFresh` | kernel/chipset/floppy.c:366-406 | a control-port write keeps the image, and either regenerates the track or leaves it alone |
| `FloppyRun.StoreSound` | kernel/chipset/floppy.c:698-712 | a sector write keeps track and image in agreement, on the current track and elsewhere |
| `DriveOps.SectorStored` | kernel/chipset/floppy.c:698-712 | a stored sector holds the data and the other 1759 are unchanged; the raw track follows when it is under the head; a protected or absent disk and a bad address change nothing |
| `DriveOps.ControlMoves` | kernel/chipset/floppy.c:366-406 | one cylinder per falling /STEP edge of a selected unit, inward when /DIR is low, stopping at both ends; side by /SIDE; motor latched by the selecting edge; change latch cleared by a step with a disk in |
| `DriveOps.PulsesMove` | kernel/chipset/floppy.c:355-394 | n step pulses move the head n cylinders towards 0 or 79 and no further |
| `DriveOps.ProtectedKept` | kernel/chipset/floppy.c:283-724 | over every run of operations that puts in no disk and moves no tab, a protected disk with no write under way, or an empty drive, keeps its image and does not become dirty |
| `DriveOps.DiskGoesIn` | kernel/chipset/floppy.c:266-332 | a loaded or installed image of the right size is in the drive unchanged and clean, its first track under the head, the change latch set; a file of the wrong size changes nothing |
| `DriveOps.EjectStops` | kernel/chipset/floppy.c:283-294 | an eject ends motor, transfer and dirtiness, and ticks then do nothing |
| `DriveOps.PortReadsSector` | kernel/chipset/floppy.c:641-653 | with the head at the data of sector k, n reads of the data port give its first n words in order, high byte first |
| `DriveOps.PortLaysWords` | kernel/chipset/floppy.c:655-665 | words written to the data port lie on the track in order from the head on, and nothing else changes before the last |
| `DriveOps.PortEnds` | kernel/chipset/floppy.c:655-683 | the last word ends the transfer, commits the track and raises the interrupt |
| `FloppyRun.EvolveSound` | kernel/chipset/floppy.c:257-724 | every drive operation keeps coherence of track and image, and soundness of the dirty flag |
| `FloppyRun.RunSound` | kernel/chipset/floppy.c:257-724 | after every run of operations: with no undecoded raw write outstanding the track decodes to the image, and dirty clear means the image is as at the last load, install or clear |
| `FloppyRun.SoundCarries` | kernel/chipset/floppy.c:257-264 | a drive without raw writes carries its image track, so reads deliver the image |
| `FloppyUnit.Unit.RegenerateTrack` | kernel/chipset/floppy.c:257-264 | rebuilds the track buffer of a loaded drive from the image, leaves an unloaded one alone |
| `FloppyUnit.Unit.LoadAdf` | kernel/chipset/floppy.c:266-281 | loads an image of the right size from cylinder 0, refuses any other |
| `FloppyUnit.Unit.EjectDisk` | kernel/chipset/floppy.c:283-294 | unloads the drive and stops its DMA |
| `FloppyUnit.Unit.InstallImage` | kernel/chipset/floppy.c:304-332 | makes a generated image the loaded disk, clean |
| `FloppyUnit.Unit.SeekTo` | kernel/chipset/floppy.c:341-353 | moves the clamped head and regenerates the track |
| `FloppyUnit.Unit.StepHead` | kernel/chipset/floppy.c:355-360 | one cylinder in or out |
| `FloppyUnit.Unit.StoreSector` | kernel/chipset/floppy.c:698-712 | writes one sector into the image, sets dirty, regenerates the current track; refuses bad arguments |
| `FloppyUnit.Unit.LaunchRead` | kernel/chipset/floppy.c:594-608 | arms a read with its pointer, length and sync, or refuses |
| `FloppyUnit.Unit.LaunchWrite` | kernel/chipset/floppy.c:610-625 | arms a write, or refuses |
| `FloppyUnit.Unit.TransferIn` | kernel/chipset/floppy.c:442-499 | the read loop finds its sync, moves words into RAM until the tick or the count ends, and settles pointer, position and count |
| `FloppyUnit.Unit.CommitTrack` | kernel/chipset/floppy.c:532-547 | decodes the track and brings image and dirty flag up to date |
| `FloppyUnit.Unit.TransferOut` | kernel/chipset/floppy.c:502-550 | the write loop puts words on the track and commits when the count reaches zero |
| `FloppyUnit.Unit.RunTick` | kernel/chipset/floppy.c:556-588 | one tick of one unit: transfer, then rotation |
| `FloppyUnit.Unit.ReadPort` | kernel/chipset/floppy.c:641-653 | reads one decoded word and advances the head |
| `FloppyUnit.Unit.WritePort` | kernel/chipset/floppy.c:655-683 | writes one raw word, counts down and commits at zero |
| `FloppyController.ControlInThree` | kernel/chipset/floppy.c:366-406 | the three passes over all units amount to the control write on each unit by itself |
| `FloppyController.Controller.DriveControl` | kernel/chipset/floppy.c:366-406 | motor latch, step edge and side select reach exactly the selected units, and the lowest selected unit is noted |
| `FloppyController.Controller.TickAll` | kernel/chipset/floppy.c:556-588 | all units tick in order against one RAM, each as if alone, and the interrupt is asked for if and only if one of them asks |
| `LineGeometry.WalkMoves` | kernel/chipset/chip_emu.c:1799-1840 | a step of the line engine is one major step, and one minor step when the accumulator is not negative, in every octant |
| `LineGeometry.RoundedStep` | kernel/chipset/chip_emu.c:1805-1826 | the sign test on the accumulator is the test whether the rounded ordinate goes up |
| `LineGeometry.Geometry` | kernel/chipset/chip_emu.c:1754-1856 | pixel k of a programmed line lies k major and floor((2km+M)/(2M)) minor steps from the start, and the accumulator stays in range so truncation to 16 bits never changes it |
| `LineGeometry.EndPoint` | kernel/chipset/chip_emu.c:4447-4462 | the line ends exactly M major and m minor steps away |
| `LineGeometry.SingleFirst` | kernel/chipset/chip_emu.c:1762-1840 | with SING on an X-major line a pixel is suppressed if and only if it is not the first of its row |
| `LineGeometry.AllDrawn` | kernel/chipset/chip_emu.c:1762-1840 | without SING, or on a Y-major line, no pixel is suppressed |
| `LineMemory.PlotPixel` | kernel/chipset/chip_emu.c:1762-1791 | plotting changes the one addressed memory bit as the minterm says and no other |
| `LineMemory.LineRun` | kernel/chipset/chip_emu.c:1754-1856 | running the engine paints the walked pixels one after the other |
| `LineMemory.DrawsLine` | kernel/chipset/chip_emu.c:1754-1856 | with minterm 0xCA a memory bit is set afterwards if and only if it was set before or is on the line, SING included |
| `LineMemory.InvertsBack` | kernel/chipset/chip_emu.c:1754-1856 | with minterm 0x4A, drawing twice from the same setup leaves all of memory as it was |
| `LineMemory.WalksTexture` | kernel/chipset/chip_emu.c:1799-1843 | the texture position moves down by one with every pixel, drawn or not, around sixteen |
| `LineRegisters.RegistersShow` | kernel/chipset/chip_emu.c:1840-1855 | after every pixel BLTCPT and BLTDPT show the place of the next one; after the last BLTCON0, BLTCON1 and BLTAPT show bit position, texture position and accumulator |
| `LineRegisters.FlagShows` | kernel/chipset/chip_emu.c:1762-1791 | after k pixels the zero flag is down if and only if it was or some drawn pixel left a word that is not zero |
| `LineRegisters.PlotApart` | kernel/chipset/chip_emu.c:1762-1791 | with C and D pointers apart a pixel's word is read through C and written, with one bit changed, through D for the first pixel drawn and through C afterwards |
| `LineRegisters.OnlyFirst` | kernel/chipset/chip_emu.c:1754-1791 | of a launched line only pixel 0 goes to the D pointer |
| `LineRegisters.LaunchPlaces` | kernel/chipset/chip_emu.c:2022-2059 | a line starts at its own pointers, or with both at the one that is not zero |
| `AreaShift.AscendingDivides` | kernel/chipset/chip_emu.c:1897-1913 | chained ascending shifts, read most significant word first, divide the whole number by 2^k |
| `AreaShift.DescendingMultiplies` | kernel/chipset/chip_emu.c:1897-1913 | chained descending shifts, read least significant word first, multiply it by 2^k modulo its size |
| `AreaRun.LaunchIsFresh` | kernel/chipset/chip_emu.c:2062-2085 | a launched area blit is busy and starts at its first word with empty shifters |
| `AreaRun.StandsAt` | kernel/chipset/chip_emu.c:1966-1995 | after k steps the engine stands at row k / width, column k % width, with that many words left |
| `AreaRun.RunBlits` | kernel/chipset/chip_emu.c:1861-1996 | every run of a launched blit is a chain of fetch, shift, combine, store steps |
| `AreaRun.BlitShifts` | kernel/chipset/chip_emu.c:1897-1913 | over all words of a blit, masked A and B come out shifted as one big number, carry crossing rows |
| `AreaFill.CarryIntoWord` | kernel/chipset/chip_emu.c:1927-1941 | the carry into each word of a row is the parity of the row's bits before it |
| `AreaFill.RowFilled` | kernel/chipset/chip_emu.c:1882-1941 | each fill bit is FCI xor the parity of the row up to it, or that or the source bit; carry crosses words and never rows |
| `AreaFill.InclusiveIsExclusiveOrSource` | kernel/chipset/chip_emu.c:1935-1936 | inclusive fill is exclusive fill or the source |
| `AreaFill.ExclusiveRecovers` | kernel/chipset/chip_emu.c:1935-1936 | the source row can be recovered from the exclusive fill |
| `WordCopy.CopyMoves` | kernel/chipset/chip_emu.c:1886-1996 | copying words in a direction that never overwrites an unread source delivers every original word |
| `AreaCopy.CopyRun` | kernel/chipset/chip_emu.c:1886-1996 | each step of an unshifted, fully masked A-to-D blit copies one word |
| `AreaCopy.CopyIsMove` | kernel/chipset/chip_emu.c:1886-1996 | for every width, height and overlap, every destination word gets its source word's original value, ascending for dst <= src and descending for dst >= src |
| `AreaCopy.CopyKeepsRest` | kernel/chipset/chip_emu.c:1886-1996 | memory outside the destination is unchanged |
| `AreaBlit.PointersShow` | kernel/chipset/chip_emu.c:1948-1989 | before every word of a blit each channel that is on stands at its own base plus y * (2 * width + its modulo) + 2 * x, signed by direction, and the registers show it |
| `AreaBlit.WordBlitted` | kernel/chipset/chip_emu.c:1861-1996 | when no word is written over a source still to be read, every destination word that no later word covers ends as the minterm, filled if enabled, of the shifted and masked A word, the shifted B word and the C word of memory at the launch |
| `AreaBlit.RestUnblitted` | kernel/chipset/chip_emu.c:1943-1947 | every bit outside the destination words, and all of memory with channel D off, is unchanged |
| `AreaBlit.FlagTells` | kernel/chipset/chip_emu.c:1943-1947 | the zero flag is down after a blit if and only if a word that is not zero was written |
| `BlitterRun.LaunchConsistent` | kernel/chipset/chip_emu.c:2011-2086 | a launch sets busy and the step count, and leaves exactly one engine running if and only if it does not start a line over a running area blit |
| `BlitterRun.EngineStepped` | kernel/chipset/chip_emu.c:1754-1996 | a step takes one off the count and drops busy, raising the interrupt, exactly when none is left |
| `BlitterRun.StepsRan` | kernel/chipset/chip_emu.c:1754-1996 | after k steps count, busy and interrupt are determined by k |
| `BlitterRun.SlotsRefine` | kernel/chipset/chip_emu.c:761-789 | over any scanline tables and priorities the engine at each line boundary is the engine after that many back-to-back steps |
| `BlitterRun.SlotsCount` | kernel/chipset/chip_emu.c:751-789 | at each line boundary the words remaining are the engine's own count |
| `BlitterRun.SlotsComplete` | kernel/chipset/chip_emu.c:751-789 | final memory, registers and pointers are those of the one-shot run, and busy drops with the interrupt in the very line that does the last step |
| `BlitterEndToEnd.StepsAreLine` | kernel/chipset/chip_emu.c:761-789 | a running line stepped slot by slot is the line engine stepped by itself |
| `BlitterEndToEnd.StepsAreArea` | kernel/chipset/chip_emu.c:761-789 | a running area blit stepped slot by slot is the area engine stepped by itself |
| `BlitterEndToEnd.LaunchReady` | kernel/chipset/chip_emu.c:2022-2059 | a launch from the usual line registers gives a line the drawing theorems apply to |
| `BlitterEndToEnd.LineAppears` | kernel/chipset/chip_emu.c:1754-2086 | a launched line with minterm 0xCA, cut up over any scanlines with room, leaves exactly the old bits and the line's pixels in memory, busy down and the interrupt raised |
| `BlitterEndToEnd.LineDisappears` | kernel/chipset/chip_emu.c:1754-2086 | with minterm 0x4A, launching the same line again over any other scanlines restores memory |
| `BlitterEndToEnd.TextureAppears` | kernel/chipset/chip_emu.c:1754-2086 | a launched textured line with minterm 0xCA gives every pixel j that no later one covers bit (start - j) mod 16 of BLTBDAT |
| `BlitterEndToEnd.LineLeaves` | kernel/chipset/chip_emu.c:1754-2086 | a launched line leaves the place, texture bit and accumulator of the pixel after its last in the registers |
| `BlitterEndToEnd.LineFlags` | kernel/chipset/chip_emu.c:1754-2086 | and the zero flag down if and only if a drawn pixel left a word that is not zero |
| `BlitterEndToEnd.SolidInks` | kernel/chipset/chip_emu.c:1754-1791 | a solid line always does |
| `BlitterEndToEnd.AreaStaysOnRun` | kernel/chipset/chip_emu.c:1861-2086 | at every scanline boundary a launched area blit is in a state of its run, so its shifts and fill rows are those of the run |
| `BlitterEndToEnd.RectangleBlitted` | kernel/chipset/chip_emu.c:1861-2086 | a launched blit, cut up over any scanlines with room for its words, leaves in every destination word that no later word covers the result for that word from memory at the launch |
| `BlitterEndToEnd.OutsideUnblitted` | kernel/chipset/chip_emu.c:1861-2086 | and no other bit changed, and the zero flag down if and only if a word that is not zero was written |
| `BlitterEndToEnd.PointersReadBack` | kernel/chipset/chip_emu.c:1861-2086 | at a scanline boundary in the middle of a blit the pointer registers show the addresses of the next word |
| `BlitterEndToEnd.RectangleMoves` | kernel/chipset/chip_emu.c:1861-2086 | a launched copy, cut up over any scanlines with room, gives every destination word its source word's value at the launch |
| `BlitterEndToEnd.RestStaysPut` | kernel/chipset/chip_emu.c:1861-2086 | and leaves the rest of memory alone |
| `BlitterUnit.CombineWords` | kernel/chipset/chip_emu.c:1921-1925 | the loop over the minterm bits computes any function of three words |
| `BlitterUnit.FillWord` | kernel/chipset/chip_emu.c:1929-1941 | the bit loop fills one word and passes the carry on |
| `BlitterUnit.WalkLine` | kernel/chipset/chip_emu.c:1799-1843 | accumulator, sign, pointers and shift after one pixel |
| `BlitterUnit.ReadRam` | kernel/chipset/chip_emu.c:1730-1734 | a big-endian word of guest RAM, zero outside |
| `BlitterUnit.WriteRam` | kernel/chipset/chip_emu.c:1736-1741 | stores a big-endian word, nothing outside |
| `BlitterUnit.PlotPixel` | kernel/chipset/chip_emu.c:1762-1791 | reads, combines and writes back one pixel's word in place |
| `BlitterUnit.FetchWords` | kernel/chipset/chip_emu.c:1886-1941 | the enabled channels' words, masked at both ends of a row, shifted, combined and filled |
| `BlitterUnit.AdvanceArea` | kernel/chipset/chip_emu.c:1948-1995 | pointers, carries and position after one word, with modulos at the end of a row |
| `BlitterUnit.Agnus.FinishBlit` | kernel/chipset/chip_emu.c:751-757 | busy down, words zero, interrupt raised |
| `BlitterUnit.Agnus.StepLine` | kernel/chipset/chip_emu.c:1754-1856 | one pixel of a line blit, in place |
| `BlitterUnit.Agnus.StepArea` | kernel/chipset/chip_emu.c:1861-1996 | one word of an area blit, in place |
| `BlitterUnit.Agnus.Execute` | kernel/chipset/chip_emu.c:2011-2086 | launches a line or area blit with its word count, whatever was running |
| `BlitterUnit.Agnus.AllocBlitter` | kernel/chipset/chip_emu.c:761-789 | the slot loop grants eligible slots while words remain, steps the engine in each, and ends with the count in agreement |
| `BlitterUnit.Agnus.RunLine` | kernel/chipset/chip_emu.c:2158-2183 | the slot work of a scanline gives the line's table, advances the blit by its eligible slots and adds 4 * (227 - CPU slots) stolen cycles |
| `BlitterUnit.Agnus.RunLines` | kernel/chipset/chip_emu.c:2158-2183 | any number of scanlines take the blit where their tables say |
| `DmaSlots.ResetSlots` | kernel/chipset/chip_emu.c:581-597 | fixed owners in their slots, everything else free |
| `DmaSlots.ReleaseIfDisabled` | kernel/chipset/chip_emu.c:642-649 | frees exactly the channel's slots when its DMA is off |
| `DmaSlots.AllocBitplanes` | kernel/chipset/chip_emu.c:653-688 | gives the free slots of the fetch window to the bitplanes, by depth and resolution |
| `DmaSlots.AllocCopper` | kernel/chipset/chip_emu.c:737-747 | gives the first free odd slots to the copper, up to the limit |
| `DmaSlots.FinishSlots` | kernel/chipset/chip_emu.c:2176-2182 | gives the remaining slots to the CPU and counts them |
| `DmaSlots.PrepareSlots` | kernel/chipset/chip_emu.c:2158-2167 | the table offered to the blitter |
| `SlotGuarantees.CpuGuarantee` | kernel/chipset/chip_emu.c:761-789 | the CPU's exact number of slots for every setting; without blitter priority at least a quarter of those left after the copper |
| `SlotGuarantees.BlitterGuarantee` | kernel/chipset/chip_emu.c:761-789 | the blitter gets exactly the smaller of its words and the eligible slots, and so none if and only if it has no words or the line has no eligible slot |
| `SlotGuarantees.BlitterNotGated` | kernel/chipset/chip_emu.c:2164-2169 | the blitter's DMA enable bit changes nothing in the table |
| `SlotGuarantees.SlotsWithoutEnable` | kernel/chipset/chip_emu.c:2164-2169 | a line with every enable bit clear on which the blitter gets a slot |
| `SlotGuarantees.CopperGuarantee` | kernel/chipset/chip_emu.c:737-747 | the copper gets exactly the smaller of 32 and the free odd slots, all odd |
| `SlotGuarantees.OwnerGuarantee` | kernel/chipset/chip_emu.c:581-688 | every slot has an owner, enabled fixed slots keep theirs, and a slot is a bitplane's if and only if it is a free fetch slot |
| `BitplaneSlots.FixedSlots` | kernel/chipset/chip_emu.c:581-597 | refresh holds slots 0 to 3, and disk 4 to 6, audio 7 to 10, sprites 11 to 26 if and only if enabled |
| `BitplaneSlots.UnitPattern` | kernel/chipset/chip_emu.c:653-688 | slot j of every fetch unit of the window is a bitplane slot if and only if enough planes are on: 1, 5, 3, 7, 2, 6, 4, 8 in low resolution, 1, 3, 2, 4 in high |
| `BitplaneSlots.OutsideWindow` | kernel/chipset/chip_emu.c:653-666 | outside the window, or with bitplane DMA off, there is no bitplane slot |
| `BitplaneSlots.WholeUnit` | kernel/chipset/chip_emu.c:668-682 | a whole unit has as many bitplane slots as planes are on, up to eight or four |
| `BitplaneSlots.LineTakes` | kernel/chipset/chip_emu.c:653-688 | a line with a window of u whole units and r slots more has u times that number and those of the started unit |
| `BitplaneSlots.NoWindow` | kernel/chipset/chip_emu.c:653-666 | an empty window has none |
| `CiaTimer.BatchIsPulses` | kernel/chipset/chip_emu.c:3048-3071 | a batch of n pulses equals n single pulses in counter, pin, control and underflows if and only if the timer is one-shot, with any latch, or n is at most the counter plus 127 latches |
| `CiaTimer.ContinuousKept` | kernel/chipset/chip_emu.c:3048-3071 | below the guard no pulse of a continuous timer is lost: counter before plus reloads is pulses plus counter after |
| `CiaTimer.EmptyLatch` | kernel/chipset/chip_emu.c:3048-3071 | a continuous timer with latch 0 that runs out underflows exactly 128 times per call |
| `CiaCounters.CascadeCounts` | kernel/chipset/chip_emu.c:3130-3155 | from any counters, after any number of ticks: timer A has counted every E-clock count, timer B every underflow of A, in closed form, and B's flag is up exactly if B underflowed |
| `CiaCounters.CascadeIsMixedRadix` | kernel/chipset/chip_emu.c:3130-3155 | with both counters within their latches the pair is one counter: phase (phase + 7093n) mod LA*LB and (phase + 7093n) / (LA*LB) underflows of B |
| `CiaCounters.CascadeEntersRange` | kernel/chipset/chip_emu.c:3130-3155 | from any counters both are within their latches after 655360 ticks at the latest |
| `CiaTicks.TickFeeds` | kernel/chipset/chip_emu.c:3130-3155 | one tick gives each timer the pulses its input mode lets through, raises a flag exactly for an underflow, and moves the pins: unrouted not at all, toggled by every underflow, pulsed low for one tick |
| `CiaTicks.TicksCount` | kernel/chipset/chip_emu.c:3130-3155 | over n ticks timer A has taken 7093 pulses a tick or none by CRA bit 5, and timer B by INMODE 7093 a tick, none, A's underflows, or those under a high CNT; both as single pulses would leave them, up to the pin, with flags up if and only if they were or a pulse underflowed |
| `CiaTicks.DelayEnds` | kernel/chipset/chip_emu.c:2650-3155 | a one-shot delay of v on timer A ends, with its flag up, in tick ceil(v / 7093) and not before |
| `CiaTicks.EdgesCount` | kernel/chipset/chip_emu.c:3077-3115 | over any levels on CNT a timer that counts it takes one pulse per rising edge, pin and flag included, and any other timer none |
| `CiaTicks.FallsShow` | kernel/chipset/chip_emu.c:3098-3107 | over any levels on FLAG its flag is up if and only if it was or the pin fell |
| `CiaClock.TimeCounts` | kernel/chipset/chip_emu.c:3178-3184 | a proper time counts tenths of a second modulo an hour |
| `CiaClock.ClockSettles` | kernel/chipset/chip_emu.c:3178-3184 | whatever bytes were written, the clock shows a proper time after 611 tenths at the latest, and from then on |
| `CiaClock.ClockIsMixedRadix` | kernel/chipset/chip_emu.c:3171-3193 | after any number of ticks and from any bytes the clock has counted every E-clock count, and the alarm flag is up exactly if the alarm time came up |
| `CiaLaws.ApplyShows` | kernel/chipset/chip_emu.c:2626-3199 | every operation leaves the line equal to what is pending and, unless it is meant to, loses no flag |
| `CiaLaws.LineFollows` | kernel/chipset/chip_emu.c:2626-2643 | after every run of operations the interrupt line is up if and only if an enabled flag is pending |
| `CiaLaws.FlagsStay` | kernel/chipset/chip_emu.c:2736-2890 | over every run without an ICR read, acknowledge or forced clear, a raised flag stays raised |
| `CiaLaws.FlagsTaken` | kernel/chipset/chip_emu.c:2736-2890 | an ICR read takes every flag down, an acknowledge exactly those it names, and a forced write gives those it names its bit 7 |
| `CiaLaws.EnablesFollow` | kernel/chipset/chip_emu.c:2626-2890 | over every run an enable bit holds what the last mask write naming it said |
| `CiaLaws.ResetShows` | kernel/chipset/chip_emu.c:4267-4282 | after a reset nothing is pending or enabled, the timers stand still, every pin is high and the clock runs from zero |
| `CiaSerial.BitsArrive` | kernel/chipset/chip_emu.c:3077-3091 | after any number of CNT edges the register holds the last eight SP levels in order, and the flag is up exactly if a byte was completed |
| `CiaSerial.ByteLeaves` | kernel/chipset/chip_emu.c:3133-3193 | a byte written in output mode is shifted out and flagged by the end of the next tick |
| `CiaIdioms.InputHolds` | kernel/chipset/chip_emu.c:2815-2833 | in input mode a byte written to the serial register stays there over any ticks |
| `CiaIdioms.DelayCounts` | kernel/chipset/chip_emu.c:2650-2666 | control $08, low byte, high byte start a one-shot that underflows once, after exactly the value written (0 acting as 1), and stops |
| `CiaIdioms.LoadStarts` | kernel/chipset/chip_emu.c:2650-2843 | low byte, high byte, then START with LOAD run a continuous timer from exactly the value written |
| `CiaIdioms.RewriteRunning` | kernel/chipset/chip_emu.c:2650-2843 | both bytes written to a running timer change only its latch, which counts from the next underflow or at once with LOAD |
| `CiaIdioms.ReadIsCoherent` | kernel/chipset/chip_emu.c:2715-2728 | minutes, seconds, tenths read with any ticks between are one instant |
| `CiaIdioms.ReadReleases` | kernel/chipset/chip_emu.c:2715-2728 | after the tenths are read, seconds and tenths read the running time over any ticks |
| `CiaIdioms.WriteIsCoherent` | kernel/chipset/chip_emu.c:2799-2814 | minutes, seconds, tenths written with any ticks between set exactly that time and the clock runs on |
| `CiaIdioms.AlarmIsSet` | kernel/chipset/chip_emu.c:2799-2814 | with CRB bit 7 set the three writes set exactly the alarm and leave the clock running |
| `CiaUnit.CountTimer` | kernel/chipset/chip_emu.c:3048-3071 | the guarded loop computes the countdown and its underflows |
| `CiaUnit.StepTime` | kernel/chipset/chip_emu.c:3178-3184 | tenths carry into seconds and seconds into minutes |
| `CiaUnit.Cia8520.UpdateLine` | kernel/chipset/chip_emu.c:2632-2643 | the line is (icr & mask) != 0 |
| `CiaUnit.Cia8520.TakeFlags` | kernel/chipset/chip_emu.c:2736-2741 | returns and clears the flags, re-evaluates the line |
| `CiaUnit.Cia8520.AbleFlags` | kernel/chipset/chip_emu.c:2871-2879 | sets or clears mask bits by bit 7, returns the old mask, re-evaluates the line |
| `CiaUnit.Cia8520.PutHigh` | kernel/chipset/chip_emu.c:2656-2666 | high latch byte; loads a stopped counter and starts a one-shot |
| `CiaUnit.Cia8520.PutTime` | kernel/chipset/chip_emu.c:2799-2814 | clock or alarm byte; minutes halt and tenths start the clock |
| `CiaUnit.Cia8520.RisingCnt` | kernel/chipset/chip_emu.c:3077-3091 | samples a bit in input mode and feeds CNT-clocked timers |
| `CiaUnit.Cia8520.DriveFlag` | kernel/chipset/chip_emu.c:3098-3107 | a falling FLAG edge raises its flag |
| `CiaUnit.Cia8520.DriveCnt` | kernel/chipset/chip_emu.c:3109-3115 | a rising CNT edge is fed in |
| `CiaUnit.Cia8520.HostTick` | kernel/chipset/chip_emu.c:3131-3193 | pins, timers, serial shift and clock of one chip for one host tick |
| `PaulaLaws.PlayIsCycles` | kernel/chipset/chip_emu.c:2972-3021 | a call is exactly the number of single master clocks that fit before the cap on expiries, attached or not |
| `PaulaLaws.PlayBatches` | kernel/chipset/chip_emu.c:2972-3021 | two calls are one call of their sum, below the cap |
| `PaulaLaws.CallsAddUp` | kernel/chipset/chip_emu.c:2972-3021 | any sequence of calls of at most 31 periods leaves the channel where the total number of clocks puts it |
| `PaulaLoop.PlaysLoop` | kernel/chipset/chip_emu.c:2972-3021 | after n clocks, with any attach bits: n / per expiries, half as many fetches, the i-th from lc + 2 * (i mod len), pointer, length, byte and interrupt accordingly, and the next channel's volume and period set by the words fetched |
| `PaulaLoop.CallsPlayLoop` | kernel/chipset/chip_emu.c:2948-3025 | the same over any sequence of calls of at most 31 periods, by the clocks they add up to |
| `PaulaLoop.InterruptEachRound` | kernel/chipset/chip_emu.c:3012-3019 | a cleared interrupt comes back at an expiry if and only if that expiry does a fetch completing a round of len |
| `PaulaLoop.SetIsFresh` | kernel/chipset/chip_emu.c:2918-2936 | a configured channel is one the loop theorem applies to, with its settings, six bits of volume and the first word in place |
| `PaulaLoop.ModulatorFeeds` | kernel/chipset/chip_emu.c:2994-3010 | after n clocks and f words: volume attach alone has set the next channel's volume by word f, period attach alone its period, both by turns, the odd words the volume and the even ones the period |
| `PaulaUnit.MixerBatches` | kernel/chipset/chip_emu.c:2948-3025 | with no attach bits and below the cap, advance(a); advance(b) is advance(a + b) in all four channels and all interrupt requests |
| `PaulaMixer.MasterOff` | kernel/chipset/chip_emu.c:2948-2950 | with master DMA off no sequence of calls changes anything |
| `PaulaMixer.AdvancePlays` | kernel/chipset/chip_emu.c:2948-3025 | with master DMA on, a call by n takes an unmodulated channel, and what it feeds the next, as many single clocks on as its cap allows if it is enabled with period and length, and leaves it alone otherwise |
| `PaulaMixer.MixerPlaysLoop` | kernel/chipset/chip_emu.c:2948-3025 | over any sequence of calls, whatever the others do, an unmodulated channel plays its block round and round by the clocks the calls add up to |
| `PaulaMixer.MixerModulates` | kernel/chipset/chip_emu.c:2961-3010 | over any sequence of calls, f words fetched by channel ch have set the next channel's volume, period, both by turns or neither, by ADKCON bits ch and ch + 4 |
| `PaulaUnit.ExpirePeriod` | kernel/chipset/chip_emu.c:2986-3020 | byte toggle, fetch, modulation, length and interrupt of one expiry |
| `PaulaUnit.PlayLane` | kernel/chipset/chip_emu.c:2972-3021 | the capped loop computes one channel's share of an advance |
| `PaulaUnit.AudioUnit.AdvanceChannel` | kernel/chipset/chip_emu.c:2955-3022 | a disabled or empty channel is skipped, any other plays and may set the next one's volume and period |
| `PaulaUnit.AudioUnit.AdvanceAll` | kernel/chipset/chip_emu.c:2948-3025 | the channels advance in order, if master DMA is on |
| `PaulaUnit.AudioUnit.Configure` | kernel/chipset/chip_emu.c:2918-2936 | loads latches and working registers and fetches the first word |
| `CodecPath.SearchSound` | kernel/audio/hda.c:338-366 | a found path is a labelled walk of at most six nodes to a DAC that avoids the nodes above and comes back to none, except from a node to itself |
| `CodecPath.Straighten` | kernel/audio/hda.c:336-366 | every walk to a DAC contains a simple one with the same start |
| `CodecPath.SearchIff` | kernel/audio/hda.c:338-366 | at every node the search succeeds if and only if a simple path that fits leads on to a DAC |
| `CodecPath.TakesFirstLive` | kernel/audio/hda.c:353-364 | which path is found: each hop takes the first entry of the list that leads to a DAC |
| `CodecPath.SelfHopIff` | kernel/audio/hda.c:353-364 | a found path visits a node twice in a row if and only if the first live entry of its list is the node itself |
| `CodecPath.SimpleIff` | kernel/audio/hda.c:353-364 | a found path is free of repeats if and only if none of its nodes has itself as first live entry |
| `CodecPath.NoSelfListing` | kernel/audio/hda.c:353-364 | if no widget lists itself every found path is simple |
| `CodecPath.SelfHopTaken` | kernel/audio/hda.c:354-358 | a codec in which the search finds 1, 1, 2 |
| `CodecFinder.InPrefix` | kernel/audio/hda.c:356-358 | whether a node is already on the path |
| `CodecFinder.FindDac` | kernel/audio/hda.c:338-366 | the recursion with its path filled in place computes the search, nodes above unchanged |
| `CodecFinder.TryAll` | kernel/audio/hda.c:353-365 | the loop over the connections, leaving out those on the path, computes the search from the first entry |
| `CodecFinder.FindFromPin` | kernel/audio/hda.c:338-366 | the search from a pin succeeds if and only if a simple path of at most six nodes leads to a DAC, and the path then holds the route it finds |
| `Profiler.Probe` | kernel/dbg/prof.c:61-78 | the probe ends at the first slot that holds the address or is empty, and passes only other addresses |
| `Profiler.RunKeeps` | kernel/dbg/prof.c:46-81 | for every stream and hash each occupied slot ends its own search and holds all samples of its address |
| `Profiler.ExactOrSilent` | kernel/dbg/prof.c:34-81 | for every stream and hash: one slot per address at most, counting all its samples and naming the last task; a sampled address without a slot has eight foreign probes; counts plus drops are all samples |
| `ProfilerUnit.Sampler.Begin` | kernel/dbg/prof.c:34-40 | an empty table, counters zero, profiling on |
| `ProfilerUnit.Sampler.Tick` | kernel/dbg/prof.c:46-81 | the probing loop records one sample in place, or counts a drop |
| `ProfilerUnit.Best` | kernel/dbg/prof.c:101-111 | the first unlisted slot with the largest count |
| `ProfilerUnit.Report` | kernel/dbg/prof.c:93-127 | lists distinct occupied slots by count, ties by index; nothing left out ranks before anything listed; all are listed if the limit allows |

## Left out

- Pointers are unbounded integers: 32-bit wrap-around of DMA pointers is not modelled; the guest RAM range checks are. Sample and slot counters of the profiler are unbounded too.
- RAM binding (which guest window a transfer writes to): RAM is one array per unit.
- The image an Install writes is a parameter; the file system built by the test-image generator is not modelled.
- What the slots do with a line launched over a running area blit: the launch itself is modelled, the run after it is not.
- Register writes in the middle of a blit.
- Copper execution, sprites, collisions, bitplane rendering and the scanline loop's resynchronisation: only the per-line slot work is modelled.
- CIA port registers and what hangs on them (parallel port, keyboard queue, mouse buttons); a key press is modelled as the flag it raises.
- INTREQ writes by the guest: the line of CIA-A is modelled as the chip drives it.
- The connection-list decoding of the codec: the graph is given.
- The text of the profiler's report: the listed slots and their order are modelled.
- The raw sector read (`floppy_read_sector`) and the drive status bits: plain look-ups.
- CiaCounters.CascadeIsMixedRadix: takes both counters within their latches, because the phase is only defined there; CiaCounters.CascadeCounts has no such condition.
- FloppyController.Controller.TickAll: one RAM for all units, because which guest window a transfer is bound to is left out.
- PaulaUnit.MixerBatches: no attach bits, since a modulator's writes to the next channel depend on where the calls are cut.
