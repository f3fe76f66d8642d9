# navlistener: a verified model

navlistener collects GNSS navigation frames at the edge and delivers them to a collector. This project models
five parts of it in Dafny and proves what they promise:

1. The feeder's store-and-forward spool (`feeder/navfeeder.c`): a circular ring of unacked records that spills to
   an append-only disk file, and the producer, ACK reader and consumer that share it.
2. The edge's received-power history (`esp32/main/power_history.c`): an open-addressing table of four-day rings and
   its CRC-protected checkpoint blob.
3. The alarm debouncer and the reception wire records (`common/reception.h`, `common/reception_power.h`).
4. The error-detecting codes that guard untrusted frames (`gnss/frame`): CRC-24Q, the split CRC of Galileo I/NAV
   (section 4.3.1.4 of GAL-OS-SIS-ICD-2.2), chained GPS LNAV parity (section 20.3.5 of IS-GPS-200N) and the GLONASS
   Hamming check (section 4.7 of GLO-ICD-5.1).
5. The receiver-solution epochs: the edge's encoders and assembler (`common/receiver_solution.h`) and the
   collector's copy of both (`go/internal/ingest`).

## How it is organised

| files | content |
|---|---|
| BigEndian, Wire, BitBuffer, BitReader, Lanes | integers, fixed layouts, bit buffers and masks, with the loops that read and write them |
| SpoolFile, Spool, SpoolEffects, SpoolRuns, SpoolObject | the file format and its recovery, the spool as a value with its invariant, what each operation does, whole runs, and the class that refines it |
| Feeder, FeederSafety, FeederProgress, FeederDelivery | the three threads as one interleaved transition system: nothing is skipped, everything due is sent, and what is acked was delivered |
| FeederRace, RaceDelivery, RaceSkip, RaceLoss, RaceCursor, RaceStory | the same with the lock-free reader let into the middle of an append and its rollback: what then holds, exactly when it fails, and runs on which it does |
| Crc24Q, CrcCode, CrcOrder, CrcDistance, GalileoInav | CRC-24Q as a register of bits, the 32-bit loops that compute it, the order of its shift and its distance, the split I/NAV message |
| ParityChecks, LnavParity, LnavChain, LnavGate, GlonassHamming | parity-check codes, their minimum distance, stamping and checking, and what the LNAV gate lets through |
| PowerCell, PowerTable, PowerBlob, PowerModel, PowerEffects, PowerCrc, PowerObject | one cell, the table, the wire rows, whole runs, what one reading or import does, the checkpoint's CRC, and the class that refines them |
| Debounce, ReceptionMasks, ReceptionSample, PowerSample, PowerEvent | the alarm machine and the three records |
| SolutionBlocks, SolutionLayout, SolutionAssembler, SolutionFeed, SolutionCollector | payloads to blocks and their bytes, blocks to epochs, epochs to bodies, and the collector's view |

Code that changes state is a class or a method with loops (`SpoolObject.Feed`, `PowerObject.History`,
`Debounce.Machine`, `SolutionFeed.Assembler` and the array methods); each is proved equal to a function on values,
and the theorems are about that function. Environment choices are arguments: whether a file opens, a write tears
or a truncate fails (`DiskIO`), whether an allocation succeeds, what a send does (`Reply`), and clock readings.
History fields (`Spool.History`, `Feeder.Wire`, `FeederRace.Race.scan`, `Debounce.Machine.seen`) record what happened and steer nothing.

Masks that the sources write with `&`, `|` and shifts are bit-vectors where they are computed with; single-field
extractions from a byte in SolutionBlocks are written as quotients and remainders of powers of two. A 30-bit LNAV
word and an 85-bit GLONASS string are the sequences of their bits.

## Findings

- The comment above `spool_recover` (feeder/navfeeder.c:389-392) counts empty files among those reported as absent.
  The code reports -1 for a file of fewer than 8 bytes, and for any file cut inside its 73-byte header, and the
  model follows the code: `SpoolFile.RecoverShort`.
- The edge and the collector each have a copy of the alarm machine. They treat a step differently exactly when it
  repeats the clock while a change is pending: the edge abandons the change (common/reception.h:103), the collector
  keeps it (go/internal/reception/reception.go:210). `Debounce.TwinStep` gives the condition,
  `Debounce.TwinRuns` lifts it to whole runs and `Debounce.TwinsDiffer` shows an alarm only one raises.
- The reader of the spool file holds no lock. `disk_rollback` moves the generation so that the next drain rescans
  (feeder/navfeeder.c:665-670), but a scan that is already open never looks at it. If such a scan has read a record
  that a failed append left whole in the file and the rollback then removed, its cursor is past the records that take
  the removed one's place. Four things follow, each with its exact condition and an input:
  - No skip: sends stay in order throughout a run if and only if no such scan sends a record that does not come next
    (`FeederRace.RaceNoSkip`). At a record boundary that is the case if and only if the record before it was sent up to
    or is acked (`RaceSkip.BoundaryIff`). `RaceStory.RaceSkips` is a run that passes over frame 3, and
    `RaceSkip.NeverSent` shows that a skipped frame stays unsent until the next connection.
  - Delivery: what the scan then sends is safe to receive and acknowledge if and only if every sequence up to it is
    lost, was delivered before, or is what it carries (`RaceLoss.RaceDeliveryIff`). On the run of `RaceStory.RaceLoses`
    a frame is acked that was neither delivered nor counted.
  - Cursor: resuming sends what a rescan would if and only if the scan was not overtaken or nothing new is on disk
    (`RaceCursor.RaceCursorIff`). On the run of `RaceStory.RaceDrainsDiffer` the two differ.
  - Bytes: record lengths vary, so the cursor may also land inside a payload, and whatever record that payload encodes
    there is sent (`RaceSkip.ForgedRead`). On the run of `RaceStory.RaceForges` that is a frame nobody appended.

  None of this happens while a failed write leaves less than the whole record behind (`RaceDelivery.ShortRunsSafe`).
- The LNAV gate accepts either delivery convention (gnss/frame/parity.go:86-88), so two flipped bits can turn a
  word that fails one convention into one that satisfies the other. `LnavGate.GateDetects` says exactly when, and
  `LnavGate.GateMisses` is a ten-word subframe that passes with bits 1 and 21 of its last word flipped. One and
  three flipped bits are always detected.
- `AckedMeansDelivered` needs less of the collector than in-order acknowledgement on the current connection: no
  acknowledgement may exceed the highest sequence it has received on any connection. `NoSkip`, `Conservation` and
  the cursor theorem hold for arbitrary acknowledgements.
- The GLONASS check has distance four, so three flipped bits are detected too.
- CRC-24Q has distance four up to 8388607 bits, longer than any range the program checks; two flipped bits go
  undetected exactly when a multiple of 8388607 bits lies between them.

## Model

| member | source | states |
|---|---|---|
| `BigEndian.GetPut` | common/reception.h:36-39 | Reading what was written gives the value back, for every value that fits the width. |
| `BigEndian.PutGet` | common/reception.h:36-39 | Writing what was read gives the same bytes back. |
| `BigEndian.GetConcat` | common/reception.h:36-37 | The first byte counts most: the number of a concatenation is its front shifted past the rest. |
| `BigEndian.ReadLoop` | common/reception.h:36-37 | The shift-and-or loop returns the number whose big-endian digits are exactly the bytes read. |
| `BigEndian.WriteLoop` | common/reception.h:38-39 | Writing backwards in place leaves the digits of the value and touches no other byte. |
| `SpoolFile.ReadWhole` | feeder/navfeeder.c:2130-2147 | A whole record at the cursor is read back exactly, whatever follows it. |
| `SpoolFile.ReadTorn` | feeder/navfeeder.c:2130-2138 | A record cut short at any byte is never read. |
| `SpoolFile.ScanLoop` | feeder/navfeeder.c:430-447 | The recovery loop computes the scan: last sequence, good boundary, count and torn tail, or corruption. |
| `SpoolFile.RecoverFile` | feeder/navfeeder.c:393-469 | The program's recovery, legacy files and failed unlink or truncate included, returns and leaves behind what `Recover` says. |
| `SpoolFile.ScanCut` | feeder/navfeeder.c:430-447 | On a file of valid records cut anywhere, the scan stops exactly after the whole records. |
| `SpoolFile.WholeCount` | feeder/navfeeder.c:442-447 | The number of whole records in a prefix of the record area is the greatest number that fits. |
| `SpoolFile.RecoverCut` | feeder/navfeeder.c:393-459 | A file cut at any byte at or past its header recovers to its longest whole-record prefix with its session and last sequence, or is discarded when that prefix is empty. |
| `SpoolFile.RecoverShort` | feeder/navfeeder.c:393-407 | A file cut inside its header, the empty file included, is reported as uncertain and left untouched. |
| `SpoolFile.RecordsDecide` | feeder/navfeeder.c:393-469 | A whole file of records is replayed if and only if its sequences strictly increase and every length is 13 to 1037 bytes; otherwise it is set aside untouched. |
| `SpoolFile.RecoverFaults` | feeder/navfeeder.c:393-469 | Whatever the file, recovery leaves it as it is, removes it, or cuts the torn tail off one it replays; a failed removal or a failed cut leaves every byte and reports uncertainty. |
| `SpoolFile.LegacyIff` | feeder/navfeeder.c:403-429 | A file without the session magic is discarded if and only if it is, to its last byte, records of the old format in order; anything else is preserved. |
| `Spool.FreshInv` | feeder/navfeeder.c:480-558 | A newly initialised spool satisfies the spool invariant, also when recovery left disk appends disabled. |
| `Spool.DiskPutInv` | feeder/navfeeder.c:690-781 | Storing a frame keeps disk, file and loss accounting under every combination of failed open, torn header, torn record and failed truncate. |
| `Spool.RollbackInv` | feeder/navfeeder.c:663-688 | A failed append counts one loss and leaves the file at its boundary, or appends disabled. |
| `Spool.EvictInv` | feeder/navfeeder.c:800-809 | Evicting the oldest frame moves it to disk or counts it lost, and keeps the invariant. |
| `Spool.AppendInv` | feeder/navfeeder.c:789-818 | An append keeps the whole invariant, refused or not. |
| `Spool.AckInv` | feeder/navfeeder.c:820-833 | An acknowledgement of any value, even one never sent, keeps the invariant. |
| `Spool.DeleteInv` | feeder/navfeeder.c:1964-1982 | Deleting the acked file, or failing to, keeps the invariant. |
| `Spool.DiskPutFrame` | feeder/navfeeder.c:690-781 | Storing a frame touches neither ring nor sequence space and never lowers the generation. |
| `SpoolEffects.StoredIff` | feeder/navfeeder.c:690-781 | A frame reaches the file if and only if appends are trusted, the file is or can be opened, record and missing header fit under the cap, and every write is flushed; otherwise it is lost and exactly one of the two counters moves, memory's when the file does not open. |
| `SpoolEffects.Accepted` | feeder/navfeeder.c:789-818 | A live spool takes every record it can copy while sequences last, of any length, ring full or not, with or without a file: it is the last frame of the queue under the next sequence, and a full queue gives up its first frame to the file or as one counted loss. |
| `SpoolEffects.Refused` | feeder/navfeeder.c:789-798 | In every other case the record is dropped, one refusal is counted, and nothing else changes. |
| `SpoolEffects.Freed` | feeder/navfeeder.c:820-833 | An acknowledgement removes exactly the ring frames it covers and keeps the rest in order. |
| `SpoolEffects.Removed` | feeder/navfeeder.c:1964-1982 | The file is removed if and only if it holds records and all of them are acked; a failed removal only ends appends. |
| `SpoolRuns.RunInv` | feeder/navfeeder.c:789-833 | The invariant holds after every run of appends, acknowledgements, deletions and budget changes. |
| `SpoolRuns.Conservation` | feeder/navfeeder.c:690-833 | After any run each sequence above the ack is in exactly one of ring, disk and lost; the ring is exactly the newest sequences, above the ack and above the disk; the drop counters equal refusals plus losses. |
| `SpoolRuns.FileIsPrefix` | feeder/navfeeder.c:663-781 | In every state of the invariant the file is the header and whole records, plus at most a prefix of one counted loss; without a failed truncate it is exactly the committed records. |
| `SpoolRuns.CrashRecovery` | feeder/navfeeder.c:393-469 | The file of any running spool cut at any byte past its header recovers to its longest whole-record prefix; a trusted file has `disk_bytes` bytes, within the cap. |
| `SpoolRuns.RestoreInv` | feeder/navfeeder.c:454-460 | A spool rebuilt from a validated file satisfies the invariant, so the theorems about runs hold for replay. |
| `SpoolRuns.DiskPutCounts` | feeder/navfeeder.c:690-781 | A frame reaches the file exactly when neither drop counter moves. |
| `SpoolRuns.ShutdownLossless` | feeder/navfeeder.c:2523-2537 | A shutdown flush that counts nothing lost leaves a file from which recovery replays every frame of disk and ring, hence every unacked sequence not already lost. |
| `SpoolObject.Feed.constructor` | feeder/navfeeder.c:480-558 | A new object is a fresh spool of the given capacity. |
| `SpoolObject.Feed.Store` | feeder/navfeeder.c:690-781 | The in-place store has the effect of `DiskPut` on the whole state. |
| `SpoolObject.Feed.PopFront` | feeder/navfeeder.c:806-808 | Advancing `head` modulo the capacity removes the oldest frame of the queue. |
| `SpoolObject.Feed.EvictOldest` | feeder/navfeeder.c:800-809 | Eviction from the circular array is eviction from the queue. |
| `SpoolObject.Feed.FreeThrough` | feeder/navfeeder.c:826-830 | The loop frees exactly the frames up to the acknowledged sequence. |
| `SpoolObject.Feed.Append` | feeder/navfeeder.c:789-818 | On a live spool, with a copy made and sequences left, the result is the next sequence, the queue is the old one, less its first frame exactly when it was full, followed by the new frame, and the record is logged; in every other case the result is 0, queue and sequence stay, and one more refusal is counted. |
| `SpoolObject.Feed.Acknowledge` | feeder/navfeeder.c:820-833 | The freeing loop removes exactly the frames at or below the acknowledged value, and `acked` rises to it, clamped to the last assigned sequence. |
| `SpoolObject.Feed.Collect` | feeder/navfeeder.c:847-865 | The batch is a prefix of the ring frames above the mark, cut at the batch size or at a failed copy, with the disk mark of the same lock hold. |
| `SpoolObject.Feed.Clean` | feeder/navfeeder.c:1964-1982 | Deletion resets the tier and moves the generation, or disables appends when the unlink fails. |
| `Feeder.ReadAtCursor` | feeder/navfeeder.c:2130-2147 | At a record boundary the reader returns the next readable record and nothing past the last, torn tail or not. |
| `FeederSafety.RingBatchOK` | feeder/navfeeder.c:2313-2350 | With nothing newer on disk in the same lock hold, a ring batch continues exactly where the consumer stopped. |
| `FeederSafety.ReadInv` | feeder/navfeeder.c:2130-2147 | Reading and sending one disk record keeps cursor, wire and gap invariants. |
| `FeederSafety.SnapshotInv` | feeder/navfeeder.c:2085-2129 | A drain snapshot, with its generation reset and seek fallback, leaves the cursor on a record boundary with only old records below it. |
| `FeederSafety.NextInv` | feeder/navfeeder.c:2260-2352 | Every step of every thread, in every order, keeps the invariant of the whole system. |
| `FeederProgress.StepAdvances` | feeder/navfeeder.c:2260-2352 | Every unhindered step of the consumer keeps what was sent plus what is due, and brings the next send closer. |
| `FeederProgress.Progress` | feeder/navfeeder.c:2260-2352 | Every run of the consumer's own steps that is longer than a bound, with the file opening, copies made and sends accepted, sends exactly what was due, in order, and leaves nothing due. |
| `FeederProgress.NeverStuck` | feeder/navfeeder.c:2260-2352 | While the connection is open the consumer always has such a step. |
| `FeederProgress.CanSendAll` | feeder/navfeeder.c:2260-2352 | From every such state with the connection open a run of those steps sends exactly what is due. |
| `FeederProgress.TopSendsAll` | feeder/navfeeder.c:2305-2350 | From the top of the loop, whatever the deletion of an acked file does, some such run sends the disk's records above `sent_upto` and then the ring's, each once, in order. |
| `FeederProgress.ConnectSendsOwed` | feeder/navfeeder.c:2255-2277 | After a connect every long enough run of that kind sends exactly `Owed`. |
| `FeederProgress.CollectSendsIff` | feeder/navfeeder.c:2313-2350 | A ring batch goes out if and only if nothing on disk is newer than `sent_upto`, a copy was made and the ring holds a newer frame, and it begins with the oldest of those. |
| `FeederProgress.DrainReports` | feeder/navfeeder.c:2130-2164 | A drain sends the consumer back to the disk if it sent something, and on to the ring if it did not. |
| `FeederSafety.NoSkip` | feeder/navfeeder.c:2313-2350 | In every interleaving, for any acknowledged values, sends on a connection strictly increase and every sequence from the ack at connect up to `sent_upto` was sent on it, is acked, or was lost on eviction. |
| `FeederDelivery.AckedMeansDelivered` | feeder/navfeeder.c:2260-2352 | Over every interleaving and any number of reconnects, each acked sequence reached the collector with the bytes appended under it, or is an eviction in the drop counters. |
| `FeederDelivery.DrainIsAbove` | feeder/navfeeder.c:2130-2147 | Draining from a record boundary sends exactly the readable records above the mark. |
| `FeederDelivery.CursorRefinesRescan` | feeder/navfeeder.c:2071-2146 | With each append and its repair as one step, in every reachable scan the resumable cursor sends exactly what a scan from the end of the header would. |
| `FeederDelivery.DiskDrain` | feeder/navfeeder.c:2130-2147 | On a connection that refuses some send, the drain loop sends as much of `DrainFrom` as is accepted and leaves the cursor where a drain would send exactly the rest; otherwise it stops where no whole record can be read. |
| `FeederDelivery.SendRing` | feeder/navfeeder.c:2317-2350 | Batches of at most 512 frames send the ring once, in order, up to the first refused send. |
| `FeederDelivery.Replay` | feeder/navfeeder.c:2260-2352 | A pass from the last ack sends what is owed, disk records above the ack and then the whole ring, or exactly the part of it before the first refused send. |
| `FeederDelivery.OwedComplete` | feeder/navfeeder.c:2260-2352 | Every unacked sequence that is not a counted loss is among what a pass owes. |
| `FeederRace.ReadShown` | feeder/navfeeder.c:2130-2147 | While a record is being written, a reader at a boundary sees the committed records, then the pending one once it is whole, and never a part of it. |
| `FeederRace.StepInvariant` | feeder/navfeeder.c:663-781 | Every step keeps the invariant of the racing system, the parts of an append and its rollback included, except a send by a scan that lost its place of a record that does not come next. |
| `FeederRace.RaceNoSkip` | feeder/navfeeder.c:2085-2164 | With the reader let in between write, flush and truncate, sends are in order, unaltered and without gaps throughout a run if and only if no step of it is such a send. |
| `FeederRace.RaceMark` | feeder/navfeeder.c:2130-2147 | On those runs `sent_upto` is the last frame sent. |
| `RaceDelivery.RaceAckedMeansDelivered` | feeder/navfeeder.c:2260-2352 | On the same runs each acked sequence was delivered with its bytes or is a counted loss. |
| `RaceDelivery.RaceCursorRefinesRescan` | feeder/navfeeder.c:2071-2146 | Unless the open scan lost its place, the cursor sends exactly what a rescan of the file as it then is would, torn and half-written records included; so it does at every new snapshot, thanks to the generation bump. |
| `RaceDelivery.ShortRunsSafe` | feeder/navfeeder.c:663-781 | While every failed write leaves less than its record, no scan ever loses its place, so the three results above hold. |
| `RaceSkip.BoundaryIff` | feeder/navfeeder.c:2130-2147 | A scan that lost its place and reads a new record at a boundary keeps the sends in order if and only if the record before it is not newer than `sent_upto` or is acked. |
| `RaceSkip.LooseSkips` | feeder/navfeeder.c:2130-2147 | Wherever its cursor is, such a scan that sends a record skips every appended sequence between, unless it is acked or lost. |
| `RaceSkip.NeverSent` | feeder/navfeeder.c:2260-2352 | A skipped frame is not sent before the next connection, whatever the threads do. |
| `RaceSkip.ForgedRead` | feeder/navfeeder.c:2130-2147 | A cursor inside a payload reads whatever record that payload encodes there. |
| `RaceSkip.ForgedSent` | feeder/navfeeder.c:2130-2147 | A scan at such a place sends that record, though it was never appended. |
| `RaceLoss.CatchUpIff` | feeder/navfeeder.c:2130-2147 | When a frame goes on the wire after sends in order, the collector may receive everything and acknowledge it safely if and only if every sequence up to that frame is lost, was delivered, or is what it carries. |
| `RaceLoss.RaceDeliveryIff` | feeder/navfeeder.c:2260-2352 | The same for whole runs: after any honest run in order so far, one more send by a scan that lost its place and an honest ending keep acked meaning delivered if and only if that condition holds before the send. |
| `RaceLoss.PassedOverIsLost` | feeder/navfeeder.c:2260-2352 | Every stored, undelivered sequence such a send passes over is then acked, undelivered and uncounted. |
| `RaceCursor.ResumeIff` | feeder/navfeeder.c:2085-2129 | With a trusted file and the cursor past the first new record's start, resuming sends what a rescan would if and only if nothing new is on disk, for any record lengths. |
| `RaceCursor.RaceCursorIff` | feeder/navfeeder.c:2071-2146 | On every run in order so far, resuming an open scan sends what a rescan would if and only if it was not overtaken or nothing new is on disk. |
| `RaceStory.RaceSkips` | feeder/navfeeder.c:663-688 | A run of thirteen steps after which frame 3 is appended, unacked, not lost and passed over. |
| `RaceStory.RaceDrainsDiffer` | feeder/navfeeder.c:2071-2146 | Its first twelve steps, after which resuming and rescanning send different frames. |
| `RaceStory.RaceLoses` | feeder/navfeeder.c:2260-2352 | The same run continued by an honest collector: frame 3 is acked, was never delivered and is not counted as lost. |
| `RaceStory.RaceForges` | feeder/navfeeder.c:2130-2147 | A run of twelve steps that sends a frame with sequence 99 when only four were assigned. |
| `Crc24Q.CrcLinear` | gnss/frame/crc.go:45-58 | The CRC of a xor is the xor of the CRCs, for every length and register. |
| `Crc24Q.CrcConcat` | gnss/frame/crc.go:45-58 | Feeding a concatenation is feeding its parts in turn. |
| `Crc24Q.CrcPreloaded` | gnss/frame/crc.go:7-20 | Up to 24 bits may be xored into the register first and shifted afterwards. |
| `Crc24Q.CrcZeros` | gnss/frame/crc.go:45-58 | Feeding zeros never clears a nonzero register. |
| `Crc24Q.PassesIff` | gnss/frame/crc.go:60-71 | A range passes if and only if its last 24 bits are the CRC of the bits before them. |
| `Crc24Q.ErrorDecides` | gnss/frame/crc.go:60-71 | Whether a corrupted passing range still passes depends on the error pattern alone. |
| `Crc24Q.BurstDetected` | gnss/frame/crc.go:45-71 | Any nonzero error confined to 24 consecutive bits of a passing range of any length is detected. |
| `Crc24Q.OddDetected` | gnss/frame/crc.go:45-71 | Any odd number of flipped bits anywhere in a passing range is detected. |
| `CrcOrder.TimesProduct` | gnss/frame/crc.go:45-58 | The word product by shifting and xoring is the product of the two registers as polynomials. |
| `CrcOrder.ProductIsTurn` | gnss/frame/crc.go:45-58 | The product with the register 1 shifted m times is m shifts. |
| `CrcOrder.ReturnsIff` | gnss/frame/crc.go:45-58 | A register with one bit set returns to itself after n shifts if and only if n is a multiple of 8388607. |
| `CrcDistance.TwoDetectedIff` | gnss/frame/crc.go:45-71 | Two flipped bits of a passing range of any length are detected if and only if their distance is no multiple of 8388607. |
| `CrcDistance.Distance` | gnss/frame/crc.go:45-71 | Two passing ranges of equal length up to 8388607 bits that differ, differ in at least four bits. |
| `CrcDistance.DistanceEnds` | gnss/frame/crc.go:45-71 | At every greater length two passing ranges differ in two bits. |
| `CrcCode.CRC24QBits` | gnss/frame/crc.go:45-58 | The 32-bit loop over an arbitrary bit range computes the CRC of those bits. |
| `CrcCode.CRC24Q` | gnss/frame/crc.go:7-20 | The byte-wise loop computes the same CRC as bit by bit. |
| `CrcCode.CheckValue` | gnss/frame/crc.go:7-20 | The CRC of the nine digits "123456789" is 0xCDE703. |
| `CrcCode.CheckCRC24QBits` | gnss/frame/crc.go:66-71 | The check holds exactly when the bit range carries its own CRC; shorter than 24 bits it never does. |
| `CrcCode.CheckCRC24Q` | gnss/frame/crc.go:26-31 | The byte form decides the same for whole bytes. |
| `GalileoInav.CopyBits` | gnss/frame/galileo_inav.go:27-35 | Exactly the destination bits of the range gain the set source bits. |
| `BitReader.Bits` | gnss/frame/bitreader.go:50-67 | The loop returns the number the bits stand for, and nothing when the range leaves the frame or exceeds 64 bits. |
| `BitReader.DigitOf` | gnss/frame/bitreader.go:50-67 | The binary digits of a field are the bits it was read from. |
| `BitReader.PutField` | gnss/frame/galileo_inav.go:217-224 | The `put` closure sets exactly the bits of the field at its offset. |
| `GalileoInav.CRCMessage` | gnss/frame/galileo_inav.go:42-53 | The message is page bits 0..113 and 128..209, with the CRC bits 210..233 on request. |
| `GalileoInav.StampPage` | gnss/frame/galileo_inav.go:67-76 | The stamping loop turns the page into its stamped form. |
| `GalileoInav.StampGalileoINAVCRC` | gnss/frame/galileo_inav.go:59-80 | Eight words or more are stamped in place, further words untouched; fewer are left alone. |
| `GalileoInav.RebuildWord` | gnss/frame/galileo_inav.go:213-230 | Reading three fields and putting them back to back gives the 128-bit word of page bits 2..113 and 130..145. |
| `GalileoInav.GateJudges` | gnss/frame/galileo_inav.go:188-230 | The verdict is an alert page if and only if page bit 0, 1 or 129 is set or bit 128 is clear, a nav word if and only if it is not and the protected bits pass, and bit i of the word is page bit 2 + i below 112 and page bit 18 + i from there on. |
| `GalileoInav.CheckPage` | gnss/frame/galileo_inav.go:188-230 | The decoder's gate as computed: alert pages and bad CRCs are refused, a nominal page yields its rebuilt word. |
| `GalileoInav.DecodePage` | gnss/frame/galileo_inav.go:180-230 | Fewer than eight words are refused as short; otherwise the result is what `GateJudges` says, bit by bit, of the page they hold. |
| `GalileoInav.PassesIffStamped` | gnss/frame/galileo_inav.go:205-211 | A page passes if and only if stamping leaves it unchanged. |
| `GalileoInav.StampAccepted` | gnss/frame/galileo_inav.go:59-80 | Stamping makes the 220-bit message pass, changes only page bits 210..233, and lets a nominal page through with its word unchanged. |
| `GalileoInav.PageBurstDetected` | gnss/frame/galileo_inav.go:205-211 | A burst within 24 page bits that touches a protected bit is refused, also across the unprotected gap. |
| `GalileoInav.PageDistance` | gnss/frame/galileo_inav.go:205-211 | Two passing pages that differ in a protected bit differ in at least four of them. |
| `LnavParity.MaskWords` | gnss/frame/parity.go:23-42 | The index lists build the six masks of Table 20-XIV of IS-GPS-200N. |
| `LnavParity.PrevEnters` | gnss/frame/parity.go:44-62 | The previous word's D29 enters parity bits D25, D27 and D30, its D30 the other three. |
| `LnavParity.Distance` | gnss/frame/parity.go:51-63 | Two words that agree on all six checks are equal or differ in at least four bits. |
| `LnavChain.CheckRaw` | gnss/frame/parity.go:116-125 | The raw loop decides the chain in which each word's own D29, D30 carry over. |
| `LnavChain.CheckNormalized` | gnss/frame/parity.go:94-112 | The normalised loop decides the chain with the inversion undone before D29, D30 carry over. |
| `LnavChain.NormalizeOnto` | gnss/frame/parity.go:90-93 | Every delivered sequence is the delivery of some transmitted one. |
| `LnavChain.ConventionsAgree` | gnss/frame/parity.go:51-125 | For every word sequence the raw chain accepts it if and only if the normalised chain accepts its delivery, and both read the same data bits. |
| `LnavChain.AcceptedIffStamped` | gnss/frame/parity.go:94-143 | The normalised chain accepts exactly the sequences stamping leaves unchanged. |
| `LnavChain.GateAccepts` | gnss/frame/parity.go:86-88 | The gate accepts exactly the stamped sequences and the sequences whose delivery is stamped. |
| `LnavChain.StampSound` | gnss/frame/parity.go:131-143 | Stamping always gives an accepted sequence with the data bits unchanged. |
| `LnavChain.StampWords` | gnss/frame/parity.go:131-143 | The in-place loop stamps the whole array. |
| `LnavChain.CorruptionDetected` | gnss/frame/parity.go:94-112 | A corruption whose first altered word has one to three flipped bits is rejected, whatever follows. |
| `LnavGate.RawCorruptionDetected` | gnss/frame/parity.go:116-125 | The raw chain too rejects one to three flipped bits in the first altered word, whatever follows. |
| `LnavGate.GateDetects` | gnss/frame/parity.go:86-112 | A valid delivered sequence with one to three bits flipped in its first altered word passes the gate if and only if that word directly follows the first one sent with D30 = 1, exactly two bits with columns differing in D25 to D28 are flipped, and the rest continues the raw chain. |
| `LnavGate.GateDetectsRaw` | gnss/frame/parity.go:86-125 | The same for a valid raw sequence and the normalised chain. |
| `LnavGate.GateMisses` | gnss/frame/parity.go:86-88 | A valid ten-word subframe that passes the gate with two bits of its last word flipped. |
| `GlonassHamming.EntersIff` | gnss/frame/glonass_string.go:52-69 | The seven bit sets are the binary digits of distinct Hamming positions. |
| `GlonassHamming.Distance` | gnss/frame/glonass_string.go:71-105 | Two distinct valid strings differ in at least four of their 85 bits. |
| `GlonassHamming.ValidIffStamped` | gnss/frame/glonass_string.go:89-152 | A string is valid if and only if stamping leaves it unchanged. |
| `GlonassHamming.StampSound` | gnss/frame/glonass_string.go:112-152 | Stamping makes any string valid and alters only the eight check bits. |
| `GlonassHamming.HammingValid` | gnss/frame/glonass_string.go:89-105 | The accumulating loops decide validity of the string in the block. |
| `GlonassHamming.StampBlock` | gnss/frame/glonass_string.go:133-148 | The stamping loop rewrites the check bits and leaves the rest of the block alone. |
| `GlonassHamming.StampGLONASSHamming` | gnss/frame/glonass_string.go:112-152 | Four words or more are stamped in place, further words untouched; fewer are left alone. |
| `PowerCell.SortBytes` | esp32/main/power_history.c:87-88 | The in-place insertion sort computes `Sort`. |
| `PowerCell.SortOrders` | esp32/main/power_history.c:87-88 | The sort is an ordered permutation of its input. |
| `PowerCell.MedianMiddle` | esp32/main/power_history.c:89-92 | At most half of the entries lie on either side of the median. |
| `PowerCell.MedianExact` | esp32/main/power_history.c:89-92 | For the entries in any sorted order the median is the middle one, or the middle two averaged with halves rounded up. |
| `PowerCell.ReferenceMiddle` | esp32/main/power_history.c:93-100 | At most half of the stored means are below the reference, at most half above, and at most half farther from it than the reported deviation. |
| `PowerCell.MeanRange` | esp32/main/power_history.c:107-110 | The rounded mean of samples in 1..99 is in 1..99. |
| `PowerCell.NearestMean` | esp32/main/power_history.c:107-110 | The stored mean is the integer nearest to the mean, halves rounded up. |
| `PowerCell.LearnsIff` | esp32/main/power_history.c:115-133 | A reading of an earlier cycle changes nothing. Otherwise, unless a counter is full, it raises count by one and sum by itself if and only if there are fewer finished means than the policy asks for, or it is nearer to their median than the policy's deviation or than its multiple of their median distance from it. |
| `PowerCell.ObserveValid` | esp32/main/power_history.c:107-133 | No sample, in any order of time, takes a cell out of what import accepts: sum and count stay in 16 bits, ring entries in 1..99. |
| `PowerCell.HistoryMeaning` | esp32/main/power_history.c:84-133 | For samples in time order the ring holds the rounded means of the accepted samples of the last four finished cycles, where the finished cycles are exactly, and in order, those other than the open one from which samples were accepted; the running sum and count are those of the open one. |
| `PowerTable.FindStored` | esp32/main/power_history.c:70-83 | No probe misses a stored key. |
| `PowerTable.FindExhausted` | esp32/main/power_history.c:70-83 | A lookup fails to find room only when all 4096 slots hold other keys. |
| `PowerTable.FindMap` | esp32/main/power_history.c:70-83 | Probing is map lookup: found, free slot and exhausted correspond to present, absent and absent from a full table. |
| `PowerTable.PutRefines` | esp32/main/power_history.c:70-83 | Writing the slot a probe found or left free is a map update and keeps the table invariant. |
| `PowerBlob.RowRoundTrip` | esp32/main/power_history.c:188-217 | Every valid row is accepted by the row checks and read back as it was. |
| `PowerBlob.RowFields` | esp32/main/power_history.c:190-195 | Where each field of a row sits in its sixteen bytes. |
| `PowerModel.ExportValid` | esp32/main/power_history.c:173-196 | The exported blob passes every header, size, policy and CRC check and carries the used slots in table order. |
| `PowerModel.ImportRebuilds` | esp32/main/power_history.c:197-219 | Importing the rows of any table rebuilds a table with the same key-to-cell map, even a full one. |
| `PowerModel.ExportImport` | esp32/main/power_history.c:173-219 | Export then import restores the same map, site, policy and generation. |
| `PowerModel.RunSound` | esp32/main/power_history.c:107-253 | Every model reached by bind, observe and import of arbitrary bytes is exportable or unbound. |
| `PowerModel.CheckpointRestores` | esp32/main/power_history.c:107-253 | For every reachable bound model the exported blob is accepted and restores the same map, site, policy and generation. |
| `PowerModel.LearnAllCells` | esp32/main/power_history.c:122-133 | After any readings the cell of a key is that key's own samples run through one cell, or the key found the table full. |
| `PowerModel.ModelHistory` | esp32/main/power_history.c:84-133 | For readings in time order every stored cell has the meaning of `HistoryMeaning` for its key's readings. |
| `PowerEffects.LearnEffect` | esp32/main/power_history.c:122-133 | A reading is kept if and only if it is GPS, names a satellite, has a level in 1..99 and falls in one of the first 65536 sidereal cycles; then the cell of its signal and ten-minute bin, created if the table has room, and no other observes it, and the generation moves on, skipping zero, exactly when that ends a cycle. |
| `PowerEffects.RowWireIff` | esp32/main/power_history.c:203-214 | The row checks, on the bytes of the row. |
| `PowerEffects.ImportIff` | esp32/main/power_history.c:197-219 | A blob is imported if and only if header, size and CRC are right, every row is valid and no key comes twice; the table never runs out of room for one. |
| `PowerCrc.BurstRefused` | esp32/main/power_history.c:173-180 | A valid blob changed within any four consecutive bytes of its contents, or anywhere in its checksum, is refused. |
| `PowerCrc.CheckValue` | esp32/main/power_history.c:43-48 | The CRC of the nine digits "123456789" is 0xCBF43926. |
| `PowerObject.History.constructor` | esp32/main/power_history.c:49-62 | A new object is an unbound model with an empty table. |
| `PowerObject.History.FindCell` | esp32/main/power_history.c:70-83 | The probing loop returns `Find`. |
| `PowerObject.History.Observe` | esp32/main/power_history.c:122-133 | The in-place update is `Learn` on the whole model and keeps it exportable. |
| `PowerObject.History.BindSite` | esp32/main/power_history.c:243-253 | A site other than 0 and a policy in range are taken; if either changed, the model is empty at generation 1, and otherwise nothing changes. |
| `PowerObject.History.LoadRows` | esp32/main/power_history.c:203-218 | The row loop accepts exactly when `ImportRows` does and builds the same table. |
| `PowerObject.History.ImportBlob` | esp32/main/power_history.c:197-219 | A malformed header changes nothing, a malformed row leaves an unbound model, otherwise the blob's model is in place. |
| `PowerObject.History.ExportBlob` | esp32/main/power_history.c:181-196 | The size of the blob is returned, 0 for an unbound model or generation 0; the blob is written only into a buffer that holds it, and no other byte changes. |
| `PowerObject.CrcByteLoop` | esp32/main/power_history.c:46 | The inner loop shifts a byte into the register bit by bit. |
| `PowerObject.CheckBlob` | esp32/main/power_history.c:173-180 | The header, policy, size and CRC checks accept exactly `BlobValid`. |
| `PowerObject.Crc32Loop` | esp32/main/power_history.c:43-48 | The outer loop, over that inner loop, computes the CRC-32 that import and export use. |
| `Debounce.StartIsLongest` | common/reception.h:100-116 | A chain of evidence ends at a step from exactly those starts at or after the longest one. |
| `Debounce.AfterTracks` | common/reception.h:100-116 | After every run, from any start with nothing pending, a change is pending exactly when the last step supports it, and `since` is the time its longest chain began. |
| `Debounce.FlipIff` | common/reception.h:100-116 | In every run, from any start with nothing pending, a step flips the alarm if and only if it completes a chain of consecutive covered steps with opposite evidence, strictly increasing times and no gap over 15 s that spans the dwell in force. |
| `Debounce.AlarmIff` | common/reception.h:100-116 | In every run, from any start with nothing pending, a step turns the alarm on if and only if bad evidence ending there has lasted `1000 * alarm_s` milliseconds, and off if and only if good evidence has lasted `1000 * clear_s`, with every clock reading later than all before it and no gap over 15000. |
| `Debounce.QuietStep` | common/reception.h:103-108 | Uncovered, stale or agreeing steps never flip the alarm and leave nothing pending. |
| `Debounce.Machine.constructor` | esp32/main/reception_runtime.c:107-113 | A machine restarted with its alarm kept is eight bits with nothing pending. |
| `Debounce.Machine.Turn` | common/reception.h:106-114 | One turn of the loop advances one bit and leaves the other seven unchanged. |
| `Debounce.Machine.Update` | common/reception.h:100-116 | Every bit takes one step on its own evidence and the clock moves. |
| `Debounce.Machine.Step` | common/reception.h:100-116 | Over all calls since its start each packed bit is the dwell machine of its own constellation, begun with the alarm it kept; a returned bit is set or cleared exactly when that constellation's bad evidence has lasted the alarm time, or its good evidence the clearing time, of that call. |
| `Debounce.TwinStep` | go/internal/reception/reception.go:208-243 | Edge and collector treat a step alike if and only if it does not repeat the clock over a pending change. |
| `Debounce.TwinRuns` | go/internal/reception/reception.go:208-243 | The two copies hold the same machine throughout a run if and only if no step of it repeats the clock over a pending change. |
| `Debounce.TwinsDiffer` | go/internal/reception/reception.go:208-243 | A three-step run on which the collector raises an alarm and the edge does not. |
| `ReceptionSample.SampleBijection` | common/reception.h:65-78 | A byte string decodes to a sample if and only if the sample is valid and the string is its encoding. |
| `ReceptionSample.DecodeWire` | common/reception.h:65-78 | The decoder on the bytes of the wire: what it accepts, and which bytes each field of the sample is. |
| `ReceptionSample.EncodeInto` | common/reception.h:65-71 | The in-place encoder writes that encoding over every byte of the buffer. |
| `ReceptionMasks.FlagValues` | common/reception_power.h:14-15 | Flags are below 4; the low bit is the local model, the next one the remote model. |
| `PowerSample.CheckTail` | common/reception_power.h:38-42 | The loop decides that no entry from the count on is marked. |
| `PowerSample.CheckAssessed` | common/reception_power.h:82-83 | The byte loop decides that assessed entries are measured ones, in both assessments. |
| `PowerSample.ChecksSuffice` | common/reception_power.h:79-88 | The tail, byte and entry checks together hold exactly when bad entries are assessed, assessed ones measured, and measured ones below the count with values 1..99. |
| `PowerSample.CheckBitmaps` | common/reception_power.h:79-88 | The tail, byte and entry loops together decide the bitmap conditions. |
| `PowerSample.Decode` | common/reception_power.h:67-94 | The program's checks in order accept exactly what `DecodeSample` accepts, with the same value. |
| `PowerSample.SampleBijection` | common/reception_power.h:67-105 | A byte string decodes to a power sample if and only if the sample is valid and the string is its encoding. |
| `PowerSample.DecodeWire` | common/reception_power.h:67-105 | The decoder on the bytes of the wire: ranges, flags, model identities and bitmaps it accepts, and which bytes each field of the sample is. |
| `PowerSample.EncodeInto` | common/reception_power.h:96-105 | The in-place encoder writes that encoding over every byte of the buffer. |
| `PowerEvent.EventMeaning` | common/reception_power.h:152-168 | The mask arithmetic holds exactly when ids and times are in range, each model id is set exactly when that model is in use, no mask names the unused id, and every constellation's ten bits are coherent. |
| `PowerEvent.EventBijection` | common/reception_power.h:143-179 | A byte string decodes to an event if and only if the event is valid and the string is its encoding. |
| `PowerEvent.DecodeWire` | common/reception_power.h:143-179 | The decoder on the bytes of the wire: identities and mask bits it accepts, and which bytes each field of the event is. |
| `PowerEvent.EncodeInto` | common/reception_power.h:143-150 | The in-place encoder writes that encoding over every byte of the buffer. |
| `SolutionBlocks.WritePvt` | common/receiver_solution.h:83-122 | The in-place encoder accepts, writes and reports the time of week as `PvtBlock` says; a refused payload leaves the block alone. |
| `SolutionBlocks.WriteClock` | common/receiver_solution.h:125-131 | The word loop does the same for the clock block. |
| `SolutionBlocks.WriteStatus` | common/receiver_solution.h:135-144 | The same for the status block. |
| `SolutionLayout.PvtBytes` | common/receiver_solution.h:83-122 | Every byte of a position block from the payload: fields turned from little to big endian, the two lowest and two highest fix flags, and the reserved byte. |
| `SolutionLayout.ClockBytes` | common/receiver_solution.h:125-131 | The same for the clock block. |
| `SolutionLayout.StatusBytes` | common/receiver_solution.h:135-144 | The same for the status block. |
| `SolutionBlocks.PvtCommutes` | go/internal/ingest/solution.go:206-324 | The edge sends a position block exactly when the collector would accept the payload, and the collector reads from the block what it would have parsed from the payload. |
| `SolutionBlocks.ClockCommutes` | go/internal/ingest/solution.go:228-339 | The same for the clock block. |
| `SolutionBlocks.StatusCommutes` | go/internal/ingest/solution.go:238-353 | The same for the status block. |
| `SolutionAssembler.InvariantAlways` | common/receiver_solution.h:151-187 | Along every message sequence completed and pending epochs are exactly what their members define. |
| `SolutionAssembler.Partition` | common/receiver_solution.h:151-187 | Every completed epoch has the arrival time of its first block and the latest block of each kind, all with its time of week; no two consecutive epochs share one. |
| `SolutionAssembler.CompletesIff` | common/receiver_solution.h:151-187 | An epoch is completed at exactly two kinds of messages: an end of epoch that names its time of week, and a block, no repeat, that has another one. |
| `SolutionAssembler.Fate` | common/receiver_solution.h:151-187 | Every block that is not a dropped repeat belongs to one epoch, completed or pending, of its own time of week, and is carried there or superseded by a later one of its kind. |
| `SolutionFeed.Assembler.constructor` | common/receiver_solution.h:146 | A cleared assembler has nothing pending and nothing done. |
| `SolutionFeed.Assembler.Append` | common/receiver_solution.h:151-176 | Adding a block in place is `Add`: repeats dropped, another time of week completes the pending epoch. |
| `SolutionFeed.Assembler.Finish` | common/receiver_solution.h:179-187 | The end-of-epoch message completes the pending epoch only when it names it. |
| `SolutionFeed.Assembler.Feed` | common/receiver_solution.h:192-214 | Routing one receiver message steps the assembler by what `Route` makes of it, and reports a message the record cannot carry. |
| `SolutionFeed.RouteIds` | common/receiver_solution.h:192-214 | Which message numbers bring which block and which ends an epoch. |
| `SolutionFeed.Encode` | common/receiver_solution.h:218-235 | The body written is version, present bits, blocks in order and stamp; 0 is returned exactly when nothing may be sent, and bytes past the body are untouched. |
| `SolutionCollector.BodyAccepted` | go/internal/ingest/solution.go:190-257 | Every body of a readable epoch is accepted by the collector and decodes to what its blocks say. |
| `SolutionCollector.JoinTwins` | go/internal/ingest/solution.go:380-395 | Adding a block keeps the edge's and the collector's assemblers in step and completes the same epoch. |
| `SolutionCollector.ScanTwins` | go/internal/ingest/ubx.go:138-157 | One receiver message keeps the two assemblers in step. |
| `SolutionCollector.EndToEnd` | go/internal/ingest/solution.go:356-406 | Over every stream of receiver messages the bodies an edge sends are all accepted and decode to exactly the epochs the collector would have assembled from that stream, with the same arrival times. |

## Left out

- A record read is one step, and the buffering of the reader's file handle is not modelled: a read sees the file as it is at that step.
- Read errors (`ferror`) and open failures other than a missing file in `spool_recover`: the file model has contents and no media errors.
- `disk_open_failed` and `replay_retire_stuck` (feeder/navfeeder.c:1949-2066): their pending counts are estimates; the theorems are for runs without them.
- `spool_recover_all`, archiving and the budget arithmetic over several replay files: a recovered file is one spool with its own session; returned budget is an event.
- `disk_min_seq`, which only feeds a log line, and all logging.
- TLS, sockets, zstd, keepalive, the ack-stall watchdog and polling: a connection is an in-order channel that can drop at any point.
- Wrap-around of the 64-bit drop counters, file offsets and generation: they are unbounded here; sequence exhaustion at 2^64 - 1 is modelled.
- FeederDelivery.CursorRefinesRescan: an append and its repair are one step; `RaceDelivery.RaceCursorRefinesRescan` separates them.
- FeederDelivery.Replay: one pass without other threads; the interleaved claims are `NoSkip` and `AckedMeansDelivered`.
- RaceDelivery.RaceCursorRefinesRescan: about scans that kept their place; `RaceCursor.RaceCursorIff` has the others.
- RaceDelivery.RaceAckedMeansDelivered: one direction, for runs in order; what a send out of order costs is `RaceLoss.RaceDeliveryIff`.
- RaceCursor.RaceCursorIff: for an overtaken scan, when no append is pending and appends are not disabled; a scan that has read on since is not compared with a rescan.
- SpoolObject.Feed.Append: requires records of 13 to 1037 bytes, as the producers build them; `SpoolFile.RecordsDecide` shows that recovery needs exactly these lengths, and `SpoolEffects.Accepted` what an append of any other length does. The theorems about runs (`Conservation`, `NoSkip`, `AckedMeansDelivered`) are for such records.
- Spool.AppendInv: the same lengths.
- FeederProgress.Progress: for runs of the consumer alone, on a file that opens and a connection that accepts every send; at the top of the loop an acked file that still holds unsent records may be deleted first, which `TopSendsAll` spells out.
- PowerObject.History.ExportBlob: a null buffer is a buffer of capacity 0, and the header and each row are written as one copy.
- The two-slot NVS checkpoint, its pacing and the choice of the newest slot (esp32/main/power_history.c:221-268).
- `power_history_assess` and `assess_power`: they build samples and events from the parts modelled here; no claim that every built event is valid.
- Expectation decoding, `nr_counts`, `nrp_compare` and `nrp_counts`: counting loops that would only add easy members.
- Data extraction from raw-form LNAV in gnss/frame/gps_lnav.go: the equivalence of the two conventions is claimed for the parity chains and the data bits they cover.
- LnavChain.CorruptionDetected: about the normalised chain alone; what the gate lets through is `LnavGate.GateDetects`.
- LnavChain.StampWords: words are their 30 bits, so bits 30 and 31 of a 32-bit word are not represented.
- `Signed`, `SignMag`, `Concat` and `ConcatSigned` of the bit reader, field scaling and ephemeris assembly in `gnss/`.
- The collector's final flush of a pending epoch when a stream ends (go/internal/ingest/ubx.go:46-50): the edge has no counterpart.
- `EncodeReceiverSolution`, the stamp source the ESP32 adds after the fact, and receiver framing and checksums: `EndToEnd` is for the feeder's bodies, which carry no stamp source; `BodyAccepted` covers every stamp source.
- Debounce.TwinStep: clock readings are non-negative, and `RetainCoverage`, which the collector calls between steps, is not part of the comparison.
