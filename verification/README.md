# BeamDrop, verified

A Dafny model of BeamDrop's file transfer and of its control plane, with proofs.

**Transfer.** `Session` is the sending and the receiving side as two step machines over bounded FIFO
channels, with the receiver's disk (a map from path to bytes and a set of directories, save_dir among them if it exists) and its resume
state file (the text itself). A crash may happen at any step: both sides stop, the open output file keeps what it held
when it was opened and any prefix of what was written since, and the state file is cut anywhere; any
number of retries may follow. `SessionInvariant`, `SessionDisk`, `SessionLinks` and `SessionTheorems`
carry the invariant, `SessionRuns` and `SessionOutcome` the results over whole runs, `SessionNeeds` their converse, and `SessionResume` how much
a retry sends again. `Confinement` is what holds for packets from anyone. `ReceiveProgram`
and `SendProgram` are the same two sides in the form of the source, as classes whose methods read and write
packets and change the disk, proved equal to the machines on every stream. Both sides use one digest
function, a parameter of the session; `EndToEnd` puts SHA-256 in its place.

**Below it.** `Packets`, `PacketIO` and `MessageWire` take messages through codecs, packets and
arbitrary TCP segmentation; `JsonText`, `Codecs`, `ResumeText`, `ResumeBraces` and `ResumeManager` hold the text formats;
`WireFormat` is what they look like. `Sha256Spec` is FIPS 180-4, with its constants, functions and an example in `Sha256Constants`,
`Sha256Bits` and `Sha256Vectors`, and `Sha256` the streaming implementation. `DirectoryOrder` is the scan and
its validation. `Pipes` and `ByteSession` run the same two machines over byte channels, where a connection can be lost
inside a packet, as a refinement of the session of messages.

**Control plane.** `TaskLifecycle` is the task manager, `EventQueue` and `EventSequence` the event bus
and the gap check, `Dashboard` the reducer. `ControlSystem` is all of them running together, with the threads that
publish, the numbers, the heartbeat, the socket and reconnects; `Convergence` is about finished tasks,
`Heartbeats` about all of them, `LateAnswers` about cancel answers.
`ReceiverLifecycle` and `ReceiverControl` are the native receiver service and the manager above it.

Run `dafny verify dfyconfig.toml` in this directory.

## What the proofs found

- A retry of a session that has made a directory can never succeed, resume or not (`SessionOutcome.RetryIff`, `EndToEnd.SmallJobIsLost`).
- Braces in a path break the resume state file in two ways. If the first brace is a closing one, the file is unreadable,
  for every file, from the next save on; if it is an opening one, this file's record is silently lost, except for paths that
  spell the start of the key behind it, which make the file unreadable, too (`ResumeBraces.LoadOfSaved`,
  `ResumeManager.BracesBreakResumeIff`).
- Sending ".." as an input directory passes validation and is refused by every receiver. Sending "." is refused where save_dir
  exists, and works where it does not exist yet, if it is the first directory sent and nothing else sent leads to the same
  places (`EndToEnd.ScannedDeliveryIff`).
- The dashboard applies the answer to a cancel request whenever it arrives; after the final event it puts a
  finished task back to CANCELING, for good (`LateAnswers.LateAnswerStrands`, `LateAnswers.StrandedForEver`). It is enough to
  ignore an unfinished answer for a task that is listed as finished (`Convergence.SlowClientConverges`, `LateAnswers.HearingIff`).
- A drop that is followed by a later delivery need not show as a gap: not if it comes before the first delivery, nor if two
  threads schedule in another order than they number (`EventSequence.DropNoticedIff`, `EventSequence.FirstDropUnnoticed`,
  `EventSequence.OutOfOrderUnnoticed`). With a snapshot taken before the first delivery, no heartbeat mends it
  (`Heartbeats.FirstDropHides`); with one taken after a delivery, one heartbeat does (`Heartbeats.HeartbeatTells`).
- If the receiving thread cannot be created, the native receiver keeps its listener, and neither start nor stop ever leaves
  that state (`ReceiverLifecycle.StrandedIff`).
- After the native receiver fails by itself, the manager still says RUNNING (`ReceiverControl.RunningIff`), and once
  the manager is FAILED over a failed service, starting again fails until stop is called (`ReceiverControl.ReceiverManager.Start`).
- The HELLO total wraps at 2^64 (`SendProgram.TotalIffItFits`).

## Where code and documentation disagree

`backend/README.md:20-21` allows only pending, running, completed and failed and asks for no cancel state;
the code has CANCELING and CANCELED, and the model follows the code.

## Model

| member | source | states |
|---|---|---|
| SessionOutcome.Delivery | src/transfer/Receiver.cpp:76-207 | after any run of the two sides over bounded FIFO channels of messages, with any number of recoverable crashes and retries, every crash-free continuation is bounded, can only stop with everything delivered, and one that delivers exists; `ByteSession.ByteDelivery` says the same of bytes |
| SessionOutcome.TreeEquality | src/transfer/Receiver.cpp:76-207 | where save_dir is empty, or does not exist yet, a finished session leaves exactly the source files and exactly the directories of the tree, save_dir included |
| SessionOutcome.EndsWithTheTree | src/app/ReceiveService.cpp:54-87 | a receiver that has read FINISH means the sender is done, both channels are empty, the disk is what was there plus the job's files and directories, and no resume record of them is left |
| SessionOutcome.RetryIff | src/transfer/Receiver.cpp:83-87 | a retry after a crash can succeed if and only if the crash left the first directory unmade and, without resume, the first file uncreated |
| SessionOutcome.DoomedNeverFinishes | src/transfer/Receiver.cpp:177-188 | once the first directory (or, without resume, the first file) exists, no run with any number of further retries ever completes |
| SessionOutcome.RefusedNeverFinishes | src/transfer/Receiver.cpp:177-184 | a directory that is refused on every disk, or that is there already, keeps every run, with any number of retries, from completing |
| SessionNeeds.ReadyIff | src/transfer/Receiver.cpp:76-207 | without resume, from any disk: a session can be completed, in however many attempts, if and only if the job's places are not in each other's way and nothing it makes is there |
| SessionNeeds.CompleteIff | src/transfer/Receiver.cpp:76-207 | into an empty save_dir, or one that does not exist yet, with or without resume: a session can be completed with a file for every file sent if and only if the job's places are not in each other's way and no directory leads to a save_dir that exists |
| SessionOutcome.CanFinish | src/transfer/Sender.cpp:126-149 | from every reachable world a crash-free run to the end exists |
| SessionOutcome.RunsAreBounded | src/transfer/Sender.cpp:77-101 | a crash-free run is no longer than the drop of a rank that counts the messages and disk steps still to come |
| SessionOutcome.Progress | src/transfer/Sender.cpp:42-117 | every step of either side strictly decreases that rank |
| SessionRuns.SafeAlways | src/transfer/Receiver.cpp:56-63 | in every world of every recoverable run neither side has failed, whatever the state file and the disk would let a retry keep is the source's, and an acknowledged offset names bytes that are on disk and right |
| SessionRuns.ResumeRecovers | src/transfer/Receiver.cpp:94-96 | with resume and no directories every crash, at any point and with any torn state file, is recoverable |
| SessionResume.ResumesExactly | src/transfer/Receiver.cpp:56-63 | after any run and a crash while a file is open or about to be cleared, with the state file left whole: the next session acknowledges that file at exactly the least of the saved offset and the bytes left on disk, and sends exactly the rest as DATA; between packets that is all that is on disk, before a packet has been recorded at most one chunk less |
| SessionResume.RunSaves | src/transfer/Receiver.cpp:127-141 | over every recoverable run the state file says how far the open file has been written, as soon as anything has been |
| SessionRuns.NoDeadlock | src/transfer/Receiver.cpp:76-168 | while the session is not over at least one side can act, for every channel capacity of one message or more |
| SessionRuns.RunKeepsInv | src/transfer/Receiver.cpp:76-207 | the invariant over disk, state file and channels holds over unbounded crash and retry runs |
| SessionTheorems.ReceiverKeepsInv | src/transfer/Receiver.cpp:76-168 | each step of the receiver keeps the invariant, so none of its errors can be raised |
| SessionTheorems.SenderKeepsInv | src/transfer/Sender.cpp:42-149 | each step of the sender keeps the invariant, so neither UnexpectedPacket nor InvalidResumeOffset can be raised |
| SessionTheorems.CrashKeepsInv | src/transfer/Receiver.cpp:105-141 | a crash that keeps a prefix of the bytes written since open and any prefix of the state file leaves a state from which the next session starts safely |
| SessionInvariant.InvHoldsInitially | src/app/SendService.cpp:125-149 | a new session on a suitable disk satisfies the invariant |
| SessionLinks.SenderKeepsLinked | src/transfer/Sender.cpp:42-149 | whatever the sender does, the channel holds exactly the rest of what the receiver still expects |
| SessionLinks.HelloExpected | src/app/ReceiveService.cpp:54-75 | the first packet the receiver finds is the job's HELLO |
| SessionLinks.DirectoryExpected | src/transfer/Receiver.cpp:177-188 | in directory phase i it finds DIRECTORY_INFO i |
| SessionLinks.FileExpected | src/transfer/Receiver.cpp:78-81 | before file i it finds FILE_INFO i, after the last file FINISH |
| SessionLinks.DataExpected | src/transfer/Receiver.cpp:115-125 | inside a file it finds the next chunk of the source from where its output stands, or FILE_END exactly when it has everything |
| SessionDisk.OffsetTrusted | src/transfer/Receiver.cpp:56-63 | the least of stored offset, size on disk and declared size, and it names bytes that are the source's |
| SessionDisk.DiskDirectory | src/transfer/Receiver.cpp:177-188 | a directory of a job whose places are not in each other's way is never refused and is made with all that is above it |
| SessionDisk.DiskInfo | src/transfer/Receiver.cpp:83-97 | FILE_INFO is never refused and leads to a right offset |
| SessionDisk.DiskOpen | src/transfer/Receiver.cpp:104-113 | truncating to the offset and opening keeps a prefix of the source in the file |
| SessionDisk.DiskData | src/transfer/Receiver.cpp:125-135 | the next chunk fits the declared size and extends the output to a longer prefix of the source |
| SessionDisk.DiskSave | src/transfer/Receiver.cpp:138-141 | update_offset succeeds and its record stays safe although the bytes are still in the stream buffer |
| SessionDisk.DiskClose | src/transfer/Receiver.cpp:150-162 | after FILE_END neither SizeMismatch nor ChecksumMismatch can occur and the file is the source's |
| SessionDisk.DiskClear | src/transfer/Receiver.cpp:164-166 | clearing removes this file's record and nothing else |
| SessionDisk.TornState | src/transfer/ResumeManager.cpp:138-168 | cutting the state file anywhere loses records but never changes an offset |
| SessionDisk.DiskCrash | src/transfer/Receiver.cpp:105-141 | everything a retry needs holds on what a crash leaves |
| ReceiveProgram.ReceivingSide.ReceiveOneDirectory | src/transfer/Receiver.cpp:177-188 | does on every stream what the step machine does; which error a missing packet, a wrong packet, an empty, unsafe, nameless or existing path each give, and exactly what is made otherwise |
| ReceiveProgram.ReceivingSide.ReceiveInfo | src/transfer/Receiver.cpp:56-102 | FILE_INFO to RESUME_ACK: without resume, or without a record of this identity, the acknowledged offset is 0, otherwise the least of the stored offset, the bytes on disk and the size; a missing packet, a wrong packet, an unsafe path and an existing target each give their error |
| ReceiveProgram.ReceivingSide.ReceiveData | src/transfer/Receiver.cpp:115-149 | the DATA loop on any stream: the payloads in order, never more than declared, one event per payload, the output flushed on every error; NetworkFailure, UnexpectedPacket and SizeMismatch each only where the stream ends, goes on with another packet or carries too much |
| ReceiveProgram.ReceivingSide.CloseFile | src/transfer/Receiver.cpp:150-166 | completes only with the declared size and digest; a wrong size gives SizeMismatch, a wrong digest ChecksumMismatch; it is the machine's close and clear |
| ReceiveProgram.ReceivingSide.OpenFile | src/transfer/Receiver.cpp:104-113 | truncates to the offset and opens for append, or fails as the machine does |
| ReceiveProgram.ReceivingSide.ReceiveOneFile | src/transfer/Receiver.cpp:76-175 | for an arbitrary stream: a completed file is the trusted prefix plus the DATA payloads, with declared size and digest, and exactly that part of the stream was consumed |
| ReceiveProgram.ReceivingSide.ReceiveTask | src/transfer/Receiver.cpp:191-207 | directories, then files, one sound file after the other, with the whole trace of progress events |
| ReceiveProgram.ReceivingSide.ReceiveSession | src/app/ReceiveService.cpp:44-87 | HELLO, task, FINISH: the outcome, the disk, what was read and what was answered equal the step machine's on every stream |
| SendProgram.SendingSide.SendData | src/transfer/Sender.cpp:77-116 | the chunk loop over one buffer sends exactly the bytes after the offset in full chunks but the last, then FILE_END; cancelled, it has sent a prefix of that |
| SendProgram.SendingSide.SendOneFile | src/transfer/Sender.cpp:42-117 | FILE_INFO, the acknowledgement check and the rest of the file, equal to the sender machine on every stream of answers; each error only for the answer it is meant for |
| SendProgram.SendingSide.SendDirectories | src/transfer/Sender.cpp:126-139 | one DIRECTORY_INFO per entry in order |
| SendProgram.SendingSide.SendFiles | src/transfer/Sender.cpp:140-144 | the files in order with their events; DATA bytes total the sum of size minus offset |
| SendProgram.SendingSide.SendSession | src/app/SendService.cpp:116-151 | HELLO to FINISH equals the sender machine on every stream of answers, with the whole event trace and the conservation of DATA bytes; a cancelled session has sent a prefix |
| SendProgram.SendingSide.TotalEntryBytes | src/app/SendService.cpp:22-28 | the accumulated total, with the wrap of a 64-bit sum |
| SendProgram.TotalIffItFits | src/app/SendService.cpp:22-28 | the HELLO total is the sum of the sizes if and only if that fits in 64 bits |
| SendProgram.FileCost | src/transfer/Sender.cpp:77-116 | a completed file costs exactly size minus offset DATA bytes |
| Progress.FileTraceShape | include/beamdrop/transfer/Progress.hpp:10-19 | per file the transferring events never go back or past the size and are followed by one completion event with the size |
| Progress.TaskTraceShape | include/beamdrop/transfer/Progress.hpp:10-19 | a task begins with TaskStarted and ends with TaskCompleted, once each and with the number of files; between them are exactly the traces of the files in order, file k with index k + 1 |
| SessionPrograms.ReceiverProgramIsRun | src/transfer/Receiver.cpp:76-207 | what the receiving program does with the packets in its channel is a run of the composed session |
| SessionPrograms.SenderProgramIsRun | src/transfer/Sender.cpp:42-149 | what the sending program does with its answers is a run of the composed session |
| SessionPrograms.SenderStaysOnTheWire | src/transfer/Sender.cpp:49-116 | every message the sender of a job with strings below 2^60 and chunks below 2^63 bytes emits survives its codec and fits its packet |
| DirectoryOrder.ScannedJobIff | src/app/SendService.cpp:30-47 | for scanned inputs: nothing in the job is in the way of anything else if and only if no input directory was given as "..", "." is the first directory sent if it is sent, and no two entries lead to one place |
| DirectoryOrder.ScannedIntoExisting | src/app/SendService.cpp:30-47 | for scanned inputs, where save_dir exists: exactly the jobs that pass validate_unique_targets and have neither "." nor ".." among their input directories |
| DirectoryOrder.ScannedIsPlain | src/filesystem/FileScanner.cpp:79-103 | every scanned path consists of names if the input directory was not given as "." or ".." |
| DirectoryOrder.ScannedLeads | src/filesystem/FileScanner.cpp:79-103 | every scanned path is accepted by safe_join and leads to itself, or without "./" if the input directory was given as ".", unless it was given as ".." |
| DirectoryOrder.DotsAreRefused | src/transfer/Receiver.cpp:177-188 | the root that scanning ".." gives is refused on every disk, the one that scanning "." gives exactly where save_dir exists already |
| DirectoryOrder.ReplayIff | src/transfer/Receiver.cpp:177-188 | replaying a list of directories where nothing is yet succeeds if and only if none is refused on every disk or leads to a save_dir that exists, none leads where an earlier one led and none above it; exactly their closure is then made |
| DirectoryOrder.JoinedIsOrdered | src/filesystem/FileScanner.cpp:69-103 | the scans of several roots, one after the other, are in an order the receiver accepts once all targets are distinct |
| DirectoryOrder.SortedIsOrdered | src/filesystem/FileScanner.cpp:99-101 | sorting by path puts every directory before what is inside it |
| DirectoryOrder.ScanDirectories | src/filesystem/FileScanner.cpp:69-103 | nothing for a file; for a directory its name and, under it, every directory below it, each once and sorted |
| DirectoryOrder.ScanFiles | src/filesystem/FileScanner.cpp:22-67 | a file by its own name; for a directory every file below it under its name, each once and sorted |
| DirectoryOrder.SortPaths | src/filesystem/FileScanner.cpp:14-18 | a sorted permutation |
| DirectoryOrder.FirstDifference | src/filesystem/FileScanner.cpp:14-18 | the first difference of two paths decides their order, by the order of the characters |
| DirectoryOrder.Collect | src/app/SendService.cpp:100-107 | the scans of all input paths, files and directories apart, in the order of the inputs |
| DirectoryOrder.FlattenAt | src/app/SendService.cpp:100-107 | each input's scan stands whole in the list, behind those of earlier inputs |
| DirectoryOrder.ValidateUniqueTargets | src/app/SendService.cpp:30-47 | accepts exactly the lists without a repeated path, and otherwise names the first path met twice |
| Paths.SafePathIff | src/transfer/Receiver.cpp:21-36 | a received path is refused if and only if it begins with a slash or has two dots alone between slashes or ends |
| Confinement.NothingOutside | src/transfer/Receiver.cpp:21-46 | on every stream of packets, whoever sent it: every file and directory the receiver leaves is save_dir or reached from it through names alone |
| EndToEnd.ScannedTreeArrives | src/app/SendService.cpp:97-149 | from scanned inputs through any recoverable run to where nothing is yet: a session completed with a file for every file leaves exactly the scanned directories and the source files |
| EndToEnd.ScannedDeliveryIff | src/app/SendService.cpp:97-149 | for scanned inputs that pass validation a session can be completed, with a file for every file: into an existing save_dir if and only if no input directory was given as "." or ".."; into an absent one if and only if none was given as "..", "." is the first directory sent if it is sent, and no two entries lead to one place |
| EndToEnd.ScannedBytesArrive | src/app/SendService.cpp:97-149 | from scanned inputs over byte channels, lost and retried any number of times, to exactly the scanned directories and the source files |
| EndToEnd.SmallJobIsDelivered | src/transfer/Receiver.cpp:76-207 | the results are not empty: a job with a directory and a file, crashed once and tried again, is delivered |
| EndToEnd.SmallJobIsLost | src/transfer/Receiver.cpp:177-188 | the same job crashed once its directory has been made completes in no run, whatever follows |
| JsonText.EscapeJsonString | src/transfer/FileInfoCodec.cpp:12-29 | the loop computes the escaping |
| JsonText.UnescapeJsonString | src/transfer/FileInfoCodec.cpp:31-57 | the loop with its flag computes the unescaping and its two errors |
| JsonText.UnescapeInvertsEscape | src/transfer/ResumeManager.cpp:13-58 | unescaping what was escaped gives the text back, for every text |
| JsonText.UnescapeFails | src/transfer/FileInfoCodec.cpp:31-57 | a backslash at the end dangles, one before anything but a backslash or a quote is an invalid escape, whatever comes before and after |
| JsonText.SearchFindsField | src/transfer/FileInfoCodec.cpp:59-87 | the leftmost match of a key search is the real member, even when values look like keys |
| JsonText.StoullDecimal | src/transfer/FileInfoCodec.cpp:68-87 | a number below 2^64 survives being written and read in decimal |
| JsonText.StoullSigned | src/transfer/FileInfoCodec.cpp:68-87 | a plus sign changes nothing and a minus sign negates modulo 2^64, as stoull takes them |
| Codecs.FileInfoRoundTrip | src/transfer/FileInfoCodec.cpp:89-118 | decoding an encoded FILE_INFO gives it back if path and hash are non-empty and is refused otherwise |
| Codecs.AckRoundTrip | src/transfer/ResumeAckCodec.cpp:11-35 | decoding an encoded offset gives it back |
| Codecs.AckOfAnyOffset | src/transfer/ResumeAckCodec.cpp:18-35 | a decimal offset of any size is read as it is below 2^64 and refused as InvalidResumeOffset above |
| Codecs.ManifestRoundTrip | src/transfer/TransferManifest.cpp:32-75 | decoding an encoded HELLO manifest gives it back |
| Codecs.FileInfoNeedsBrace | src/transfer/FileInfoCodec.cpp:100-107 | a FILE_INFO that does not begin with an opening brace, but for white space, is refused |
| Codecs.ManifestRefused | src/transfer/TransferManifest.cpp:42-75 | a HELLO of another version, or with a count that is no 64-bit number, is refused |
| ResumeText.LoadTorn | src/transfer/ResumeManager.cpp:110-168 | every truncation of a saved file of brace-free records loads, to a prefix of the records |
| ResumeText.LoadWhole | src/transfer/ResumeManager.cpp:110-168 | the whole file loads to the records |
| ResumeText.RoundTripIff | src/transfer/ResumeManager.cpp:110-168 | loading what was saved gives the records back if and only if all their strings are non-empty and free of braces |
| ResumeText.LoadedAreClean | src/transfer/ResumeManager.cpp:117-133 | whatever the text, loaded records have non-empty, brace-free strings |
| ResumeBraces.LoadOfSaved | src/transfer/ResumeManager.cpp:110-168 | for every list of records: loading what was saved is refused if and only if some record is unreadable (its first brace over path and digest is a closing one; or it has none and an empty string; or an object that opens in a string ends behind text like the key's), and gives the brace-free, non-empty records otherwise, in order, without the others |
| ResumeBraces.ClosingBracePoisons | src/transfer/ResumeManager.cpp:117-133 | a record in any position whose path has a closing brace as its first brace makes the saved file unreadable |
| ResumeBraces.OpeningBraces | src/transfer/ResumeManager.cpp:117-133 | a path whose first brace is an opening one loses its record without an error, or makes the file unreadable, exactly if what follows its last brace, an opening one, ends with a quote and the key's name |
| ResumeManager.Manager.Load | src/transfer/ResumeManager.cpp:110-136 | the loop over objects gives the records or the first error |
| ResumeManager.Manager.Save | src/transfer/ResumeManager.cpp:138-168 | the loop over records writes the whole text |
| ResumeManager.Manager.Find | src/transfer/ResumeManager.cpp:170-182 | the offset of the first record with this path, size and digest, 0 if it is beyond the size, and nothing exactly if there is no such record |
| ResumeManager.Manager.UpdateOffset | src/transfer/ResumeManager.cpp:184-204 | empty names give InvalidResumeState and an offset beyond the size InvalidResumeOffset, leaving the file alone; otherwise the file is rewritten with this record changed in place or appended |
| ResumeManager.Manager.Clear | src/transfer/ResumeManager.cpp:206-217 | rewrites the file without the records of this identity |
| ResumeManager.UpsertFind | src/transfer/ResumeManager.cpp:184-204 | after an update this identity has the new offset and every other one what it had |
| ResumeManager.WithoutFind | src/transfer/ResumeManager.cpp:206-217 | after clearing this identity has no offset and every other one what it had |
| ResumeManager.TearGood | src/transfer/ResumeManager.cpp:138-168 | a good file cut anywhere is good and holds a prefix of the records |
| ResumeManager.UpdateGood | src/transfer/ResumeManager.cpp:184-204 | updating a file torn at any point succeeds and changes just this record |
| ResumeManager.ClearGood | src/transfer/ResumeManager.cpp:206-217 | clearing in a file torn at any point succeeds and removes just this record |
| ResumeManager.UpdateErrors | src/transfer/ResumeManager.cpp:170-217 | with an offset within the size find, update and clear fail only because the state file cannot be read |
| ResumeManager.BracesBreakResumeIff | src/transfer/ResumeManager.cpp:170-217 | after an update, on any state file: every later find, update and clear, for every file, is refused if and only if the updated record is unreadable; otherwise the offset is stored, or without a trace lost if path or digest has a brace |
| Sha256Spec.PadIsFips | src/utils/Sha256.cpp:88-98 | the padding is the one of section 5.1.1 of FIPS 180-4, with the least number of zero bits |
| Sha256.Sha256.FillSchedule | src/utils/Sha256.cpp:108-119 | the in-place schedule is the recurrence of section 6.2.2 |
| Sha256.Sha256.ProcessBlock | src/utils/Sha256.cpp:108-152 | the register loop is one compression of section 6.2.2 |
| Sha256.Sha256.Update | src/utils/Sha256.cpp:52-81 | any split of a message into calls keeps the state equal to the hash of the whole blocks and the buffer equal to the unprocessed tail |
| Sha256.Sha256.FinalHex | src/utils/Sha256.cpp:83-106 | for every message below 2^61 bytes the digest of the padded whole message, and the same again on a second call |
| Sha256.FinalBlocks | src/utils/Sha256.cpp:88-98 | one or two blocks: the buffered tail, 0x80, zeros and the length |
| Sha256.Sha256File | src/utils/Sha256.cpp:162-191 | the digest of the content, whatever the chunk size |
| Sha256Constants.ConstantsAreFips | src/utils/Sha256.cpp:13-24 | each of the 64 round constants is the first 32 bits of the fractional part of the cube root of the prime with its index |
| Sha256Constants.InitialIsFips | src/utils/Sha256.cpp:48-50 | each word of the initial value comes in the same way from the square root of one of the first eight primes |
| Sha256Bits.ChChooses | src/utils/Sha256.cpp:130-130 | bit by bit, Ch takes the second word where the first has ones and the third where it has zeros |
| Sha256Bits.MajIsMajority | src/utils/Sha256.cpp:133-133 | bit by bit, Maj is what two of the three words agree on |
| Sha256Bits.RotatesRight | src/utils/Sha256.cpp:26-28 | rotr moves all bits but the n low ones down by n and those to the top |
| Sha256Vectors.AbcDigest | src/utils/Sha256.cpp:156-160 | the digest of "abc" is the published one, through every word of the schedule and every round |
| Packets.Serialize | src/protocol/Serializer.cpp:25-41 | the appended bytes are the encoding, with the length set to the payload size |
| Packets.Parse | src/protocol/PacketParser.cpp:49-88 | the step by step parser computes the decoding and its refusals |
| Packets.DecodeIff | src/protocol/PacketParser.cpp:49-88 | bytes parse to a packet if and only if they are the encoding of that well-formed packet |
| WireFormat.PacketLayout | src/protocol/Serializer.cpp:25-41 | where every field of a packet is, byte by byte: BDRP, version 1, the type's number, flags and length most significant byte first, checksum, payload |
| WireFormat.MessageLayout | include/beamdrop/protocol/PacketType.hpp:7-18 | the type number, the empty flags and checksum, and the payload of each message |
| WireFormat.EscapeEach | src/transfer/FileInfoCodec.cpp:12-29 | each quote and each backslash gets a backslash in front, and every other character stays |
| WireFormat.DecimalEach | src/transfer/FileInfoCodec.cpp:89-97 | decimal numbers have their digits in order and no leading zero |
| WireFormat.FileInfoText | src/transfer/FileInfoCodec.cpp:89-97 | the text of a FILE_INFO, character by character |
| WireFormat.RecordText | src/transfer/ResumeManager.cpp:150-160 | the text of a record in the state file, character by character |
| WireFormat.StateText | src/transfer/ResumeManager.cpp:149-162 | the state file around its records: none, one, and two with a comma between |
| WireFormat.SmallTexts | src/transfer/TransferManifest.cpp:32-46 | a RESUME_ACK and a HELLO, character by character |
| Packets.DeframeCut | src/protocol/PacketIO.cpp:11-26 | a stream of packets cut after any byte yields exactly those that are complete, in order, to the loop of `PacketIO.ReadPackets` |
| Packets.DeframeWhole | src/protocol/PacketIO.cpp:11-26 | what `PacketIO.WritePackets` puts out yields exactly the packets written, in order, to `PacketIO.ReadPackets` |
| PacketIO.TcpConnection.WriteAll | src/network/TcpConnection.cpp:54-73 | for every sequence of partial sends, all bytes go out in order or a prefix and an error |
| PacketIO.TcpConnection.ReadExact | src/network/TcpConnection.cpp:75-97 | for every sequence of partial receives, exactly that many bytes are taken from the front or an error |
| PacketIO.WritePacket | src/protocol/PacketIO.cpp:28-31 | the encoding goes out, or a prefix of it and an error |
| PacketIO.ReadPacket | src/protocol/PacketIO.cpp:11-26 | takes exactly one well-formed packet from the front when one is there |
| PacketIO.WritePackets | src/protocol/PacketIO.cpp:28-31 | write_packet in turn: the concatenated encodings go out, or a prefix of them and an error |
| PacketIO.ReadPackets | src/protocol/PacketIO.cpp:11-26 | read_packet until it fails returns exactly the complete well-formed packets of the stream, in order, however TCP split them |
| MessageWire.MessageRoundTrip | src/transfer/DirectoryInfoCodec.cpp:6-19 | every session message survives its codec and packet type |
| MessageWire.MessagesSurvive | src/protocol/PacketIO.cpp:11-31 | a connection lost after any number of bytes delivers exactly a prefix of the messages |
| MessageWire.ShortFits | src/protocol/Serializer.cpp:25-41 | strings below 2^60 and payloads below 2^63 bytes, escaped and with their field names, fit the length field |
| Pipes.ReadsMessage | src/protocol/PacketIO.cpp:11-26 | a reader that has all the bytes read_packet asks for has exactly the first message written, and the rest of the pipe carries the others |
| ByteSession.Refines | src/network/TcpConnection.cpp:54-97 | every step over bytes (a partial send, a partial receive, a whole packet written or read, a lost connection) is a step of the message session or none |
| ByteSession.BytesSafe | src/transfer/Receiver.cpp:56-63 | over bytes, however cut, delayed and lost: neither side fails, no offset is wrong, and what a retry would keep is the source's |
| ByteSession.BytesNoDeadlock | src/network/TcpConnection.cpp:54-97 | while the session is not over a side can act or a byte can move, if the network holds but one byte |
| ByteSession.ByteProgress | src/transfer/Sender.cpp:42-117 | every step and every byte handed over or received lowers one rank |
| ByteSession.BytesResume | src/transfer/Receiver.cpp:94-96 | with resume and no directories every lost connection, inside a packet or not, is recoverable |
| ByteSession.ByteDelivery | src/transfer/Receiver.cpp:76-207 | after any run over bytes with any number of recoverable lost connections, every further run without one is bounded, can only stop with everything delivered and no byte left over, and one that delivers exists |
| TaskLifecycle.TaskManager.CreateTask | backend/app/core/task_manager.py:31-50 | a pending task, neither started nor finished, without progress or error, and task.created |
| TaskLifecycle.TaskManager.RunBegin | backend/app/core/task_manager.py:60-73 | goes on to gateway.send exactly for a pending task, which becomes RUNNING and is reported by task.started |
| TaskLifecycle.TaskManager.Progress | backend/app/core/task_manager.py:76-84 | progress counts only while RUNNING |
| TaskLifecycle.TaskManager.RunEnd | backend/app/core/task_manager.py:86-152 | a running or cancelling task ends CANCELED exactly on a gateway error with code CANCELLED, COMPLETED exactly if gateway.send returned, FAILED with the very error otherwise; the byte counts become the total exactly if it was RUNNING, had progress and the total is positive; the event reports the state; any other task is left alone |
| TaskLifecycle.TaskManager.CancelTask | backend/app/core/task_manager.py:154-164 | a pending task is canceled and finished at once, a running one becomes CANCELING, both with their flag set and their event; any other is left alone |
| TaskLifecycle.TaskLaws | backend/app/core/task_manager.py:60-164 | over every interleaving: finished_at exactly in terminal states, error exactly in FAILED, terminal snapshots never change, gateway.send starts at most once |
| TaskLifecycle.EndIsFinal | backend/app/core/task_manager.py:86-152 | from every good state a send that ends puts the task into the state its outcome asks for, reports it, and nothing changes that task afterwards |
| TaskLifecycle.CancelledPendingIsNeverSent | backend/app/core/task_manager.py:154-164 | a task cancelled while pending is never sent, whatever follows |
| TaskLifecycle.EventIsChange | backend/app/core/task_manager.py:31-164 | each published event, applied to the old tasks, gives the new ones; no event, no change |
| EventQueue.EventSubscription.Offer | backend/app/core/event_bus.py:21-58 | below the limit it appends; at the limit it refuses everything but task.completed, task.failed, task.canceled, receiver.stopped and error, and for these gives up the oldest event that is none of them, if there is one |
| EventQueue.EventSubscription.TryReceive | backend/app/core/event_bus.py:31-42 | one round of receive under the lock |
| EventQueue.QueueLaws | backend/app/core/event_bus.py:31-58 | over every run of offers and receives: order kept, nothing made up, no terminal event lost, and only terminal events beyond the limit |
| EventQueue.KindsSurvive | backend/app/core/event_bus.py:21-58 | over every run of offers and receives the events of those five kinds come out as often and in the order in which they were offered, or wait in the queue |
| EventSequence.EventBus.Publish | backend/app/core/event_bus.py:85-99 | takes the next number, then schedules; undisturbed in between, numbers are scheduled in order |
| EventSequence.Adapter.OnMessages | frontend/src/platform/fastapi/FastApiAdapter.ts:74-88 | the handler refreshes exactly at deliveries that do not follow the one before, also across a reconnect |
| EventSequence.NoGapMeansConsecutive | frontend/src/platform/fastapi/FastApiAdapter.ts:82-88 | deliveries without a flagged gap have consecutive numbers |
| EventSequence.GapMeansMissing | frontend/src/platform/fastapi/FastApiAdapter.ts:82-88 | with growing numbers a refresh means that a number was never delivered here |
| EventSequence.DropNoticedIff | backend/app/core/event_bus.py:44-58 | over every run of the bounded queue whose offers come in the order of their numbers: a drop makes a later delivery refresh if and only if the first delivery has a smaller number and the last one a greater |
| EventSequence.FirstDropUnnoticed | backend/app/core/event_bus.py:44-58 | for every queue size: a drop before the first delivery, where consecutive numbers come out |
| EventSequence.OutOfOrderUnnoticed | backend/app/core/event_bus.py:97-99 | for every queue size: two threads that number in one order and schedule in the other, and a drop between two deliveries that shows no gap |
| Dashboard.EventShown | frontend/src/features/dashboard/dashboardState.ts:15-32 | the exported reducer on a state with a snapshot changes its tasks exactly by the list reducer, the receiver only by receiver events, the error only by errors |
| Dashboard.ReceiverShown | frontend/src/features/dashboard/dashboardState.ts:19-25 | with a snapshot, receiver.started and receiver.stopped replace the receiver and nothing else |
| Dashboard.ErrorShown | frontend/src/features/dashboard/dashboardState.ts:17-17 | an error event is shown with or without a snapshot, and only BACKEND_UNAVAILABLE takes the dashboard offline |
| Dashboard.SnapshotShown | frontend/src/features/dashboard/dashboardState.ts:11-13 | a snapshot replaces what is shown, sets the dashboard online and leaves the error |
| Dashboard.LatestShown | frontend/src/features/dashboard/dashboardState.ts:15-25 | over any stretch of events: the receiver of the last receiver event, the error of the last error event, offline exactly if some error said so |
| Dashboard.ListedInOrder | frontend/src/features/dashboard/dashboardState.ts:26-32 | a task event moves its task to the end of the list or adds it there, a progress event changes it in place, nothing else moves |
| Dashboard.ApplyLookup | frontend/src/features/dashboard/dashboardState.ts:26-32 | the list reducer is, task by task, replace, advance or keep |
| Dashboard.ApplyKeepsUnique | frontend/src/features/dashboard/dashboardState.ts:26-32 | no task is ever listed twice |
| Dashboard.OverlapReplay | frontend/src/features/dashboard/dashboardState.ts:11-32 | on the list: a snapshot taken after event k, followed by the events from an earlier j on, shows every task as after all events |
| Dashboard.SnapshotReplay | frontend/src/features/dashboard/dashboardState.ts:11-23 | the same through applySnapshot and applyEvent, on a dashboard in any state |
| ControlSystem.RunKeepsOk | backend/app/core/event_bus.py:85-113 | manager, workers, other publishers, bus, queue, socket, reconnects and dashboard in any interleaving: pending events are the manager's tasks, every number names one event, and a task shown as finished is finished |
| ControlSystem.NewSubscription | backend/app/core/event_bus.py:85-99 | after a reconnect a subscription gets only events numbered after it was opened, whatever the threads still held |
| Convergence.FoldFollows | backend/app/core/task_manager.py:31-164 | a dashboard that gets every event shows the task manager's state |
| Convergence.SnapshotThenOverlap | frontend/src/features/dashboard/dashboardState.ts:11-32 | a snapshot of the task manager with overlapping replay through the reducer shows exactly its final state |
| Convergence.SlowClientConverges | backend/app/core/event_bus.py:44-58 | whatever the queue dropped and however often the client reconnected: once drained, a dashboard that looks at its list before it applies a cancel answer shows every finished task exactly as the manager holds it |
| Convergence.AnyClientConverges | backend/app/core/event_bus.py:44-58 | the same for the source's dashboard if every answer it applied met that guard when it was applied |
| ControlSystem.AnswerAsEvent | frontend/src/features/dashboard/useBeamDropDashboard.ts:22-22 | the event made of a cancel answer is the manager's own event if the cancel has reached the task; an answer about any other state is announced as task.canceling with the whole task |
| LateAnswers.HearingIff | frontend/src/features/dashboard/useBeamDropDashboard.ts:22-22 | an answer about a finished task with nothing more to come leaves the dashboard right if and only if the listed task is not finished or the answer is; otherwise it is stranded |
| LateAnswers.StrandedForEver | frontend/src/features/dashboard/useBeamDropDashboard.ts:22-22 | a stranded dashboard stays so over every run without a snapshot or another answer about the task |
| LateAnswers.LateAnswerStrands | frontend/src/features/dashboard/useBeamDropDashboard.ts:22-22 | a run from the start, without a drop or a gap, that ends with the manager at COMPLETED and the dashboard at CANCELING |
| Heartbeats.CaughtUp | frontend/src/platform/fastapi/FastApiAdapter.ts:82-88 | a dashboard whose last snapshot came after a delivery, without a gap since and with the last number received, shows every task, running ones too, as the manager has it |
| Heartbeats.HeartbeatTells | backend/app/main.py:120-125 | one heartbeat on a drained connection tells: either a gap is or has been noticed, exactly if the last number was missing, or every task is shown as the manager has it |
| Heartbeats.FirstDropHides | backend/app/core/event_bus.py:44-58 | for every queue size a run that drops an event after the snapshot and before the first delivery: drained, heartbeat received, no gap, and a task of the manager is not listed |
| ReceiverLifecycle.AlwaysOk | src/app/ReceiveServerService.cpp:46-157 | over every interleaving of starts, stops and worker steps the lifecycle invariant holds |
| ReceiverLifecycle.ListenerSafe | src/app/ReceiveServerService.cpp:111-157 | at most one worker is in its loop, the listener exists while it is, Stopped means neither |
| ReceiverLifecycle.StrandedIff | src/app/ReceiveServerService.cpp:76-82 | the service is left with a listener, no worker and a status that never settles if and only if some start could not create its thread |
| ReceiverLifecycle.ThrowingStrands | src/app/ReceiveServerService.cpp:76-108 | it can happen: bind, a thread that cannot be created, and a stop that is answered with Stopping for ever |
| ReceiverLifecycle.StoppingEnds | src/app/ReceiveServerService.cpp:85-108 | while Stopping, and not so stranded, the worker can always move and at most five of its steps lead to Stopped or Failed |
| ReceiverLifecycle.JoinCannotDeadlock | src/app/ReceiveServerService.cpp:76-82 | the join on restart under the mutex waits for a thread that needs the mutex no more |
| ReceiverControl.StartCallIsRun | src/app/ReceiveServerService.cpp:46-83 | start as one call is an interleaving of its steps that always ends, for every way it can fail |
| ReceiverControl.ReceiverManager.Start | backend/app/core/receiver_manager.py:32-50 | from STOPPED it succeeds exactly if request, address and thread allow, and otherwise shows the code of what went wrong and leaves the native service as that leaves it; from FAILED over a failed native service it fails again until stop is called; whatever the gateway raises leaves FAILED with its code, or INTERNAL_ERROR if it has none |
| ReceiverControl.ReceiverManager.Stop | backend/app/core/receiver_manager.py:52-78 | ends STOPPED or FAILED and publishes which, whatever the gateway raises; FAILED shows what was raised, NOT_RUNNING over a stopped service, STOP_TIMEOUT over one still stopping, or nothing over a failed one; from RUNNING over a gateway that raises nothing it ends STOPPED exactly if the native service is Stopped, and it recovers a failed one |
| ReceiverControl.ReceiverManager.WaitForStop | backend/app/core/receiver_manager.py:80-105 | against any clock that sleeps at least as long as asked the poll ends within eighty rounds; STOPPED means the service is Stopped, a timeout that two seconds have passed with it still Stopping, an exception of receiver_status FAILED |
| ReceiverControl.RunningIff | src/app/ReceiveServerService.cpp:111-156 | without a stop the native service is Running if and only if no network or other error has ended an accept or a receive, or the worker has yet to get the mutex to say so |
| ReceiverControl.StopOutcomeIff | src/app/ReceiveServerService.cpp:85-157 | after a stop request the native service ends Failed if and only if an error that is no network error has ended an accept or a receive since, and Stopped otherwise |
| ReceiverControl.EveryConnectionIsReceived | src/app/ReceiveServerService.cpp:111-157 | over any run of the worker every accepted connection is received, one at a time, before the next is accepted |
| ReceiverControl.RunningMayBeStale | backend/app/core/receiver_manager.py:43-47 | so a RUNNING snapshot can outlive the native service, which nothing reports |

## Left out

- Sockets, threads and the operating system's file system: sends and receives are partial and may fail, files are a map, directories a set; input and output errors of the disk itself (a full disk, missing rights) are not modelled.
- ByteSession: refines the two step machines; `ReceiveProgram` and `SendProgram`, the sides in the form of the source, work on messages.
- Pipes.ReadMessage: a packet that is both of the wrong type and malformed gives the codec's error, where the source looks at the type first; no packet of a session is either.
- SessionInvariant: asks for a suitable start (`StoreReady`): unique targets, and with resume enabled brace-free strings, records whose offsets name the source's bytes, and a state file that is none of the targets (`StateFileApart`; the backend puts `.beamdrop-receiver-state.json` inside save_dir, `backend/app/schemas/wire.py:54`, and a job with a file of that path is outside); directories above the state file that saving it would make below save_dir are not on the model's disk. Two identities that share a path in the middle of a resume are outside it.
- SessionOutcome.RetryIff: a session whose first directory has been made is shown never to complete, rather than given a repaired protocol.
- ReceiveProgram.ReceivingSide.ReceiveData: the received size does not wrap at 2^64; it counts bytes that are on disk.
- Stop requests on the receiving side, and on both sides between a read and its timeout: to the protocol they are the crash that the session already allows at any step.
- Sha256.Sha256File: the file is its content; that a file may change while it is read is not modelled, and messages of 2^61 bytes or more are outside FIPS 180-4.
- Paths: POSIX spellings; a save_dir that is a regular file, symbolic links below save_dir, drive letters, backslashes and case folding are not modelled.
- DirectoryOrder: a root is its name with the relative paths below it; symbolic links, special files and unreadable directories are refused by the source before a list exists.
- DirectoryOrder.SortPaths: `std::sort` is modelled by an insertion sort with the same contract.
- Regular expressions: each pattern in use is a leftmost scanner of its own; leading spaces that `stoull` accepts, but no encoder writes, are refused.
- TaskLifecycle: time stamps are only set or not set, and `uuid4` never repeats.
- ControlSystem: one dashboard among any number of others; a snapshot answer is applied as soon as it is taken, since the reducer overwrites newer events with an older snapshot, and the snapshot on opening a connection is taken once the subscription is there; reconnect timers are left out, reconnects are not.
- ReceiverLifecycle: the lock of `status` and the destructor of the service are not modelled; starts and stops of any number of callers are.
- ReceiverControl: the native status's own last_error and the request kept in the snapshot are not modelled.
- Convergence and Heartbeats: about tasks; receiver and error events share the numbers and the queue, but whether the dashboard's receiver converges is not stated: STARTING and STOPPING are never published and a failure only as an error, so that other dashboards do not learn of them before a snapshot.
- REST routes, wire schemas, bindings, command line, logging and configuration: plumbing.
