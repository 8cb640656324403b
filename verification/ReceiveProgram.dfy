/** Receiver and ReceiveService in the form they are written in: methods that read packets one after
    another, change the disk and the state file, and stop at the first error. */
module ReceiveProgram {
  import opened Results
  import opened TransferTypes
  import opened Paths
  import opened ResumeManager
  import opened Session
  import opened Progress

  // ---------- the specification: the step machine, driven by a whole stream ----------

  /** Steps the receiver can take before it reads again. */
  function OwnSteps(pc: ReceiverPc): nat {
    match pc
    case RAck(_, _, _) => 2
    case ROpen(_, _, _) => 1
    case RSave(_, _, _) => 1
    case RClose(_, _, _) => 2
    case RClear(_, _) => 1
    case _ => 0
  }

  function Then(out: seq<Msg>, r: Received): Received { r.(out := out + r.out) }

  /** The receiver's steps until it stops, or waits for a message that does not come. */
  function Drive(resume: bool, digest: seq<byte> -> string, r: Receiver, store: Store, inbox: seq<Msg>): Received
    decreases |inbox|, OwnSteps(r.pc)
  {
    match ReceiverStep(resume, digest, r, store, inbox)
    case None => Received(r, store, inbox, [])
    case Some(s) => Then(s.out, Drive(resume, digest, s.next, s.store, s.inbox))
  }

  lemma DriveMessage(resume: bool, digest: seq<byte> -> string, r: Receiver, store: Store, inbox: seq<Msg>)
    requires Reads(r.pc) && inbox != []
    ensures var (next, s) := TakeMessage(resume, r, store, inbox[0]);
            Drive(resume, digest, r, store, inbox) == Drive(resume, digest, next, s, inbox[1..])
  {
    hide TakeMessage;
    var (next, s) := TakeMessage(resume, r, store, inbox[0]);
    var rest := Drive(resume, digest, next, s, inbox[1..]);
    assert [] + rest.out == rest.out;
  }

  /** A receiver that waits on a closed connection, has failed or is done stays where it is. */
  lemma DriveEnds(resume: bool, digest: seq<byte> -> string, r: Receiver, store: Store, inbox: seq<Msg>)
    requires (Reads(r.pc) && inbox == []) || r.pc.RFailed? || r.pc.RDone?
    ensures Drive(resume, digest, r, store, inbox) == Received(r, store, inbox, [])
  {
  }

  /** Where the receiver's own step leads. */
  lemma DriveTo(resume: bool, digest: seq<byte> -> string, r: Receiver, store: Store, inbox: seq<Msg>, next: Receiver, s: Store)
    requires ReceiverStep(resume, digest, r, store, inbox) == Some(Received(next, s, inbox, [])) && !Reads(r.pc)
    ensures Drive(resume, digest, r, store, inbox) == Drive(resume, digest, next, s, inbox)
    ensures next.pc.RFailed? ==> Drive(resume, digest, r, store, inbox) == Received(next, s, inbox, [])
  {
    hide ReceiverStep;
    hide Drive;
    DriveStep(resume, digest, r, store, inbox);
    var rest := Drive(resume, digest, next, s, inbox);
    assert [] + rest.out == rest.out;
    if next.pc.RFailed? {
      DriveEnds(resume, digest, next, s, inbox);
    }
  }

  lemma DriveStep(resume: bool, digest: seq<byte> -> string, r: Receiver, store: Store, inbox: seq<Msg>)
    requires ReceiverStep(resume, digest, r, store, inbox).Some?
    ensures var s := ReceiverStep(resume, digest, r, store, inbox).value;
            Drive(resume, digest, r, store, inbox) == Then(s.out, Drive(resume, digest, s.next, s.store, s.inbox))
  {
    hide ReceiverStep;
  }

  /** How a stopped receiver reports its end; a read on a closed connection is a network failure. */
  function Outcome(pc: ReceiverPc): Option<ErrorCode> {
    match pc
    case RDone => None
    case RFailed(e) => Some(e)
    case _ => Some(NetworkFailure)
  }

  /** The program stopped with this error exactly where the machine stopped, with the output file closed. */
  predicate StoppedAt(end: Received, error: ErrorCode, store: Store, inbox: seq<Msg>, before: seq<Msg>, outbox: seq<Msg>) {
    && Outcome(end.next.pc) == Some(error)
    && store == Flushed(end.next.pc, end.store)
    && inbox == end.inbox
    && outbox == before + end.out
  }

  function DataMessages(payloads: seq<seq<byte>>): seq<Msg> {
    seq(|payloads|, i requires 0 <= i < |payloads| => Data(payloads[i]))
  }

  /** What has been read of a stream so far are the DATA packets with these payloads. */
  predicate ReadSoFar(stream: seq<Msg>, payloads: seq<seq<byte>>, left: seq<Msg>) {
    stream == DataMessages(payloads) + left
  }

  lemma NothingRead(stream: seq<Msg>)
    ensures ReadSoFar(stream, [], stream) && Concat([]) == []
  {
  }

  lemma AllRead(stream: seq<Msg>, payloads: seq<seq<byte>>, left: seq<Msg>)
    requires ReadSoFar(stream, payloads, left)
    ensures stream == DataMessages(payloads) + left
  {
  }

  /** The data loop ends with an error because of what follows the packets it accepted. */
  predicate BadData(info: FileInfo, size: nat, payloads: seq<seq<byte>>, stream: seq<Msg>, error: ErrorCode) {
    && DataMessages(payloads) <= stream
    && var left := stream[|payloads|..];
    match error
    case NetworkFailure => left == []
    case UnexpectedPacket => left != [] && !left[0].Data? && !left[0].FileEnd?
    case SizeMismatch => left != [] && left[0].Data? && size + |left[0].payload| > info.size
    case InvalidResumeState => true
    case InternalError => true
    case _ => false
  }

  /** Each way in which the next packet ends the loop. */
  lemma DataEnds(info: FileInfo, size: nat, payloads: seq<seq<byte>>, stream: seq<Msg>, left: seq<Msg>)
    requires ReadSoFar(stream, payloads, left)
    ensures left == [] ==> BadData(info, size, payloads, stream, NetworkFailure)
    ensures left != [] && !left[0].Data? && !left[0].FileEnd? ==> BadData(info, size, payloads, stream, UnexpectedPacket)
    ensures left != [] && left[0].Data? && size + |left[0].payload| > info.size ==>
              BadData(info, size, payloads, stream, SizeMismatch)
    ensures forall error: ErrorCode :: error.InvalidResumeState? || error.InternalError? ==>
              BadData(info, size, payloads, stream, error)
  {
  }

  lemma OneMorePayload(stream: seq<Msg>, payloads: seq<seq<byte>>, last: seq<byte>, left: seq<Msg>, d: Direction,
                       info: FileInfo, offset: u64, index: nat, count: nat)
    requires ReadSoFar(stream, payloads, [Data(last)] + left)
    ensures ReadSoFar(stream, payloads + [last], left)
    ensures Concat(payloads + [last]) == Concat(payloads) + last
    ensures TransferringTrace(d, FileRun(info, offset, payloads + [last]), index, count)
         == TransferringTrace(d, FileRun(info, offset, payloads), index, count)
            + [ProgressEvent(d, info.relativePath, offset + |Concat(payloads)| + |last|, info.size, index, count, Transferring)]
  {
    assert DataMessages(payloads + [last]) == DataMessages(payloads) + [Data(last)];
    ConcatSnoc(payloads, last);
    MoreEvents(d, info, offset, payloads, last, index, count);
  }

  /** What a completed file means, for whatever stream of packets it was read from: the trusted prefix of
      what was on disk, then the DATA payloads, with the declared size and digest. */
  predicate FileSound(digest: seq<byte> -> string, f: FileRun, before: map<string, seq<byte>>,
                      after: map<string, seq<byte>>, read: seq<Msg>, left: seq<Msg>) {
    var target := Target(f.info);
    var disk := if target in before then before[target] else [];
    && read == [Info(f.info)] + DataMessages(f.payloads) + ([FileEnd] + left)
    && f.offset <= |disk|
    && after == before[target := disk[..f.offset] + Concat(f.payloads)]
    && Full(f)
    && digest(disk[..f.offset] + Concat(f.payloads)) == f.info.sha256
  }

  /** The acknowledged offset, without saying how it is computed: nothing without resume or without a record of
      the identity, otherwise the least of the stored offset, the bytes on disk and the size. */
  predicate LeastTrusted(resume: bool, disk: Store, info: FileInfo, offset: nat) {
    var stored := FindInState(disk.state, IdentityOf(info));
    var onDisk := |OnDisk(disk, Target(info))|;
    if !resume || stored == Ok(None) then offset == 0
    else
      && stored.Ok?
      && offset <= stored.value.value && offset <= onDisk && offset <= info.size
      && (offset == stored.value.value || offset == onDisk || offset == info.size)
  }

  lemma TrustedWith(resume: bool, disk: Store, dirs: set<string>, info: FileInfo, offset: nat)
    ensures LeastTrusted(resume, disk.(dirs := dirs), info, offset) == LeastTrusted(resume, disk, info, offset)
    ensures OnDisk(disk.(dirs := dirs), Target(info)) == OnDisk(disk, Target(info))
  {
    hide Place;
    hide FindInState;
  }

  /** How a FILE_INFO is answered, check by check in the order of the source. */
  predicate InfoOutcome(resume: bool, disk: Store, stream: seq<Msg>, dirs: set<string>, result: Result<(FileInfo, u64), ErrorCode>) {
    if stream == [] then result == Err(NetworkFailure)
    else if !stream[0].Info? then result == Err(UnexpectedPacket)
    else
      var info := stream[0].info;
      var needed := Parents(info.relativePath);
      var found := FindInState(disk.state, IdentityOf(info));
      if !SafePath(info.relativePath) then result == Err(UnsafePath)
      else if !resume && Exists(disk, info.relativePath) then result == Err(FileWriteFailed)
      else if exists p :: p in needed && p in disk.files then result == Err(InternalError)
      else
        && dirs == disk.dirs + needed
        && (if resume && found.Err? then result == Err(found.error) else result.Ok? && result.value.0 == info)
  }

  function AllButLast(runs: seq<FileRun>): seq<FileRun>
    requires runs != []
  {
    runs[..|runs| - 1]
  }

  /** Files received one after the other, each sound. */
  ghost predicate FilesSound(digest: seq<byte> -> string, runs: seq<FileRun>, before: map<string, seq<byte>>,
                             after: map<string, seq<byte>>, read: seq<Msg>, left: seq<Msg>)
    decreases |runs|
  {
    if runs == [] then before == after && read == left
    else
      exists files, rest ::
        && FilesSound(digest, AllButLast(runs), before, files, read, rest)
        && FileSound(digest, runs[|runs| - 1], files, after, rest, left)
  }

  function Acks(runs: seq<FileRun>): seq<Msg> {
    seq(|runs|, i requires 0 <= i < |runs| => Ack(runs[i].offset))
  }

  // ---------- the program ----------

  class ReceivingSide {
    const resume: bool
    const digest: seq<byte> -> string
    const manager: Manager
    var files: map<string, seq<byte>>
    var dirs: set<string>
    var inbox: seq<Msg>
    var outbox: seq<Msg>
    var events: seq<ProgressEvent>

    constructor (resume: bool, digest: seq<byte> -> string, manager: Manager, files: map<string, seq<byte>>,
                 dirs: set<string>, inbox: seq<Msg>)
      ensures this.resume == resume && this.digest == digest && this.manager == manager
      ensures this.files == files && this.dirs == dirs && this.inbox == inbox && outbox == [] && events == []
    {
      this.resume, this.digest, this.manager := resume, digest, manager;
      this.files, this.dirs, this.inbox, outbox, events := files, dirs, inbox, [], [];
    }

    function Disk(): Store
      reads this, manager
    {
      Store(files, dirs, manager.stateFile)
    }

    /** read_packet: the connection is closed once the inbox is empty. */
    method ReadPacket() returns (r: Result<Msg, ErrorCode>)
      modifies this`inbox
      ensures old(inbox) == [] ==> r == Err(NetworkFailure) && inbox == []
      ensures old(inbox) != [] ==> r == Ok(old(inbox)[0]) && inbox == old(inbox)[1..]
    {
      if inbox == [] {
        return Err(NetworkFailure);
      }
      r := Ok(inbox[0]);
      inbox := inbox[1..];
    }

    /** receive_one_directory. */
    method ReceiveOneDirectory(ghost r: Receiver) returns (error: Option<ErrorCode>)
      requires r.pc.RDirectory?
      modifies this`inbox, this`dirs
      ensures error.None? ==>
                && old(inbox) != [] && inbox == old(inbox)[1..]
                && old(Drive(resume, digest, r, Disk(), inbox))
                   == Drive(resume, digest, r.(pc := AfterDirectoryReceived(r, r.pc.i + 1)), Disk(), inbox)
      ensures error.Some? ==> StoppedAt(old(Drive(resume, digest, r, Disk(), inbox)), error.value, Disk(), inbox, outbox, outbox)
      ensures error == Some(NetworkFailure) <==> old(inbox) == []
      ensures error == Some(UnexpectedPacket) <==> old(inbox) != [] && !old(inbox)[0].Directory?
      ensures old(inbox) != [] && old(inbox)[0].Directory? ==>
                var path := old(inbox)[0].path;
                && (error == Some(InvalidPayload) <==> path == "")
                && (error == Some(UnsafePath) <==> path != "" && AlwaysRefused(path))
                && (error == Some(FileWriteFailed) <==> !AlwaysRefused(path) && old(Exists(Disk(), path)))
                && (error.None? ==> Place(path) in dirs && dirs == old(dirs) + WithAbove(Place(path)))
    {
      hide Drive;
      hide ReceiverStep;
      hide SafePath;
      hide Place;
      hide LastComponent;
      hide Above;
      hide Exists;
      ghost var before := Disk();
      ghost var stream := inbox;
      if inbox == [] {
        DriveEnds(resume, digest, r, before, inbox);
      } else {
        DriveMessage(resume, digest, r, before, inbox);
      }
      var packet := ReadPacket();
      if packet.Err? {
        return Some(packet.error);
      }
      ghost var (next, after) := TakeMessage(resume, r, before, stream[0]);
      if next.pc.RFailed? {
        DriveEnds(resume, digest, next, after, inbox);
      }
      if !packet.value.Directory? {
        return Some(UnexpectedPacket);
      }
      var path := packet.value.path;
      if path == "" {
        return Some(InvalidPayload);
      }
      if !SafePath(path) || LastComponent(path) == "" {
        return Some(UnsafePath);
      }
      if Exists(Disk(), path) {
        return Some(FileWriteFailed);
      }
      var needed := WithAbove(Place(path));
      if exists p :: p in needed && p in files {
        return Some(InternalError);
      }
      dirs := dirs + needed;
      return None;
    }

    /** receive_one_file, from FILE_INFO to RESUME_ACK. */
    method ReceiveInfo(ghost r: Receiver) returns (result: Result<(FileInfo, u64), ErrorCode>)
      requires r.pc.RFile? && r.pc.i < r.fileCount
      modifies this`inbox, this`outbox, this`dirs
      ensures result.Ok? ==>
                var (info, offset) := result.value;
                && old(inbox) == [Info(info)] + inbox && outbox == old(outbox) + [Ack(offset)]
                && offset <= |OnDisk(Disk(), Target(info))| && offset <= info.size
                && LeastTrusted(resume, Disk(), info, offset)
                && old(Drive(resume, digest, r, Disk(), inbox))
                   == Then([Ack(offset)], Drive(resume, digest, r.(pc := ROpen(r.pc.i, info, offset)), Disk(), inbox))
      ensures result.Err? ==>
                && result.error != InvalidResumeOffset
                && StoppedAt(old(Drive(resume, digest, r, Disk(), inbox)), result.error, Disk(), inbox, old(outbox), outbox)
      ensures InfoOutcome(resume, old(Disk()), old(inbox), dirs, result)
    {
      hide Drive;
      hide Then;
      hide StoppedAt;
      hide SafePath;
      hide Place;
      hide Parents;
      hide FindInState;
      hide UpdateState;
      hide ClearState;
      InfoRead(resume, digest, r, Disk(), inbox, outbox);
      var packet := ReadPacket();
      if packet.Err? {
        return Err(packet.error);
      }
      if !packet.value.Info? {
        return Err(UnexpectedPacket);
      }
      var info := packet.value.info;
      if !SafePath(info.relativePath) {
        return Err(UnsafePath);
      }
      if Exists(Disk(), info.relativePath) && !resume {
        return Err(FileWriteFailed);
      }
      var needed := Parents(info.relativePath);
      if exists p :: p in needed && p in files {
        return Err(InternalError);
      }
      dirs := dirs + needed;
      var offset: u64 := 0;
      if resume {
        UpdateErrors(manager.stateFile, IdentityOf(info), 0);
        var stored := manager.Find(IdentityOf(info));
        if stored.Err? {
          return Err(stored.error);
        }
        var onDisk := |OnDisk(Disk(), Target(info))|;
        offset := Min(Min(stored.value.GetOr(0), onDisk), info.size);
      }
      outbox := outbox + [Ack(offset)];
      return Ok((info, offset));
    }

    method Emit(event: ProgressEvent)
      modifies this`events
      ensures events == old(events) + [event]
    {
      events := events + [event];
    }

    /** receive_one_file, the loop over DATA packets up to FILE_END.  base is what the opened output file
        holds; what is written to it reaches the disk when it is closed, on every way out. */
    method ReceiveData(info: FileInfo, base: seq<byte>, index: nat, count: nat, ghost r: Receiver)
      returns (result: Result<seq<byte>, ErrorCode>, ghost payloads: seq<seq<byte>>)
      requires r.pc.RData? && r.pc == RData(r.pc.i, info, Output(base, [])) && |base| <= info.size
      requires Target(info) in files && files[Target(info)] == base
      modifies this`inbox, this`files, this`events, manager
      ensures result.Ok? ==>
                && result.value == Concat(payloads) && |base| + |result.value| <= info.size
                && old(inbox) == DataMessages(payloads) + ([FileEnd] + inbox)
                && files == old(files)
                && events == old(events) + TransferringTrace(Receive, FileRun(info, |base|, payloads), index, count)
                && old(Drive(resume, digest, r, Disk(), inbox))
                   == Drive(resume, digest, r.(pc := RClose(r.pc.i, info, Output(base, result.value))), Disk(), inbox)
      ensures result.Err? ==>
                && result.error != InvalidResumeOffset
                && StoppedAt(old(Drive(resume, digest, r, Disk(), inbox)), result.error, Disk(), inbox, outbox, outbox)
                && BadData(info, |base| + |Concat(payloads)|, payloads, old(inbox), result.error)
    {
      hide BadData;
      hide Drive;
      hide ReceiverStep;
      hide TransferringTrace;
      hide UpdateState;
      hide FindInState;
      hide ClearState;
      hide DataMessages;
      hide Concat;
      hide StoppedAt;
      hide TakeMessage;
      hide ReadSoFar;
      hide Place;
      hide LoadState;
      hide TakeData;
      NothingRead(inbox);
      ghost var start := Drive(resume, digest, r, Disk(), inbox);
      ghost var stream := inbox;
      var written: seq<byte> := [];
      payloads := [];
      var receivedSize := |base|;
      NoEvents(Receive, info, |base|, index, count);
      assert events + [] == events;
      while true
        invariant files == old(files)
        invariant receivedSize == |base| + |written| <= info.size && written == Concat(payloads)
        invariant ReadSoFar(stream, payloads, inbox)
        invariant events == old(events) + TransferringTrace(Receive, FileRun(info, |base|, payloads), index, count)
        invariant start == Drive(resume, digest, r.(pc := RData(r.pc.i, info, Output(base, written))), Disk(), inbox)
        decreases |inbox|
      {
        ghost var at := r.(pc := RData(r.pc.i, info, Output(base, written)));
        ghost var disk := Disk();
        ghost var left := inbox;
        DataRead(resume, digest, at, disk, inbox, outbox);
        DataEnds(info, receivedSize, payloads, stream, inbox);
        var packet := ReadPacket();
        if packet.Err? {
          files := files[Target(info) := base + written];
          return Err(packet.error), payloads;
        }
        if packet.value.FileEnd? {
          AllRead(stream, payloads, left);
          assert left == [FileEnd] + inbox;
          return Ok(written), payloads;
        }
        if !packet.value.Data? {
          files := files[Target(info) := base + written];
          return Err(UnexpectedPacket), payloads;
        }
        receivedSize := receivedSize + |packet.value.payload|;
        if receivedSize > info.size {
          files := files[Target(info) := base + written];
          return Err(SizeMismatch), payloads;
        }
        assert left == [Data(packet.value.payload)] + inbox;
        OneMorePayload(stream, payloads, packet.value.payload, inbox, Receive, info, |base|, index, count);
        written := written + packet.value.payload;
        payloads := payloads + [packet.value.payload];
        if resume {
          UpdateErrors(manager.stateFile, IdentityOf(info), receivedSize);
          DriveSave(resume, digest, r.(pc := RSave(r.pc.i, info, Output(base, written))), disk, inbox, outbox);
          var error := manager.UpdateOffset(IdentityOf(info), receivedSize);
          if error.Some? {
            files := files[Target(info) := base + written];
            DataEnds(info, receivedSize, payloads, stream, inbox);
            return Err(error.value), payloads;
          }
        }
        Emit(ProgressEvent(Receive, info.relativePath, receivedSize, info.size, index, count, Transferring));
      }
    }

    /** receive_one_file, from FILE_END on: close, check the size and the digest, clear the record. */
    method CloseFile(info: FileInfo, base: seq<byte>, written: seq<byte>, ghost r: Receiver)
      returns (error: Option<ErrorCode>)
      requires r.pc.RClose? && r.pc == RClose(r.pc.i, info, Output(base, written))
      modifies this`files, manager
      ensures error.None? ==>
                && files == old(files)[Target(info) := base + written]
                && |base| + |written| == info.size && digest(base + written) == info.sha256
                && old(Drive(resume, digest, r, Disk(), inbox))
                   == Drive(resume, digest, r.(pc := RFile(r.pc.i + 1)), Disk(), inbox)
      ensures error.Some? ==>
                && error.value != InvalidResumeOffset
                && StoppedAt(old(Drive(resume, digest, r, Disk(), inbox)), error.value, Disk(), inbox, outbox, outbox)
      ensures |base| + |written| != info.size ==> error == Some(SizeMismatch)
      ensures |base| + |written| == info.size && digest(base + written) != info.sha256 ==> error == Some(ChecksumMismatch)
    {
      hide Drive;
      hide ReceiverStep;
      hide StoppedAt;
      hide ClearState;
      DriveClose(resume, digest, r, Disk(), inbox, outbox);
      files := files[Target(info) := base + written];
      if |base| + |written| != info.size {
        return Some(SizeMismatch);
      }
      if digest(files[Target(info)]) != info.sha256 {
        return Some(ChecksumMismatch);
      }
      DriveClear(resume, digest, r.(pc := RClear(r.pc.i, info)), Disk(), inbox, outbox);
      if resume {
        UpdateErrors(manager.stateFile, IdentityOf(info), 0);
        error := manager.Clear(IdentityOf(info));
        return;
      }
      return None;
    }

    /** receive_one_file, from RESUME_ACK on: truncate the file to the offset and open it. */
    method OpenFile(info: FileInfo, offset: u64, ghost r: Receiver) returns (base: Option<seq<byte>>)
      requires r.pc.ROpen? && r.pc == ROpen(r.pc.i, info, offset) && offset <= |OnDisk(Disk(), Target(info))|
      modifies this`files
      ensures base.Some? ==>
                && base.value == old(OnDisk(Disk(), Target(info)))[..offset] && files == old(files)[Target(info) := base.value]
                && old(Drive(resume, digest, r, Disk(), inbox))
                   == Drive(resume, digest, r.(pc := RData(r.pc.i, info, Output(base.value, []))), Disk(), inbox)
      ensures base.None? ==> files == old(files)
      ensures base.None? ==> StoppedAt(old(Drive(resume, digest, r, Disk(), inbox)), FileOpenFailed, Disk(), inbox, outbox, outbox)
    {
      hide Drive;
      hide StoppedAt;
      hide Place;
      DriveOpen(resume, digest, r, Disk(), inbox, outbox);
      if Target(info) == "" || Target(info) in dirs {
        return None;
      }
      base := Some(OnDisk(Disk(), Target(info))[..offset]);
      files := files[Target(info) := base.value];
    }

    /** receive_one_file: sound for any stream of packets, and step for step the machine's file. */
    method ReceiveOneFile(index: nat, count: nat, ghost r: Receiver)
      returns (error: Option<ErrorCode>, ghost run: FileRun)
      requires r.pc.RFile? && r.pc.i < r.fileCount
      modifies this`inbox, this`outbox, this`dirs, this`files, this`events, manager
      ensures error.None? ==>
                && FileSound(digest, run, old(files), files, old(inbox), inbox)
                && LeastTrusted(resume, old(Disk()), run.info, run.offset)
                && outbox == old(outbox) + [Ack(run.offset)]
                && events == old(events) + FileTrace(Receive, run, index, count)
                && old(Drive(resume, digest, r, Disk(), inbox))
                   == Then([Ack(run.offset)], Drive(resume, digest, r.(pc := RFile(r.pc.i + 1)), Disk(), inbox))
      ensures error.Some? ==>
                && error.value != InvalidResumeOffset
                && StoppedAt(old(Drive(resume, digest, r, Disk(), inbox)), error.value, Disk(), inbox, old(outbox), outbox)
    {
      hide Drive;
      hide ReceiverStep;
      hide TransferringTrace;
      hide StoppedAt;
      hide Concat;
      hide DataMessages;
      hide ClearState;
      hide Then;
      hide FileSound;
      hide FileTrace;
      hide SafePath;
      hide Place;
      hide LastComponent;
      hide OnDisk;
      hide Flushed;
      hide TakeMessage;
      hide FindInState;
      hide LeastTrusted;
      hide InfoOutcome;
      hide BadData;
      hide Exists;
      hide LoadState;
      ghost var start := Drive(resume, digest, r, Disk(), inbox);
      ghost var out, stream, files0, disk0 := outbox, inbox, files, Disk();
      run := FileRun(FileInfo("", 0, ""), 0, []);
      var result := ReceiveInfo(r);
      if result.Err? {
        return Some(result.error), run;
      }
      var (info, offset) := result.value;
      ghost var sent := [Ack(offset)];
      ghost var at := r.(pc := ROpen(r.pc.i, info, offset));
      TrustedWith(resume, disk0, dirs, info, offset);
      OnDiskIs(disk0, Target(info));
      var front := OpenFile(info, offset, at);
      if front.None? {
        Later(start, Drive(resume, digest, at, Disk(), inbox), sent, FileOpenFailed, Disk(), inbox, out, outbox);
        return Some(FileOpenFailed), run;
      }
      var base := front.value;
      at := r.(pc := RData(r.pc.i, info, Output(base, [])));
      ghost var mid := Drive(resume, digest, at, Disk(), inbox);
      var received;
      ghost var payloads;
      received, payloads := ReceiveData(info, base, index, count, at);
      if received.Err? {
        Later(start, mid, sent, received.error, Disk(), inbox, out, outbox);
        return Some(received.error), run;
      }
      run := FileRun(info, offset, payloads);
      error := CloseFile(info, base, received.value, r.(pc := RClose(r.pc.i, info, Output(base, received.value))));
      if error.Some? {
        Later(start, mid, sent, error.value, Disk(), inbox, out, outbox);
        return;
      }
      ghost var disk := Disk();
      assert start == Then(sent, Drive(resume, digest, r.(pc := RFile(r.pc.i + 1)), disk, inbox));
      Sound(digest, run, files0, base, files, stream, inbox);
      EndEvents(events, Receive, run, index, count, old(events));
      Emit(ProgressEvent(Receive, info.relativePath, info.size, info.size, index, count, FileCompleted));
      assert Disk() == disk;
      return None, run;
    }

    /** receive_task, the loop over directories. */
    method ReceiveDirectories(directoryCount: nat, ghost r: Receiver) returns (error: Option<ErrorCode>)
      requires r.directoryCount == directoryCount && r.pc == AfterDirectoryReceived(r, 0)
      modifies this`inbox, this`dirs
      ensures error.None? ==>
                && directoryCount <= |old(inbox)| && inbox == old(inbox)[directoryCount..]
                && old(Drive(resume, digest, r, Disk(), inbox)) == Drive(resume, digest, r.(pc := RFile(0)), Disk(), inbox)
      ensures error.Some? ==> StoppedAt(old(Drive(resume, digest, r, Disk(), inbox)), error.value, Disk(), inbox, outbox, outbox)
    {
      hide Drive;
      hide StoppedAt;
      ghost var start := Drive(resume, digest, r, Disk(), inbox);
      for i := 0 to directoryCount
        invariant i <= |old(inbox)| && inbox == old(inbox)[i..]
        invariant start == Drive(resume, digest, r.(pc := AfterDirectoryReceived(r, i)), Disk(), inbox)
      {
        error := ReceiveOneDirectory(r.(pc := RDirectory(i)));
        if error.Some? {
          return;
        }
      }
      return None;
    }

    /** receive_task: the directories, then the files, with their progress events. */
    method ReceiveTask(fileCount: nat, directoryCount: nat, ghost r: Receiver)
      returns (error: Option<ErrorCode>, ghost runs: seq<FileRun>)
      requires r.fileCount == fileCount && r.directoryCount == directoryCount && r.pc == AfterDirectoryReceived(r, 0)
      modifies this`inbox, this`outbox, this`dirs, this`files, this`events, manager
      ensures error.None? ==>
                && |runs| == fileCount && events == old(events) + TaskTrace(Receive, runs)
                && directoryCount <= |old(inbox)|
                && FilesSound(digest, runs, old(files), files, old(inbox)[directoryCount..], inbox)
                && outbox == old(outbox) + Acks(runs)
                && old(Drive(resume, digest, r, Disk(), inbox))
                   == Then(Acks(runs), Drive(resume, digest, r.(pc := RFile(fileCount)), Disk(), inbox))
      ensures error.Some? ==>
                StoppedAt(old(Drive(resume, digest, r, Disk(), inbox)), error.value, Disk(), inbox, old(outbox), outbox)
    {
      hide Drive;
      hide StoppedAt;
      hide FileSound;
      hide FilesSound;
      hide FilesTrace;
      hide FileTrace;
      hide Then;
      hide Acks;
      hide FindInState;
      hide LeastTrusted;
      hide Place;
      runs := [];
      Emit(ProgressEvent(Receive, "", 0, 0, 0, fileCount, TaskStarted));
      ghost var start := Drive(resume, digest, r, Disk(), inbox);
      error := ReceiveDirectories(directoryCount, r);
      if error.Some? {
        return;
      }
      ghost var read := inbox;
      NothingReceived(digest, files, inbox, Drive(resume, digest, r.(pc := RFile(0)), Disk(), inbox), outbox, events, fileCount);
      for index := 0 to fileCount
        invariant |runs| == index
        invariant events == old(events) + [ProgressEvent(Receive, "", 0, 0, 0, fileCount, TaskStarted)]
                            + FilesTrace(Receive, runs, fileCount)
        invariant FilesSound(digest, runs, old(files), files, read, inbox)
        invariant outbox == old(outbox) + Acks(runs)
        invariant start == Then(Acks(runs), Drive(resume, digest, r.(pc := RFile(index)), Disk(), inbox))
      {
        ghost var mid := Drive(resume, digest, r.(pc := RFile(index)), Disk(), inbox);
        ghost var files0, inbox0 := files, inbox;
        ghost var run;
        error, run := ReceiveOneFile(index + 1, fileCount, r.(pc := RFile(index)));
        if error.Some? {
          Later(start, mid, Acks(runs), error.value, Disk(), inbox, old(outbox), outbox);
          return;
        }
        OneMore(digest, runs, run, old(files), files0, files, read, inbox0, inbox);
        MoreAcks(runs, run, start, Drive(resume, digest, r.(pc := RFile(index + 1)), Disk(), inbox));
        MoreFiles(Receive, runs, run, fileCount);
        runs := runs + [run];
      }
      Emit(ProgressEvent(Receive, "", 0, 0, fileCount, fileCount, TaskCompleted));
      return None, runs;
    }

    /** ReceiveService::receive: HELLO, the task, FINISH.  It does on every stream what the step machine
        does, and reports how the machine ended. */
    method ReceiveSession() returns (error: Option<ErrorCode>, ghost runs: seq<FileRun>)
      modifies this`inbox, this`outbox, this`dirs, this`files, this`events, manager
      ensures var end := old(Drive(resume, digest, IDLE, Disk(), inbox));
              && error == Outcome(end.next.pc)
              && Disk() == Flushed(end.next.pc, end.store)
              && inbox == end.inbox && outbox == old(outbox) + end.out
      ensures error.None? ==>
                && old(inbox) != [] && old(inbox)[0].Hello?
                && var manifest := old(inbox)[0].manifest;
                && |runs| == manifest.fileCount && 1 + manifest.directoryCount <= |old(inbox)|
                && FilesSound(digest, runs, old(files), files, old(inbox)[1 + manifest.directoryCount..], [Finish] + inbox)
                && events == old(events) + TaskTrace(Receive, runs)
    {
      runs := [];
      hide Drive;
      hide FilesSound;
      hide TaskTrace;
      hide ReceiverStep;
      ghost var start := Drive(resume, digest, IDLE, Disk(), inbox);
      HelloRead(resume, digest, Disk(), inbox);
      var hello := ReadPacket();
      if hello.Err? {
        return Some(hello.error), runs;
      }
      if !hello.value.Hello? {
        return Some(UnexpectedPacket), runs;
      }
      var manifest := hello.value.manifest;
      ghost var counted := Receiver(RHello, manifest.fileCount, manifest.directoryCount);
      error, runs := ReceiveTask(manifest.fileCount, manifest.directoryCount, counted.(pc := AfterDirectoryReceived(counted, 0)));
      if error.Some? {
        return;
      }
      FinishRead(resume, digest, counted.(pc := RFile(manifest.fileCount)), Disk(), inbox);
      ghost var left := inbox;
      var finish := ReadPacket();
      if finish.Err? {
        return Some(finish.error), runs;
      }
      if !finish.value.Finish? {
        return Some(UnexpectedPacket), runs;
      }
      assert left == [Finish] + inbox;
      return None, runs;
    }
  }

  lemma HelloRead(resume: bool, digest: seq<byte> -> string, store: Store, inbox: seq<Msg>)
    ensures var end := Drive(resume, digest, IDLE, store, inbox);
            if inbox == [] then end == Received(IDLE, store, [], [])
            else if !inbox[0].Hello? then end == Received(IDLE.(pc := RFailed(UnexpectedPacket)), store, inbox[1..], [])
            else
              var counted := Receiver(RHello, inbox[0].manifest.fileCount, inbox[0].manifest.directoryCount);
              end == Drive(resume, digest, counted.(pc := AfterDirectoryReceived(counted, 0)), store, inbox[1..])
  {
    hide Drive;
    if inbox == [] {
      DriveEnds(resume, digest, IDLE, store, inbox);
    } else {
      DriveMessage(resume, digest, IDLE, store, inbox);
      if !inbox[0].Hello? {
        DriveEnds(resume, digest, IDLE.(pc := RFailed(UnexpectedPacket)), store, inbox[1..]);
      }
    }
  }

  lemma FinishRead(resume: bool, digest: seq<byte> -> string, r: Receiver, store: Store, inbox: seq<Msg>)
    requires r.pc.RFile? && r.pc.i == r.fileCount
    ensures var end := Drive(resume, digest, r, store, inbox);
            if inbox == [] then end == Received(r, store, [], [])
            else if !inbox[0].Finish? then end == Received(r.(pc := RFailed(UnexpectedPacket)), store, inbox[1..], [])
            else end == Received(r.(pc := RDone), store, inbox[1..], [])
  {
    hide Drive;
    if inbox == [] {
      DriveEnds(resume, digest, r, store, inbox);
    } else {
      DriveMessage(resume, digest, r, store, inbox);
      DriveEnds(resume, digest, r.(pc := if inbox[0].Finish? then RDone else RFailed(UnexpectedPacket)), store, inbox[1..]);
    }
  }

  lemma NothingReceived(digest: seq<byte> -> string, files: map<string, seq<byte>>, inbox: seq<Msg>, end: Received,
                        outbox: seq<Msg>, events: seq<ProgressEvent>, count: nat)
    ensures FilesSound(digest, [], files, files, inbox, inbox)
    ensures Acks([]) == [] && Then([], end) == end && outbox + [] == outbox
    ensures FilesTrace(Receive, [], count) == [] && events + [] == events
  {
    assert [] + end.out == end.out;
  }

  lemma OneMore(digest: seq<byte> -> string, runs: seq<FileRun>, run: FileRun, before: map<string, seq<byte>>,
                files: map<string, seq<byte>>, after: map<string, seq<byte>>, read: seq<Msg>, rest: seq<Msg>, left: seq<Msg>)
    requires FilesSound(digest, runs, before, files, read, rest) && FileSound(digest, run, files, after, rest, left)
    ensures FilesSound(digest, runs + [run], before, after, read, left)
  {
    hide FileSound;
    assert AllButLast(runs + [run]) == runs;
  }

  lemma MoreAcks(runs: seq<FileRun>, run: FileRun, start: Received, end: Received)
    requires start == Then(Acks(runs), Then([Ack(run.offset)], end))
    ensures Acks(runs + [run]) == Acks(runs) + [Ack(run.offset)]
    ensures start == Then(Acks(runs + [run]), end)
  {
    assert Acks(runs) + ([Ack(run.offset)] + end.out) == Acks(runs) + [Ack(run.offset)] + end.out;
  }

  lemma MoreFiles(d: Direction, runs: seq<FileRun>, run: FileRun, count: nat)
    ensures FilesTrace(d, runs + [run], count) == FilesTrace(d, runs, count) + FileTrace(d, run, |runs| + 1, count)
  {
    assert (runs + [run])[..|runs|] == runs;
  }

  lemma Sound(digest: seq<byte> -> string, f: FileRun, before: map<string, seq<byte>>, base: seq<byte>,
              after: map<string, seq<byte>>, read: seq<Msg>, left: seq<Msg>)
    requires var target := Target(f.info);
             var disk := if target in before then before[target] else [];
             f.offset <= |disk| && base == disk[..f.offset]
    requires read == [Info(f.info)] + (DataMessages(f.payloads) + ([FileEnd] + left))
    requires after == before[Target(f.info) := base + Concat(f.payloads)]
    requires |base| + |Concat(f.payloads)| == f.info.size && digest(base + Concat(f.payloads)) == f.info.sha256
    ensures FileSound(digest, f, before, after, read, left)
  {
  }

  /** A stop after `sent` went out is a stop of the whole. */
  lemma Later(start: Received, mid: Received, sent: seq<Msg>, error: ErrorCode, store: Store, inbox: seq<Msg>,
              before: seq<Msg>, outbox: seq<Msg>)
    requires start == Then(sent, mid) && StoppedAt(mid, error, store, inbox, before + sent, outbox)
    ensures StoppedAt(start, error, store, inbox, before, outbox)
  {
    assert before + sent + mid.out == before + (sent + mid.out);
  }

  lemma DriveOpen(resume: bool, digest: seq<byte> -> string, r: Receiver, store: Store, inbox: seq<Msg>, outbox: seq<Msg>)
    requires r.pc.ROpen? && r.pc.offset <= |OnDisk(store, Target(r.pc.info))|
    ensures var end := Drive(resume, digest, r, store, inbox);
            var path := Target(r.pc.info);
            var base := OnDisk(store, path)[..r.pc.offset];
            if path == "" || path in store.dirs then StoppedAt(end, FileOpenFailed, store, inbox, outbox, outbox)
            else end == Drive(resume, digest, r.(pc := RData(r.pc.i, r.pc.info, Output(base, []))),
                              store.(files := store.files[path := base]), inbox)
  {
    hide Drive;
    hide Place;
    hide TakeMessage;
    var s := ReceiverStep(resume, digest, r, store, inbox).value;
    DriveTo(resume, digest, r, store, inbox, s.next, s.store);
  }

  lemma DriveClose(resume: bool, digest: seq<byte> -> string, r: Receiver, store: Store, inbox: seq<Msg>, outbox: seq<Msg>)
    requires r.pc.RClose?
    ensures var end := Drive(resume, digest, r, store, inbox);
            var closed := Flushed(r.pc, store);
            if r.pc.output.Size() != r.pc.info.size then StoppedAt(end, SizeMismatch, closed, inbox, outbox, outbox)
            else if digest(r.pc.output.All()) != r.pc.info.sha256 then
              StoppedAt(end, ChecksumMismatch, closed, inbox, outbox, outbox)
            else end == Drive(resume, digest, r.(pc := RClear(r.pc.i, r.pc.info)), closed, inbox)
  {
    hide Drive;
    var s := ReceiverStep(resume, digest, r, store, inbox).value;
    DriveTo(resume, digest, r, store, inbox, s.next, s.store);
  }

  lemma DriveClear(resume: bool, digest: seq<byte> -> string, r: Receiver, store: Store, inbox: seq<Msg>, outbox: seq<Msg>)
    requires r.pc.RClear?
    ensures var end := Drive(resume, digest, r, store, inbox);
            var c := ClearState(store.state, IdentityOf(r.pc.info));
            var next := r.(pc := RFile(r.pc.i + 1));
            if !resume then end == Drive(resume, digest, next, store, inbox)
            else if c.Ok? then end == Drive(resume, digest, next, store.(state := c.value), inbox)
            else StoppedAt(end, c.error, store, inbox, outbox, outbox)
  {
    hide Drive;
    hide ClearState;
    var s := ReceiverStep(resume, digest, r, store, inbox).value;
    DriveTo(resume, digest, r, store, inbox, s.next, s.store);
  }

  lemma NoEvents(d: Direction, info: FileInfo, offset: u64, index: nat, count: nat)
    ensures TransferringTrace(d, FileRun(info, offset, []), index, count) == []
  {
  }

  lemma EndEvents(now: seq<ProgressEvent>, d: Direction, run: FileRun, index: nat, count: nat, before: seq<ProgressEvent>)
    requires now == before + TransferringTrace(d, run, index, count)
    ensures now + [ProgressEvent(d, run.info.relativePath, run.info.size, run.info.size, index, count, FileCompleted)]
         == before + FileTrace(d, run, index, count)
  {
  }

  lemma OnDiskIs(store: Store, path: string)
    ensures OnDisk(store, path) == if path in store.files then store.files[path] else []
  {
  }

  lemma MoreEvents(d: Direction, info: FileInfo, offset: u64, payloads: seq<seq<byte>>, last: seq<byte>, index: nat, count: nat)
    ensures TransferringTrace(d, FileRun(info, offset, payloads + [last]), index, count)
         == TransferringTrace(d, FileRun(info, offset, payloads), index, count)
            + [ProgressEvent(d, info.relativePath, offset + |Concat(payloads)| + |last|, info.size, index, count, Transferring)]
  {
    assert (payloads + [last])[..|payloads|] == payloads;
    ConcatSnoc(payloads, last);
  }

  lemma NoData()
    ensures DataMessages([]) == [] && Concat([]) == []
  {
  }

  /** One read in the data loop: where the machine goes, or how the program has to stop. */
  lemma DataRead(resume: bool, digest: seq<byte> -> string, r: Receiver, store: Store, inbox: seq<Msg>, outbox: seq<Msg>)
    requires r.pc.RData? && r.pc.output.Size() <= r.pc.info.size
    ensures var end := Drive(resume, digest, r, store, inbox);
            var closed := Flushed(r.pc, store);
            if inbox == [] then StoppedAt(end, NetworkFailure, closed, [], outbox, outbox)
            else if inbox[0].FileEnd? then
              end == Drive(resume, digest, r.(pc := RClose(r.pc.i, r.pc.info, r.pc.output)), store, inbox[1..])
            else if !inbox[0].Data? then StoppedAt(end, UnexpectedPacket, closed, inbox[1..], outbox, outbox)
            else if r.pc.output.Size() + |inbox[0].payload| > r.pc.info.size then
              StoppedAt(end, SizeMismatch, closed, inbox[1..], outbox, outbox)
            else
              var grown := Output(r.pc.output.base, r.pc.output.written + inbox[0].payload);
              var next := if resume then RSave(r.pc.i, r.pc.info, grown) else RData(r.pc.i, r.pc.info, grown);
              end == Drive(resume, digest, r.(pc := next), store, inbox[1..])
  {
    hide Drive;
    hide ReceiverStep;
    if inbox == [] {
      DriveEnds(resume, digest, r, store, inbox);
    } else {
      DriveMessage(resume, digest, r, store, inbox);
      var (next, after) := TakeMessage(resume, r, store, inbox[0]);
      if next.pc.RFailed? {
        DriveEnds(resume, digest, next, after, inbox[1..]);
      }
    }
  }

  lemma DriveSave(resume: bool, digest: seq<byte> -> string, r: Receiver, store: Store, inbox: seq<Msg>, outbox: seq<Msg>)
    requires r.pc.RSave? && r.pc.output.Size() <= r.pc.info.size
    ensures var u := UpdateState(store.state, IdentityOf(r.pc.info), r.pc.output.Size());
            var end := Drive(resume, digest, r, store, inbox);
            if u.Ok? then
              end == Drive(resume, digest, r.(pc := RData(r.pc.i, r.pc.info, r.pc.output)), store.(state := u.value), inbox)
            else
              StoppedAt(end, u.error, Flushed(r.pc, store), inbox, outbox, outbox)
  {
    hide Drive;
    hide UpdateState;
    var s := ReceiverStep(resume, digest, r, store, inbox).value;
    DriveTo(resume, digest, r, store, inbox, s.next, s.store);
  }

  lemma DriveAck(resume: bool, digest: seq<byte> -> string, r: Receiver, store: Store, inbox: seq<Msg>)
    requires r.pc.RAck?
    ensures Drive(resume, digest, r, store, inbox)
         == Then([Ack(r.pc.offset)], Drive(resume, digest, r.(pc := ROpen(r.pc.i, r.pc.info, r.pc.offset)), store, inbox))
  {
    hide Drive;
    DriveStep(resume, digest, r, store, inbox);
  }

  lemma InfoRead(resume: bool, digest: seq<byte> -> string, r: Receiver, store: Store, inbox: seq<Msg>, outbox: seq<Msg>)
    requires r.pc.RFile? && r.pc.i < r.fileCount
    ensures var end := Drive(resume, digest, r, store, inbox);
            if inbox == [] then StoppedAt(end, NetworkFailure, store, [], outbox, outbox)
            else if !inbox[0].Info? then StoppedAt(end, UnexpectedPacket, store, inbox[1..], outbox, outbox)
            else
              var (pc, s) := TakeInfo(resume, r.pc.i, store, inbox[0].info);
              if pc.RFailed? then StoppedAt(end, pc.error, s, inbox[1..], outbox, outbox)
              else
                && pc.RAck?
                && end == Then([Ack(pc.offset)], Drive(resume, digest, r.(pc := ROpen(pc.i, pc.info, pc.offset)), s, inbox[1..]))
  {
    hide Drive;
    hide ReceiverStep;
    if inbox == [] {
      DriveEnds(resume, digest, r, store, inbox);
    } else {
      DriveMessage(resume, digest, r, store, inbox);
      InfoLeads(resume, r, store, inbox[0]);
      var (next, after) := TakeMessage(resume, r, store, inbox[0]);
      hide TakeMessage;
      hide TakeInfo;
      if next.pc.RFailed? {
        DriveEnds(resume, digest, next, after, inbox[1..]);
      } else {
        DriveAck(resume, digest, next, after, inbox[1..]);
      }
    }
  }

  lemma InfoLeads(resume: bool, r: Receiver, store: Store, m: Msg)
    requires r.pc.RFile? && r.pc.i < r.fileCount
    ensures !m.Info? ==> TakeMessage(resume, r, store, m) == (r.(pc := RFailed(UnexpectedPacket)), store)
    ensures m.Info? ==>
              var (pc, s) := TakeInfo(resume, r.pc.i, store, m.info);
              TakeMessage(resume, r, store, m) == (r.(pc := pc), s) && (pc.RFailed? || pc.RAck?)
  {
    hide SafePath;
    hide Place;
    hide Parents;
  }
}
