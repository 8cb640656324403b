/** The transfer session as two step machines joined by FIFO channels: SendService and Sender on one
    side, ReceiveService and Receiver with its disk and resume state on the other. */
module Session {
  import opened Results
  import opened TransferTypes
  import opened Paths
  import opened ResumeManager

  // ---------- messages, disk, job ----------

  datatype Msg =
    | Hello(manifest: TransferManifest)
    | Directory(path: string)
    | Info(info: FileInfo)
    | Ack(offset: u64)
    | Data(payload: seq<byte>)
    | FileEnd
    | Finish

  /** The receiving side's disk, by the places that paths below save_dir lead to, and its resume state file.
      The place of save_dir is the empty one: it is in dirs if save_dir exists. */
  datatype Store = Store(files: map<string, seq<byte>>, dirs: set<string>, state: StateFile)

  /** std::filesystem::exists.  A path that ends in a slash or a dot can only name a directory. */
  predicate Exists(store: Store, path: string) {
    Place(path) in store.dirs || (EndsInName(path) && Place(path) in store.files)
  }

  /** As a directory refused on every disk, or there already. */
  predicate Barred(path: string, store: Store) { AlwaysRefused(path) || Place(path) in store.dirs }

  predicate EndsInName(path: string) { LastComponent(path) != "" && LastComponent(path) != "." }

  /** What create_directories(path.parent_path()) makes, unless it is there. */
  function Parents(path: string): set<string> {
    if EndsInName(path) then Above(Place(path)) else WithAbove(Place(path))
  }

  /** existing_file_size, with the bytes themselves. */
  function OnDisk(store: Store, place: string): seq<byte> {
    if place in store.files then store.files[place] else []
  }

  /** Where a file is written. */
  function Target(info: FileInfo): string { Place(info.relativePath) }

  datatype Source = Source(path: string, content: seq<byte>)

  /** What the sender was asked to send, its chunk size, and the digest that both sides compute.
      The program's digest is Sha256Hex; nothing below depends on which function it is. */
  datatype Job = Job(files: seq<Source>, directories: seq<string>, chunk: nat, digest: seq<byte> -> string)

  /** The receiver's enable_resume flag, the place of its state file if that is below save_dir, and the
      capacity of each channel in messages. */
  datatype Setup = Setup(resume: bool, stateFile: Option<string>, capacity: nat)

  function IdentityOf(info: FileInfo): Identity {
    Identity(info.relativePath, info.size, info.sha256)
  }

  function Min(a: nat, b: nat): nat { if a < b then a else b }

  // ---------- sender ----------

  datatype Sender =
    | SHello
    | SDirectory(i: nat)
    | SFile(i: nat)
    | SAwait(i: nat)
    | SData(i: nat, sent: nat)
    | SDone
    | SFailed(error: ErrorCode)

  datatype Sent = Sent(next: Sender, inbox: seq<Msg>, out: seq<Msg>)

  function InfoOf(job: Job, f: Source): FileInfo
    requires |f.content| < 0x1_0000_0000_0000_0000
  {
    FileInfo(f.path, |f.content|, job.digest(f.content))
  }

  /** total_entry_bytes: the sum wraps at 2^64. */
  function TotalBytes(files: seq<Source>): u64 {
    if files == [] then 0
    else (TotalBytes(files[..|files| - 1]) + |files[|files| - 1].content|) % 0x1_0000_0000_0000_0000
  }

  function AfterDirectory(job: Job, i: nat): Sender {
    if i < |job.directories| then SDirectory(i) else SFile(0)
  }

  function NextChunk(job: Job, size: nat, from: nat): nat { Min(from + job.chunk, size) }

  predicate Sendable(job: Job) {
    && 0 < job.chunk
    && |job.files| < 0x1_0000_0000_0000_0000 && |job.directories| < 0x1_0000_0000_0000_0000
    && forall f <- job.files :: |f.content| < 0x2000_0000_0000_0000
  }

  predicate SenderInRange(job: Job, s: Sender) {
    match s
    case SDirectory(i) => i < |job.directories|
    case SFile(i) => i <= |job.files|
    case SAwait(i) => i < |job.files|
    case SData(i, sent) => i < |job.files| && sent <= |job.files[i].content|
    case _ => true
  }

  /** One step of the sender; None when it has to wait for a message or has stopped. */
  function SenderStep(job: Job, s: Sender, inbox: seq<Msg>): Option<Sent>
    requires Sendable(job) && SenderInRange(job, s)
  {
    match s
    case SHello =>
      var manifest := TransferManifest(|job.files|, TotalBytes(job.files), |job.directories|);
      Some(Sent(AfterDirectory(job, 0), inbox, [Hello(manifest)]))
    case SDirectory(i) =>
      Some(Sent(AfterDirectory(job, i + 1), inbox, [Directory(job.directories[i])]))
    case SFile(i) =>
      if i == |job.files| then Some(Sent(SDone, inbox, [Finish]))
      else Some(Sent(SAwait(i), inbox, [Info(InfoOf(job, job.files[i]))]))
    case SAwait(i) =>
      if inbox == [] then None
      else if !inbox[0].Ack? then Some(Sent(SFailed(UnexpectedPacket), inbox[1..], []))
      else if inbox[0].offset > |job.files[i].content| then Some(Sent(SFailed(InvalidResumeOffset), inbox[1..], []))
      else Some(Sent(SData(i, inbox[0].offset), inbox[1..], []))
    case SData(i, sent) =>
      var content := job.files[i].content;
      if sent == |content| then Some(Sent(SFile(i + 1), inbox, [FileEnd]))
      else
        var next := NextChunk(job, |content|, sent);
        Some(Sent(SData(i, next), inbox, [Data(content[sent..next])]))
    case SDone => None
    case SFailed(_) => None
  }

  // ---------- receiver ----------

  /** base is what the output file held when it was opened, written what was written to it since. */
  datatype Output = Output(base: seq<byte>, written: seq<byte>) {
    function Size(): nat { |base| + |written| }
    function All(): seq<byte> { base + written }
  }

  datatype ReceiverPc =
    | RHello
    | RDirectory(i: nat)
    | RFile(i: nat)
    | RAck(i: nat, info: FileInfo, offset: u64)
    | ROpen(i: nat, info: FileInfo, offset: u64)
    | RData(i: nat, info: FileInfo, output: Output)
    | RSave(i: nat, info: FileInfo, output: Output)
    | RClose(i: nat, info: FileInfo, output: Output)
    | RClear(i: nat, info: FileInfo)
    | RDone
    | RFailed(error: ErrorCode)

  /** The receiver is at a point where it reads a packet. */
  predicate Reads(pc: ReceiverPc) { pc.RHello? || pc.RDirectory? || pc.RFile? || pc.RData? }

  datatype Receiver = Receiver(pc: ReceiverPc, fileCount: nat, directoryCount: nat)

  datatype Received = Received(next: Receiver, store: Store, inbox: seq<Msg>, out: seq<Msg>)

  function AfterDirectoryReceived(r: Receiver, i: nat): ReceiverPc {
    if i < r.directoryCount then RDirectory(i) else RFile(0)
  }

  /** std::filesystem::create_directories fails when a component is a regular file. */
  function CreateDirectories(store: Store, paths: set<string>): Option<Store> {
    if exists p :: p in paths && p in store.files then None else Some(store.(dirs := store.dirs + paths))
  }

  /** trusted_resume_offset, or the error thrown while the state file is read. */
  function TrustedOffset(store: Store, info: FileInfo): Result<u64, ErrorCode> {
    match FindInState(store.state, IdentityOf(info))
    case Err(e) => Err(e)
    case Ok(stored) => Ok(Min(Min(stored.GetOr(0), |OnDisk(store, Target(info))|), info.size))
  }

  /** receive_one_directory after the packet has been read. */
  function TakeDirectory(r: Receiver, store: Store, path: string): (ReceiverPc, Store)
    requires r.pc.RDirectory?
  {
    if path == "" then (RFailed(InvalidPayload), store)
    else if !SafePath(path) || LastComponent(path) == "" then (RFailed(UnsafePath), store)
    else if Exists(store, path) then (RFailed(FileWriteFailed), store)
    else match CreateDirectories(store, WithAbove(Place(path)))
      case None => (RFailed(InternalError), store)
      case Some(created) => (AfterDirectoryReceived(r, r.pc.i + 1), created)
  }

  /** receive_one_file from the decoded FILE_INFO to the computed offset. */
  function TakeInfo(resume: bool, i: nat, store: Store, info: FileInfo): (ReceiverPc, Store) {
    if !SafePath(info.relativePath) then (RFailed(UnsafePath), store)
    else if Exists(store, info.relativePath) && !resume then (RFailed(FileWriteFailed), store)
    else match CreateDirectories(store, Parents(info.relativePath))
      case None => (RFailed(InternalError), store)
      case Some(created) =>
        if !resume then (RAck(i, info, 0), created)
        else match TrustedOffset(created, info)
          case Err(e) => (RFailed(e), created)
          case Ok(offset) => (RAck(i, info, offset), created)
  }

  /** resize_file, then open for append or with truncation. */
  function OpenOutput(store: Store, place: string, offset: nat): Option<Store> {
    if place == "" || place in store.dirs then None
    else Some(store.(files := store.files[place := OnDisk(store, place)[..Min(offset, |OnDisk(store, place)|)]]))
  }

  /** The store once the output file is closed, by close() or by the destructor on an error path. */
  function Flushed(pc: ReceiverPc, store: Store): Store {
    if pc.RData? || pc.RSave? || pc.RClose? then store.(files := store.files[Target(pc.info) := pc.output.All()])
    else store
  }

  /** One message of the data loop. */
  function TakeData(resume: bool, i: nat, info: FileInfo, output: Output, m: Msg): ReceiverPc {
    match m
    case FileEnd => RClose(i, info, output)
    case Data(payload) =>
      if output.Size() + |payload| > info.size then RFailed(SizeMismatch)
      else
        var grown := output.(written := output.written + payload);
        if resume then RSave(i, info, grown) else RData(i, info, grown)
    case _ => RFailed(UnexpectedPacket)
  }

  /** A packet is read: the head of the inbox. */
  function TakeMessage(resume: bool, r: Receiver, store: Store, m: Msg): (Receiver, Store)
    requires Reads(r.pc)
  {
    match r.pc
    case RHello =>
      if !m.Hello? then (r.(pc := RFailed(UnexpectedPacket)), store)
      else
        var counted := r.(fileCount := m.manifest.fileCount, directoryCount := m.manifest.directoryCount);
        (counted.(pc := AfterDirectoryReceived(counted, 0)), store)
    case RDirectory(i) =>
      if !m.Directory? then (r.(pc := RFailed(UnexpectedPacket)), store)
      else var (pc, s) := TakeDirectory(r, store, m.path); (r.(pc := pc), s)
    case RFile(i) =>
      if i >= r.fileCount then (r.(pc := if m.Finish? then RDone else RFailed(UnexpectedPacket)), store)
      else if !m.Info? then (r.(pc := RFailed(UnexpectedPacket)), store)
      else var (pc, s) := TakeInfo(resume, i, store, m.info); (r.(pc := pc), s)
    case RData(i, info, output) =>
      var pc := TakeData(resume, i, info, output, m);
      (r.(pc := pc), if pc.RFailed? then Flushed(r.pc, store) else store)
  }

  /** One step of the receiver; None when it has to wait for a message or has stopped. */
  function ReceiverStep(resume: bool, digest: seq<byte> -> string, r: Receiver, store: Store, inbox: seq<Msg>): Option<Received> {
    match r.pc
    case RAck(i, info, offset) =>
      Some(Received(r.(pc := ROpen(i, info, offset)), store, inbox, [Ack(offset)]))
    case ROpen(i, info, offset) =>
      (match OpenOutput(store, Target(info), offset)
       case None => Some(Received(r.(pc := RFailed(FileOpenFailed)), store, inbox, []))
       case Some(ready) =>
         Some(Received(r.(pc := RData(i, info, Output(ready.files[Target(info)], []))), ready, inbox, [])))
    case RSave(i, info, output) =>
      (match UpdateState(store.state, IdentityOf(info), SavedOffset(info, output))
       case Err(e) => Some(Received(r.(pc := RFailed(e)), Flushed(r.pc, store), inbox, []))
       case Ok(state) => Some(Received(r.(pc := RData(i, info, output)), store.(state := state), inbox, [])))
    case RClose(i, info, output) =>
      var closed := Flushed(r.pc, store);
      if output.Size() != info.size then Some(Received(r.(pc := RFailed(SizeMismatch)), closed, inbox, []))
      else if digest(output.All()) != info.sha256 then
        Some(Received(r.(pc := RFailed(ChecksumMismatch)), closed, inbox, []))
      else Some(Received(r.(pc := RClear(i, info)), closed, inbox, []))
    case RClear(i, info) =>
      if !resume then Some(Received(r.(pc := RFile(i + 1)), store, inbox, []))
      else
        (match ClearState(store.state, IdentityOf(info))
         case Err(e) => Some(Received(r.(pc := RFailed(e)), store, inbox, []))
         case Ok(state) => Some(Received(r.(pc := RFile(i + 1)), store.(state := state), inbox, [])))
    case RDone => None
    case RFailed(_) => None
    case _ =>
      if inbox == [] then None
      else
        var (next, s) := TakeMessage(resume, r, store, inbox[0]);
        Some(Received(next, s, inbox[1..], []))
  }

  /** The offset passed to update_offset; it never exceeds 64 bits because DATA beyond the size is refused. */
  function SavedOffset(info: FileInfo, output: Output): u64 {
    if output.Size() < 0x1_0000_0000_0000_0000 then output.Size() else info.size
  }

  // ---------- the two together ----------

  datatype World = World(sender: Sender, receiver: Receiver, toReceiver: seq<Msg>, toSender: seq<Msg>, store: Store)

  const IDLE := Receiver(RHello, 0, 0)

  function StartSession(store: Store): World { World(SHello, IDLE, [], [], store) }

  datatype Action =
    | SenderActs
    | ReceiverActs
    /** Both sides stop.  The open output file keeps what it held when it was opened and the first
        `flushed` of the bytes written since; the state file keeps its first `kept` characters. */
    | Crash(flushed: nat, kept: nat)

  /** What a crash leaves on disk. */
  function AfterCrash(w: World, flushed: nat, kept: nat): Store {
    var files :=
      if w.receiver.pc.RData? || w.receiver.pc.RSave? || w.receiver.pc.RClose? then
        var output := w.receiver.pc.output;
        w.store.files[Target(w.receiver.pc.info) := output.base + output.written[..Min(flushed, |output.written|)]]
      else w.store.files;
    var state :=
      if w.store.state.Some? then Some(w.store.state.value[..Min(kept, |w.store.state.value|)]) else None;
    Store(files, w.store.dirs, state)
  }

  /** The next world, or None when the action is not enabled. */
  function Step(job: Job, setup: Setup, w: World, a: Action): Option<World>
    requires Sendable(job) && SenderInRange(job, w.sender)
  {
    match a
    case SenderActs =>
      (match SenderStep(job, w.sender, w.toSender)
       case None => None
       case Some(s) =>
         if |w.toReceiver| + |s.out| > setup.capacity && s.out != [] then None
         else Some(w.(sender := s.next, toSender := s.inbox, toReceiver := w.toReceiver + s.out)))
    case ReceiverActs =>
      (match ReceiverStep(setup.resume, job.digest, w.receiver, w.store, w.toReceiver)
       case None => None
       case Some(r) =>
         if |w.toSender| + |r.out| > setup.capacity && r.out != [] then None
         else Some(w.(receiver := r.next, store := r.store, toReceiver := r.inbox, toSender := w.toSender + r.out)))
    case Crash(flushed, kept) => Some(StartSession(AfterCrash(w, flushed, kept)))
  }

  lemma StepInRange(job: Job, setup: Setup, w: World, a: Action)
    requires Sendable(job) && SenderInRange(job, w.sender) && Step(job, setup, w, a).Some?
    ensures SenderInRange(job, Step(job, setup, w, a).value.sender)
  {
  }
}
