/** What every reachable world of a session satisfies, across crashes and retries. */
module SessionInvariant {
  import opened Results
  import opened TransferTypes
  import opened Paths
  import opened ResumeText
  import opened ResumeManager
  import opened Session

  // ---------- the job ----------

  /** A path that can name a file below save_dir. */
  predicate FilePathOk(path: string) { SafePath(path) && EndsInName(path) && Place(path) != "" }

  /** FILE_INFO does not take an empty digest. */
  predicate DigestOk(digest: string) { digest != "" }

  /** The state file cannot hold braces. */
  predicate Resumable(job: Job) { forall f <- job.files :: BraceFree(f.path) && BraceFree(job.digest(f.content)) }

  /** Where a file of the job goes. */
  function Spot(f: Source): string { Place(f.path) }

  /** Distinct targets, no file where a directory is needed, and no directory listed after one inside it; all
      of this about the places that the paths lead to, save_dir itself included. */
  ghost predicate JobOk(job: Job) {
    && Sendable(job)
    && (forall f <- job.files :: FilePathOk(f.path) && DigestOk(job.digest(f.content)))
    && (forall d <- job.directories :: !AlwaysRefused(d))
    && (forall i, j :: 0 <= i < j < |job.files| ==> Spot(job.files[i]) != Spot(job.files[j]))
    && (forall i, j :: 0 <= i < |job.files| && 0 <= j < |job.files| ==>
          Spot(job.files[i]) !in Above(Spot(job.files[j])))
    && (forall i, j :: 0 <= i < |job.files| && 0 <= j < |job.directories| ==>
          Spot(job.files[i]) !in WithAbove(Place(job.directories[j])))
    && (forall i, j :: 0 <= i < j < |job.directories| ==>
          Place(job.directories[j]) !in WithAbove(Place(job.directories[i])))
  }

  /** The directories made for the first i DIRECTORY_INFO packets. */
  function DirectoriesMade(job: Job, i: nat): set<string>
    requires i <= |job.directories|
  {
    set k, p | 0 <= k < i && p in WithAbove(Place(job.directories[k])) :: p
  }

  /** The parent directories made for the first i files. */
  function ParentsMade(job: Job, i: nat): set<string>
    requires i <= |job.files|
  {
    set k, p | 0 <= k < i && p in Above(Spot(job.files[k])) :: p
  }

  /** Every directory of the sender's tree. */
  function TargetDirectories(job: Job): set<string> {
    DirectoriesMade(job, |job.directories|) + ParentsMade(job, |job.files|)
  }

  function TargetPaths(job: Job): set<string> {
    set k | 0 <= k < |job.files| :: Spot(job.files[k])
  }

  /** The sender's files as a map from path to content. */
  function TargetFiles(job: Job): map<string, seq<byte>> {
    FilesUpTo(job, |job.files|)
  }

  function FilesUpTo(job: Job, n: nat): map<string, seq<byte>>
    requires n <= |job.files|
  {
    if n == 0 then map[] else FilesUpTo(job, n - 1)[Spot(job.files[n - 1]) := job.files[n - 1].content]
  }

  lemma FilesNeverDirectories(job: Job, i: nat)
    requires JobOk(job) && i < |job.files|
    ensures Spot(job.files[i]) !in TargetDirectories(job)
  {
  }

  // ---------- resume safety ----------

  function Id(job: Job, f: Source): Identity
    requires |f.content| < 0x1_0000_0000_0000_0000
  {
    IdentityOf(InfoOf(job, f))
  }

  function Stored(state: StateFile, id: Identity): nat {
    FindOffset(Records(state), id).GetOr(0)
  }

  /** However far the state file and the disk let the receiver resume, the bytes are the source's. */
  predicate SafeToResume(stored: nat, disk: seq<byte>, content: seq<byte>) {
    var m := Min(stored, |disk|);
    m <= |content| && disk[..m] == content[..m]
  }

  predicate ResumeSafe(job: Job, store: Store)
    requires Sendable(job)
  {
    forall f <- job.files :: SafeToResume(Stored(store.state, Id(job, f)), OnDisk(store, Spot(f)), f.content)
  }

  lemma PrefixIsSafe(stored: nat, disk: seq<byte>, content: seq<byte>)
    requires disk <= content
    ensures SafeToResume(stored, disk, content)
  {
  }

  lemma IdIsClean(job: Job, f: Source)
    requires JobOk(job) && Resumable(job) && f in job.files
    ensures CleanIdentity(Id(job, f))
  {
    hide Place;
  }

  // ---------- the disk ----------

  /** The state file is none of the job's own files or directories; the store keeps it apart. */
  predicate StateFileApart(job: Job, setup: Setup) {
    setup.stateFile.Some? ==> setup.stateFile.value !in TargetPaths(job) + TargetDirectories(job)
  }

  /** What a store has to satisfy before the first session; the directories must be new. */
  ghost predicate StoreReady(job: Job, setup: Setup, store: Store) {
    && JobOk(job)
    && setup.capacity > 0
    && (setup.resume ==>
          Resumable(job) && StateFileApart(job, setup) && GoodState(store.state) && ResumeSafe(job, store))
    && (forall f <- job.files :: Spot(f) !in store.dirs && (!setup.resume ==> Spot(f) !in store.files))
    && (forall p <- TargetDirectories(job) :: p !in store.files)
    && (forall d <- job.directories :: Place(d) !in store.dirs)
  }

  /** Whether a new session can succeed on what a crash left behind: the first directory has not been
      made and, without resume, the first file has not been created.  The code refuses a target that
      exists, except a file when resume is enabled. */
  predicate CanRetry(job: Job, setup: Setup, store: Store) {
    && (job.directories != [] ==> Place(job.directories[0]) !in store.dirs)
    && (!setup.resume && job.files != [] ==> Spot(job.files[0]) !in store.files)
  }

  /** How many files the receiver has completed in this session. */
  function Completed(job: Job, pc: ReceiverPc): nat {
    match pc
    case RFile(i) => i
    case RAck(i, _, _) => i
    case ROpen(i, _, _) => i
    case RData(i, _, _) => i
    case RSave(i, _, _) => i
    case RClose(i, _, _) => i
    case RClear(i, _) => i
    case RDone => |job.files|
    case _ => 0
  }

  /** The receiver is in the middle of a file. */
  predicate InFile(pc: ReceiverPc) {
    pc.RAck? || pc.ROpen? || pc.RData? || pc.RSave? || pc.RClose? || pc.RClear?
  }

  /** The file being received is the sender's file with the same index. */
  predicate PcOk(job: Job, pc: ReceiverPc)
    requires Sendable(job)
  {
    && !pc.RFailed?
    && (pc.RDirectory? ==> pc.i < |job.directories|)
    && (pc.RFile? ==> pc.i <= |job.files|)
    && (InFile(pc) ==>
          && pc.i < |job.files| && pc.info == InfoOf(job, job.files[pc.i])
          && Target(pc.info) == Spot(job.files[pc.i]))
  }

  /** The directories made so far in this session. */
  function Made(job: Job, pc: ReceiverPc): set<string>
    requires Sendable(job) && PcOk(job, pc)
  {
    match pc
    case RHello => {}
    case RDirectory(i) => DirectoriesMade(job, i)
    case RFile(i) => DirectoriesMade(job, |job.directories|) + ParentsMade(job, i)
    case RDone => TargetDirectories(job)
    case RFailed(_) => {}
    case _ => DirectoriesMade(job, |job.directories|) + ParentsMade(job, pc.i + 1)
  }

  /** The output file agrees with the source as far as it has been received. */
  predicate CurrentFile(job: Job, setup: Setup, pc: ReceiverPc, store: Store)
    requires Sendable(job) && PcOk(job, pc)
  {
    match pc
    case RAck(i, _, offset) => OffsetIsRight(setup, job.files[i], store, offset)
    case ROpen(i, _, offset) => OffsetIsRight(setup, job.files[i], store, offset)
    case RData(i, _, output) => OutputIsRight(job.files[i], store, output)
    case RSave(i, _, output) => OutputIsRight(job.files[i], store, output) && setup.resume
    case RClose(i, _, output) => OutputIsRight(job.files[i], store, output) && output.Size() == |job.files[i].content|
    case RClear(i, _) => Spot(job.files[i]) in store.files && store.files[Spot(job.files[i])] == job.files[i].content
    case _ => true
  }

  /** An offset the receiver acknowledges names bytes that are on disk and are the source's. */
  predicate OffsetIsRight(setup: Setup, f: Source, store: Store, offset: nat) {
    && offset <= |f.content|
    && offset <= |OnDisk(store, Spot(f))|
    && OnDisk(store, Spot(f))[..offset] == f.content[..offset]
    && (!setup.resume ==> offset == 0)
  }

  predicate OutputIsRight(f: Source, store: Store, output: Output) {
    && Spot(f) in store.files && store.files[Spot(f)] == output.base
    && output.Size() <= |f.content|
    && output.All() == f.content[..output.Size()]
  }

  /** Files already received are the source's and have no record left. */
  predicate FilesDone(job: Job, setup: Setup, n: nat, store: Store)
    requires Sendable(job) && n <= |job.files|
  {
    forall j :: 0 <= j < n ==>
      && Spot(job.files[j]) in store.files
      && store.files[Spot(job.files[j])] == job.files[j].content
      && (setup.resume ==> FindOffset(Records(store.state), Id(job, job.files[j])) == None)
  }

  /** Only the job's own files and directories have changed since init. */
  ghost predicate Framed(job: Job, init: Store, store: Store) {
    && (forall p :: p !in TargetPaths(job) ==> (p in store.files <==> p in init.files))
    && (forall p :: p !in TargetPaths(job) && p in init.files ==> store.files[p] == init.files[p])
    && init.dirs <= store.dirs <= init.dirs + TargetDirectories(job)
  }

  /** What does not depend on where the receiver is. */
  ghost predicate StoreOk(job: Job, setup: Setup, init: Store, store: Store) {
    && StoreReady(job, setup, init)
    && (setup.resume ==> GoodState(store.state) && ResumeSafe(job, store))
    && Framed(job, init, store)
  }

  /** The directories made so far are there, and for a job with directories no others are. */
  ghost predicate DirectoriesOk(job: Job, init: Store, made: set<string>, store: Store) {
    && made <= store.dirs
    && (job.directories != [] ==> store.dirs == init.dirs + made)
  }

  ghost predicate DiskOk(job: Job, setup: Setup, init: Store, pc: ReceiverPc, store: Store) {
    && StoreOk(job, setup, init, store)
    && PcOk(job, pc)
    && Completed(job, pc) <= |job.files|
    && DirectoriesOk(job, init, Made(job, pc), store)
    && FilesDone(job, setup, Completed(job, pc), store)
    && (!setup.resume ==> NothingAhead(job, pc, store))
    && CurrentFile(job, setup, pc, store)
  }

  /** Without resume, files not yet opened do not exist. */
  predicate NothingAhead(job: Job, pc: ReceiverPc, store: Store) {
    forall j :: Completed(job, pc) <= j < |job.files| ==>
      (Spot(job.files[j]) in store.files ==> j == Completed(job, pc) && (pc.RData? || pc.RClose? || pc.RClear?))
  }

  // ---------- the channels ----------

  /** Stepping by whole chunks from `from` lands on `to`. */
  predicate Aligned(job: Job, size: nat, from: nat, to: nat)
    requires job.chunk > 0
    decreases size - from
  {
    from == to || (from < size && Aligned(job, size, NextChunk(job, size, from), to))
  }

  /** The DATA messages that carry content[from..to]. */
  function Chunks(job: Job, content: seq<byte>, from: nat, to: nat): seq<Msg>
    requires job.chunk > 0 && from <= |content| && Aligned(job, |content|, from, to)
    decreases |content| - from
  {
    if from == to then []
    else
      var next := NextChunk(job, |content|, from);
      [Data(content[from..next])] + Chunks(job, content, next, to)
  }

  lemma {:induction false} ChunksSnoc(job: Job, content: seq<byte>, from: nat, to: nat)
    requires job.chunk > 0 && from <= |content| && Aligned(job, |content|, from, to) && to < |content|
    ensures var next := NextChunk(job, |content|, to);
            && Aligned(job, |content|, from, next)
            && Chunks(job, content, from, next) == Chunks(job, content, from, to) + [Data(content[to..next])]
    decreases |content| - from
  {
    var next := NextChunk(job, |content|, to);
    if from == to {
      assert Aligned(job, |content|, next, next);
      assert Chunks(job, content, next, next) == [];
    } else {
      ChunksSnoc(job, content, NextChunk(job, |content|, from), to);
      AlignedForward(job, |content|, NextChunk(job, |content|, from), next);
    }
  }

  lemma {:induction false} AlignedForward(job: Job, size: nat, from: nat, to: nat)
    requires job.chunk > 0 && from <= size && Aligned(job, size, from, to)
    ensures from <= to <= size
    decreases size - from
  {
    if from != to {
      AlignedForward(job, size, NextChunk(job, size, from), to);
    }
  }

  /** HELLO and the directories. */
  function Opening(job: Job): seq<Msg>
    requires Sendable(job)
  {
    [Hello(TransferManifest(|job.files|, TotalBytes(job.files), |job.directories|))] + DirectoryMessages(job)
  }

  function DirectoryMessages(job: Job): seq<Msg> {
    seq(|job.directories|, i requires 0 <= i < |job.directories| => Directory(job.directories[i]))
  }

  /** The sender is between the end of file i - 1 and the acknowledgement of file i. */
  predicate Near(job: Job, s: Sender, i: nat) {
    (s == SFile(i) && i <= |job.files|) || (s == SAwait(i) && i < |job.files|) || (s == SDone && i == |job.files|)
  }

  /** What it has sent since the end of file i - 1. */
  function Ahead(job: Job, s: Sender): seq<Msg>
    requires Sendable(job) && SenderInRange(job, s)
  {
    match s
    case SAwait(i) => [Info(InfoOf(job, job.files[i]))]
    case SDone => [Finish]
    case _ => []
  }

  /** Everything sent so far, while the receiver is still before its first file. */
  function SentBefore(job: Job, s: Sender): seq<Msg>
    requires Sendable(job) && SenderInRange(job, s)
  {
    match s
    case SHello => []
    case SDirectory(i) => Opening(job)[..i + 1]
    case _ => Opening(job) + Ahead(job, s)
  }

  function OpeningRead(pc: ReceiverPc): nat {
    match pc
    case RDirectory(i) => i + 1
    case _ => 0
  }

  /** The channel holds the rest of file i from position `from`, and what the sender sent after it. */
  predicate Feeds(job: Job, s: Sender, i: nat, from: nat, channel: seq<Msg>)
    requires Sendable(job) && SenderInRange(job, s) && i < |job.files| && from <= |job.files[i].content|
  {
    var content := job.files[i].content;
    if s.SData? then
      s.i == i && Aligned(job, |content|, from, s.sent) && channel == Chunks(job, content, from, s.sent)
    else
      && Near(job, s, i + 1)
      && Aligned(job, |content|, from, |content|)
      && channel == Chunks(job, content, from, |content|) + ([FileEnd] + Ahead(job, s))
  }

  /** The acknowledgement is on its way, or the sender is streaming from there. */
  predicate Acknowledged(job: Job, w: World, i: nat, from: nat)
    requires Sendable(job) && SenderInRange(job, w.sender) && i < |job.files| && from <= |job.files[i].content|
  {
    || (w.sender == SAwait(i) && w.toSender == [Ack(from)] && w.toReceiver == [])
    || (w.toSender == [] && Feeds(job, w.sender, i, from, w.toReceiver))
  }

  predicate Counted(job: Job, r: Receiver) {
    r.fileCount == |job.files| && r.directoryCount == |job.directories|
  }

  predicate Linked(job: Job, w: World)
    requires Sendable(job) && SenderInRange(job, w.sender) && PcOk(job, w.receiver.pc)
  {
    match w.receiver.pc
    case RHello => OpeningLinked(job, w)
    case RDirectory(_) => Counted(job, w.receiver) && OpeningLinked(job, w)
    case RFile(i) =>
      && Counted(job, w.receiver) && Near(job, w.sender, i)
      && w.toReceiver == Ahead(job, w.sender) && w.toSender == []
    case RAck(i, _, _) =>
      Counted(job, w.receiver) && w.sender == SAwait(i) && w.toReceiver == [] && w.toSender == []
    case ROpen(i, _, offset) =>
      Counted(job, w.receiver) && offset <= |job.files[i].content| && Acknowledged(job, w, i, offset)
    case RData(i, _, output) =>
      && Counted(job, w.receiver) && output.Size() <= |job.files[i].content|
      && Acknowledged(job, w, i, output.Size())
    case RSave(i, _, output) =>
      && Counted(job, w.receiver) && output.Size() <= |job.files[i].content|
      && w.toSender == [] && Feeds(job, w.sender, i, output.Size(), w.toReceiver)
    case RClose(i, _, _) =>
      && Counted(job, w.receiver) && Near(job, w.sender, i + 1)
      && w.toReceiver == Ahead(job, w.sender) && w.toSender == []
    case RClear(i, _) =>
      && Counted(job, w.receiver) && Near(job, w.sender, i + 1)
      && w.toReceiver == Ahead(job, w.sender) && w.toSender == []
    case RDone => w.sender == SDone && w.toReceiver == [] && w.toSender == []
    case RFailed(_) => false
  }

  predicate OpeningLinked(job: Job, w: World)
    requires Sendable(job) && SenderInRange(job, w.sender)
  {
    var n := OpeningRead(w.receiver.pc);
    && (w.sender.SHello? || w.sender.SDirectory? || Near(job, w.sender, 0))
    && n <= |SentBefore(job, w.sender)|
    && w.toReceiver == SentBefore(job, w.sender)[n..]
    && w.toSender == []
  }

  /** The invariant. */
  ghost predicate Inv(job: Job, setup: Setup, init: Store, w: World) {
    && DiskOk(job, setup, init, w.receiver.pc, w.store)
    && SenderInRange(job, w.sender) && !w.sender.SFailed?
    && Linked(job, w)
  }

  lemma InvHoldsInitially(job: Job, setup: Setup, init: Store)
    requires StoreReady(job, setup, init)
    ensures Inv(job, setup, init, StartSession(init))
  {
  }
}
