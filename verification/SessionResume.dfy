/** How much a resumed session sends again: after a crash in the middle of a file, the next session
    acknowledges what both the state file and the disk still vouch for, and the sender sends the rest. */
module SessionResume {
  import opened Results
  import opened TransferTypes
  import opened Paths
  import opened ResumeManager
  import opened Session
  import opened SessionInvariant
  import opened SessionDisk
  import opened SessionLinks
  import opened SessionTheorems
  import opened SessionRuns
  import opened SendProgram

  // ---------- what the state file says about the file being received ----------

  /** The record of the file being received: nothing on disk before it was opened is beyond it; once a DATA
      packet has been written and saved it is all that was written; in between it is one chunk behind. */
  predicate SavedOk(job: Job, pc: ReceiverPc, store: Store)
    requires Sendable(job) && PcOk(job, pc)
  {
    InFile(pc) ==>
      var stored := Stored(store.state, Id(job, job.files[pc.i]));
      match pc
      case RAck(_, _, offset) => offset <= stored
      case ROpen(_, _, offset) => offset <= stored
      case RSave(_, _, output) => |output.base| <= stored && output.Size() <= stored + job.chunk
      case RClear(i, _) => |job.files[i].content| <= stored
      case _ => |pc.output.base| <= stored && (pc.output.written != [] ==> stored == pc.output.Size())
  }

  lemma SavedInfo(job: Job, setup: Setup, i: nat, store: Store)
    requires Sendable(job) && i < |job.files| && setup.resume && GoodState(store.state)
    requires Target(InfoOf(job, job.files[i])) == Spot(job.files[i])
    ensures var (pc, s) := TakeInfo(setup.resume, i, store, InfoOf(job, job.files[i]));
            && s.state == store.state && s.files == store.files
            && (pc.RAck? ==>
                  pc.offset == Min(Min(Stored(store.state, Id(job, job.files[i])), |OnDisk(store, Spot(job.files[i]))|),
                                   |job.files[i].content|))
  {
    hide Place;
    hide LoadState;
    hide FindOffset;
    hide GoodState;
    hide SafePath;
    hide Exists;
    hide Parents;
    GoodLoads(store.state);
  }

  lemma StateIsGood(job: Job, setup: Setup, init: Store, w: World)
    requires Inv(job, setup, init, w) && Sendable(job) && setup.resume
    ensures GoodState(w.store.state) && Resumable(job)
  {
    hide Linked;
    hide GoodState;
    hide ResumeSafe;
    hide FilesDone;
    hide Framed;
    hide DirectoriesOk;
    hide CurrentFile;
    hide JobOk;
    hide PcOk;
  }

  lemma SavedFile(job: Job, setup: Setup, init: Store, w: World)
    requires Inv(job, setup, init, w) && Sendable(job) && setup.resume && w.receiver.pc.RFile? && w.toReceiver != []
    ensures var next := TakenFrom(setup, w);
            && PcOk(job, next.receiver.pc) && SavedOk(job, next.receiver.pc, next.store)
            && next.store.state == w.store.state && next.store.files == w.store.files
            && (w.receiver.pc.i >= |job.files| ==> next.receiver.pc.RDone?)
            && (w.receiver.pc.i < |job.files| ==>
                  && next.receiver.pc.RAck? && next.receiver.pc.i == w.receiver.pc.i
                  && next.receiver.pc.offset
                     == Min(Min(Stored(w.store.state, Id(job, job.files[w.receiver.pc.i])),
                                |OnDisk(w.store, Spot(job.files[w.receiver.pc.i]))|), |job.files[w.receiver.pc.i].content|))
  {
    hide Inv;
    hide Linked;
    hide TakeInfo;
    hide Place;
    hide JobOk;
    InvParts(job, setup, init, w);
    CountsKnown(job, w);
    FileExpected(job, w);
    var i := w.receiver.pc.i;
    if i < |job.files| {
      DiskInfo(job, setup, init, i, w.store);
      StateIsGood(job, setup, init, w);
      hide DiskOk;
      SavedInfo(job, setup, i, w.store);
    }
  }

  // ---------- the file's own steps ----------

  lemma SavedData(job: Job, setup: Setup, init: Store, w: World)
    requires Inv(job, setup, init, w) && Sendable(job) && setup.resume && w.receiver.pc.RData? && w.toReceiver != []
    requires PcOk(job, w.receiver.pc) && SavedOk(job, w.receiver.pc, w.store)
    ensures var next := TakenFrom(setup, w);
            && next.store == w.store && PcOk(job, next.receiver.pc) && SavedOk(job, next.receiver.pc, next.store)
            && InFile(next.receiver.pc) && next.receiver.pc.i == w.receiver.pc.i
  {
    hide Inv;
    hide Linked;
    hide DiskOk;
    hide Place;
    hide JobOk;
    hide Feeds;
    hide Near;
    hide Stored;
    InvParts(job, setup, init, w);
    SizeKnown(job, w);
    DataExpected(job, w);
    var pc := w.receiver.pc;
    var content := job.files[pc.i].content;
    if pc.output.Size() == |content| {
      EndTaken(setup.resume, pc);
    } else {
      DiskData(job, setup, init, pc, w.store, NextChunk(job, |content|, pc.output.Size()));
    }
  }

  lemma SavedOpen(job: Job, setup: Setup, init: Store, w: World)
    requires Inv(job, setup, init, w) && Sendable(job) && setup.resume && w.receiver.pc.ROpen?
    requires PcOk(job, w.receiver.pc) && SavedOk(job, w.receiver.pc, w.store)
    ensures var r := ReceiverStep(setup.resume, job.digest, w.receiver, w.store, w.toReceiver);
            && r.Some? && r.value.store.state == w.store.state && r.value.next.pc.RData? && r.value.next.pc.i == w.receiver.pc.i
            && PcOk(job, r.value.next.pc) && SavedOk(job, r.value.next.pc, r.value.store)
            && forall p :: p != Spot(job.files[w.receiver.pc.i]) ==> OnDisk(r.value.store, p) == OnDisk(w.store, p)
  {
    hide Inv;
    hide Linked;
    hide Place;
    hide JobOk;
    hide Stored;
    InvParts(job, setup, init, w);
    DiskOpen(job, setup, init, w.receiver.pc, w.store);
    hide DiskOk;
  }

  lemma SavedSave(job: Job, setup: Setup, init: Store, w: World)
    requires Inv(job, setup, init, w) && Sendable(job) && setup.resume && w.receiver.pc.RSave?
    requires PcOk(job, w.receiver.pc) && SavedOk(job, w.receiver.pc, w.store)
    ensures var r := ReceiverStep(setup.resume, job.digest, w.receiver, w.store, w.toReceiver);
            && r.Some? && r.value.store.files == w.store.files && r.value.next.pc.RData? && r.value.next.pc.i == w.receiver.pc.i
            && PcOk(job, r.value.next.pc) && SavedOk(job, r.value.next.pc, r.value.store)
            && forall id: Identity :: id != Id(job, job.files[w.receiver.pc.i]) ==> Stored(r.value.store.state, id) == Stored(w.store.state, id)
  {
    hide Inv;
    hide DiskOk;
    hide Place;
    hide UpdateState;
    hide GoodState;
    hide Records;
    hide FindOffset;
    hide Upsert;
    InvParts(job, setup, init, w);
    StateIsGood(job, setup, init, w);
    SizeSaved(job, w);
    hide Linked;
    var pc := w.receiver.pc;
    var f := job.files[pc.i];
    IdIsClean(job, f);
    hide JobOk;
    UpdateGood(w.store.state, Id(job, f), pc.output.Size());
    forall id: Identity
      ensures FindOffset(Upsert(Records(w.store.state), Id(job, f), pc.output.Size()), id)
           == if id == Id(job, f) then Some(pc.output.Size()) else FindOffset(Records(w.store.state), id)
    {
      UpsertFind(Records(w.store.state), Id(job, f), pc.output.Size(), id);
    }
  }

  lemma SizeSaved(job: Job, w: World)
    requires Sendable(job) && SenderInRange(job, w.sender) && PcOk(job, w.receiver.pc) && Linked(job, w) && w.receiver.pc.RSave?
    ensures w.receiver.pc.output.Size() <= |job.files[w.receiver.pc.i].content|
    ensures SavedOffset(w.receiver.pc.info, w.receiver.pc.output) == w.receiver.pc.output.Size()
  {
    hide Feeds;
    assert job.files[w.receiver.pc.i] in job.files;
  }

  lemma CloseStep(resume: bool, digest: seq<byte> -> string, r: Receiver, store: Store, inbox: seq<Msg>)
    requires r.pc.RClose? && r.pc.output.Size() == r.pc.info.size && digest(r.pc.output.All()) == r.pc.info.sha256
    ensures ReceiverStep(resume, digest, r, store, inbox)
         == Some(Received(r.(pc := RClear(r.pc.i, r.pc.info)), store.(files := store.files[Target(r.pc.info) := r.pc.output.All()]), inbox, []))
  {
    hide Place;
  }

  lemma SavedClose(job: Job, setup: Setup, init: Store, w: World)
    requires Inv(job, setup, init, w) && Sendable(job) && setup.resume && w.receiver.pc.RClose?
    requires PcOk(job, w.receiver.pc) && SavedOk(job, w.receiver.pc, w.store)
    ensures var r := ReceiverStep(setup.resume, job.digest, w.receiver, w.store, w.toReceiver);
            && r.Some? && r.value.store.state == w.store.state && r.value.next.pc.RClear? && r.value.next.pc.i == w.receiver.pc.i
            && PcOk(job, r.value.next.pc) && SavedOk(job, r.value.next.pc, r.value.store)
            && forall p :: p != Spot(job.files[w.receiver.pc.i]) ==> OnDisk(r.value.store, p) == OnDisk(w.store, p)
  {
    hide Inv;
    hide Linked;
    hide Place;
    hide JobOk;
    hide Stored;
    hide DiskOk;
    hide ReceiverStep;
    InvParts(job, setup, init, w);
    DiskClose(job, setup, init, w.receiver.pc, w.store);
    CloseStep(setup.resume, job.digest, w.receiver, w.store, w.toReceiver);
  }

  lemma SavedClear(job: Job, setup: Setup, init: Store, w: World)
    requires Inv(job, setup, init, w) && Sendable(job) && setup.resume && w.receiver.pc.RClear?
    requires PcOk(job, w.receiver.pc)
    ensures var r := ReceiverStep(setup.resume, job.digest, w.receiver, w.store, w.toReceiver);
            && r.Some? && r.value.store.files == w.store.files && r.value.next.pc == RFile(w.receiver.pc.i + 1)
            && forall id: Identity :: id != Id(job, job.files[w.receiver.pc.i]) ==> Stored(r.value.store.state, id) == Stored(w.store.state, id)
  {
    hide Inv;
    hide DiskOk;
    hide Linked;
    hide Place;
    hide JobOk;
    hide ClearState;
    hide GoodState;
    hide Records;
    hide FindOffset;
    hide Without;
    StateIsGood(job, setup, init, w);
    var id := Id(job, job.files[w.receiver.pc.i]);
    ClearGood(w.store.state, id);
    forall other: Identity
      ensures FindOffset(Without(Records(w.store.state), id), other) == if other == id then None else FindOffset(Records(w.store.state), other)
    {
      WithoutFind(Records(w.store.state), id, other);
    }
  }

  // ---------- one step ----------

  /** The receiver has not reached file i. */
  predicate BeforeFile(pc: ReceiverPc, i: nat) {
    pc.RHello? || pc.RDirectory? || (pc.RFile? && pc.i <= i) || (InFile(pc) && pc.i < i)
  }

  /** What a step of either side does to the record and the bytes of file i, the receiver being before it. */
  predicate SameFor(job: Job, i: nat, before: Store, after: Store)
    requires Sendable(job) && i < |job.files|
  {
    && OnDisk(after, Spot(job.files[i])) == OnDisk(before, Spot(job.files[i]))
    && Stored(after.state, Id(job, job.files[i])) == Stored(before.state, Id(job, job.files[i]))
  }

  lemma ReceiverSaves(job: Job, setup: Setup, init: Store, w: World, i: nat)
    requires Inv(job, setup, init, w) && Sendable(job) && setup.resume && i < |job.files|
    requires SenderInRange(job, w.sender) && Step(job, setup, w, ReceiverActs).Some?
    requires PcOk(job, w.receiver.pc) && SavedOk(job, w.receiver.pc, w.store)
    ensures var next := Step(job, setup, w, ReceiverActs).value;
            && PcOk(job, next.receiver.pc) && SavedOk(job, next.receiver.pc, next.store)
            && (BeforeFile(w.receiver.pc, i) ==> SameFor(job, i, w.store, next.store))
  {
    hide Inv;
    hide DiskOk;
    hide Linked;
    hide Place;
    hide Stored;
    hide UpdateState;
    hide ClearState;
    hide OpenOutput;
    hide TakeInfo;
    hide TakeDirectory;
    InvParts(job, setup, init, w);
    ReceiverKeepsInv(job, setup, init, w);
    InvParts(job, setup, init, Step(job, setup, w, ReceiverActs).value);
    var pc := w.receiver.pc;
    if InFile(pc) && pc.i < i {
      DistinctFiles(job, pc.i, i);
    }
    hide JobOk;
    match pc {
      case RHello =>
      case RDirectory(_) => DirectoryState(w.receiver, w.store, w.toReceiver[0]);
      case RFile(_) => SavedFile(job, setup, init, w);
      case RAck(_, _, _) =>
      case ROpen(_, _, _) => SavedOpen(job, setup, init, w);
      case RData(_, _, _) => SavedData(job, setup, init, w);
      case RSave(_, _, _) => SavedSave(job, setup, init, w);
      case RClose(_, _, _) => SavedClose(job, setup, init, w);
      case RClear(_, _) => SavedClear(job, setup, init, w);
      case _ =>
    }
  }

  lemma DirectoryState(r: Receiver, store: Store, m: Msg)
    requires r.pc.RDirectory?
    ensures m.Directory? ==>
              var (pc, s) := TakeDirectory(r, store, m.path);
              s.files == store.files && s.state == store.state && !InFile(pc)
  {
    hide Place;
    hide SafePath;
    hide LastComponent;
    hide Exists;
    hide WithAbove;
  }

  lemma StepSaves(job: Job, setup: Setup, init: Store, w: World, a: Action)
    requires Inv(job, setup, init, w) && Sendable(job) && setup.resume
    requires SenderInRange(job, w.sender) && Step(job, setup, w, a).Some?
    requires PcOk(job, w.receiver.pc) && SavedOk(job, w.receiver.pc, w.store)
    ensures var next := Step(job, setup, w, a).value;
            PcOk(job, next.receiver.pc) && SavedOk(job, next.receiver.pc, next.store)
  {
    hide Inv;
    hide SavedOk;
    hide SenderStep;
    hide ReceiverStep;
    match a
    case ReceiverActs =>
      if job.files != [] {
        ReceiverSaves(job, setup, init, w, 0);
      } else {
        ReceiverKeepsInv(job, setup, init, w);
        InvParts(job, setup, init, Step(job, setup, w, a).value);
        NoFiles(job, Step(job, setup, w, a).value.receiver.pc, Step(job, setup, w, a).value.store);
      }
    case Crash(_, _) => NotInFile(job, RHello, AfterCrash(w, a.flushed, a.kept));
    case SenderActs =>
  }

  lemma NoFiles(job: Job, pc: ReceiverPc, store: Store)
    requires Sendable(job) && PcOk(job, pc) && job.files == []
    ensures SavedOk(job, pc, store)
  {
  }

  lemma NotInFile(job: Job, pc: ReceiverPc, store: Store)
    requires Sendable(job) && PcOk(job, pc) && !InFile(pc)
    ensures SavedOk(job, pc, store)
  {
  }

  lemma {:induction false} RunSaves(job: Job, setup: Setup, init: Store, from: World, actions: seq<Action>, to: World)
    requires Inv(job, setup, init, from) && Sendable(job) && setup.resume
    requires PcOk(job, from.receiver.pc) && SavedOk(job, from.receiver.pc, from.store)
    requires Run(job, setup, from, actions, to) && Recoverable(job, setup, from, actions)
    ensures PcOk(job, to.receiver.pc) && SavedOk(job, to.receiver.pc, to.store)
    decreases |actions|
  {
    hide Inv;
    hide Step;
    hide SavedOk;
    hide PcOk;
    if actions != [] {
      StepKeepsInv(job, setup, init, from, actions[0]);
      StepSaves(job, setup, init, from, actions[0]);
      RunSaves(job, setup, init, Step(job, setup, from, actions[0]).value, actions[1..], to);
    }
  }

  // ---------- what is sent again ----------

  /** The bytes of DATA that this action puts on the wire for file i. */
  function Emitted(job: Job, setup: Setup, w: World, a: Action, i: nat): nat
    requires Sendable(job) && SenderInRange(job, w.sender) && Step(job, setup, w, a).Some?
  {
    if a.SenderActs? && w.sender.SData? && w.sender.i == i
    then DataBytes(Step(job, setup, w, a).value.toReceiver[|w.toReceiver|..])
    else 0
  }

  /** And along a whole run. */
  function DataSent(job: Job, setup: Setup, from: World, actions: seq<Action>, i: nat): nat
    requires Sendable(job)
    decreases |actions|
  {
    if actions == [] || !SenderInRange(job, from.sender) || Step(job, setup, from, actions[0]).None? then 0
    else
      Emitted(job, setup, from, actions[0], i)
      + DataSent(job, setup, Step(job, setup, from, actions[0]).value, actions[1..], i)
  }

  /** The sender has sent FILE_END of file i. */
  predicate PastFile(s: Sender, i: nat) {
    match s
    case SFile(j) => j > i
    case SAwait(j) => j > i
    case SData(j, _) => j > i
    case SDone => true
    case _ => false
  }

  /** File i is acknowledged at k, and n of its bytes have been sent in this session. */
  ghost predicate Resuming(job: Job, i: nat, k: nat, w: World, n: nat)
    requires Sendable(job) && i < |job.files|
  {
    && k <= |job.files[i].content|
    && (BeforeFile(w.receiver.pc, i) ==>
          k == Min(Min(Stored(w.store.state, Id(job, job.files[i])), |OnDisk(w.store, Spot(job.files[i]))|), |job.files[i].content|))
    && (w.receiver.pc.RAck? && w.receiver.pc.i == i ==> w.receiver.pc.offset == k)
    && (w.sender == SAwait(i) ==> forall m <- w.toSender :: m == Ack(k))
    && (if PastFile(w.sender, i) then n == |job.files[i].content| - k
        else if w.sender.SData? && w.sender.i == i then w.sender.sent == k + n
        else n == 0)
  }

  /** A sender that awaits nothing has no acknowledgement waiting. */
  lemma NothingWaits(job: Job, w: World)
    requires Sendable(job) && SenderInRange(job, w.sender) && PcOk(job, w.receiver.pc) && Linked(job, w)
    ensures !w.sender.SAwait? ==> w.toSender == []
    ensures w.receiver.pc.RAck? ==> w.sender == SAwait(w.receiver.pc.i) && w.toSender == []
  {
    hide SentBefore;
    hide Chunks;
    hide Aligned;
    hide InfoOf;
    hide Feeds;
    hide Near;
    hide Ahead;
  }

  lemma EmittedIs(job: Job, setup: Setup, w: World, i: nat)
    requires Sendable(job) && SenderInRange(job, w.sender) && Step(job, setup, w, SenderActs).Some?
    ensures Emitted(job, setup, w, SenderActs, i)
         == if w.sender.SData? && w.sender.i == i then
              NextChunk(job, |job.files[i].content|, w.sender.sent) - w.sender.sent
            else 0
  {
    hide InfoOf;
    hide TotalBytes;
    if w.sender.SData? {
      var out := SenderStep(job, w.sender, w.toSender).value.out;
      assert Step(job, setup, w, SenderActs).value.toReceiver[|w.toReceiver|..] == out;
      assert out[..0] == [];
      assert DataBytes(out) == if out[0].Data? then |out[0].payload| else 0;
    }
  }

  lemma SenderResumes(job: Job, setup: Setup, init: Store, i: nat, k: nat, w: World, n: nat)
    requires Inv(job, setup, init, w) && Sendable(job) && i < |job.files| && Resuming(job, i, k, w, n)
    requires SenderInRange(job, w.sender) && Step(job, setup, w, SenderActs).Some?
    ensures Resuming(job, i, k, Step(job, setup, w, SenderActs).value, n + Emitted(job, setup, w, SenderActs, i))
  {
    hide Inv;
    hide DiskOk;
    hide Linked;
    hide Place;
    hide Stored;
    hide JobOk;
    hide InfoOf;
    hide TotalBytes;
    InvParts(job, setup, init, w);
    NothingWaits(job, w);
    EmittedIs(job, setup, w, i);
    hide Emitted;
    var next := Step(job, setup, w, SenderActs).value;
    SenderKeepsInv(job, setup, init, w);
    InvParts(job, setup, init, next);
    if w.sender == SAwait(i) {
      assert w.toSender[0] in w.toSender;
    }
  }

  lemma ReceiverResumes(job: Job, setup: Setup, init: Store, i: nat, k: nat, w: World, n: nat)
    requires Inv(job, setup, init, w) && Sendable(job) && setup.resume && i < |job.files| && Resuming(job, i, k, w, n)
    requires SenderInRange(job, w.sender) && Step(job, setup, w, ReceiverActs).Some?
    requires PcOk(job, w.receiver.pc) && SavedOk(job, w.receiver.pc, w.store)
    ensures Resuming(job, i, k, Step(job, setup, w, ReceiverActs).value, n)
  {
    hide Inv;
    hide DiskOk;
    hide Linked;
    hide Place;
    hide Stored;
    hide JobOk;
    hide InfoOf;
    hide TakeInfo;
    hide TakeDirectory;
    hide SavedOk;
    InvParts(job, setup, init, w);
    NothingWaits(job, w);
    ReceiverSaves(job, setup, init, w, i);
    var next := Step(job, setup, w, ReceiverActs).value;
    if w.receiver.pc.RAck? {
      assert next.toSender == [Ack(w.receiver.pc.offset)];
    } else {
      assert next.toSender == w.toSender;
      if w.receiver.pc.RFile? {
        SavedFile(job, setup, init, w);
      } else if w.receiver.pc.RDirectory? {
        DirectoryState(w.receiver, w.store, w.toReceiver[0]);
      }
    }
  }

  lemma {:induction false} RunResumes(job: Job, setup: Setup, init: Store, i: nat, k: nat, from: World, actions: seq<Action>,
                                      to: World, n: nat)
    requires Inv(job, setup, init, from) && Sendable(job) && setup.resume && i < |job.files| && Resuming(job, i, k, from, n)
    requires PcOk(job, from.receiver.pc) && SavedOk(job, from.receiver.pc, from.store)
    requires Run(job, setup, from, actions, to) && CrashFree(actions)
    ensures Resuming(job, i, k, to, n + DataSent(job, setup, from, actions, i))
    decreases |actions|
  {
    hide Inv;
    hide Step;
    hide SavedOk;
    hide PcOk;
    hide Resuming;
    hide Emitted;
    if actions != [] {
      StepKeepsInv(job, setup, init, from, actions[0]);
      StepSaves(job, setup, init, from, actions[0]);
      var next := Step(job, setup, from, actions[0]).value;
      assert actions[0] in actions;
      if actions[0].SenderActs? {
        SenderResumes(job, setup, init, i, k, from, n);
      } else {
        ReceiverResumes(job, setup, init, i, k, from, n);
        NoneEmitted(job, setup, from, i);
      }
      RunResumes(job, setup, init, i, k, next, actions[1..], to, n + Emitted(job, setup, from, actions[0], i));
    }
  }

  lemma NoneEmitted(job: Job, setup: Setup, w: World, i: nat)
    requires Sendable(job) && SenderInRange(job, w.sender) && Step(job, setup, w, ReceiverActs).Some?
    ensures Emitted(job, setup, w, ReceiverActs, i) == 0
  {
    hide Step;
  }

  // ---------- the result ----------

  /** How much of file i a crash leaves on disk, the file having been opened. */
  function KeptBytes(pc: ReceiverPc, flushed: nat): nat
    requires pc.RData? || pc.RSave? || pc.RClose? || pc.RClear?
  {
    if pc.RClear? then pc.info.size else |pc.output.base| + Min(flushed, |pc.output.written|)
  }

  lemma CrashKeeps(job: Job, setup: Setup, init: Store, w: World, flushed: nat, kept: nat)
    requires Inv(job, setup, init, w) && Sendable(job) && PcOk(job, w.receiver.pc)
    requires w.receiver.pc.RData? || w.receiver.pc.RSave? || w.receiver.pc.RClose? || w.receiver.pc.RClear?
    requires w.store.state.Some? ==> kept >= |w.store.state.value|
    ensures var s := AfterCrash(w, flushed, kept);
            && s.state == w.store.state
            && |OnDisk(s, Spot(job.files[w.receiver.pc.i]))| == KeptBytes(w.receiver.pc, flushed)
            && KeptBytes(w.receiver.pc, flushed) <= |job.files[w.receiver.pc.i].content|
  {
    hide Linked;
    hide Place;
    hide StoreOk;
    hide FilesDone;
    hide NothingAhead;
    hide DirectoriesOk;
    hide Made;
    if w.store.state.Some? {
      assert w.store.state.value[..|w.store.state.value|] == w.store.state.value;
    }
  }

  /** A crash while file i is open or about to be cleared, the state file left whole: the next session
      acknowledges file i at the least of the saved offset and what is on disk, and sends exactly the rest.
      Between two packets, and from FILE_END on, that is everything that is on disk; before the last packet
      has been recorded it is at most one chunk less. */
  lemma ResumesExactly(job: Job, setup: Setup, init: Store, actions: seq<Action>, w: World, flushed: nat, kept: nat,
                       rest: seq<Action>, to: World)
    requires StoreReady(job, setup, init) && Sendable(job) && setup.resume
    requires Run(job, setup, StartSession(init), actions, w) && Recoverable(job, setup, StartSession(init), actions)
    requires w.receiver.pc.RData? || w.receiver.pc.RSave? || w.receiver.pc.RClose? || w.receiver.pc.RClear?
    requires w.store.state.Some? ==> kept >= |w.store.state.value|
    requires CanRetry(job, setup, AfterCrash(w, flushed, kept))
    requires Run(job, setup, StartSession(AfterCrash(w, flushed, kept)), rest, to) && CrashFree(rest)
    ensures w.receiver.pc.i < |job.files|
    ensures var pc := w.receiver.pc;
            var f := job.files[pc.i];
            var onDisk := KeptBytes(pc, flushed);
            var k := Min(Stored(w.store.state, Id(job, f)), onDisk);
            && (to.receiver.pc.RAck? && to.receiver.pc.i == pc.i ==> to.receiver.pc.offset == k)
            && (PastFile(to.sender, pc.i) ==>
                  DataSent(job, setup, StartSession(AfterCrash(w, flushed, kept)), rest, pc.i) == |f.content| - k)
            && (if pc.RSave? then k <= onDisk <= k + job.chunk else k == onDisk)
  {
    hide Inv;
    hide StoreReady;
    hide Run;
    hide Recoverable;
    hide AfterCrash;
    hide Step;
    hide Place;
    hide Stored;
    hide CanRetry;
    InvHoldsInitially(job, setup, init);
    RunKeepsInv(job, setup, init, StartSession(init), actions, w);
    NotInFile(job, RHello, init);
    RunSaves(job, setup, init, StartSession(init), actions, w);
    CrashKeeps(job, setup, init, w, flushed, kept);
    CrashKeepsInv(job, setup, init, w, flushed, kept);
    var pc := w.receiver.pc;
    var start := StartSession(AfterCrash(w, flushed, kept));
    var k := Min(Stored(w.store.state, Id(job, job.files[pc.i])), KeptBytes(pc, flushed));
    NotInFile(job, RHello, start.store);
    RunResumes(job, setup, init, pc.i, k, start, rest, to, 0);
  }
}
