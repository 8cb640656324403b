/** The session's main results: the invariant over every run with any number of crashes and retries,
    no failure, no deadlock, termination, and what is on disk at the end. */
module SessionTheorems {
  import opened ResumeManager
  import opened Session
  import opened SessionInvariant
  import opened SessionDisk
  import opened SessionLinks

  // ---------- one step ----------

  lemma InvParts(job: Job, setup: Setup, init: Store, w: World)
    requires Inv(job, setup, init, w)
    ensures JobOk(job) && Sendable(job) && setup.capacity > 0
    ensures SenderInRange(job, w.sender) && !w.sender.SFailed? && PcOk(job, w.receiver.pc) && !w.receiver.pc.RFailed?
    ensures DiskOk(job, setup, init, w.receiver.pc, w.store) && Linked(job, w)
  {
    ReadyIsOk(job, setup, init, w.store);
    hide Linked;
    hide JobOk;
    hide Framed;
    hide FilesDone;
    hide NothingAhead;
    hide CurrentFile;
    hide ResumeSafe;
    hide GoodState;
  }

  lemma InvFrom(job: Job, setup: Setup, init: Store, w: World)
    requires Sendable(job) && SenderInRange(job, w.sender) && !w.sender.SFailed? && PcOk(job, w.receiver.pc)
    requires DiskOk(job, setup, init, w.receiver.pc, w.store) && Linked(job, w)
    ensures Inv(job, setup, init, w)
  {
    hide DiskOk;
    hide Linked;
    hide PcOk;
  }

  lemma DiskPc(job: Job, setup: Setup, init: Store, pc: ReceiverPc, store: Store)
    requires DiskOk(job, setup, init, pc, store)
    ensures Sendable(job) && PcOk(job, pc)
  {
    ReadyIsOk(job, setup, init, store);
    hide StoreOk;
    hide FilesDone;
    hide NothingAhead;
    hide CurrentFile;
    hide DirectoriesOk;
    hide Made;
  }

  function TakenFrom(setup: Setup, w: World): World
    requires w.toReceiver != []
    requires Reads(w.receiver.pc)
  {
    var (r, s) := TakeMessage(setup.resume, w.receiver, w.store, w.toReceiver[0]);
    w.(receiver := r, store := s, toReceiver := w.toReceiver[1..])
  }

  lemma TakesHello(job: Job, setup: Setup, init: Store, w: World)
    requires Inv(job, setup, init, w) && w.toReceiver != [] && w.receiver.pc.RHello?
    ensures Inv(job, setup, init, TakenFrom(setup, w))
  {
    hide Inv;
    hide DiskOk;
    hide Linked;
    hide TotalBytes;
    hide JobOk;
    InvParts(job, setup, init, w);
    HelloExpected(job, w);
    DiskHello(job, setup, init, w.store);
    InvFrom(job, setup, init, TakenFrom(setup, w));
  }

  lemma TakesDirectory(job: Job, setup: Setup, init: Store, w: World)
    requires Inv(job, setup, init, w) && w.toReceiver != [] && w.receiver.pc.RDirectory?
    ensures Inv(job, setup, init, TakenFrom(setup, w))
  {
    hide Inv;
    hide DiskOk;
    hide Linked;
    hide TakeDirectory;
    hide JobOk;
    InvParts(job, setup, init, w);
    CountsKnown(job, w);
    DirectoryExpected(job, w);
    DiskDirectory(job, setup, init, w.receiver, w.store);
    var next := TakenFrom(setup, w);
    DiskPc(job, setup, init, next.receiver.pc, next.store);
    SameLinked(job, w.(receiver := next.receiver, toReceiver := next.toReceiver), next.store);
    InvFrom(job, setup, init, next);
  }

  lemma CountsKnown(job: Job, w: World)
    requires Sendable(job) && SenderInRange(job, w.sender) && PcOk(job, w.receiver.pc) && Linked(job, w)
    requires !w.receiver.pc.RHello? && !w.receiver.pc.RDone?
    ensures Counted(job, w.receiver)
  {
    hide OpeningLinked;
    hide Acknowledged;
    hide Feeds;
    hide Near;
    hide Ahead;
  }

  /** The channels do not depend on the disk. */
  lemma SameLinked(job: Job, w: World, store: Store)
    requires Sendable(job) && SenderInRange(job, w.sender) && PcOk(job, w.receiver.pc) && Linked(job, w)
    ensures Linked(job, w.(store := store))
  {
    hide SentBefore;
    hide Feeds;
    hide Near;
    hide Ahead;
  }

  lemma TakesFile(job: Job, setup: Setup, init: Store, w: World)
    requires Inv(job, setup, init, w) && w.toReceiver != [] && w.receiver.pc.RFile?
    ensures Inv(job, setup, init, TakenFrom(setup, w))
  {
    hide Inv;
    hide DiskOk;
    hide Linked;
    hide TakeInfo;
    hide JobOk;
    InvParts(job, setup, init, w);
    CountsKnown(job, w);
    FileExpected(job, w);
    var i := w.receiver.pc.i;
    if i == |job.files| {
      DiskFinish(job, setup, init, w.store);
    } else {
      DiskInfo(job, setup, init, i, w.store);
    }
    var next := TakenFrom(setup, w);
    DiskPc(job, setup, init, next.receiver.pc, next.store);
    TakenLinked(job, w, next.receiver.pc, next.store);
    InvFrom(job, setup, init, next);
  }

  lemma TakesData(job: Job, setup: Setup, init: Store, w: World)
    requires Inv(job, setup, init, w) && w.toReceiver != [] && w.receiver.pc.RData?
    ensures Inv(job, setup, init, TakenFrom(setup, w))
  {
    hide Inv;
    hide DiskOk;
    hide Linked;
    hide JobOk;
    hide Feeds;
    hide Near;
    hide AfterData;
    InvParts(job, setup, init, w);
    SizeKnown(job, w);
    DataExpected(job, w);
    var pc := w.receiver.pc;
    var content := job.files[pc.i].content;
    if pc.output.Size() == |content| {
      DiskEnd(job, setup, init, pc, w.store);
      EndTaken(setup.resume, pc);
    } else {
      DiskData(job, setup, init, pc, w.store, NextChunk(job, |content|, pc.output.Size()));
      AfterDataIs(setup, job, pc, NextChunk(job, |content|, pc.output.Size()));
    }
    hide TakeData;
    var next := TakenFrom(setup, w);
    DiskPc(job, setup, init, next.receiver.pc, next.store);
    DataLinked(job, w, next.receiver.pc);
    InvFrom(job, setup, init, next);
  }

  lemma SizeKnown(job: Job, w: World)
    requires Sendable(job) && SenderInRange(job, w.sender) && PcOk(job, w.receiver.pc) && Linked(job, w)
    requires w.receiver.pc.RData?
    ensures w.receiver.pc.output.Size() <= |job.files[w.receiver.pc.i].content|
  {
    hide Acknowledged;
  }

  lemma EndTaken(resume: bool, pc: ReceiverPc)
    requires pc.RData?
    ensures TakeData(resume, pc.i, pc.info, pc.output, FileEnd) == RClose(pc.i, pc.info, pc.output)
  {
  }

  lemma AfterDataIs(setup: Setup, job: Job, pc: ReceiverPc, next: nat)
    requires pc.RData? && pc.i < |job.files| && pc.output.Size() <= next <= |job.files[pc.i].content|
    ensures var after := AfterData(setup, job, pc, next);
            (after.RSave? || after.RData?) && after.i == pc.i
  {
  }

  /** The receiver's own steps: acknowledge, open, save the offset, close and check, clear the record. */
  lemma OwnStep(job: Job, setup: Setup, init: Store, w: World)
    requires Inv(job, setup, init, w) && InFile(w.receiver.pc) && !w.receiver.pc.RData?
    ensures var r := ReceiverStep(setup.resume, job.digest, w.receiver, w.store, w.toReceiver);
            && r.Some? && (w.receiver.pc.RAck? ==> w.toSender == [])
            && Inv(job, setup, init, Moved(w, r.value))
  {
    hide Inv;
    hide DiskOk;
    hide Linked;
    hide JobOk;
    hide OpenOutput;
    hide UpdateState;
    hide ClearState;
    hide SavedOffset;
    InvParts(job, setup, init, w);
    var pc := w.receiver.pc;
    match pc {
    case RAck(_, _, _) =>
      OffsetFits(job, setup, init, pc, w.store);
      DiskAck(job, setup, init, pc, w.store);
      AckLinked(job, w);
      assert [] + [Ack(pc.offset)] == [Ack(pc.offset)];
    case ROpen(_, _, _) => DiskOpen(job, setup, init, pc, w.store);
    case RSave(_, _, _) => DiskSave(job, setup, init, pc, w.store);
    case RClose(_, _, _) => DiskClose(job, setup, init, pc, w.store);
    case RClear(_, _) => DiskClear(job, setup, init, pc, w.store);
    }
    var r := ReceiverStep(setup.resume, job.digest, w.receiver, w.store, w.toReceiver).value;
    DiskPc(job, setup, init, r.next.pc, r.store);
    if !pc.RAck? {
      SameLinkKept(job, w, r.next.pc, r.store);
    }
    assert w.toSender + [] == w.toSender;
    InvFrom(job, setup, init, Moved(w, r));
  }

  lemma OffsetFits(job: Job, setup: Setup, init: Store, pc: ReceiverPc, store: Store)
    requires DiskOk(job, setup, init, pc, store) && pc.RAck?
    ensures PcOk(job, pc) && pc.offset <= |job.files[pc.i].content|
  {
    hide StoreOk;
    hide FilesDone;
    hide NothingAhead;
    hide DirectoriesOk;
    hide Made;
  }

  function Moved(w: World, r: Received): World {
    w.(receiver := r.next, store := r.store, toReceiver := r.inbox, toSender := w.toSender + r.out)
  }

  lemma TakesMessage(job: Job, setup: Setup, init: Store, w: World)
    requires Inv(job, setup, init, w) && w.toReceiver != []
    requires Reads(w.receiver.pc)
    ensures Inv(job, setup, init, TakenFrom(setup, w))
  {
    hide Inv;
    hide TakeMessage;
    match w.receiver.pc
    case RHello => TakesHello(job, setup, init, w);
    case RDirectory(_) => TakesDirectory(job, setup, init, w);
    case RFile(_) => TakesFile(job, setup, init, w);
    case RData(_, _, _) => TakesData(job, setup, init, w);
  }

  lemma ReceiverKeepsInv(job: Job, setup: Setup, init: Store, w: World)
    requires Inv(job, setup, init, w) && Sendable(job) && SenderInRange(job, w.sender)
    requires Step(job, setup, w, ReceiverActs).Some?
    ensures Inv(job, setup, init, Step(job, setup, w, ReceiverActs).value)
  {
    hide Inv;
    hide TakeMessage;
    InvParts(job, setup, init, w);
    hide JobOk;
    hide DiskOk;
    hide Linked;
    if InFile(w.receiver.pc) && !w.receiver.pc.RData? {
      OwnStep(job, setup, init, w);
    } else {
      TakesMessage(job, setup, init, w);
      assert w.toSender + [] == w.toSender;
    }
  }

  lemma SenderKeepsInv(job: Job, setup: Setup, init: Store, w: World)
    requires Inv(job, setup, init, w) && Sendable(job) && SenderInRange(job, w.sender)
    requires Step(job, setup, w, SenderActs).Some?
    ensures Inv(job, setup, init, Step(job, setup, w, SenderActs).value)
  {
    hide Inv;
    hide DiskOk;
    hide Linked;
    hide JobOk;
    hide Step;
    InvParts(job, setup, init, w);
    SenderKeepsLinked(job, setup, w);
    InvFrom(job, setup, init, Step(job, setup, w, SenderActs).value);
  }

  lemma CrashKeepsInv(job: Job, setup: Setup, init: Store, w: World, flushed: nat, kept: nat)
    requires Inv(job, setup, init, w) && CanRetry(job, setup, AfterCrash(w, flushed, kept))
    ensures Inv(job, setup, init, StartSession(AfterCrash(w, flushed, kept)))
  {
    hide Inv;
    hide DiskOk;
    hide JobOk;
    hide AfterCrash;
    InvParts(job, setup, init, w);
    DiskCrash(job, setup, init, w, flushed, kept);
    InvFrom(job, setup, init, StartSession(AfterCrash(w, flushed, kept)));
  }
}
