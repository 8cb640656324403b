/** How a session ends: within a bounded number of steps, with the sender's tree on the receiver's disk;
    and exactly when a retry after a crash can end that way. */
module SessionOutcome {
  import opened Results
  import opened TransferTypes
  import opened Paths
  import opened ResumeManager
  import opened Session
  import opened SessionInvariant
  import opened SessionDisk
  import opened SessionLinks
  import opened SessionTheorems
  import opened SessionRuns

  // ---------- termination ----------

  /** Steps the sender has left from file i on, at most. */
  function SendCost(job: Job, i: nat): nat
    requires i <= |job.files|
    decreases |job.files| - i
  {
    if i == |job.files| then 0 else |job.files[i].content| + 3 + SendCost(job, i + 1)
  }

  function ReceiveCost(job: Job, i: nat): nat
    requires i <= |job.files|
    decreases |job.files| - i
  {
    if i == |job.files| then 0 else 2 * |job.files[i].content| + 8 + ReceiveCost(job, i + 1)
  }

  function SenderRank(job: Job, s: Sender): nat
    requires Sendable(job) && SenderInRange(job, s)
  {
    match s
    case SHello => SendCost(job, 0) + 2 + |job.directories|
    case SDirectory(i) => SendCost(job, 0) + 1 + |job.directories| - i
    case SFile(i) => SendCost(job, i) + 1
    case SAwait(i) => SendCost(job, i)
    case SData(i, sent) => SendCost(job, i + 1) + |job.files[i].content| - sent + 2
    case _ => 0
  }

  function Missing(content: seq<byte>, output: Output): nat { |content| - Min(output.Size(), |content|) }

  function ReceiverRank(job: Job, pc: ReceiverPc): nat
    requires Sendable(job) && PcOk(job, pc)
  {
    match pc
    case RHello => ReceiveCost(job, 0) + 2 + |job.directories|
    case RDirectory(i) => ReceiveCost(job, 0) + 1 + |job.directories| - i
    case RFile(i) => ReceiveCost(job, i) + 1
    case RAck(i, _, _) => ReceiveCost(job, i)
    case ROpen(i, _, _) => ReceiveCost(job, i) - 1
    case RData(i, _, output) => ReceiveCost(job, i + 1) + 5 + 2 * Missing(job.files[i].content, output)
    case RSave(i, _, output) => ReceiveCost(job, i + 1) + 6 + 2 * Missing(job.files[i].content, output)
    case RClose(i, _, _) => ReceiveCost(job, i + 1) + 4
    case RClear(i, _) => ReceiveCost(job, i + 1) + 3
    case _ => 0
  }

  ghost function Rank(job: Job, setup: Setup, init: Store, w: World): nat
    requires Inv(job, setup, init, w)
  {
    InvParts(job, setup, init, w);
    SenderRank(job, w.sender) + ReceiverRank(job, w.receiver.pc)
  }

  lemma SenderProgress(job: Job, s: Sender, inbox: seq<Msg>)
    requires Sendable(job) && SenderInRange(job, s) && SenderStep(job, s, inbox).Some?
    ensures var next := SenderStep(job, s, inbox).value.next;
            SenderInRange(job, next) && SenderRank(job, next) < SenderRank(job, s)
  {
  }

  lemma OwnProgress(job: Job, setup: Setup, w: World)
    requires Sendable(job) && PcOk(job, w.receiver.pc) && InFile(w.receiver.pc) && !w.receiver.pc.RData?
    requires ReceiverStep(setup.resume, job.digest, w.receiver, w.store, w.toReceiver).Some?
    requires var next := ReceiverStep(setup.resume, job.digest, w.receiver, w.store, w.toReceiver).value.next.pc;
             PcOk(job, next)
    ensures var next := ReceiverStep(setup.resume, job.digest, w.receiver, w.store, w.toReceiver).value.next.pc;
            ReceiverRank(job, next) < ReceiverRank(job, w.receiver.pc)
  {
    hide UpdateState;
    hide ClearState;
    hide InfoOf;
    hide Place;
    hide OpenOutput;
    hide Flushed;
  }

  lemma MessageProgress(job: Job, setup: Setup, init: Store, w: World)
    requires Inv(job, setup, init, w) && w.toReceiver != []
    requires Reads(w.receiver.pc)
    requires Sendable(job) && PcOk(job, w.receiver.pc)
    ensures var next := TakenFrom(setup, w).receiver.pc;
            PcOk(job, next) && ReceiverRank(job, next) < ReceiverRank(job, w.receiver.pc)
  {
    hide Place;
    hide Inv;
    hide DiskOk;
    hide Linked;
    hide JobOk;
    hide TakeDirectory;
    hide TakeInfo;
    hide TotalBytes;
    hide Feeds;
    hide Near;
    InvParts(job, setup, init, w);
    TakesMessage(job, setup, init, w);
    InvParts(job, setup, init, TakenFrom(setup, w));
    match w.receiver.pc
    case RHello => HelloExpected(job, w);
    case RDirectory(i) =>
      CountsKnown(job, w);
      DirectoryExpected(job, w);
      DiskDirectory(job, setup, init, w.receiver, w.store);
    case RFile(i) =>
      CountsKnown(job, w);
      FileExpected(job, w);
      if i < |job.files| {
        DiskInfo(job, setup, init, i, w.store);
      }
    case RData(_, _, _) =>
      SizeKnown(job, w);
      DataExpected(job, w);
  }

  /** Every step of either side brings the end closer. */
  lemma Progress(job: Job, setup: Setup, init: Store, w: World, a: Action)
    requires Inv(job, setup, init, w) && Sendable(job) && SenderInRange(job, w.sender)
    requires !a.Crash? && Step(job, setup, w, a).Some?
    ensures Inv(job, setup, init, Step(job, setup, w, a).value)
    ensures Rank(job, setup, init, Step(job, setup, w, a).value) < Rank(job, setup, init, w)
  {
    hide Inv;
    hide DiskOk;
    hide Linked;
    hide JobOk;
    hide TakeMessage;
    StepKeepsInv(job, setup, init, w, a);
    InvParts(job, setup, init, w);
    InvParts(job, setup, init, Step(job, setup, w, a).value);
    if a.SenderActs? {
      SenderProgress(job, w.sender, w.toSender);
      hide SenderRank;
    } else if InFile(w.receiver.pc) && !w.receiver.pc.RData? {
      OwnProgress(job, setup, w);
    } else {
      MessageProgress(job, setup, init, w);
    }
  }

  /** A run without a crash is no longer than the rank of the world it starts from. */
  lemma {:induction false} RunsAreBounded(job: Job, setup: Setup, init: Store, from: World, actions: seq<Action>, to: World)
    requires Inv(job, setup, init, from) && Sendable(job)
    requires Run(job, setup, from, actions, to) && CrashFree(actions)
    ensures Inv(job, setup, init, to)
    ensures |actions| + Rank(job, setup, init, to) <= Rank(job, setup, init, from)
    decreases |actions|
  {
    hide Inv;
    hide Step;
    hide Rank;
    if actions != [] {
      Progress(job, setup, init, from, actions[0]);
      RunsAreBounded(job, setup, init, Step(job, setup, from, actions[0]).value, actions[1..], to);
    }
  }

  /** From every reachable world some crash-free run brings the session to its end. */
  lemma {:induction false} CanFinish(job: Job, setup: Setup, init: Store, w: World) returns (actions: seq<Action>, end: World)
    requires Inv(job, setup, init, w) && Sendable(job)
    ensures Run(job, setup, w, actions, end) && CrashFree(actions) && Done(end) && Inv(job, setup, init, end)
    decreases Rank(job, setup, init, w)
  {
    hide Inv;
    hide Step;
    hide Rank;
    hide JobOk;
    InvParts(job, setup, init, w);
    hide PcOk;
    if Done(w) {
      actions, end := [], w;
    } else {
      NoDeadlock(job, setup, init, w);
      var a := if Step(job, setup, w, SenderActs).Some? then SenderActs else ReceiverActs;
      Progress(job, setup, init, w, a);
      var rest;
      rest, end := CanFinish(job, setup, init, Step(job, setup, w, a).value);
      actions := [a] + rest;
      assert actions[1..] == rest;
    }
  }

  // ---------- the result ----------

  lemma {:induction false} FilesUpToIs(job: Job, n: nat)
    requires JobOk(job) && n <= |job.files|
    ensures FilesUpTo(job, n).Keys == set k | 0 <= k < n :: Spot(job.files[k])
    ensures forall k :: 0 <= k < n ==>
              Spot(job.files[k]) in FilesUpTo(job, n) && FilesUpTo(job, n)[Spot(job.files[k])] == job.files[k].content
  {
    hide Place;
    hide JobOk;
    if n > 0 {
      FilesUpToIs(job, n - 1);
      forall k | 0 <= k < n - 1
        ensures Spot(job.files[k]) != Spot(job.files[n - 1])
      {
        DistinctFiles(job, k, n - 1);
      }
    }
  }

  /** When the session is over the disk holds exactly the source files and directories on top of what
      was there before, and no resume record of them is left. */
  lemma EndsWithTheTree(job: Job, setup: Setup, init: Store, w: World)
    requires Inv(job, setup, init, w) && w.receiver.pc.RDone?
    ensures Done(w) && w.toReceiver == [] && w.toSender == []
    ensures w.store.files == init.files + TargetFiles(job)
    ensures w.store.dirs == init.dirs + TargetDirectories(job)
    ensures Sendable(job)
    ensures setup.resume ==> forall f <- job.files :: FindOffset(Records(w.store.state), Id(job, f)) == None
  {
    hide Place;
    hide Inv;
    hide JobOk;
    hide StoreReady;
    hide GoodState;
    hide ResumeSafe;
    hide TargetDirectories;
    hide Records;
    hide FindOffset;
    InvParts(job, setup, init, w);
    FilesUpToIs(job, |job.files|);
    var target := TargetFiles(job);
    assert target.Keys == TargetPaths(job);
    forall p
      ensures p in w.store.files <==> p in init.files + target
      ensures p in w.store.files ==> w.store.files[p] == (init.files + target)[p]
    {
      if p in TargetPaths(job) {
        var k :| 0 <= k < |job.files| && p == Spot(job.files[k]);
      }
    }
  }

  /** Neither side can act. */
  predicate Stopped(job: Job, setup: Setup, w: World)
    requires Sendable(job)
  {
    SenderInRange(job, w.sender) && Step(job, setup, w, SenderActs).None? && Step(job, setup, w, ReceiverActs).None?
  }

  /** The disk a session should leave behind. */
  ghost predicate Delivered(job: Job, setup: Setup, init: Store, w: World)
    requires Sendable(job)
  {
    && Done(w)
    && w.store.files == init.files + TargetFiles(job)
    && w.store.dirs == init.dirs + TargetDirectories(job)
    && (setup.resume ==> forall f <- job.files :: FindOffset(Records(w.store.state), Id(job, f)) == None)
  }

  /** After any run with any number of crashes and retries, every crash-free continuation is bounded, can
      only stop when everything has been delivered, and one that stops there exists. */
  lemma Delivery(job: Job, setup: Setup, init: Store, actions: seq<Action>, w: World)
    requires StoreReady(job, setup, init) && Sendable(job)
    requires Run(job, setup, StartSession(init), actions, w) && Recoverable(job, setup, StartSession(init), actions)
    ensures Inv(job, setup, init, w)
    ensures forall rest, end :: Run(job, setup, w, rest, end) && CrashFree(rest) ==>
              && |rest| <= Rank(job, setup, init, w)
              && (Stopped(job, setup, end) ==> Delivered(job, setup, init, end))
    ensures exists rest, end :: Run(job, setup, w, rest, end) && CrashFree(rest) && Delivered(job, setup, init, end)
  {
    hide Inv;
    hide Run;
    hide Recoverable;
    hide StoreReady;
    hide Rank;
    hide Step;
    InvHoldsInitially(job, setup, init);
    RunKeepsInv(job, setup, init, StartSession(init), actions, w);
    forall rest, end | Run(job, setup, w, rest, end) && CrashFree(rest)
      ensures |rest| <= Rank(job, setup, init, w)
      ensures Stopped(job, setup, end) ==> Delivered(job, setup, init, end)
    {
      RunsAreBounded(job, setup, init, w, rest, end);
      if Stopped(job, setup, end) {
        if !Done(end) {
          NoDeadlock(job, setup, init, end);
        }
        EndsWithTheTree(job, setup, init, end);
      }
    }
    var rest, end := CanFinish(job, setup, init, w);
    EndsWithTheTree(job, setup, init, end);
    assert Run(job, setup, w, rest, end) && CrashFree(rest) && Delivered(job, setup, init, end);
  }

  /** A save_dir with nothing in it, or one that does not exist yet. */
  function Empty(there: bool): Store { Store(map[], if there then {""} else {}, None) }

  lemma EmptyIsReady(job: Job, setup: Setup, there: bool)
    requires JobOk(job) && setup.capacity > 0 && (setup.resume ==> Resumable(job) && StateFileApart(job, setup))
    requires there ==> forall d <- job.directories :: Place(d) != ""
    ensures StoreReady(job, setup, Empty(there))
  {
    hide Place;
    assert Sendable(job) by {
      ReallySendable(job);
    }
    forall f | f in job.files
      ensures Spot(f) != ""
    {
    }
    hide JobOk;
    hide LoadState;
    forall f | f in job.files
      ensures SafeToResume(Stored(None, Id(job, f)), OnDisk(Empty(there), Spot(f)), f.content)
    {
      PrefixIsSafe(Stored(None, Id(job, f)), OnDisk(Empty(there), Spot(f)), f.content);
    }
  }

  lemma ReallySendable(job: Job)
    requires JobOk(job)
    ensures Sendable(job)
  {
  }

  /** Where nothing is yet the receiver ends with the sender's tree, nothing more and nothing less. */
  lemma TreeEquality(job: Job, setup: Setup, there: bool, actions: seq<Action>, w: World)
    requires JobOk(job) && setup.capacity > 0 && (setup.resume ==> Resumable(job) && StateFileApart(job, setup))
    requires there ==> forall d <- job.directories :: Place(d) != ""
    requires Run(job, setup, StartSession(Empty(there)), actions, w) && Recoverable(job, setup, StartSession(Empty(there)), actions)
    requires w.receiver.pc.RDone?
    ensures w.store.files == TargetFiles(job) && w.store.dirs == Empty(there).dirs + TargetDirectories(job)
  {
    hide Place;
    hide Inv;
    hide Run;
    hide Recoverable;
    hide StoreReady;
    hide TargetDirectories;
    EmptyIsReady(job, setup, there);
    InvHoldsInitially(job, setup, Empty(there));
    RunKeepsInv(job, setup, Empty(there), StartSession(Empty(there)), actions, w);
    EndsWithTheTree(job, setup, Empty(there), w);
    assert map[] + TargetFiles(job) == TargetFiles(job);
  }

  // ---------- retries ----------

  /** The receiver is bound to refuse the first directory or, without resume, the first file. */
  ghost predicate Doomed(job: Job, setup: Setup, w: World) {
    && JobOk(job) && SenderInRange(job, w.sender)
    && (if job.directories != [] then Place(job.directories[0]) in w.store.dirs
        else !setup.resume && job.files != [] && Spot(job.files[0]) in w.store.files)
    && (w.receiver.pc == RFailed(FileWriteFailed)
        || ((w.receiver.pc.RHello?
             || (if job.directories != [] then w.receiver.pc == RDirectory(0) else w.receiver.pc == RFile(0)))
            && PcOk(job, w.receiver.pc) && Linked(job, w)))
  }

  lemma DoomedStays(job: Job, setup: Setup, w: World, a: Action)
    requires Doomed(job, setup, w) && Sendable(job) && SenderInRange(job, w.sender) && Step(job, setup, w, a).Some?
    ensures Doomed(job, setup, Step(job, setup, w, a).value)
  {
    hide Place;
    hide JobOk;
    hide Linked;
    hide TotalBytes;
    StepInRange(job, setup, w, a);
    match a
    case SenderActs =>
      if w.receiver.pc != RFailed(FileWriteFailed) {
        SenderKeepsLinked(job, setup, w);
      }
    case ReceiverActs => DoomedReceiver(job, setup, w);
    case Crash(_, _) =>
      Fresh(job, AfterCrash(w, a.flushed, a.kept));
  }

  lemma Fresh(job: Job, store: Store)
    requires Sendable(job)
    ensures SenderInRange(job, SHello) && PcOk(job, RHello) && Linked(job, StartSession(store))
  {
  }

  lemma DoomedReceiver(job: Job, setup: Setup, w: World)
    requires Doomed(job, setup, w) && Sendable(job) && SenderInRange(job, w.sender) && Step(job, setup, w, ReceiverActs).Some?
    ensures Doomed(job, setup, Step(job, setup, w, ReceiverActs).value)
  {
    hide Linked;
    hide TotalBytes;
    hide Place;
    hide Components;
    var pc := w.receiver.pc;
    match pc {
      case RHello => HelloExpected(job, w);
      case RDirectory(_) =>
        DirectoryExpected(job, w);
        assert job.directories[0] in job.directories;
        CountsKnown(job, w);
      case RFile(_) =>
        FileExpected(job, w);
        CountsKnown(job, w);
        FileIsOk(job, 0);
      case _ =>
    }
    hide JobOk;
    assert w.toSender + [] == w.toSender;
  }

  lemma {:induction false} DoomedNeverFinishes(job: Job, setup: Setup, from: World, actions: seq<Action>, to: World)
    requires Doomed(job, setup, from) && Sendable(job) && Run(job, setup, from, actions, to)
    ensures Doomed(job, setup, to) && !to.receiver.pc.RDone?
    decreases |actions|
  {
    hide JobOk;
    hide Linked;
    hide Step;
    if actions != [] {
      DoomedStays(job, setup, from, actions[0]);
      DoomedNeverFinishes(job, setup, Step(job, setup, from, actions[0]).value, actions[1..], to);
    }
  }

  lemma CrashDooms(job: Job, setup: Setup, init: Store, w: World, flushed: nat, kept: nat)
    requires Inv(job, setup, init, w) && !CanRetry(job, setup, AfterCrash(w, flushed, kept))
    ensures Doomed(job, setup, StartSession(AfterCrash(w, flushed, kept)))
  {
    hide Place;
    hide JobOk;
    hide Linked;
    InvParts(job, setup, init, w);
    CrashFramed(job, setup, init, w, flushed, kept);
    Fresh(job, AfterCrash(w, flushed, kept));
    var s := AfterCrash(w, flushed, kept);
    if job.directories != [] && Place(job.directories[0]) !in s.dirs {
      assert Spot(job.files[0]) in s.files.Keys;
      NoDirectoryNoFile(job, setup, init, w.receiver.pc, w.store);
      assert false;
    }
  }

  lemma NoDirectoryNoFile(job: Job, setup: Setup, init: Store, pc: ReceiverPc, store: Store)
    requires DiskOk(job, setup, init, pc, store) && job.directories != [] && Place(job.directories[0]) !in store.dirs
    requires !setup.resume && job.files != []
    ensures Spot(job.files[0]) !in store.files
  {
    ReadyIsOk(job, setup, init, store);
    hide JobOk;
    hide StoreOk;
    hide ParentsMade;
    hide CurrentFile;
    hide FilesDone;
    InItself(Place(job.directories[0]));
    hide WithAbove;
    hide Place;
  }

  /** A retry after a crash can succeed if and only if the crash left the first directory unmade and,
      without resume, the first file uncreated. */
  lemma RetryIff(job: Job, setup: Setup, init: Store, w: World, flushed: nat, kept: nat)
    requires Inv(job, setup, init, w) && Sendable(job)
    ensures CanRetry(job, setup, AfterCrash(w, flushed, kept)) <==>
            exists actions, to ::
              Run(job, setup, StartSession(AfterCrash(w, flushed, kept)), actions, to) && to.receiver.pc.RDone?
  {
    hide Inv;
    hide AfterCrash;
    hide Doomed;
    hide Run;
    var start := StartSession(AfterCrash(w, flushed, kept));
    if CanRetry(job, setup, AfterCrash(w, flushed, kept)) {
      CrashKeepsInv(job, setup, init, w, flushed, kept);
      var actions, to := CanFinish(job, setup, init, start);
      assert Run(job, setup, start, actions, to) && to.receiver.pc.RDone?;
    } else {
      CrashDooms(job, setup, init, w, flushed, kept);
      forall actions, to | Run(job, setup, start, actions, to)
        ensures !to.receiver.pc.RDone?
      {
        DoomedNeverFinishes(job, setup, start, actions, to);
      }
    }
  }

  // ---------- directories that cannot be made ----------

  lemma Refuses(r: Receiver, store: Store, path: string)
    requires r.pc.RDirectory? && Barred(path, store)
    ensures TakeDirectory(r, store, path).0.RFailed?
  {
    hide Place;
    hide Components;
  }

  /** The receiver has not got past directory k, or has failed; and it cannot get past it. */
  predicate ShortOf(job: Job, k: nat, w: World)
    requires Sendable(job)
  {
    && SenderInRange(job, w.sender) && k < |job.directories| && Barred(job.directories[k], w.store)
    && (w.receiver.pc.RFailed?
        || ((w.receiver.pc.RHello? || (w.receiver.pc.RDirectory? && w.receiver.pc.i <= k))
            && PcOk(job, w.receiver.pc) && Linked(job, w)))
  }

  lemma StaysShort(job: Job, setup: Setup, k: nat, w: World, a: Action)
    requires Sendable(job) && ShortOf(job, k, w)
    requires SenderInRange(job, w.sender) && Step(job, setup, w, a).Some?
    ensures ShortOf(job, k, Step(job, setup, w, a).value)
  {
    hide Linked;
    hide TotalBytes;
    hide AlwaysRefused;
    hide TakeDirectory;
    hide Place;
    StepInRange(job, setup, w, a);
    match a
    case SenderActs =>
      if !w.receiver.pc.RFailed? {
        SenderKeepsLinked(job, setup, w);
      }
    case Crash(_, _) => Fresh(job, AfterCrash(w, a.flushed, a.kept));
    case ReceiverActs =>
      assert w.toSender + [] == w.toSender;
      if w.receiver.pc.RHello? {
        HelloExpected(job, w);
      } else if w.receiver.pc.RDirectory? {
        DirectoryShort(job, k, w);
      }
  }

  lemma DirectoriesStay(r: Receiver, store: Store, path: string)
    requires r.pc.RDirectory?
    ensures store.dirs <= TakeDirectory(r, store, path).1.dirs
  {
    hide Place;
    hide Components;
  }

  lemma DirectoryShort(job: Job, k: nat, w: World)
    requires Sendable(job) && ShortOf(job, k, w)
    requires w.receiver.pc.RDirectory? && w.toReceiver != []
    ensures w.toReceiver[0] == Directory(job.directories[w.receiver.pc.i])
    ensures var (pc, s) := TakeDirectory(w.receiver, w.store, job.directories[w.receiver.pc.i]);
            ShortOf(job, k, w.(receiver := w.receiver.(pc := pc), store := s, toReceiver := w.toReceiver[1..]))
  {
    hide Linked;
    hide AlwaysRefused;
    hide Place;
    DirectoryExpected(job, w);
    CountsKnown(job, w);
    DirectoriesStay(w.receiver, w.store, job.directories[w.receiver.pc.i]);
    if w.receiver.pc.i == k {
      Refuses(w.receiver, w.store, job.directories[k]);
      hide TakeDirectory;
    } else {
      var (pc, s) := TakeDirectory(w.receiver, w.store, job.directories[w.receiver.pc.i]);
      if !pc.RFailed? {
        var next := w.(receiver := w.receiver.(pc := pc), toReceiver := w.toReceiver[1..]);
        SameLinked(job, next, s);
      }
    }
  }

  /** A job with a directory that is refused on every disk, or that is there already, never completes,
      whatever else is on the disk and however often it is tried. */
  lemma {:induction false} RefusedNeverFinishes(job: Job, setup: Setup, k: nat, from: World, actions: seq<Action>, to: World)
    requires Sendable(job) && ShortOf(job, k, from)
    requires Run(job, setup, from, actions, to)
    ensures !to.receiver.pc.RDone?
    decreases |actions|
  {
    hide Linked;
    hide Step;
    hide Barred;
    if actions != [] {
      StaysShort(job, setup, k, from, actions[0]);
      RefusedNeverFinishes(job, setup, k, Step(job, setup, from, actions[0]).value, actions[1..], to);
    }
  }
}
