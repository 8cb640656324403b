/** The converse of Delivery: a session that can be completed at all has a job and a disk as the other results
    ask for.  What the receiver has let pass says so. */
module SessionNeeds {
  import opened Paths
  import opened ResumeManager
  import opened Session
  import opened SessionInvariant
  import SessionDisk
  import opened SessionLinks
  import opened SessionTheorems
  import opened SessionRuns
  import opened SessionOutcome

  /** Nothing is both a file and a directory. */
  predicate Proper(store: Store) { forall p <- store.dirs :: p !in store.files }

  // ---------- what has passed ----------

  function DirectoriesPassed(job: Job, pc: ReceiverPc): nat {
    match pc
    case RHello => 0
    case RDirectory(i) => i
    case _ => |job.directories|
  }

  function FilesOpened(job: Job, pc: ReceiverPc): nat {
    if pc.RData? || pc.RSave? || pc.RClose? || pc.RClear? then pc.i + 1 else Completed(job, pc)
  }

  /** Directory k was accepted, and is still there. */
  predicate DirectoryPassed(job: Job, init: Store, k: nat, store: Store)
    requires k < |job.directories|
  {
    var place := Place(job.directories[k]);
    && !AlwaysRefused(job.directories[k]) && place !in init.dirs
    && WithAbove(place) <= store.dirs
    && forall l :: 0 <= l < k ==> place !in WithAbove(Place(job.directories[l]))
  }

  /** Without resume a file's place was free. */
  predicate Unused(job: Job, setup: Setup, init: Store, k: nat)
    requires k < |job.files|
  {
    !setup.resume ==>
      && Spot(job.files[k]) !in init.files
      && forall l :: 0 <= l < k ==> Spot(job.files[l]) != Spot(job.files[k])
  }

  /** File k was opened, and is still there. */
  predicate FilePassed(job: Job, setup: Setup, init: Store, k: nat, store: Store)
    requires k < |job.files|
  {
    && FilePathOk(job.files[k].path) && Unused(job, setup, init, k)
    && Spot(job.files[k]) in store.files && Above(Spot(job.files[k])) <= store.dirs
  }

  /** A file's FILE_INFO was accepted. */
  predicate InfoPassed(job: Job, setup: Setup, init: Store, pc: ReceiverPc, store: Store)
    requires pc.RAck? || pc.ROpen?
    requires pc.i < |job.files|
  {
    var f := job.files[pc.i];
    && SafePath(f.path) && Parents(f.path) <= store.dirs
    && pc.offset <= |f.content| && pc.offset <= |OnDisk(store, Spot(f))|
    && (EndsInName(f.path) ==> Unused(job, setup, init, pc.i))
  }

  ghost predicate Passed(job: Job, setup: Setup, init: Store, pc: ReceiverPc, store: Store)
    requires Sendable(job) && PcOk(job, pc)
  {
    && DirectoriesPassed(job, pc) <= |job.directories| && FilesOpened(job, pc) <= |job.files|
    && (forall k :: 0 <= k < DirectoriesPassed(job, pc) ==> DirectoryPassed(job, init, k, store))
    && (forall k :: 0 <= k < FilesOpened(job, pc) ==> FilePassed(job, setup, init, k, store))
    && (pc.RAck? || pc.ROpen? ==> InfoPassed(job, setup, init, pc, store))
  }

  /** Nothing is ever removed, and only the job's files are added. */
  ghost predicate Grown(job: Job, init: Store, store: Store) {
    && Proper(store) && init.dirs <= store.dirs
    && init.files.Keys <= store.files.Keys <= init.files.Keys + TargetPaths(job)
  }

  ghost predicate Shows(job: Job, setup: Setup, init: Store, w: World)
    requires Sendable(job)
  {
    && SenderInRange(job, w.sender) && Grown(job, init, w.store)
    && (w.receiver.pc.RFailed?
        || (PcOk(job, w.receiver.pc) && Linked(job, w) && Passed(job, setup, init, w.receiver.pc, w.store)))
  }

  // ---------- one step ----------

  /** More directories and files change nothing about what has passed. */
  lemma StillPassed(job: Job, setup: Setup, init: Store, n: nat, m: nat, before: Store, after: Store)
    requires n <= |job.directories| && m <= |job.files|
    requires before.dirs <= after.dirs && before.files.Keys <= after.files.Keys
    requires forall k :: 0 <= k < n ==> DirectoryPassed(job, init, k, before)
    requires forall k :: 0 <= k < m ==> FilePassed(job, setup, init, k, before)
    ensures forall k :: 0 <= k < n ==> DirectoryPassed(job, init, k, after)
    ensures forall k :: 0 <= k < m ==> FilePassed(job, setup, init, k, after)
  {
    hide Place;
    hide AlwaysRefused;
    hide FilePathOk;
    hide WithAbove;
    hide Above;
    hide Unused;
    forall k | 0 <= k < n
      ensures DirectoryPassed(job, init, k, after)
    {
      assert DirectoryPassed(job, init, k, before);
    }
    forall k | 0 <= k < m
      ensures FilePassed(job, setup, init, k, after)
    {
      assert FilePassed(job, setup, init, k, before);
      assert Spot(job.files[k]) in before.files.Keys;
    }
  }

  lemma DirectoryTakenPasses(job: Job, setup: Setup, init: Store, r: Receiver, store: Store)
    requires Sendable(job) && PcOk(job, r.pc) && r.pc.RDirectory? && r.directoryCount == |job.directories|
    requires Grown(job, init, store) && Passed(job, setup, init, r.pc, store)
    ensures var (pc, s) := TakeDirectory(r, store, job.directories[r.pc.i]);
            && Grown(job, init, s)
            && (!pc.RFailed? ==>
                  pc == AfterDirectoryReceived(r, r.pc.i + 1) && PcOk(job, pc) && Passed(job, setup, init, pc, s))
  {
    hide Place;
    hide WithAbove;
    hide Components;
    hide FilePassed;
    var i := r.pc.i;
    var path := job.directories[i];
    var (pc, s) := TakeDirectory(r, store, path);
    if !pc.RFailed? {
      assert s == store.(dirs := store.dirs + WithAbove(Place(path)));
      forall l | 0 <= l < i
        ensures Place(path) !in WithAbove(Place(job.directories[l]))
      {
        assert DirectoryPassed(job, init, l, store);
      }
      StillPassed(job, setup, init, i, 0, store, s);
      assert DirectoryPassed(job, init, i, s);
    }
  }

  lemma InfoTakenPasses(job: Job, setup: Setup, init: Store, i: nat, store: Store)
    requires Sendable(job) && i < |job.files|
    requires Grown(job, init, store) && Passed(job, setup, init, RFile(i), store)
    ensures var (pc, s) := TakeInfo(setup.resume, i, store, InfoOf(job, job.files[i]));
            && Grown(job, init, s)
            && (!pc.RFailed? ==>
                  pc.RAck? && pc.i == i && PcOk(job, pc) && Passed(job, setup, init, pc, s))
  {
    hide Place;
    hide Parents;
    hide Components;
    hide DirectoryPassed;
    hide FindInState;
    hide EndsInName;
    hide SafePath;
    var f := job.files[i];
    var (pc, s) := TakeInfo(setup.resume, i, store, InfoOf(job, f));
    if !pc.RFailed? {
      assert s == store.(dirs := store.dirs + Parents(f.path));
      forall l | 0 <= l < i
        ensures Spot(job.files[l]) in store.files
      {
        assert FilePassed(job, setup, init, l, store);
      }
      StillPassed(job, setup, init, |job.directories|, i, store, s);
      assert InfoPassed(job, setup, init, pc, s);
    }
  }

  lemma OpenPasses(job: Job, setup: Setup, init: Store, pc: ReceiverPc, store: Store)
    requires Sendable(job) && PcOk(job, pc) && pc.ROpen?
    requires Grown(job, init, store) && Passed(job, setup, init, pc, store)
    requires OpenOutput(store, Target(pc.info), pc.offset).Some?
    ensures var s := OpenOutput(store, Target(pc.info), pc.offset).value;
            var next := RData(pc.i, pc.info, Output(s.files[Target(pc.info)], []));
            && Grown(job, init, s) && PcOk(job, next) && next.output.Size() == pc.offset
            && Passed(job, setup, init, next, s)
  {
    hide Place;
    hide LastComponent;
    hide DirectoryPassed;
    hide SafePath;
    var s := OpenOutput(store, Target(pc.info), pc.offset).value;
    var f := job.files[pc.i];
    StillPassed(job, setup, init, |job.directories|, pc.i, store, s);
    assert FilePathOk(f.path) && Above(Spot(f)) <= s.dirs;
    hide FilePathOk;
    hide Above;
    assert FilePassed(job, setup, init, pc.i, s);
  }

  predicate After(job: Job, pc: ReceiverPc, next: ReceiverPc)
    requires InFile(pc)
  {
    DirectoriesPassed(job, next) == |job.directories| && FilesOpened(job, next) == pc.i + 1
  }

  /** Inside an open file nothing but its content and the state file changes. */
  lemma WithinPasses(job: Job, setup: Setup, init: Store, pc: ReceiverPc, next: ReceiverPc, store: Store, s: Store)
    requires Sendable(job) && PcOk(job, pc) && InFile(pc) && !pc.RAck? && !pc.ROpen?
    requires Grown(job, init, store) && Passed(job, setup, init, pc, store)
    requires s.dirs == store.dirs && s.files.Keys == store.files.Keys + {Target(pc.info)}
    ensures Grown(job, init, s)
    ensures PcOk(job, next) && !next.RAck? && !next.ROpen? && After(job, pc, next) ==> Passed(job, setup, init, next, s)
  {
    hide Place;
    hide DirectoryPassed;
    assert FilePassed(job, setup, init, pc.i, store);
    hide FilePassed;
    assert Target(pc.info) in store.files.Keys;
    assert s.files.Keys == store.files.Keys;
    assert forall p :: p in s.files <==> p in store.files by {
      assert forall p :: p in s.files <==> p in s.files.Keys;
      assert forall p :: p in store.files <==> p in store.files.Keys;
    }
    StillPassed(job, setup, init, |job.directories|, pc.i + 1, store, s);
  }

  lemma OwnShows(job: Job, setup: Setup, init: Store, w: World)
    requires Sendable(job) && Shows(job, setup, init, w) && InFile(w.receiver.pc) && !w.receiver.pc.RData?
    requires ReceiverStep(setup.resume, job.digest, w.receiver, w.store, w.toReceiver).Some?
    ensures Shows(job, setup, init, Moved(w, ReceiverStep(setup.resume, job.digest, w.receiver, w.store, w.toReceiver).value))
  {
    hide Linked;
    hide OpenOutput;
    hide UpdateState;
    hide ClearState;
    hide Place;
    hide Grown;
    hide Passed;
    var pc := w.receiver.pc;
    var r := ReceiverStep(setup.resume, job.digest, w.receiver, w.store, w.toReceiver).value;
    assert w.toSender + [] == w.toSender;
    match pc {
      case RAck(_, _, _) =>
        AckPasses(job, setup, init, pc, w.store);
        AckLinked(job, w);
        assert [] + [Ack(pc.offset)] == [Ack(pc.offset)];
      case ROpen(_, _, _) =>
        if !r.next.pc.RFailed? {
          OpenPasses(job, setup, init, pc, w.store);
          SameLinkKept(job, w, r.next.pc, r.store);
        }
      case _ =>
        var target := FileStays(job, setup, init, pc, w.store);
        WithinPasses(job, setup, init, pc, r.next.pc, w.store, r.store);
        if !r.next.pc.RFailed? {
          SameLinkKept(job, w, r.next.pc, r.store);
        }
    }
  }

  lemma AckPasses(job: Job, setup: Setup, init: Store, pc: ReceiverPc, store: Store)
    requires Sendable(job) && PcOk(job, pc) && pc.RAck? && Passed(job, setup, init, pc, store)
    ensures pc.offset <= |job.files[pc.i].content| && Passed(job, setup, init, ROpen(pc.i, pc.info, pc.offset), store)
  {
    hide Place;
    hide DirectoryPassed;
    hide FilePassed;
    hide Parents;
    hide SafePath;
    hide EndsInName;
  }

  lemma FileStays(job: Job, setup: Setup, init: Store, pc: ReceiverPc, store: Store) returns (target: string)
    requires Sendable(job) && PcOk(job, pc) && InFile(pc) && !pc.RAck? && !pc.ROpen? && Passed(job, setup, init, pc, store)
    ensures target == Target(pc.info) && target in store.files && store.files.Keys + {target} == store.files.Keys
  {
    hide Place;
    hide DirectoryPassed;
    assert FilePassed(job, setup, init, pc.i, store);
    target := Target(pc.info);
  }

  lemma MessageShows(job: Job, setup: Setup, init: Store, w: World)
    requires Sendable(job) && Shows(job, setup, init, w) && w.toReceiver != []
    requires Reads(w.receiver.pc)
    ensures Shows(job, setup, init, TakenFrom(setup, w))
  {
    hide Linked;
    hide TakeDirectory;
    hide TakeInfo;
    hide Place;
    hide Grown;
    hide Passed;
    hide TotalBytes;
    match w.receiver.pc {
      case RHello =>
        HelloExpected(job, w);
        HelloPasses(job, setup, init, w.store);
      case RDirectory(i) =>
        CountsKnown(job, w);
        DirectoryExpected(job, w);
        DirectoryTakenPasses(job, setup, init, w.receiver, w.store);
        var next := TakenFrom(setup, w);
        if !next.receiver.pc.RFailed? {
          SameLinked(job, w.(receiver := next.receiver, toReceiver := next.toReceiver), next.store);
        }
      case RFile(i) =>
        CountsKnown(job, w);
        FileExpected(job, w);
        var next := TakenFrom(setup, w);
        if i == |job.files| {
          FinishPasses(job, setup, init, w.store);
          TakenLinked(job, w, next.receiver.pc, next.store);
        } else {
          InfoTakenPasses(job, setup, init, i, w.store);
          if !next.receiver.pc.RFailed? {
            TakenLinked(job, w, next.receiver.pc, next.store);
          }
        }
      case RData(_, _, _) => DataShows(job, setup, init, w);
    }
  }

  lemma HelloPasses(job: Job, setup: Setup, init: Store, store: Store)
    requires Sendable(job)
    ensures job.directories == [] ==> Passed(job, setup, init, RFile(0), store)
    ensures job.directories != [] ==> Passed(job, setup, init, RDirectory(0), store)
  {
  }

  lemma FinishPasses(job: Job, setup: Setup, init: Store, store: Store)
    requires Sendable(job) && Passed(job, setup, init, RFile(|job.files|), store)
    ensures Passed(job, setup, init, RDone, store)
  {
    hide DirectoryPassed;
    hide FilePassed;
  }

  lemma DataShows(job: Job, setup: Setup, init: Store, w: World)
    requires Sendable(job) && Shows(job, setup, init, w) && w.toReceiver != [] && w.receiver.pc.RData?
    ensures Shows(job, setup, init, TakenFrom(setup, w))
  {
    hide Linked;
    hide Place;
    hide Grown;
    hide Passed;
    hide Feeds;
    hide Near;
    SizeKnown(job, w);
    DataExpected(job, w);
    var pc := w.receiver.pc;
    var next := TakenFrom(setup, w);
    var target := FileStays(job, setup, init, pc, w.store);
    WithinPasses(job, setup, init, pc, next.receiver.pc, w.store, next.store);
    if !next.receiver.pc.RFailed? {
      DataLinked(job, w, next.receiver.pc);
    }
  }

  lemma StepShows(job: Job, setup: Setup, init: Store, w: World, a: Action)
    requires Sendable(job) && Shows(job, setup, init, w)
    requires Step(job, setup, w, a).Some?
    ensures Shows(job, setup, init, Step(job, setup, w, a).value)
  {
    hide Linked;
    hide Grown;
    hide Passed;
    StepInRange(job, setup, w, a);
    match a
    case SenderActs =>
      if !w.receiver.pc.RFailed? {
        SenderKeepsLinked(job, setup, w);
      }
    case Crash(flushed, kept) => CrashShows(job, setup, init, w, flushed, kept);
    case ReceiverActs =>
      assert w.toSender + [] == w.toSender;
      if InFile(w.receiver.pc) && !w.receiver.pc.RData? {
        OwnShows(job, setup, init, w);
      } else {
        MessageShows(job, setup, init, w);
      }
  }

  lemma CrashShows(job: Job, setup: Setup, init: Store, w: World, flushed: nat, kept: nat)
    requires Sendable(job) && Shows(job, setup, init, w)
    ensures Shows(job, setup, init, StartSession(AfterCrash(w, flushed, kept)))
  {
    hide Place;
    var s := AfterCrash(w, flushed, kept);
    Fresh(job, s);
    hide Linked;
    var pc := w.receiver.pc;
    if pc.RData? || pc.RSave? || pc.RClose? {
      var target := FileStays(job, setup, init, pc, w.store);
      WithinPasses(job, setup, init, pc, RHello, w.store, s);
    }
  }

  lemma {:induction false} RunShows(job: Job, setup: Setup, init: Store, from: World, actions: seq<Action>, to: World)
    requires Sendable(job) && Shows(job, setup, init, from) && Run(job, setup, from, actions, to)
    ensures Shows(job, setup, init, to)
    decreases |actions|
  {
    hide Shows;
    hide Step;
    if actions != [] {
      StepShows(job, setup, init, from, actions[0]);
      RunShows(job, setup, init, Step(job, setup, from, actions[0]).value, actions[1..], to);
    }
  }

  // ---------- at the end ----------

  predicate DigestsOk(job: Job) { forall f <- job.files :: DigestOk(job.digest(f.content)) }

  predicate OwnPlaces(job: Job) { forall i, j :: 0 <= i < j < |job.files| ==> Spot(job.files[i]) != Spot(job.files[j]) }

  /** What is there at the end of a completed session. */
  lemma DoneHas(job: Job, setup: Setup, init: Store, w: World)
    requires Sendable(job) && Shows(job, setup, init, w) && w.receiver.pc.RDone?
    ensures forall k :: 0 <= k < |job.directories| ==> DirectoryPassed(job, init, k, w.store)
    ensures forall k :: 0 <= k < |job.files| ==> FilePassed(job, setup, init, k, w.store)
    ensures Grown(job, init, w.store)
  {
    hide DirectoryPassed;
    hide FilePassed;
    hide Linked;
    hide Grown;
  }

  lemma DoneIsOk(job: Job, setup: Setup, init: Store, w: World)
    requires Sendable(job) && Shows(job, setup, init, w) && w.receiver.pc.RDone? && DigestsOk(job) && OwnPlaces(job)
    ensures JobOk(job)
  {
    DoneHas(job, setup, init, w);
    hide Shows;
    hide Place;
    hide AlwaysRefused;
    hide FilePathOk;
    hide WithAbove;
    hide Above;
    hide Unused;
    var store := w.store;
    assert Proper(store);
    hide Grown;
    forall f | f in job.files
      ensures FilePathOk(f.path)
    {
      var k :| 0 <= k < |job.files| && job.files[k] == f;
      assert FilePassed(job, setup, init, k, store);
    }
    forall d | d in job.directories
      ensures !AlwaysRefused(d)
    {
      var k :| 0 <= k < |job.directories| && job.directories[k] == d;
      assert DirectoryPassed(job, init, k, store);
    }
    forall i, j | 0 <= i < |job.files| && 0 <= j < |job.files|
      ensures Spot(job.files[i]) !in Above(Spot(job.files[j]))
    {
      assert FilePassed(job, setup, init, i, store) && FilePassed(job, setup, init, j, store);
    }
    forall i, j | 0 <= i < |job.files| && 0 <= j < |job.directories|
      ensures Spot(job.files[i]) !in WithAbove(Place(job.directories[j]))
    {
      assert FilePassed(job, setup, init, i, store) && DirectoryPassed(job, init, j, store);
    }
    forall i, j | 0 <= i < j < |job.directories|
      ensures Place(job.directories[j]) !in WithAbove(Place(job.directories[i]))
    {
      assert DirectoryPassed(job, init, j, store);
    }
  }

  lemma DoneWasFree(job: Job, setup: Setup, init: Store, w: World)
    requires Sendable(job) && Shows(job, setup, init, w) && w.receiver.pc.RDone?
    ensures forall d <- job.directories :: Place(d) !in init.dirs
    ensures !setup.resume ==> OwnPlaces(job) && forall f <- job.files :: Spot(f) !in init.dirs && Spot(f) !in init.files
    ensures forall p <- TargetDirectories(job) :: p !in init.files
  {
    DoneHas(job, setup, init, w);
    hide Shows;
    hide Place;
    hide AlwaysRefused;
    hide FilePathOk;
    hide WithAbove;
    hide Above;
    var store := w.store;
    forall d | d in job.directories
      ensures Place(d) !in init.dirs
    {
      var k :| 0 <= k < |job.directories| && job.directories[k] == d;
      assert DirectoryPassed(job, init, k, store);
    }
    forall f | f in job.files
      ensures Spot(f) !in init.dirs && (!setup.resume ==> Spot(f) !in init.files)
    {
      var k :| 0 <= k < |job.files| && job.files[k] == f;
      assert FilePassed(job, setup, init, k, store);
    }
    forall i, j | !setup.resume && 0 <= i < j < |job.files|
      ensures Spot(job.files[i]) != Spot(job.files[j])
    {
      assert FilePassed(job, setup, init, j, store);
    }
    forall p | p in TargetDirectories(job)
      ensures p !in init.files
    {
      if k :| 0 <= k < |job.directories| && p in WithAbove(Place(job.directories[k])) {
        assert DirectoryPassed(job, init, k, store);
      } else {
        var k :| 0 <= k < |job.files| && p in Above(Spot(job.files[k]));
        assert FilePassed(job, setup, init, k, store);
      }
      assert p in init.files.Keys ==> p in store.files.Keys;
    }
  }

  lemma FreshShows(job: Job, setup: Setup, init: Store)
    requires Sendable(job) && Proper(init)
    ensures Shows(job, setup, init, StartSession(init))
  {
    Fresh(job, init);
    hide Linked;
  }

  /** Without resume: a session can be completed, however many attempts it takes, if and only if the job and
      the disk are as every result above asks for. */
  lemma ReadyIff(job: Job, setup: Setup, init: Store)
    requires Sendable(job) && DigestsOk(job) && Proper(init) && setup.capacity > 0 && !setup.resume
    ensures StoreReady(job, setup, init) <==>
            exists actions, w :: Run(job, setup, StartSession(init), actions, w) && w.receiver.pc.RDone?
  {
    hide Run;
    hide Inv;
    hide JobOk;
    hide Shows;
    hide Proper;
    hide DigestsOk;
    hide Place;
    hide TargetDirectories;
    if StoreReady(job, setup, init) {
      InvHoldsInitially(job, setup, init);
      var actions, w := CanFinish(job, setup, init, StartSession(init));
      assert Run(job, setup, StartSession(init), actions, w) && w.receiver.pc.RDone?;
    }
    if actions, w :| Run(job, setup, StartSession(init), actions, w) && w.receiver.pc.RDone? {
      FreshShows(job, setup, init);
      RunShows(job, setup, init, StartSession(init), actions, w);
      DoneWasFree(job, setup, init, w);
      DoneIsOk(job, setup, init, w);
    }
  }

  // ---------- where nothing is yet ----------

  /** Completed, with a file of its own for every file sent.  Only with resume may a session overwrite one
      file of the job by another. */
  predicate Complete(job: Job, setup: Setup, w: World) {
    w.receiver.pc.RDone? && (setup.resume ==> |w.store.files| == |job.files|)
  }

  /** As many places as files: none is shared. */
  lemma {:induction false} NoneShared(job: Job, n: nat)
    requires n <= |job.files|
    ensures var places := set k | 0 <= k < n :: Spot(job.files[k]);
            |places| <= n && (|places| == n ==> forall i, j :: 0 <= i < j < n ==> Spot(job.files[i]) != Spot(job.files[j]))
  {
    hide Place;
    var places := set k | 0 <= k < n :: Spot(job.files[k]);
    if n > 0 {
      NoneShared(job, n - 1);
      var fewer := set k | 0 <= k < n - 1 :: Spot(job.files[k]);
      assert places == fewer + {Spot(job.files[n - 1])};
      if |places| == n {
        assert Spot(job.files[n - 1]) !in fewer;
      }
    }
  }

  lemma CompleteHasOwnPlaces(job: Job, setup: Setup, there: bool, w: World)
    requires Sendable(job) && Shows(job, setup, Empty(there), w) && Complete(job, setup, w)
    ensures OwnPlaces(job)
  {
    hide Place;
    DoneHas(job, setup, Empty(there), w);
    DoneWasFree(job, setup, Empty(there), w);
    hide Shows;
    if setup.resume {
      forall p | p in TargetPaths(job)
        ensures p in w.store.files.Keys
      {
        var k :| 0 <= k < |job.files| && p == Spot(job.files[k]);
        assert FilePassed(job, setup, Empty(there), k, w.store);
      }
      assert w.store.files.Keys == TargetPaths(job);
      NoneShared(job, |job.files|);
    }
  }

  /** Into a save_dir with nothing in it, or one that does not exist yet, a session can be completed with a
      file for every file if and only if the job's places are not in each other's way, and no directory leads
      to a save_dir that exists. */
  lemma CompleteIff(job: Job, setup: Setup, there: bool)
    requires Sendable(job) && DigestsOk(job) && setup.capacity > 0
    requires setup.resume ==> Resumable(job) && StateFileApart(job, setup)
    ensures JobOk(job) && (there ==> forall d <- job.directories :: Place(d) != "") <==>
            exists actions, w :: Run(job, setup, StartSession(Empty(there)), actions, w) && Complete(job, setup, w)
  {
    hide Run;
    hide Inv;
    hide JobOk;
    hide Shows;
    hide DigestsOk;
    hide Place;
    hide TargetDirectories;
    hide StoreReady;
    if JobOk(job) && (there ==> forall d <- job.directories :: Place(d) != "") {
      EmptyIsReady(job, setup, there);
      InvHoldsInitially(job, setup, Empty(there));
      var actions, w := CanFinish(job, setup, Empty(there), StartSession(Empty(there)));
      EndsWithTheTree(job, setup, Empty(there), w);
      FilesCounted(job, |job.files|);
      assert map[] + TargetFiles(job) == TargetFiles(job);
      assert Run(job, setup, StartSession(Empty(there)), actions, w) && Complete(job, setup, w);
    }
    if actions, w :| Run(job, setup, StartSession(Empty(there)), actions, w) && Complete(job, setup, w) {
      FreshShows(job, setup, Empty(there));
      RunShows(job, setup, Empty(there), StartSession(Empty(there)), actions, w);
      DoneWasFree(job, setup, Empty(there), w);
      CompleteHasOwnPlaces(job, setup, there, w);
      DoneIsOk(job, setup, Empty(there), w);
    }
  }

  lemma {:induction false} FilesCounted(job: Job, n: nat)
    requires JobOk(job) && n <= |job.files|
    ensures |FilesUpTo(job, n)| == n
  {
    hide JobOk;
    hide Place;
    if n > 0 {
      FilesCounted(job, n - 1);
      FilesUpToIs(job, n - 1);
      var last := Spot(job.files[n - 1]);
      forall k | 0 <= k < n - 1
        ensures Spot(job.files[k]) != last
      {
        SessionDisk.DistinctFiles(job, k, n - 1);
      }
      var before := FilesUpTo(job, n - 1);
      assert FilesUpTo(job, n).Keys == before.Keys + {last};
      assert last !in before.Keys;
    }
  }
}
