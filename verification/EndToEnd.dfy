/** From scanned input paths to the receiver's disk, with SHA-256 as the digest. */
module EndToEnd {
  import opened Results
  import opened TransferTypes
  import opened Paths
  import ResumeText
  import opened Sha256Spec
  import opened Session
  import opened SessionInvariant
  import opened SessionDisk
  import opened SessionRuns
  import opened SessionOutcome
  import opened SessionNeeds
  import opened DirectoryOrder
  import MessageWire
  import SessionPrograms
  import B = ByteSession

  /** The digest the program computes. */
  ghost predicate UsesSha256(job: Job) { forall content :: job.digest(content) == Sha256Hex(content) }

  lemma Sha256IsADigest(content: seq<byte>)
    ensures DigestOk(Sha256Hex(content)) && ResumeText.BraceFree(Sha256Hex(content))
  {
    hide Hash;
    hide Hex;
    HexShape(Hash(content));
    var hex := Sha256Hex(content);
    assert forall c <- hex :: IsHexDigit(c);
  }

  /** What SendService collects for these input paths. */
  ghost predicate ScannedJob(job: Job, roots: seq<Root>, dirs: seq<seq<string>>, files: seq<seq<string>>) {
    && Sendable(job) && UsesSha256(job) && Collected(roots, dirs, files)
    && job.directories == Flatten(dirs) && FilePaths(job.files) == Flatten(files)
  }

  /** validate_unique_targets has let the job through. */
  predicate Validated(job: Job) { Distinct(job.directories + FilePaths(job.files)) }

  /** What resume asks of a job besides. */
  predicate CanResume(job: Job, setup: Setup) {
    setup.resume ==> StateFileApart(job, setup) && forall f <- job.files :: ResumeText.BraceFree(f.path)
  }

  lemma ScannedDigests(job: Job)
    requires Sendable(job) && UsesSha256(job)
    ensures DigestsOk(job)
    ensures (forall f <- job.files :: ResumeText.BraceFree(f.path)) ==> Resumable(job)
  {
    hide ResumeText.BraceFree;
    hide DigestOk;
    hide Sha256Hex;
    forall f | f in job.files
      ensures DigestOk(job.digest(f.content)) && ResumeText.BraceFree(job.digest(f.content))
    {
      Sha256IsADigest(f.content);
    }
  }

  /** The scanned inputs fit into each other, and into a save_dir that exists or does not. */
  predicate Fits(job: Job, roots: seq<Root>, there: bool) {
    if there then NoDots(roots) && Validated(job)
    else NoParent(roots) && DotFirst(job.directories) && Distinct(Places(job.directories + FilePaths(job.files)))
  }

  lemma FitsIsOk(job: Job, roots: seq<Root>, dirs: seq<seq<string>>, files: seq<seq<string>>, there: bool)
    requires ScannedJob(job, roots, dirs, files)
    ensures DigestsOk(job)
    ensures Fits(job, roots, there) <==> JobOk(job) && (there ==> forall d <- job.directories :: Place(d) != "")
  {
    hide JobOk;
    hide Flatten;
    hide Distinct;
    hide Place;
    hide Sha256Hex;
    hide ResumeText.BraceFree;
    ScannedDigests(job);
    ScannedJobIff(job, roots, dirs, files);
    ScannedIntoExisting(job, roots, dirs, files);
  }

  /** Where the directories lead, and save_dir if there is anything at all. */
  function ListedPlaces(job: Job): set<string> {
    (set d | d in job.directories :: Place(d)) + (if job.directories == [] && job.files == [] then {} else {""})
  }

  /** A scan lists every directory that will be made. */
  lemma NothingElseIsMade(job: Job, roots: seq<Root>, dirs: seq<seq<string>>, files: seq<seq<string>>)
    requires ScannedJob(job, roots, dirs, files) && NoParent(roots) && JobOk(job)
    ensures TargetDirectories(job) == ListedPlaces(job)
  {
    hide Collected;
    hide Flatten;
    hide Distinct;
    hide Sha256Hex;
    hide Ancestors;
    hide Place;
    hide NoParent;
    forall p | p in TargetDirectories(job)
      ensures p in ListedPlaces(job)
    {
      if k :| 0 <= k < |job.directories| && p in WithAbove(Place(job.directories[k])) {
        if p != "" && p != Place(job.directories[k]) {
          var e := AboveIsListed(roots, dirs, files, job.directories[k], p);
        }
      } else {
        var k :| 0 <= k < |job.files| && p in Above(Spot(job.files[k]));
        assert FilePaths(job.files)[k] == job.files[k].path;
        if p != "" {
          var e := AboveIsListed(roots, dirs, files, job.files[k].path, p);
        }
      }
    }
    forall p | p in ListedPlaces(job)
      ensures p in TargetDirectories(job)
    {
      if d :| d in job.directories && Place(d) == p {
        var k :| 0 <= k < |job.directories| && job.directories[k] == d;
        assert p in WithAbove(Place(job.directories[k]));
      } else if job.directories != [] {
        assert p in WithAbove(Place(job.directories[0]));
      } else {
        assert job.files[0] in job.files && p in Above(Spot(job.files[0]));
      }
    }
  }

  /** Whatever was scanned, through any recoverable run to where nothing is yet: if the receiver gets to the
      end with a file for every file, it has exactly the scanned directories and exactly the source files. */
  lemma ScannedTreeArrives(job: Job, roots: seq<Root>, dirs: seq<seq<string>>, files: seq<seq<string>>,
                           setup: Setup, there: bool, actions: seq<Action>, w: World)
    requires ScannedJob(job, roots, dirs, files) && CanResume(job, setup) && setup.capacity > 0
    requires Run(job, setup, StartSession(Empty(there)), actions, w) && Recoverable(job, setup, StartSession(Empty(there)), actions)
    requires Complete(job, setup, w)
    ensures w.store.files == TargetFiles(job) && w.store.dirs == Empty(there).dirs + ListedPlaces(job)
  {
    ScannedDigests(job);
    FitsIsOk(job, roots, dirs, files, there);
    CompleteMeans(job, setup, there, actions, w);
    ScannedJobIff(job, roots, dirs, files);
    NothingElseIsMade(job, roots, dirs, files);
    hide *;
    TreeEquality(job, setup, there, actions, w);
  }

  lemma CompleteMeans(job: Job, setup: Setup, there: bool, actions: seq<Action>, w: World)
    requires Sendable(job) && DigestsOk(job) && setup.capacity > 0 && (setup.resume ==> Resumable(job) && StateFileApart(job, setup))
    requires Run(job, setup, StartSession(Empty(there)), actions, w) && Complete(job, setup, w)
    ensures JobOk(job) && (there ==> forall d <- job.directories :: Place(d) != "")
  {
    hide *;
    CompleteIff(job, setup, there);
  }

  /** For scanned inputs that pass validation a session to where nothing is yet can be completed, with a file
      for every file, if and only if: into a save_dir that exists, no input directory was given as "." or
      ".."; into one that does not exist yet, none was given as "..", "." is the first directory sent if it
      is sent, and no two entries lead to one place. */
  lemma ScannedDeliveryIff(job: Job, roots: seq<Root>, dirs: seq<seq<string>>, files: seq<seq<string>>, setup: Setup, there: bool)
    requires ScannedJob(job, roots, dirs, files) && Validated(job) && CanResume(job, setup) && setup.capacity > 0
    ensures Fits(job, roots, there) <==>
            exists actions, w :: Run(job, setup, StartSession(Empty(there)), actions, w) && Complete(job, setup, w)
  {
    ScannedDigests(job);
    FitsIsOk(job, roots, dirs, files, there);
    assert setup.resume ==> Resumable(job) && StateFileApart(job, setup);
    hide *;
    CompleteIff(job, setup, there);
  }

  /** File names and chunks that a packet's length field has room for. */
  predicate ShortPaths(job: Job) {
    && job.chunk < 0x8000_0000_0000_0000
    && (forall f <- job.files :: MessageWire.ShortText(f.path))
    && (forall d <- job.directories :: MessageWire.ShortText(d))
  }

  lemma Sha256FitsTheWire(job: Job)
    requires UsesSha256(job) && ShortPaths(job)
    ensures SessionPrograms.WireJob(job)
  {
    hide Hash;
    hide Hex;
    forall f | f in job.files
      ensures MessageWire.ShortText(job.digest(f.content))
    {
      HexShape(Hash(f.content));
      var hex := Sha256Hex(f.content);
      assert forall c <- hex :: IsHexDigit(c);
    }
  }

  /** From scanned inputs over byte channels to the disk: after any run with any number of recoverable lost
      connections, a run that loses none ends, and can only stop, with exactly the scanned directories and
      the source files on the receiver's disk and no byte left over. */
  lemma ScannedBytesArrive(job: Job, roots: seq<Root>, dirs: seq<seq<string>>, files: seq<seq<string>>,
                           setup: Setup, there: bool, actions: seq<B.ByteAction>, b: B.ByteWorld)
    requires ScannedJob(job, roots, dirs, files) && CanResume(job, setup) && setup.capacity > 0
    requires Fits(job, roots, there) && ShortPaths(job)
    requires B.ByteRun(job, setup, B.StartBytes(Empty(there)), actions, b)
    requires B.BytesRecoverable(job, setup, B.StartBytes(Empty(there)), actions)
    ensures forall rest, end :: B.ByteRun(job, setup, b, rest, end) && B.Connected(rest) && B.BytesStopped(job, setup, end) ==>
              && B.BytesDelivered(job, setup, Empty(there), end)
              && end.store.files == TargetFiles(job) && end.store.dirs == Empty(there).dirs + ListedPlaces(job)
    ensures exists rest, end ::
              && B.ByteRun(job, setup, b, rest, end) && B.Connected(rest) && B.BytesDelivered(job, setup, Empty(there), end)
              && end.store.files == TargetFiles(job) && end.store.dirs == Empty(there).dirs + ListedPlaces(job)
  {
    ScannedDigests(job);
    FitsIsOk(job, roots, dirs, files, there);
    ScannedJobIff(job, roots, dirs, files);
    NothingElseIsMade(job, roots, dirs, files);
    Sha256FitsTheWire(job);
    hide *;
    EmptyIsReady(job, setup, there);
    B.ByteDelivery(job, setup, Empty(there), actions, b);
    forall rest, end | B.ByteRun(job, setup, b, rest, end) && B.Connected(rest) && B.BytesDelivered(job, setup, Empty(there), end)
      ensures end.store.files == TargetFiles(job) && end.store.dirs == Empty(there).dirs + ListedPlaces(job)
    {
      JustTheTree(job, setup, there, end);
    }
  }

  lemma JustTheTree(job: Job, setup: Setup, there: bool, b: B.ByteWorld)
    requires Sendable(job) && B.BytesDelivered(job, setup, Empty(there), b)
    ensures b.store.files == TargetFiles(job) && b.store.dirs == Empty(there).dirs + TargetDirectories(job)
  {
    hide TargetFiles;
    hide TargetDirectories;
    assert map[] + TargetFiles(job) == TargetFiles(job);
  }

  // ---------- an example ----------

  /** One directory with one file in it, in chunks of two bytes. */
  function SmallJob(): Job {
    Job([Source("d/f", [1, 2, 3])], ["d"], 2, Sha256Hex)
  }

  lemma SmallJobIsOk(setup: Setup)
    requires setup.stateFile.None?
    ensures JobOk(SmallJob()) && Resumable(SmallJob()) && StateFileApart(SmallJob(), setup)
    ensures TargetDirectories(SmallJob()) == {"", "d"} && Place("d") == "d"
  {
    hide Sha256Hex;
    Sha256IsADigest([1, 2, 3]);
    SmallPaths();
    OneInOne(SmallJob(), "d", SmallJob().files[0]);
    hide JobOk;
    hide TargetDirectories;
  }

  /** One directory with one file in it. */
  lemma OneInOne(job: Job, d: string, f: Source)
    requires Sendable(job) && job.directories == [d] && job.files == [f]
    requires !AlwaysRefused(d) && FilePathOk(f.path) && DigestOk(job.digest(f.content))
    requires Above(Place(d)) == {""} && Above(Spot(f)) == {"", Place(d)} && Spot(f) != Place(d)
    ensures JobOk(job) && TargetDirectories(job) == {"", Place(d)}
  {
    hide FilePathOk;
    hide AlwaysRefused;
    hide Above;
    hide Place;
    hide DigestOk;
    assert Spot(f) != "" by {
      NamesSomething(f.path);
    }
    MadeNext(job, 0);
    assert WithAbove(Place(d)) == {"", Place(d)};
  }

  lemma NamesSomething(path: string)
    requires FilePathOk(path)
    ensures Place(path) != ""
  {
  }

  lemma SmallPaths()
    ensures FilePathOk("d/f") && !AlwaysRefused("d") && Place("d/f") == "d/f" && Place("d") == "d"
    ensures Above("d") == {""} && Above("d/f") == {"", "d"}
  {
    ComponentsUnder("d", "f");
    ComponentsUnder("f", "");
    assert "d/f" == "d" + "/" + "f";
    PlainLeadsToItself("d/f");
    PlainLeadsToItself("d");
    assert "d/f"[..1] == "d";
    assert Ancestors("d") == {} && Ancestors("d/f") == {"d"};
  }

  /** The results are about something: this job, crashed before anything was received and tried again,
      is delivered. */
  lemma SmallJobIsDelivered(setup: Setup, there: bool, flushed: nat, kept: nat)
    requires setup.capacity > 0 && setup.stateFile.None?
    ensures var job := SmallJob();
            exists actions, w ::
              && Sendable(job)
              && Run(job, setup, StartSession(Empty(there)), [SenderActs, Crash(flushed, kept)] + actions, w)
              && Recoverable(job, setup, StartSession(Empty(there)), [SenderActs, Crash(flushed, kept)] + actions)
              && Delivered(job, setup, Empty(there), w)
  {
    hide Sha256Hex;
    hide Ancestors;
    var job := SmallJob();
    SmallJobIsOk(setup);
    ReallySendable(job);
    EmptyIsReady(job, setup, there);
    InvHoldsInitially(job, setup, Empty(there));
    hide Inv;
    hide JobOk;
    hide Resumable;
    hide StoreReady;
    hide Sendable;
    var actions, w := CanFinish(job, setup, Empty(there), StartSession(Empty(there)));
    EndsWithTheTree(job, setup, Empty(there), w);
    CrashFirst(job, setup, there, flushed, kept, actions, w);
    assert Delivered(job, setup, Empty(there), w);
    hide Delivered;
    hide Run;
    hide Recoverable;
    assert Run(job, setup, StartSession(Empty(there)), [SenderActs, Crash(flushed, kept)] + actions, w);
  }

  lemma CrashFirst(job: Job, setup: Setup, there: bool, flushed: nat, kept: nat, actions: seq<Action>, w: World)
    requires Sendable(job) && setup.capacity > 0 && CanRetry(job, setup, Empty(there))
    requires Run(job, setup, StartSession(Empty(there)), actions, w) && CrashFree(actions)
    ensures Run(job, setup, StartSession(Empty(there)), [SenderActs, Crash(flushed, kept)] + actions, w)
    ensures Recoverable(job, setup, StartSession(Empty(there)), [SenderActs, Crash(flushed, kept)] + actions)
  {
    hide TotalBytes;
    var all := [SenderActs, Crash(flushed, kept)] + actions;
    assert all[1..] == [Crash(flushed, kept)] + actions && all[1..][1..] == actions;
    CrashFreeRecovers(job, setup, StartSession(Empty(there)), actions, w);
    var start := StartSession(Empty(there));
    var sent := Step(job, setup, start, SenderActs).value;
    assert AfterCrash(sent, flushed, kept) == Empty(there);
    assert Step(job, setup, sent, Crash(flushed, kept)).value == start;
    assert Run(job, setup, sent, all[1..], w);
    assert Recoverable(job, setup, sent, all[1..]);
  }

  lemma {:induction false} CrashFreeRecovers(job: Job, setup: Setup, from: World, actions: seq<Action>, w: World)
    requires Sendable(job) && Run(job, setup, from, actions, w) && CrashFree(actions)
    ensures Recoverable(job, setup, from, actions)
    decreases |actions|
  {
    hide Step;
    if actions != [] {
      assert actions[0] in actions;
      CrashFreeRecovers(job, setup, Step(job, setup, from, actions[0]).value, actions[1..], w);
    }
  }

  /** The same job, crashed once its directory has been made, can never be completed. */
  lemma SmallJobIsLost(setup: Setup, there: bool, flushed: nat, kept: nat, actions: seq<Action>, to: World)
    requires setup.capacity > 0 && setup.stateFile.None?
    requires Sendable(SmallJob())
    requires var job := SmallJob();
             var start := [SenderActs, ReceiverActs, SenderActs, ReceiverActs, Crash(flushed, kept)];
             Run(job, setup, StartSession(Empty(there)), start + actions, to)
    ensures !to.receiver.pc.RDone?
  {
    hide Sha256Hex;
    hide TotalBytes;
    hide Ancestors;
    hide TargetDirectories;
    hide Linked;
    hide JobOk;
    hide Run;
    var job := SmallJob();
    SmallJobIsOk(setup);
    var w0 := StartSession(Empty(there));
    var all := [SenderActs, ReceiverActs, SenderActs, ReceiverActs, Crash(flushed, kept)] + actions;
    var w1 := FirstStep(job, setup, w0, all, to);
    var w2 := FirstStep(job, setup, w1, all[1..], to);
    var w3 := FirstStep(job, setup, w2, all[1..][1..], to);
    var w4 := FirstStep(job, setup, w3, all[1..][1..][1..], to);
    var w5 := FirstStep(job, setup, w4, all[1..][1..][1..][1..], to);
    assert w1.sender == SDirectory(0) && w1.toReceiver[0].Hello?;
    assert w2.receiver.pc == RDirectory(0) && w2.toReceiver == [];
    assert w3.toReceiver == [Directory("d")];
    SmallDirectory(w3.receiver, w3.store);
    assert "d" in w4.store.dirs;
    Fresh(job, w5.store);
    DoomedNeverFinishes(job, setup, w5, all[1..][1..][1..][1..][1..], to);
  }

  lemma FirstStep(job: Job, setup: Setup, from: World, actions: seq<Action>, to: World) returns (next: World)
    requires Sendable(job) && actions != [] && Run(job, setup, from, actions, to)
    ensures SenderInRange(job, from.sender) && Step(job, setup, from, actions[0]) == Some(next)
    ensures Run(job, setup, next, actions[1..], to)
  {
    hide Step;
    next := Step(job, setup, from, actions[0]).value;
  }

  lemma SmallDirectory(r: Receiver, store: Store)
    requires r.pc.RDirectory? && store.files == map[] && "d" !in store.dirs
    ensures TakeDirectory(r, store, "d") == (AfterDirectoryReceived(r, r.pc.i + 1), store.(dirs := store.dirs + {"", "d"}))
  {
    SmallPaths();
    hide AlwaysRefused;
    hide Above;
    hide LastComponent;
    hide Place;
    hide SafePath;
    assert !AlwaysRefused("d") ==> SafePath("d") && LastComponent("d") != "" by {
      Accepted("d");
    }
    assert WithAbove("d") == {"", "d"};
  }

  lemma Accepted(path: string)
    ensures !AlwaysRefused(path) ==> SafePath(path) && LastComponent(path) != ""
  {
  }
}
