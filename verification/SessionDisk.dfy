/** Each step of the receiver, and a crash, keep what is known about the disk and the state file. */
module SessionDisk {
  import opened Results
  import opened TransferTypes
  import opened Paths
  import opened ResumeManager
  import opened Session
  import opened SessionInvariant

  // ---------- the job ----------

  lemma ReadyIsOk(job: Job, setup: Setup, init: Store, store: Store)
    requires StoreOk(job, setup, init, store)
    ensures JobOk(job) && Sendable(job)
  {
    hide Place;
    hide Framed;
    hide ResumeSafe;
    hide GoodState;
  }

  lemma ReadyIsResumable(job: Job, setup: Setup, init: Store, store: Store)
    requires StoreOk(job, setup, init, store) && setup.resume
    ensures Resumable(job)
  {
    hide Place;
    hide Framed;
    hide ResumeSafe;
    hide GoodState;
    hide JobOk;
  }

  lemma ReadyIsNew(job: Job, setup: Setup, init: Store, store: Store)
    requires StoreOk(job, setup, init, store)
    ensures forall d <- job.directories :: Place(d) !in init.dirs
  {
    hide Framed;
    hide ResumeSafe;
    hide GoodState;
    hide JobOk;
    hide Place;
  }

  lemma DistinctFiles(job: Job, i: nat, j: nat)
    requires JobOk(job) && i < |job.files| && j < |job.files| && i != j
    ensures Spot(job.files[i]) != Spot(job.files[j])
  {
    hide Place;
    hide FilePathOk;
  }

  lemma FileIsOk(job: Job, i: nat)
    requires JobOk(job) && i < |job.files|
    ensures FilePathOk(job.files[i].path)
  {
    hide Place;
    assert job.files[i] in job.files;
  }

  lemma FileFacts(path: string)
    requires FilePathOk(path)
    ensures SafePath(path) && Parents(path) == Above(Place(path))
    ensures forall store: Store :: Exists(store, path) <==> Place(path) in store.dirs || Place(path) in store.files
  {
    hide Place;
    hide LastComponent;
    hide SafePath;
  }

  lemma FileIsTarget(job: Job, i: nat)
    requires i < |job.files|
    ensures Spot(job.files[i]) in TargetPaths(job)
    ensures Above(Spot(job.files[i])) <= TargetDirectories(job)
  {
    hide Place;
    hide Above;
  }

  lemma FilesAndDirectoriesApart(job: Job, setup: Setup, init: Store, store: Store)
    requires StoreOk(job, setup, init, store)
    ensures forall p <- TargetDirectories(job) :: p !in store.files
    ensures forall i :: 0 <= i < |job.files| ==> Spot(job.files[i]) !in store.dirs
  {
    hide Place;
    hide GoodState;
    hide ResumeSafe;
    hide Above;
    hide FilePathOk;
    hide TargetDirectories;
    ReadyIsOk(job, setup, init, store);
    forall i | 0 <= i < |job.files|
      ensures Spot(job.files[i]) !in TargetDirectories(job)
    {
      FilesNeverDirectories(job, i);
    }
    hide JobOk;
    forall i | 0 <= i < |job.files|
      ensures Spot(job.files[i]) !in store.dirs
    {
      assert job.files[i] in job.files;
    }
  }

  lemma MadeNext(job: Job, i: nat)
    requires Sendable(job)
    ensures DirectoriesMade(job, 0) == {} && ParentsMade(job, 0) == {}
    ensures i < |job.directories| ==>
              DirectoriesMade(job, i + 1) == DirectoriesMade(job, i) + WithAbove(Place(job.directories[i]))
    ensures i < |job.files| ==> ParentsMade(job, i + 1) == ParentsMade(job, i) + Above(Spot(job.files[i]))
  {
    hide Place;
    hide Above;
    hide WithAbove;
  }

  // ---------- a change to one file ----------

  /** Nothing but file i and its record has changed. */
  ghost predicate OnlyFile(job: Job, i: nat, before: Store, after: Store)
    requires i < |job.files|
  {
    && after.dirs == before.dirs
    && (forall p :: p != Spot(job.files[i]) ==> (p in after.files <==> p in before.files))
    && (forall p :: p != Spot(job.files[i]) && p in before.files ==> after.files[p] == before.files[p])
    && (forall id: Identity :: id.relativePath != job.files[i].path ==>
          FindOffset(Records(after.state), id) == FindOffset(Records(before.state), id))
  }

  lemma FrameKept(job: Job, init: Store, i: nat, before: Store, after: Store)
    requires i < |job.files| && OnlyFile(job, i, before, after)
    requires Framed(job, init, before)
    ensures Framed(job, init, after)
  {
    hide Place;
    hide Records;
    hide FindOffset;
    hide TargetDirectories;
    FileIsTarget(job, i);
  }

  lemma DoneKept(job: Job, setup: Setup, i: nat, n: nat, before: Store, after: Store)
    requires JobOk(job) && i < |job.files| && n <= i && OnlyFile(job, i, before, after)
    requires FilesDone(job, setup, n, before)
    ensures FilesDone(job, setup, n, after)
  {
    hide Place;
    hide Records;
    hide FindOffset;
    assert Sendable(job);
    hide JobOk;
    forall j | 0 <= j < n
      ensures Spot(job.files[j]) in after.files && after.files[Spot(job.files[j])] == job.files[j].content
      ensures setup.resume ==> FindOffset(Records(after.state), Id(job, job.files[j])) == None
    {
      DistinctFiles(job, i, j);
      assert Id(job, job.files[j]).relativePath == job.files[j].path;
    }
  }

  lemma SafeKept(job: Job, i: nat, before: Store, after: Store)
    requires JobOk(job) && i < |job.files| && OnlyFile(job, i, before, after)
    requires ResumeSafe(job, before)
    requires SafeToResume(Stored(after.state, Id(job, job.files[i])), OnDisk(after, Spot(job.files[i])), job.files[i].content)
    ensures ResumeSafe(job, after)
  {
    hide Place;
    hide Records;
    hide FindOffset;
    assert Sendable(job);
    hide JobOk;
    forall f | f in job.files
      ensures SafeToResume(Stored(after.state, Id(job, f)), OnDisk(after, Spot(f)), f.content)
    {
      var j :| 0 <= j < |job.files| && job.files[j] == f;
      assert Id(job, f).relativePath == f.path;
      if j != i {
        DistinctFiles(job, i, j);
        assert OnDisk(after, Spot(f)) == OnDisk(before, Spot(f));
        assert Stored(after.state, Id(job, f)) == Stored(before.state, Id(job, f));
      }
    }
  }

  lemma FileChanged(job: Job, setup: Setup, init: Store, i: nat, before: Store, after: Store)
    requires StoreOk(job, setup, init, before) && i < |job.files| && OnlyFile(job, i, before, after)
    requires Sendable(job) && FilesDone(job, setup, i, before) && (setup.resume ==> GoodState(after.state))
    requires setup.resume ==> OnDisk(after, Spot(job.files[i])) <= job.files[i].content
    ensures StoreOk(job, setup, init, after) && FilesDone(job, setup, i, after)
  {
    hide Place;
    hide Records;
    hide FindOffset;
    hide GoodState;
    hide Framed;
    hide FilesDone;
    hide OnlyFile;
    ReadyIsOk(job, setup, init, before);
    hide JobOk;
    FrameKept(job, init, i, before, after);
    DoneKept(job, setup, i, i, before, after);
    if setup.resume {
      var f := job.files[i];
      PrefixIsSafe(Stored(after.state, Id(job, f)), OnDisk(after, Spot(f)), f.content);
      SafeKept(job, i, before, after);
    }
  }

  /** From one point inside file i to another. */
  predicate Within(pc: ReceiverPc, next: ReceiverPc) { InFile(pc) && InFile(next) && pc.i == next.i && pc.info == next.info }

  lemma AheadWithin(job: Job, pc: ReceiverPc, next: ReceiverPc, before: Store, after: Store)
    requires JobOk(job) && InFile(pc) && pc.i < |job.files| && OnlyFile(job, pc.i, before, after)
    requires NothingAhead(job, pc, before) && (next.RData? || next.RClose? || next.RClear?) && next.i == pc.i
    ensures NothingAhead(job, next, after)
  {
    hide Place;
    hide Records;
    hide FindOffset;
    hide JobOk;
    forall j | pc.i < j < |job.files|
      ensures Spot(job.files[j]) !in after.files
    {
      DistinctFiles(job, pc.i, j);
    }
  }

  lemma SameDirectories(job: Job, init: Store, i: nat, before: Store, after: Store, made: set<string>)
    requires i < |job.files| && OnlyFile(job, i, before, after) && DirectoriesOk(job, init, made, before)
    ensures DirectoriesOk(job, init, made, after)
  {
    hide Place;
    hide Records;
    hide FindOffset;
  }

  /** From a change of store and point inside file i, all but the current file's own condition. */
  lemma StepWithin(job: Job, setup: Setup, init: Store, pc: ReceiverPc, next: ReceiverPc, before: Store, after: Store)
    requires DiskOk(job, setup, init, pc, before) && Within(pc, next) && OnlyFile(job, pc.i, before, after)
    requires setup.resume ==> GoodState(after.state)
    requires setup.resume ==> OnDisk(after, Spot(job.files[pc.i])) <= job.files[pc.i].content
    requires !setup.resume ==> next.RData? || next.RClose? || next.RClear?
    requires CurrentFile(job, setup, next, after)
    ensures DiskOk(job, setup, init, next, after)
  {
    hide Place;
    hide GoodState;
    hide FilesDone;
    hide StoreOk;
    hide CurrentFile;
    hide OnlyFile;
    hide NothingAhead;
    hide DirectoriesOk;
    ReadyIsOk(job, setup, init, before);
    hide JobOk;
    assert Made(job, next) == Made(job, pc);
    SameDirectories(job, init, pc.i, before, after, Made(job, pc));
    hide Made;
    FileChanged(job, setup, init, pc.i, before, after);
    if !setup.resume {
      AheadWithin(job, pc, next, before, after);
    }
  }

  // ---------- messages ----------

  lemma DiskHello(job: Job, setup: Setup, init: Store, store: Store)
    requires DiskOk(job, setup, init, RHello, store)
    ensures job.directories == [] ==> DiskOk(job, setup, init, RFile(0), store)
    ensures job.directories != [] ==> DiskOk(job, setup, init, RDirectory(0), store)
  {
    hide DirectoriesMade;
    hide ParentsMade;
    hide Place;
    hide FilesDone;
    hide StoreOk;
    hide JobOk;
    ReadyIsOk(job, setup, init, store);
    MadeNext(job, 0);
  }

  lemma DirectoryIsNew(job: Job, i: nat, init: Store)
    requires JobOk(job) && i < |job.directories| && (forall d <- job.directories :: Place(d) !in init.dirs)
    ensures Place(job.directories[i]) !in init.dirs + DirectoriesMade(job, i)
    ensures WithAbove(Place(job.directories[i])) <= TargetDirectories(job)
    ensures !AlwaysRefused(job.directories[i])
  {
    hide FilePathOk;
    hide Place;
    hide AlwaysRefused;
    assert job.directories[i] in job.directories;
  }

  lemma MoreDirectories(job: Job, setup: Setup, init: Store, n: nat, store: Store, paths: set<string>)
    requires StoreOk(job, setup, init, store) && paths <= TargetDirectories(job)
    requires Sendable(job) && n <= |job.files| && FilesDone(job, setup, n, store)
    ensures var made := store.(dirs := store.dirs + paths);
            && CreateDirectories(store, paths) == Some(made)
            && StoreOk(job, setup, init, made) && FilesDone(job, setup, n, made)
  {
    hide Place;
    hide Records;
    hide FindOffset;
    hide GoodState;
    hide StoreReady;
    hide JobOk;
    FilesAndDirectoriesApart(job, setup, init, store);
    hide TargetDirectories;
    var made := store.(dirs := store.dirs + paths);
    assert forall f <- job.files :: OnDisk(made, Spot(f)) == OnDisk(store, Spot(f));
  }

  lemma DirectoryTaken(r: Receiver, store: Store, path: string, made: Store)
    requires r.pc.RDirectory? && !AlwaysRefused(path) && Place(path) !in store.dirs && Place(path) !in store.files
    requires CreateDirectories(store, WithAbove(Place(path))) == Some(made)
    ensures TakeDirectory(r, store, path) == (AfterDirectoryReceived(r, r.pc.i + 1), made)
  {
    hide SafePath;
    hide WithAbove;
    hide Place;
    hide LastComponent;
  }

  lemma AfterDirectories(job: Job, init: Store, i: nat, store: Store)
    requires Sendable(job) && i < |job.directories| && DirectoriesOk(job, init, DirectoriesMade(job, i), store)
    ensures var s := store.(dirs := store.dirs + WithAbove(Place(job.directories[i])));
            && DirectoriesOk(job, init, DirectoriesMade(job, i + 1), s)
            && DirectoriesMade(job, |job.directories|) + ParentsMade(job, 0) == DirectoriesMade(job, |job.directories|)
  {
    hide Place;
    MadeNext(job, i);
    MadeNext(job, 0);
    hide DirectoriesMade;
    hide ParentsMade;
    hide WithAbove;
  }

  /** DIRECTORY_INFO i is never refused, and makes that directory. */
  lemma DiskDirectory(job: Job, setup: Setup, init: Store, r: Receiver, store: Store)
    requires DiskOk(job, setup, init, r.pc, store) && r.pc.RDirectory?
    requires r.directoryCount == |job.directories|
    ensures var (pc, s) := TakeDirectory(r, store, job.directories[r.pc.i]);
            && pc == AfterDirectoryReceived(r, r.pc.i + 1)
            && DiskOk(job, setup, init, pc, s)
  {
    hide StoreReady;
    hide FilesDone;
    hide Framed;
    hide GoodState;
    hide ResumeSafe;
    hide DirectoriesMade;
    hide ParentsMade;
    hide WithAbove;
    hide TargetDirectories;
    ReadyIsOk(job, setup, init, store);
    var path := job.directories[r.pc.i];
    ReadyIsNew(job, setup, init, store);
    DirectoryIsNew(job, r.pc.i, init);
    hide JobOk;
    FilesAndDirectoriesApart(job, setup, init, store);
    hide AlwaysRefused;
    hide Place;
    InItself(Place(path));
    MoreDirectories(job, setup, init, 0, store, WithAbove(Place(path)));
    DirectoryTaken(r, store, path, store.(dirs := store.dirs + WithAbove(Place(path))));
    AfterDirectories(job, init, r.pc.i, store);
    hide StoreOk;
    hide DirectoriesOk;
    hide TakeDirectory;
  }

  lemma InItself(place: string)
    ensures place in WithAbove(place)
  {
    hide Place;
  }

  lemma InfoTaken(setup: Setup, i: nat, store: Store, info: FileInfo, made: Store)
    requires SafePath(info.relativePath) && (!setup.resume ==> !Exists(store, info.relativePath))
    requires CreateDirectories(store, Parents(info.relativePath)) == Some(made)
    requires setup.resume ==> TrustedOffset(made, info).Ok?
    ensures TakeInfo(setup.resume, i, store, info)
         == (RAck(i, info, if setup.resume then TrustedOffset(made, info).value else 0), made)
  {
    hide Place;
    hide SafePath;
    hide Above;
    hide Parents;
    hide Exists;
    hide TrustedOffset;
  }

  lemma InfoDirectories(job: Job, init: Store, i: nat, store: Store)
    requires Sendable(job) && i < |job.files|
    requires DirectoriesOk(job, init, DirectoriesMade(job, |job.directories|) + ParentsMade(job, i), store)
    ensures var s := store.(dirs := store.dirs + Above(Spot(job.files[i])));
            DirectoriesOk(job, init, DirectoriesMade(job, |job.directories|) + ParentsMade(job, i + 1), s)
  {
    hide Place;
    MadeNext(job, i);
    hide DirectoriesMade;
    hide ParentsMade;
    hide Above;
  }

  /** FILE_INFO i is never refused, and the computed offset names bytes of the source. */
  lemma DiskInfo(job: Job, setup: Setup, init: Store, i: nat, store: Store)
    requires DiskOk(job, setup, init, RFile(i), store) && i < |job.files|
    ensures var (pc, s) := TakeInfo(setup.resume, i, store, InfoOf(job, job.files[i]));
            && pc.RAck? && pc.i == i && pc.info == InfoOf(job, job.files[i])
            && DiskOk(job, setup, init, pc, s)
  {
    hide FilesDone;
    hide Framed;
    hide GoodState;
    hide StoreReady;
    hide DirectoriesMade;
    hide ParentsMade;
    hide Above;
    hide TargetDirectories;
    hide TrustedOffset;
    hide TakeInfo;
    hide ResumeSafe;
    hide SafePath;
    hide FilePathOk;
    hide Place;
    hide Exists;
    hide Parents;
    hide LastComponent;
    ReadyIsOk(job, setup, init, store);
    FileIsOk(job, i);
    hide JobOk;
    var f := job.files[i];
    FileFacts(f.path);
    FileIsTarget(job, i);
    MoreDirectories(job, setup, init, i, store, Above(Spot(f)));
    FilesAndDirectoriesApart(job, setup, init, store);
    var made := store.(dirs := store.dirs + Above(Spot(f)));
    assert !setup.resume ==> !Exists(store, f.path);
    if setup.resume {
      OffsetTrusted(job, setup, i, made);
    }
    InfoTaken(setup, i, store, InfoOf(job, f), made);
    InfoDirectories(job, init, i, store);
    hide StoreOk;
    hide DirectoriesOk;
  }

  lemma OffsetTrusted(job: Job, setup: Setup, i: nat, store: Store)
    requires Sendable(job) && i < |job.files| && GoodState(store.state) && setup.resume && ResumeSafe(job, store)
    requires Target(InfoOf(job, job.files[i])) == Spot(job.files[i])
    ensures var info := InfoOf(job, job.files[i]);
            TrustedOffset(store, info).Ok? && OffsetIsRight(setup, job.files[i], store, TrustedOffset(store, info).value)
    ensures var stored := Stored(store.state, Id(job, job.files[i]));
            var onDisk := |OnDisk(store, Spot(job.files[i]))|;
            var offset := TrustedOffset(store, InfoOf(job, job.files[i])).value;
            && offset <= stored && offset <= onDisk && offset <= |job.files[i].content|
            && (offset == stored || offset == onDisk || offset == |job.files[i].content|)
  {
    hide LoadState;
    hide FindOffset;
    hide GoodState;
    hide Place;
    var f := job.files[i];
    assert f in job.files;
    GoodLoads(store.state);
    var disk := OnDisk(store, Spot(f));
    var m := Min(Stored(store.state, Id(job, f)), |disk|);
    assert SafeToResume(Stored(store.state, Id(job, f)), disk, f.content);
    assert disk[..m] == f.content[..m];
    var offset := Min(m, |f.content|);
    assert disk[..offset] == disk[..m][..offset] && f.content[..offset] == f.content[..m][..offset];
  }

  lemma DiskFinish(job: Job, setup: Setup, init: Store, store: Store)
    requires DiskOk(job, setup, init, RFile(|job.files|), store)
    ensures DiskOk(job, setup, init, RDone, store)
  {
    hide Place;
    hide StoreOk;
    hide FilesDone;
  }

  lemma DiskAck(job: Job, setup: Setup, init: Store, pc: ReceiverPc, store: Store)
    requires DiskOk(job, setup, init, pc, store) && pc.RAck?
    ensures DiskOk(job, setup, init, ROpen(pc.i, pc.info, pc.offset), store)
  {
    hide Place;
    hide StoreOk;
    hide FilesDone;
  }

  lemma DiskOpen(job: Job, setup: Setup, init: Store, pc: ReceiverPc, store: Store)
    requires DiskOk(job, setup, init, pc, store) && pc.ROpen?
    ensures OpenOutput(store, Target(pc.info), pc.offset).Some?
    ensures var s := OpenOutput(store, Target(pc.info), pc.offset).value;
            var output := Output(s.files[Target(pc.info)], []);
            && output.Size() == pc.offset
            && DiskOk(job, setup, init, RData(pc.i, pc.info, output), s)
  {
    hide Records;
    hide FindOffset;
    hide GoodState;
    hide FilesDone;
    hide Framed;
    hide StoreReady;
    hide ResumeSafe;
    hide NothingAhead;
    hide DirectoriesOk;
    hide Place;
    ReadyIsOk(job, setup, init, store);
    FileIsOk(job, pc.i);
    hide JobOk;
    hide FilePathOk;
    hide LastComponent;
    hide SafePath;
    var f := job.files[pc.i];
    FilesAndDirectoriesApart(job, setup, init, store);
    var disk := OnDisk(store, Spot(f));
    var s := OpenOutput(store, Target(pc.info), pc.offset).value;
    assert s.files[Spot(f)] == disk[..pc.offset] == f.content[..pc.offset];
    assert disk[..pc.offset] + [] == disk[..pc.offset];
    StepWithin(job, setup, init, pc, RData(pc.i, pc.info, Output(s.files[Spot(f)], [])), store, s);
  }

  /** The output after the DATA message that carries content up to `next`. */
  function Grow(content: seq<byte>, output: Output, next: nat): Output
    requires output.Size() <= next <= |content|
  {
    output.(written := output.written + content[output.Size()..next])
  }

  lemma Grown(content: seq<byte>, output: Output, next: nat)
    requires output.Size() <= next <= |content| && output.All() == content[..output.Size()]
    ensures var grown := Grow(content, output, next);
            grown.base == output.base && grown.Size() == next && grown.All() == content[..next]
  {
    hide Place;
    assert Grow(content, output, next).All() == output.All() + content[output.Size()..next];
    assert content[..next] == content[..output.Size()] + content[output.Size()..next];
  }

  function AfterData(setup: Setup, job: Job, pc: ReceiverPc, next: nat): ReceiverPc
    requires pc.RData? && pc.i < |job.files| && pc.output.Size() <= next <= |job.files[pc.i].content|
  {
    var grown := Grow(job.files[pc.i].content, pc.output, next);
    if setup.resume then RSave(pc.i, pc.info, grown) else RData(pc.i, pc.info, grown)
  }

  lemma SameAhead(job: Job, pc: ReceiverPc, next: ReceiverPc, store: Store)
    requires pc.RData? && next.RData? && pc.i == next.i && NothingAhead(job, pc, store)
    ensures NothingAhead(job, next, store)
  {
    hide Place;
  }

  /** From one point inside file i to another, with the disk as it was. */
  lemma SameStore(job: Job, setup: Setup, init: Store, pc: ReceiverPc, next: ReceiverPc, store: Store)
    requires DiskOk(job, setup, init, pc, store) && Within(pc, next)
    requires CurrentFile(job, setup, next, store)
    requires !setup.resume ==> NothingAhead(job, next, store)
    ensures DiskOk(job, setup, init, next, store)
  {
    hide StoreOk;
    hide FilesDone;
    hide CurrentFile;
    hide NothingAhead;
    hide DirectoriesOk;
    hide Place;
    ReadyIsOk(job, setup, init, store);
    hide JobOk;
    assert Made(job, next) == Made(job, pc);
    hide Made;
  }

  lemma DataPc(job: Job, setup: Setup, init: Store, pc: ReceiverPc, store: Store)
    requires DiskOk(job, setup, init, pc, store) && pc.RData?
    ensures Sendable(job) && pc.i < |job.files| && pc.info == InfoOf(job, job.files[pc.i])
    ensures Target(pc.info) == Spot(job.files[pc.i])
    ensures OutputIsRight(job.files[pc.i], store, pc.output)
    ensures !setup.resume ==> NothingAhead(job, pc, store)
  {
    hide Place;
    hide FilesDone;
    hide DirectoriesOk;
    hide NothingAhead;
    hide Made;
    hide OutputIsRight;
    ReadyIsOk(job, setup, init, store);
    hide StoreOk;
    hide JobOk;
  }

  lemma DataFits(job: Job, setup: Setup, init: Store, pc: ReceiverPc, store: Store, next: nat)
    requires DiskOk(job, setup, init, pc, store) && pc.RData?
    requires pc.output.Size() <= next <= |job.files[pc.i].content|
    ensures var payload := job.files[pc.i].content[pc.output.Size()..next];
            TakeData(setup.resume, pc.i, pc.info, pc.output, Data(payload)) == AfterData(setup, job, pc, next)
    ensures var after := AfterData(setup, job, pc, next);
            && Sendable(job) && Within(pc, after) && PcOk(job, after) && after.output.Size() == next
            && CurrentFile(job, setup, after, store)
            && (!setup.resume ==> NothingAhead(job, after, store))
  {
    hide Place;
    hide DiskOk;
    hide NothingAhead;
    DataPc(job, setup, init, pc, store);
    Grown(job.files[pc.i].content, pc.output, next);
    if !setup.resume {
      SameAhead(job, pc, AfterData(setup, job, pc, next), store);
    }
  }

  lemma DiskData(job: Job, setup: Setup, init: Store, pc: ReceiverPc, store: Store, next: nat)
    requires DiskOk(job, setup, init, pc, store) && pc.RData?
    requires pc.output.Size() <= next <= |job.files[pc.i].content|
    ensures var payload := job.files[pc.i].content[pc.output.Size()..next];
            TakeData(setup.resume, pc.i, pc.info, pc.output, Data(payload)) == AfterData(setup, job, pc, next)
    ensures AfterData(setup, job, pc, next).output.Size() == next
    ensures DiskOk(job, setup, init, AfterData(setup, job, pc, next), store)
  {
    hide Place;
    DataFits(job, setup, init, pc, store, next);
    hide DiskOk;
    hide CurrentFile;
    hide NothingAhead;
    hide TakeData;
    hide AfterData;
    SameStore(job, setup, init, pc, AfterData(setup, job, pc, next), store);
  }

  lemma DiskEnd(job: Job, setup: Setup, init: Store, pc: ReceiverPc, store: Store)
    requires DiskOk(job, setup, init, pc, store) && pc.RData?
    requires pc.output.Size() == |job.files[pc.i].content|
    ensures DiskOk(job, setup, init, RClose(pc.i, pc.info, pc.output), store)
  {
    hide Place;
    hide DiskOk;
    hide OutputIsRight;
    DataPc(job, setup, init, pc, store);
    SameStore(job, setup, init, pc, RClose(pc.i, pc.info, pc.output), store);
  }

  // ---------- own steps ----------

  lemma DiskSave(job: Job, setup: Setup, init: Store, pc: ReceiverPc, store: Store)
    requires DiskOk(job, setup, init, pc, store) && pc.RSave?
    ensures var u := UpdateState(store.state, IdentityOf(pc.info), SavedOffset(pc.info, pc.output));
            && u.Ok?
            && DiskOk(job, setup, init, RData(pc.i, pc.info, pc.output), store.(state := u.value))
  {
    hide Place;
    hide Records;
    hide UpdateState;
    hide FindOffset;
    hide Upsert;
    hide GoodState;
    hide FilesDone;
    hide Framed;
    hide StoreReady;
    hide ResumeSafe;
    hide NothingAhead;
    hide DirectoriesOk;
    ReadyIsOk(job, setup, init, store);
    var f := job.files[pc.i];
    FileIsOk(job, pc.i);
    hide JobOk;
    var id := Id(job, f);
    var offset := SavedOffset(pc.info, pc.output);
    ReadyIsResumable(job, setup, init, store);
    IdIsClean(job, f);
    UpdateGood(store.state, id, offset);
    var s := store.(state := UpdateState(store.state, id, offset).value);
    forall other: Identity | other.relativePath != f.path
      ensures FindOffset(Records(s.state), other) == FindOffset(Records(store.state), other)
    {
      UpsertFind(Records(store.state), id, offset, other);
    }
    assert pc.output.base == pc.output.All()[..|pc.output.base|];
    StepWithin(job, setup, init, pc, RData(pc.i, pc.info, pc.output), store, s);
  }

  /** FILE_END is never followed by a size or checksum error, and the file is the source's. */
  lemma DiskClose(job: Job, setup: Setup, init: Store, pc: ReceiverPc, store: Store)
    requires DiskOk(job, setup, init, pc, store) && pc.RClose?
    ensures pc.output.Size() == pc.info.size && job.digest(pc.output.All()) == pc.info.sha256
    ensures DiskOk(job, setup, init, RClear(pc.i, pc.info),
                   store.(files := store.files[Target(pc.info) := pc.output.All()]))
  {
    hide Place;
    hide Records;
    hide FindOffset;
    hide GoodState;
    hide FilesDone;
    hide Framed;
    hide StoreReady;
    hide ResumeSafe;
    hide NothingAhead;
    hide DirectoriesOk;
    var f := job.files[pc.i];
    assert pc.output.All() == f.content[..|f.content|] == f.content;
    var s := store.(files := store.files[Spot(f) := f.content]);
    StepWithin(job, setup, init, pc, RClear(pc.i, pc.info), store, s);
  }

  lemma DiskClear(job: Job, setup: Setup, init: Store, pc: ReceiverPc, store: Store)
    requires DiskOk(job, setup, init, pc, store) && pc.RClear?
    ensures !setup.resume ==> DiskOk(job, setup, init, RFile(pc.i + 1), store)
    ensures setup.resume ==>
              var c := ClearState(store.state, IdentityOf(pc.info));
              c.Ok? && DiskOk(job, setup, init, RFile(pc.i + 1), store.(state := c.value))
  {
    hide Place;
    hide Records;
    hide ClearState;
    hide FindOffset;
    hide Without;
    hide GoodState;
    hide Framed;
    hide StoreReady;
    hide ResumeSafe;
    hide DirectoriesOk;
    ReadyIsOk(job, setup, init, store);
    hide JobOk;
    var f := job.files[pc.i];
    if setup.resume {
      var id := Id(job, f);
      ClearGood(store.state, id);
      var s := store.(state := ClearState(store.state, id).value);
      forall other: Identity | other.relativePath != f.path
        ensures FindOffset(Records(s.state), other) == FindOffset(Records(store.state), other)
      {
        WithoutFind(Records(store.state), id, other);
      }
      WithoutFind(Records(store.state), id, id);
      assert f.content <= f.content;
      StepWithin(job, setup, init, pc, pc, store, s);
      NextFile(job, setup, init, pc, s);
    } else {
      NextFile(job, setup, init, pc, store);
    }
  }

  lemma NextFile(job: Job, setup: Setup, init: Store, pc: ReceiverPc, store: Store)
    requires DiskOk(job, setup, init, pc, store) && pc.RClear? && Sendable(job)
    requires setup.resume ==> FindOffset(Records(store.state), Id(job, job.files[pc.i])) == None
    ensures DiskOk(job, setup, init, RFile(pc.i + 1), store)
  {
    hide Place;
    hide Records;
    hide FindOffset;
    hide StoreOk;
    hide DirectoriesOk;
    assert Made(job, RFile(pc.i + 1)) == Made(job, pc);
  }

  // ---------- crash ----------

  lemma TornState(state: StateFile, kept: nat)
    requires GoodState(state)
    ensures var torn := if state.Some? then Some(state.value[..Min(kept, |state.value|)]) else None;
            && GoodState(torn)
            && forall id: Identity :: FindOffset(Records(torn), id) == None
                                   || FindOffset(Records(torn), id) == FindOffset(Records(state), id)
  {
    hide Place;
    hide Records;
    hide GoodState;
    if state.Some? {
      var m := Min(kept, |state.value|);
      TearGood(state, m);
      var torn := Some(state.value[..m]);
      var j := |Records(torn)|;
      assert Records(torn) == Records(state)[..j];
      forall id: Identity
        ensures FindOffset(Records(torn), id) == None || FindOffset(Records(torn), id) == FindOffset(Records(state), id)
      {
        PrefixFind(Records(state), j, id);
      }
    }
  }

  lemma CrashFiles(job: Job, setup: Setup, init: Store, w: World, flushed: nat, kept: nat, i: nat)
    requires DiskOk(job, setup, init, w.receiver.pc, w.store) && i < |job.files|
    ensures var disk := OnDisk(AfterCrash(w, flushed, kept), Spot(job.files[i]));
            disk == OnDisk(w.store, Spot(job.files[i])) || disk <= job.files[i].content
  {
    hide Place;
    hide FilesDone;
    hide NothingAhead;
    hide DirectoriesOk;
    hide StoreOk;
    ReadyIsOk(job, setup, init, w.store);
    hide JobOk;
    var pc := w.receiver.pc;
    if pc.RData? || pc.RSave? || pc.RClose? {
      var output := pc.output;
      var k := Min(flushed, |output.written|);
      if i == pc.i {
        assert output.base + output.written[..k] == output.All()[..|output.base| + k];
      } else {
        DistinctFiles(job, i, pc.i);
      }
    }
  }

  lemma CrashSafe(job: Job, setup: Setup, init: Store, w: World, flushed: nat, kept: nat)
    requires DiskOk(job, setup, init, w.receiver.pc, w.store) && Sendable(job)
    ensures var s := AfterCrash(w, flushed, kept);
            setup.resume ==> GoodState(s.state) && ResumeSafe(job, s)
  {
    hide Place;
    hide FilesDone;
    hide NothingAhead;
    hide DirectoriesOk;
    hide CurrentFile;
    hide StoreReady;
    hide Records;
    hide FindOffset;
    hide GoodState;
    hide Framed;
    var s := AfterCrash(w, flushed, kept);
    if setup.resume {
      TornState(w.store.state, kept);
      forall f | f in job.files
        ensures SafeToResume(Stored(s.state, Id(job, f)), OnDisk(s, Spot(f)), f.content)
      {
        var i :| 0 <= i < |job.files| && job.files[i] == f;
        CrashFiles(job, setup, init, w, flushed, kept, i);
        if OnDisk(s, Spot(f)) <= f.content {
          PrefixIsSafe(Stored(s.state, Id(job, f)), OnDisk(s, Spot(f)), f.content);
        } else {
          assert SafeToResume(Stored(w.store.state, Id(job, f)), OnDisk(w.store, Spot(f)), f.content);
        }
      }
    }
  }

  lemma CrashFramed(job: Job, setup: Setup, init: Store, w: World, flushed: nat, kept: nat)
    requires DiskOk(job, setup, init, w.receiver.pc, w.store)
    ensures Framed(job, init, AfterCrash(w, flushed, kept))
    ensures AfterCrash(w, flushed, kept).files.Keys == w.store.files.Keys
  {
    hide Place;
    hide NothingAhead;
    hide DirectoriesOk;
    hide FilesDone;
    hide StoreReady;
    hide GoodState;
    hide TargetDirectories;
    hide ResumeSafe;
    ReadyIsOk(job, setup, init, w.store);
    hide JobOk;
    var pc := w.receiver.pc;
    if pc.RData? || pc.RSave? || pc.RClose? {
      FileIsTarget(job, pc.i);
    }
  }

  lemma NoDirectoryYet(job: Job, setup: Setup, init: Store, pc: ReceiverPc, store: Store)
    requires DiskOk(job, setup, init, pc, store) && Sendable(job) && CanRetry(job, setup, store)
    ensures DirectoriesOk(job, init, {}, store)
  {
    hide Place;
    hide StoreOk;
    hide FilesDone;
    hide NothingAhead;
    hide CurrentFile;
    hide ParentsMade;
    if job.directories != [] {
      InItself(Place(job.directories[0]));
      hide WithAbove;
      MadeNext(job, 0);
    }
  }

  lemma NoFileYet(job: Job, setup: Setup, init: Store, pc: ReceiverPc, store: Store)
    requires DiskOk(job, setup, init, pc, store) && Sendable(job) && CanRetry(job, setup, store) && !setup.resume
    ensures NothingAhead(job, RHello, store)
  {
    hide Place;
    hide StoreOk;
    hide CurrentFile;
    hide DirectoriesOk;
    hide Records;
    hide FindOffset;
  }

  /** A crash that leaves a retry possible leaves everything a new session needs. */
  lemma DiskCrash(job: Job, setup: Setup, init: Store, w: World, flushed: nat, kept: nat)
    requires DiskOk(job, setup, init, w.receiver.pc, w.store)
    requires CanRetry(job, setup, AfterCrash(w, flushed, kept))
    ensures DiskOk(job, setup, init, RHello, AfterCrash(w, flushed, kept))
  {
    hide Place;
    ReadyIsOk(job, setup, init, w.store);
    CrashSafe(job, setup, init, w, flushed, kept);
    CrashFramed(job, setup, init, w, flushed, kept);
    assert CanRetry(job, setup, w.store);
    NoDirectoryYet(job, setup, init, w.receiver.pc, w.store);
    if !setup.resume {
      NoFileYet(job, setup, init, w.receiver.pc, w.store);
    }
    hide AfterCrash;
    hide StoreReady;
    hide GoodState;
    hide ResumeSafe;
    hide Framed;
    hide JobOk;
    RetryOk(job, setup, init, w, AfterCrash(w, flushed, kept));
  }

  lemma RetryOk(job: Job, setup: Setup, init: Store, w: World, s: Store)
    requires StoreOk(job, setup, init, w.store) && Sendable(job)
    requires (setup.resume ==> GoodState(s.state) && ResumeSafe(job, s)) && Framed(job, init, s)
    requires DirectoriesOk(job, init, {}, w.store) && s.dirs == w.store.dirs && s.files.Keys == w.store.files.Keys
    requires !setup.resume ==> NothingAhead(job, RHello, w.store)
    ensures DiskOk(job, setup, init, RHello, s)
  {
    hide Place;
    hide StoreReady;
    hide GoodState;
    hide ResumeSafe;
    hide Framed;
    assert forall p :: p in s.files <==> p in s.files.Keys;
    assert forall p :: p in w.store.files <==> p in w.store.files.Keys;
  }
}
