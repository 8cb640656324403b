/** Whole runs of a session, with any number of crashes and retries. */
module SessionRuns {
  import opened Results
  import opened Paths
  import opened ResumeManager
  import opened Session
  import opened SessionInvariant
  import opened SessionTheorems

  // ---------- runs ----------

  /** These actions, one after the other, lead from one world to the other. */
  ghost predicate Run(job: Job, setup: Setup, from: World, actions: seq<Action>, to: World)
    requires Sendable(job)
    decreases |actions|
  {
    if actions == [] then from == to
    else
      && SenderInRange(job, from.sender)
      && Step(job, setup, from, actions[0]).Some?
      && Run(job, setup, Step(job, setup, from, actions[0]).value, actions[1..], to)
  }

  /** Every crash on the way leaves a store on which a retry can succeed. */
  ghost predicate Recoverable(job: Job, setup: Setup, from: World, actions: seq<Action>)
    requires Sendable(job)
    decreases |actions|
  {
    actions == [] ||
    ( && SenderInRange(job, from.sender)
      && Step(job, setup, from, actions[0]).Some?
      && (actions[0].Crash? ==> CanRetry(job, setup, AfterCrash(from, actions[0].flushed, actions[0].kept)))
      && Recoverable(job, setup, Step(job, setup, from, actions[0]).value, actions[1..]))
  }

  predicate CrashFree(actions: seq<Action>) { forall a <- actions :: !a.Crash? }

  predicate Done(w: World) { w.sender.SDone? && w.receiver.pc.RDone? }

  lemma StepKeepsInv(job: Job, setup: Setup, init: Store, w: World, a: Action)
    requires Inv(job, setup, init, w) && Sendable(job) && SenderInRange(job, w.sender)
    requires Step(job, setup, w, a).Some?
    requires a.Crash? ==> CanRetry(job, setup, AfterCrash(w, a.flushed, a.kept))
    ensures Inv(job, setup, init, Step(job, setup, w, a).value)
  {
    hide Inv;
    hide AfterCrash;
    hide SenderStep;
    hide ReceiverStep;
    match a
    case SenderActs => SenderKeepsInv(job, setup, init, w);
    case ReceiverActs => ReceiverKeepsInv(job, setup, init, w);
    case Crash(flushed, kept) => CrashKeepsInv(job, setup, init, w, flushed, kept);
  }

  lemma {:induction false} RunKeepsInv(job: Job, setup: Setup, init: Store, from: World, actions: seq<Action>, to: World)
    requires Inv(job, setup, init, from) && Sendable(job)
    requires Run(job, setup, from, actions, to) && Recoverable(job, setup, from, actions)
    ensures Inv(job, setup, init, to)
    decreases |actions|
  {
    hide Inv;
    hide Step;
    if actions != [] {
      StepKeepsInv(job, setup, init, from, actions[0]);
      RunKeepsInv(job, setup, init, Step(job, setup, from, actions[0]).value, actions[1..], to);
    }
  }

  /** With resume and no directories every crash is recoverable. */
  lemma {:induction false} ResumeRecovers(job: Job, setup: Setup, from: World, actions: seq<Action>, to: World)
    requires Sendable(job) && setup.resume && job.directories == []
    requires Run(job, setup, from, actions, to)
    ensures Recoverable(job, setup, from, actions)
    decreases |actions|
  {
    hide Step;
    if actions != [] {
      ResumeRecovers(job, setup, Step(job, setup, from, actions[0]).value, actions[1..], to);
    }
  }

  // ---------- safety ----------

  /** Neither side ever fails, and the bytes that a retry would keep are always the source's: in every
      world of every recoverable run, however often it crashes. */
  lemma SafeAlways(job: Job, setup: Setup, init: Store, actions: seq<Action>, w: World)
    requires StoreReady(job, setup, init) && Sendable(job)
    requires Run(job, setup, StartSession(init), actions, w) && Recoverable(job, setup, StartSession(init), actions)
    ensures !w.sender.SFailed? && !w.receiver.pc.RFailed?
    ensures setup.resume ==> ResumeSafe(job, w.store)
    ensures w.receiver.pc.RAck? ==>
              var pc := w.receiver.pc;
              pc.i < |job.files| && OffsetIsRight(setup, job.files[pc.i], w.store, pc.offset)
  {
    hide Inv;
    hide StoreReady;
    hide Run;
    hide Recoverable;
    hide ResumeSafe;
    InvHoldsInitially(job, setup, init);
    RunKeepsInv(job, setup, init, StartSession(init), actions, w);
    InvSafe(job, setup, init, w);
  }

  lemma InvSafe(job: Job, setup: Setup, init: Store, w: World)
    requires Inv(job, setup, init, w) && Sendable(job)
    ensures !w.sender.SFailed? && !w.receiver.pc.RFailed?
    ensures setup.resume ==> ResumeSafe(job, w.store)
    ensures w.receiver.pc.RAck? ==>
              var pc := w.receiver.pc;
              pc.i < |job.files| && OffsetIsRight(setup, job.files[pc.i], w.store, pc.offset)
  {
    InvParts(job, setup, init, w);
    hide Inv;
    hide Linked;
    hide JobOk;
    hide Framed;
    hide GoodState;
    hide ResumeSafe;
    hide FilesDone;
    hide Made;
  }

  // ---------- no deadlock ----------

  /** While the session is not over, one side can act. */
  lemma NoDeadlock(job: Job, setup: Setup, init: Store, w: World)
    requires Inv(job, setup, init, w) && Sendable(job) && SenderInRange(job, w.sender) && !Done(w)
    ensures Step(job, setup, w, SenderActs).Some? || Step(job, setup, w, ReceiverActs).Some?
  {
    hide Inv;
    hide DiskOk;
    hide JobOk;
    InvParts(job, setup, init, w);
    var pc := w.receiver.pc;
    if InFile(pc) && !pc.RData? {
      OwnStep(job, setup, init, w);
    } else if w.toReceiver != [] {
      assert pc.RDone? ==> w.toReceiver == [];
    } else {
      SenderCanAct(job, setup, w);
    }
  }

  lemma SenderCanAct(job: Job, setup: Setup, w: World)
    requires Sendable(job) && SenderInRange(job, w.sender) && PcOk(job, w.receiver.pc) && Linked(job, w)
    requires w.toReceiver == [] && !(InFile(w.receiver.pc) && !w.receiver.pc.RData?)
    requires !Done(w) && setup.capacity > 0 && !w.sender.SFailed?
    ensures Step(job, setup, w, SenderActs).Some?
  {
    hide Place;
    hide ReceiverStep;
    hide TotalBytes;
    hide Chunks;
    hide Aligned;
    hide InfoOf;
  }

  // ---------- the channels and the crash ----------

  lemma StepKeepsRoom(job: Job, setup: Setup, w: World, a: Action)
    requires Sendable(job) && SenderInRange(job, w.sender) && Step(job, setup, w, a).Some?
    requires |w.toReceiver| <= setup.capacity && |w.toSender| <= setup.capacity
    ensures var next := Step(job, setup, w, a).value;
            |next.toReceiver| <= setup.capacity && |next.toSender| <= setup.capacity
  {
    hide TakeMessage;
    hide UpdateState;
    hide ClearState;
    hide OpenOutput;
    hide Flushed;
    hide AfterCrash;
    hide TotalBytes;
    hide InfoOf;
  }

  /** In no world of any run does a channel hold more than its capacity. */
  lemma {:induction false} ChannelsBounded(job: Job, setup: Setup, from: World, actions: seq<Action>, to: World)
    requires Sendable(job) && Run(job, setup, from, actions, to)
    requires |from.toReceiver| <= setup.capacity && |from.toSender| <= setup.capacity
    ensures |to.toReceiver| <= setup.capacity && |to.toSender| <= setup.capacity
    decreases |actions|
  {
    hide Step;
    if actions != [] {
      StepKeepsRoom(job, setup, from, actions[0]);
      ChannelsBounded(job, setup, Step(job, setup, from, actions[0]).value, actions[1..], to);
    }
  }

  /** A crash may keep any part of what was written to the open file since it was opened, none of it and all of it
      included, and any part of the state file; nothing else on disk changes and both sides start anew. */
  lemma CrashKeepsAnyPrefix(job: Job, setup: Setup, w: World, f: nat, k: nat)
    requires Sendable(job) && SenderInRange(job, w.sender)
    ensures Step(job, setup, w, Crash(f, k)) == Some(StartSession(AfterCrash(w, f, k)))
    ensures var s := AfterCrash(w, f, k);
            var pc := w.receiver.pc;
            && s.dirs == w.store.dirs
            && (w.store.state.None? <==> s.state.None?)
            && (w.store.state.Some? && k <= |w.store.state.value| ==> s.state.value == w.store.state.value[..k])
            && (if pc.RData? || pc.RSave? || pc.RClose? then
                  f <= |pc.output.written| ==>
                    s.files == w.store.files[Target(pc.info) := pc.output.base + pc.output.written[..f]]
                else s.files == w.store.files)
  {
    hide Place;
  }
}
