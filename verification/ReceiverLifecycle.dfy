/** ReceiveServerService: start and stop under a mutex, a worker thread in its accept loop, and the join
    of the previous worker that a restart does while it holds the mutex. */
module ReceiverLifecycle {
  import opened Results

  datatype Status = Stopped | Starting | Running | Stopping | Failed

  /** Where a worker thread is.  Leaving waits for the mutex to write the final status; Ending has given
      the mutex back for the last time. */
  datatype WorkerPc = LoopTop | Accepting | Receiving | Recording | Leaving(failed: bool) | Ending | Ended

  datatype Worker = NoWorker | Worker(pc: WorkerPc, stop: bool)

  /** A call of start between taking and releasing the mutex. */
  datatype Starter = NoStart | Begun | Bound | Joining

  /** previous is the thread that is being replaced; server says whether the listener exists. */
  datatype Native = Native(status: Status, server: bool, worker: Worker, previous: Worker, starter: Starter)

  const FRESH := Native(Stopped, false, NoWorker, NoWorker, NoStart)

  /** How a blocking call of the worker ends. */
  datatype Happening = Nothing | Connection | Failure | NetworkError | OtherError

  datatype Action =
    | StartLocks
    | StartBinds(ok: bool)
    | StartSpawns
    | StartThrows
    | StartJoins
    | StopCalled
    | WorkerMoves(happening: Happening)
    | PreviousMoves(happening: Happening)

  predicate MutexFree(s: Native) { s.starter.NoStart? }

  /** In its loop: it uses the listener and has yet to write the final status. */
  predicate Active(w: Worker) { w.Worker? && !w.pc.Ending? && !w.pc.Ended? }

  /** The catch blocks: a network error after a stop request counts as a normal stop. */
  function Caught(w: Worker, h: Happening): WorkerPc
    requires w.Worker?
  {
    Leaving(!(h.NetworkError? && w.stop))
  }

  /** A step of the thread itself, when it needs no mutex. */
  function FreeStep(w: Worker, h: Happening): Option<Worker>
    requires w.Worker?
  {
    match w.pc
    case LoopTop => Some(w.(pc := if w.stop then Leaving(false) else Accepting))
    case Accepting =>
      (match h
       case Nothing => Some(w.(pc := LoopTop))
       case Connection => Some(w.(pc := Receiving))
       case Failure => None
       case _ => Some(w.(pc := Caught(w, h))))
    case Receiving =>
      (match h
       case Nothing => Some(w.(pc := LoopTop))
       case Failure => Some(w.(pc := Recording))
       case Connection => None
       case _ => Some(w.(pc := Caught(w, h))))
    case Ending => Some(w.(pc := Ended))
    case _ => None
  }

  function WorkerStep(s: Native, w: Worker, h: Happening): Option<(Native, Worker)> {
    if w.NoWorker? then None
    else match w.pc
      case Recording => if MutexFree(s) then Some((s, w.(pc := LoopTop))) else None
      case Leaving(failed) =>
        if MutexFree(s) then Some((s.(server := false, status := if failed then Failed else Stopped), w.(pc := Ending)))
        else None
      case _ =>
        (match FreeStep(w, h)
         case Some(moved) => Some((s, moved))
         case None => None)
  }

  function Next(s: Native, a: Action): Option<Native> {
    match a
    case StartLocks =>
      if !MutexFree(s) then None
      else if s.status != Stopped then Some(s)
      else Some(s.(status := Starting, starter := Begun))
    case StartBinds(ok) =>
      if s.starter != Begun then None
      else if ok then Some(s.(server := true, starter := Bound))
      else Some(s.(status := Failed, starter := NoStart))
    case StartSpawns =>
      if s.starter != Bound then None
      else Some(s.(worker := Worker(LoopTop, false),
                   previous := if s.worker.Worker? then s.worker.(stop := true) else NoWorker, starter := Joining))
    case StartThrows =>
      // the thread cannot be created; the exception leaves start past its catch blocks
      if s.starter != Bound then None else Some(s.(starter := NoStart))
    case StartJoins =>
      if s.starter != Joining || (s.previous.Worker? && !s.previous.pc.Ended?) then None
      else Some(s.(previous := NoWorker, status := Running, starter := NoStart))
    case StopCalled =>
      if !MutexFree(s) then None
      else
        (match s.status
         case Stopped => Some(s)
         case Stopping => Some(s)
         case Failed => Some(s.(server := false, status := Stopped))
         case _ => Some(s.(status := Stopping,
                           worker := if s.worker.Worker? then s.worker.(stop := true) else NoWorker)))
    case WorkerMoves(h) =>
      (match WorkerStep(s, s.worker, h)
       case Some((s2, w)) => Some(s2.(worker := w))
       case None => None)
    case PreviousMoves(h) =>
      (match WorkerStep(s, s.previous, h)
       case Some((s2, w)) => Some(s2.(previous := w))
       case None => None)
  }

  // ---------- safety ----------

  /** What a start leaves whose thread could not be created: a listener, no worker, and a status that only a
      worker would end. */
  predicate Stranded(s: Native) {
    && s.starter.NoStart? && s.server && !Active(s.worker) && !Active(s.previous)
    && (s.status.Starting? || s.status.Stopping?)
  }

  /** At most one worker is in its loop and it has a listener; Stopped and Failed have neither; Stopping
      means that a stop was requested of a worker that is still there, unless the service is stranded. */
  predicate NativeOk(s: Native) {
    && !Active(s.previous)
    && (s.previous.Worker? ==> s.starter.Joining?)
    && (Active(s.worker) ==> s.server)
    && (s.worker.Worker? && s.worker.pc == Leaving(false) ==> s.worker.stop)
    && (!s.starter.NoStart? ==> s.status.Starting?)
    && (s.status.Starting? && s.starter.NoStart? ==> Stranded(s))
    && (s.starter.Begun? || s.starter.Bound? ==> !Active(s.worker))
    && (s.starter.Begun? ==> !s.server) && (s.starter.Bound? ==> s.server)
    && (s.starter.Joining? ==> Active(s.worker) && !s.worker.stop)
    && (s.status.Stopped? || s.status.Failed? ==> !Active(s.worker) && !s.server)
    && (s.status.Running? ==> Active(s.worker) && !s.worker.stop)
    && (s.status.Stopping? ==> Stranded(s) || (Active(s.worker) && s.worker.stop))
  }

  lemma StepKeepsOk(s: Native, a: Action)
    requires NativeOk(s) && Next(s, a).Some?
    ensures NativeOk(Next(s, a).value)
  {
  }

  ghost predicate NativeRun(s: Native, actions: seq<Action>, to: Native)
    decreases |actions|
  {
    if actions == [] then s == to
    else Next(s, actions[0]).Some? && NativeRun(Next(s, actions[0]).value, actions[1..], to)
  }

  /** Every interleaving of any number of starts, stops and worker steps. */
  lemma {:induction false} AlwaysOk(s: Native, actions: seq<Action>, to: Native)
    requires NativeOk(s) && NativeRun(s, actions, to)
    ensures NativeOk(to)
    decreases |actions|
  {
    hide NativeOk;
    hide Next;
    if actions != [] {
      StepKeepsOk(s, actions[0]);
      AlwaysOk(Next(s, actions[0]).value, actions[1..], to);
    }
  }

  /** The listener is never used when it is gone, and never by two threads. */
  lemma ListenerSafe(actions: seq<Action>, s: Native)
    requires NativeRun(FRESH, actions, s)
    ensures Active(s.worker) ==> s.server
    ensures !(Active(s.worker) && Active(s.previous))
    ensures s.status.Stopped? ==> !s.server && !Active(s.worker) && !Active(s.previous)
  {
    AlwaysOk(FRESH, actions, s);
  }

  // ---------- a thread that cannot be created ----------

  lemma StrandsOnlyByThrowing(s: Native, a: Action)
    requires NativeOk(s) && Next(s, a).Some?
    ensures Stranded(Next(s, a).value) <==> Stranded(s) || a.StartThrows?
  {
  }

  /** The service is stranded if and only if some start could not create its thread; nothing that happens
      afterwards changes that, so it neither runs nor stops any more. */
  lemma {:induction false} StrandedIff(s: Native, actions: seq<Action>, to: Native)
    requires NativeOk(s) && NativeRun(s, actions, to)
    ensures Stranded(to) <==> Stranded(s) || StartThrows in actions
    ensures Stranded(to) ==> !to.status.Stopped? && !to.status.Running? && !to.status.Failed?
    decreases |actions|
  {
    hide NativeOk;
    hide Next;
    if actions != [] {
      StepKeepsOk(s, actions[0]);
      StrandsOnlyByThrowing(s, actions[0]);
      StrandedIff(Next(s, actions[0]).value, actions[1..], to);
      assert StartThrows in actions <==> actions[0] == StartThrows || StartThrows in actions[1..];
      hide Stranded;
    }
    if Stranded(to) {
      StrandedStatus(to);
    }
  }

  lemma StrandedStatus(s: Native)
    requires Stranded(s)
    ensures s.status.Starting? || s.status.Stopping?
  {
  }

  /** It can happen, and a stop is then answered with Stopping for ever. */
  lemma ThrowingStrands() returns (actions: seq<Action>, s: Native)
    ensures NativeRun(FRESH, actions, s) && Stranded(s) && s.status.Stopping?
  {
    actions := [StartLocks, StartBinds(true), StartThrows, StopCalled];
    var s1 := Next(FRESH, StartLocks).value;
    var s2 := Next(s1, StartBinds(true)).value;
    var s3 := Next(s2, StartThrows).value;
    s := Next(s3, StopCalled).value;
    assert actions[1..] == [StartBinds(true), StartThrows, StopCalled];
    assert [StartBinds(true), StartThrows, StopCalled][1..] == [StartThrows, StopCalled];
    assert [StartThrows, StopCalled][1..] == [StopCalled] && [StopCalled][1..] == [];
    assert NativeRun(s3, [StopCalled], s);
    assert NativeRun(s2, [StartThrows, StopCalled], s);
    assert NativeRun(s1, [StartBinds(true), StartThrows, StopCalled], s);
  }

  // ---------- progress ----------

  /** Steps of its own that a thread which has been asked to stop still takes. */
  function StepsLeft(w: Worker): nat {
    if w.NoWorker? then 0
    else match w.pc
      case Accepting => 5
      case Receiving => 4
      case Recording => 3
      case LoopTop => 2
      case Leaving(_) => 1
      case _ => 0
  }

  /** While stopping, and not stranded, the worker can always take its next step, and at most five of them
      lead to Stopped or Failed; nothing else that can happen meanwhile adds to them. */
  lemma StoppingEnds(s: Native, a: Action)
    requires NativeOk(s) && s.status.Stopping? && !Stranded(s)
    ensures exists h :: Next(s, WorkerMoves(h)).Some?
    ensures StepsLeft(s.worker) <= 5
    ensures Next(s, a).Some? ==>
              var t := Next(s, a).value;
              if a.WorkerMoves? then
                t.status.Stopped? || t.status.Failed? || (t.status.Stopping? && StepsLeft(t.worker) < StepsLeft(s.worker))
              else t == s
  {
    var h := if s.worker.pc.Accepting? then Connection else Nothing;
    assert Next(s, WorkerMoves(h)).Some?;
  }

  /** The shortest way out of a start that holds the mutex. */
  function StartLeft(s: Native): nat {
    match s.starter
    case NoStart => 0
    case Begun => 6
    case Bound => 5
    case Joining => if s.previous.NoWorker? || s.previous.pc.Ended? then 1 else if s.previous.pc.Ending? then 2 else 4
  }

  /** start cannot be stuck in the join: the thread it waits for needs the mutex no more.  In every state
      in which the mutex is held, a step that brings its release closer is possible, and no step takes
      the holder back. */
  lemma JoinCannotDeadlock(s: Native)
    requires NativeOk(s) && !MutexFree(s)
    ensures exists a :: Next(s, a).Some? && StartLeft(Next(s, a).value) < StartLeft(s)
    ensures forall a :: Next(s, a).Some? ==> StartLeft(Next(s, a).value) <= StartLeft(s)
  {
    var a := if s.starter.Begun? then StartBinds(true)
             else if s.starter.Bound? then StartSpawns
             else if s.previous.Worker? && s.previous.pc.Ending? then PreviousMoves(Nothing)
             else StartJoins;
    assert Next(s, a).Some? && StartLeft(Next(s, a).value) < StartLeft(s);
    forall b | Next(s, b).Some?
      ensures StartLeft(Next(s, b).value) <= StartLeft(s)
    {
      NeverBack(s, b);
    }
  }

  lemma NeverBack(s: Native, a: Action)
    requires NativeOk(s) && !MutexFree(s) && Next(s, a).Some?
    ensures StartLeft(Next(s, a).value) <= StartLeft(s)
  {
  }

  /** What worker steps alone can do to the status. */
  predicate WorkerMay(from: Status, to: Status) {
    from == to || (from.Running? && to.Failed?) || (from.Stopping? && (to.Stopped? || to.Failed?))
  }

  lemma WorkerOnlyStatus(s: Native, h: Happening)
    requires NativeOk(s) && Next(s, WorkerMoves(h)).Some?
    ensures WorkerMay(s.status, Next(s, WorkerMoves(h)).value.status)
    ensures Next(s, WorkerMoves(h)).value.starter == s.starter
  {
  }
}
