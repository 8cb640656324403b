/** ReceiverManager above the native service: one operation at a time, a snapshot that clients may read at
    any moment, and a poll that waits for the native worker to stop. */
module ReceiverControl {
  import opened Results
  import opened ReceiverLifecycle

  datatype NativeFailure = InvalidRequest | AlreadyRunning | NotRunning | BindFailed | NoThread

  /** What the request and the system have in store for a start. */
  datatype Luck = Invalid | BindFails | SpawnFails | Fine

  // ---------- the native service as the manager sees it ----------

  /** Any number of steps of the worker. */
  ghost predicate WorkerRun(s: Native, steps: seq<Happening>, to: Native)
    decreases |steps|
  {
    if steps == [] then s == to
    else Next(s, WorkerMoves(steps[0])).Some? && WorkerRun(Next(s, WorkerMoves(steps[0])).value, steps[1..], to)
  }

  /** start as one call: validate, bind, spawn, let the previous thread end, join. */
  function StartCall(s: Native, luck: Luck): (Native, Result<Status, NativeFailure>) {
    if luck.Invalid? then (s, Err(InvalidRequest))
    else if s.status != Stopped then (s, Err(AlreadyRunning))
    else
      match luck
      case BindFails => (s.(status := Failed), Err(BindFailed))
      case SpawnFails => (s.(status := Starting, server := true), Err(NoThread))
      case _ => (Native(Running, true, Worker(LoopTop, false), NoWorker, NoStart), Ok(Running))
  }

  function StopCall(s: Native): (Native, Result<Status, NativeFailure>)
    requires NativeOk(s) && MutexFree(s)
  {
    if s.status.Stopped? then (s, Err(NotRunning))
    else (Next(s, StopCalled).value, Ok(Next(s, StopCalled).value.status))
  }

  /** The call is one of the interleavings of the steps of start, with no worker step in between; it leaves
      the service stranded exactly if it was, or if it gets to create the thread and cannot. */
  lemma StartCallIsRun(s: Native, luck: Luck) returns (actions: seq<Action>)
    requires NativeOk(s) && MutexFree(s)
    ensures var to := StartCall(s, luck).0;
            && NativeRun(s, actions, to) && NativeOk(to) && MutexFree(to)
            && (Stranded(to) <==> Stranded(s) || (s.status.Stopped? && luck.SpawnFails?))
  {
    hide WorkerStep;
    if luck.Invalid? {
      actions := [];
    } else if s.status != Stopped {
      actions := [StartLocks];
      assert actions[1..] == [];
    } else if luck.BindFails? {
      actions := [StartLocks, StartBinds(false)];
      var s1 := Next(s, StartLocks).value;
      assert actions[1..] == [StartBinds(false)] && [StartBinds(false)][1..] == [];
      assert NativeRun(s1, [StartBinds(false)], StartCall(s, luck).0);
    } else {
      actions := SpawnRun(s, luck);
    }
  }

  lemma SpawnRun(s: Native, luck: Luck) returns (actions: seq<Action>)
    requires NativeOk(s) && MutexFree(s) && s.status.Stopped? && (luck.SpawnFails? || luck.Fine?)
    ensures NativeRun(s, actions, StartCall(s, luck).0)
  {
    hide WorkerStep;
    var s1 := Next(s, StartLocks).value;
    var s2 := Next(s1, StartBinds(true)).value;
    var rest;
    if luck.SpawnFails? {
      rest := [StartThrows];
      assert [StartThrows][1..] == [];
    } else {
      var s3 := Next(s2, StartSpawns).value;
      var joining := JoinRun(s3);
      rest := [StartSpawns] + joining;
      assert rest[1..] == joining;
    }
    assert NativeRun(s2, rest, StartCall(s, luck).0);
    actions := [StartLocks, StartBinds(true)] + rest;
    assert actions[1..] == [StartBinds(true)] + rest;
    assert ([StartBinds(true)] + rest)[1..] == rest;
    assert NativeRun(s1, [StartBinds(true)] + rest, StartCall(s, luck).0);
  }

  lemma JoinRun(s: Native) returns (actions: seq<Action>)
    requires s.starter.Joining? && !Active(s.previous)
    ensures NativeRun(s, actions, s.(previous := NoWorker, status := Running, starter := NoStart))
  {
    if s.previous.Worker? && s.previous.pc.Ending? {
      var t := s.(previous := s.previous.(pc := Ended));
      actions := [PreviousMoves(Nothing), StartJoins];
      assert actions[1..] == [StartJoins] && [StartJoins][1..] == [];
      assert Next(s, PreviousMoves(Nothing)).value == t;
      assert NativeRun(t, [StartJoins], s.(previous := NoWorker, status := Running, starter := NoStart));
    } else {
      actions := [StartJoins];
      assert [StartJoins][1..] == [];
    }
  }

  class NativeService {
    var state: Native

    ghost predicate Valid()
      reads this
    {
      NativeOk(state) && MutexFree(state)
    }

    constructor ()
      ensures Valid() && state == FRESH
    {
      state := FRESH;
    }

    /** Time passes and the worker thread gets to run. */
    method WorkerRuns()
      requires Valid()
      modifies this
      ensures Valid() && WorkerMay(old(state.status), state.status)
      ensures Stranded(state) <==> old(Stranded(state))
    {
      var n: nat :| true;
      while n > 0
        invariant Valid() && WorkerMay(old(state.status), state.status)
        invariant Stranded(state) <==> old(Stranded(state))
      {
        var h: Happening :| true;
        if Next(state, WorkerMoves(h)).Some? {
          StepKeepsOk(state, WorkerMoves(h));
          WorkerOnlyStatus(state, h);
          StrandsOnlyByThrowing(state, WorkerMoves(h));
          state := Next(state, WorkerMoves(h)).value;
        }
        n := n - 1;
      }
    }

    method Start(luck: Luck) returns (r: Result<Status, NativeFailure>)
      requires Valid()
      modifies this
      ensures Valid() && (state, r) == StartCall(old(state), luck)
    {
      ghost var actions := StartCallIsRun(state, luck);
      var (next, result) := StartCall(state, luck);
      state := next;
      return result;
    }

    method Stop() returns (r: Result<Status, NativeFailure>)
      requires Valid()
      modifies this
      ensures Valid() && (state, r) == StopCall(old(state))
      ensures Stranded(state) <==> old(Stranded(state))
    {
      StepKeepsOk(state, StopCalled);
      StrandsOnlyByThrowing(state, StopCalled);
      var (next, result) := StopCall(state);
      state := next;
      return result;
    }
  }

  /** monotonic and sleep, in milliseconds; the thread may also lose the processor for any time. */
  class Clock {
    var now: nat

    constructor ()
    {
      now := 0;
    }

    method Monotonic() returns (time: nat)
      modifies this
      ensures old(now) <= time == now
    {
      var passed: nat :| true;
      now := now + passed;
      return now;
    }

    method Sleep(milliseconds: nat)
      modifies this
      ensures old(now) + milliseconds <= now
    {
      var more: nat :| true;
      now := now + milliseconds + more;
    }
  }

  // ---------- the gateway ----------

  /** NativeGatewayError with its code, or any other exception. */
  datatype Raised = GatewayError(code: string) | OtherException

  function CodeOf(f: NativeFailure): string {
    match f
    case InvalidRequest => "INVALID_REQUEST"
    case AlreadyRunning => "ALREADY_RUNNING"
    case NotRunning => "NOT_RUNNING"
    case BindFailed => "BIND_FAILED"
    case NoThread => "INTERNAL_ERROR"
  }

  /** The calls into the native module.  Each may raise something of its own (the fault of the call), before or
      after it has had its effect. */
  class Gateway {
    const service: NativeService

    constructor (service: NativeService)
      ensures this.service == service
    {
      this.service := service;
    }

    method StartReceiver(luck: Luck, fault: Option<Raised>) returns (r: Result<Status, Raised>)
      requires service.Valid()
      modifies service
      ensures service.Valid() && (r.Ok? ==> r.value.Running? && service.state.status.Running?)
      ensures old(Stranded(service.state)) ==> Stranded(service.state) && r.Err?
      ensures (fault.Some? && r == Err(fault.value)) || exists s: Native :: Started(old(service.state), s, service.state, luck, r)
    {
      var before, after := false, false;
      if fault.Some? {
        before, after := *, *;
      }
      if before {
        return Err(fault.value);
      }
      service.WorkerRuns();
      ghost var s := service.state;
      ghost var actions := StartCallIsRun(s, luck);
      var native := service.Start(luck);
      if after {
        return Err(fault.value);
      }
      r := match native case Ok(status) => Ok(status) case Err(f) => Err(GatewayError(CodeOf(f)));
      assert Started(old(service.state), s, service.state, luck, r);
    }

    method StopReceiver(fault: Option<Raised>) returns (r: Result<Status, Raised>)
      requires service.Valid()
      modifies service
      ensures service.Valid() && (r.Ok? ==> r.value == service.state.status && (r.value.Stopped? || r.value.Stopping?))
      ensures Stranded(service.state) <==> old(Stranded(service.state))
      ensures r.Err? ==>
                (fault.Some? && r == Err(fault.value)) || (r == Err(GatewayError("NOT_RUNNING")) && service.state.status.Stopped?)
      ensures fault.None? ==> !service.state.status.Running?
      ensures fault.None? && old(service.state.status).Stopped? ==> r == Err(GatewayError("NOT_RUNNING"))
      ensures fault.None? && old(service.state.status).Failed? ==> r == Ok(Stopped)
      ensures fault.None? && old(service.state.status).Running? ==> r.Ok?
    {
      var before, after := false, false;
      if fault.Some? {
        before, after := *, *;
      }
      if before {
        return Err(fault.value);
      }
      service.WorkerRuns();
      var native := service.Stop();
      if after {
        return Err(fault.value);
      }
      r := match native case Ok(status) => Ok(status) case Err(f) => Err(GatewayError(CodeOf(f)));
    }

    method ReceiverStatus(fault: Option<Raised>) returns (r: Result<Status, Raised>)
      requires service.Valid()
      modifies service
      ensures service.Valid() && WorkerMay(old(service.state.status), service.state.status)
      ensures Stranded(service.state) <==> old(Stranded(service.state))
      ensures if r.Ok? then r.value == service.state.status else fault.Some? && r.error == fault.value
    {
      service.WorkerRuns();
      var raises := false;
      if fault.Some? {
        raises := *;
      }
      if raises {
        return Err(fault.value);
      }
      return Ok(service.state.status);
    }
  }

  /** The service as it was when the call got through, and what the call made of it. */
  predicate Started(before: Native, s: Native, after: Native, luck: Luck, r: Result<Status, Raised>) {
    && WorkerMay(before.status, s.status)
    && StartCall(s, luck).0 == after
    && (r.Ok? <==> StartCall(s, luck).1.Ok?)
    && (r.Err? ==> r.error == GatewayError(
          if luck.Invalid? then "INVALID_REQUEST" else if !s.status.Stopped? then "ALREADY_RUNNING"
          else if luck.BindFails? then "BIND_FAILED" else "INTERNAL_ERROR"))
  }

  // ---------- the manager ----------

  datatype Problem = Reported(code: string) | Internal | StopTimeout

  /** Of the error that a native status may bring along nothing is kept. */
  datatype Snapshot = Snapshot(state: Status, error: Option<Problem>)

  datatype Notice = ReceiverStarted | ReceiverStopped | ErrorRaised

  function ProblemOf(raised: Raised): Problem {
    match raised
    case GatewayError(code) => Reported(code)
    case OtherException => Internal
  }

  /** The error shown is the exception that the gateway raised: its own code, or INTERNAL_ERROR for one without. */
  predicate Blamed(fault: Option<Raised>, error: Option<Problem>) {
    match fault
    case None => false
    case Some(GatewayError(code)) => error == Some(Reported(code))
    case Some(OtherException) => error == Some(Internal)
  }

  /** Between operations the snapshot is one of three, and STOPPED can be trusted. */
  predicate SnapshotOk(snapshot: Status, native: Status) {
    && (snapshot.Stopped? || snapshot.Running? || snapshot.Failed?)
    && (snapshot.Stopped? ==> native.Stopped?)
    && (snapshot.Running? ==> native.Running? || native.Failed?)
  }

  const STOP_POLL: nat := 25
  const STOP_WAIT: nat := 2000

  class ReceiverManager {
    var snapshot: Snapshot
    const gateway: Gateway
    const clock: Clock
    /** What readers of the snapshot have been able to see, and what was published, oldest first. */
    var seen: seq<Status>
    var published: seq<Notice>

    ghost predicate Valid()
      reads this, gateway.service
    {
      gateway.service.Valid() && SnapshotOk(snapshot.state, gateway.service.state.status)
    }

    constructor (gateway: Gateway, clock: Clock)
      requires gateway.service.Valid() && gateway.service.state == FRESH
      ensures Valid() && this.gateway == gateway && this.clock == clock
      ensures snapshot == Snapshot(Stopped, None) && seen == [] && published == []
    {
      this.gateway, this.clock := gateway, clock;
      snapshot, seen, published := Snapshot(Stopped, None), [], [];
    }

    method Set(status: Snapshot)
      modifies this`snapshot, this`seen
      ensures snapshot == status && seen == old(seen) + [status.state]
    {
      snapshot := status;
      seen := seen + [status.state];
    }

    method SetFailed(problem: Problem)
      modifies this
      ensures snapshot == Snapshot(Failed, Some(problem)) && seen == old(seen) + [Failed]
      ensures published == old(published) + [ErrorRaised]
    {
      Set(Snapshot(Failed, Some(problem)));
      published := published + [ErrorRaised];
    }

    /** start: None stands for ReceiverAlreadyRunningError.  From STOPPED it succeeds exactly if the request is
        valid, the address free and the thread created; from FAILED over a failed native service it fails
        again, whatever the request, until a stop has been called; over a stranded one it always fails.  A
        gateway that raises leaves FAILED. */
    method Start(luck: Luck, fault: Option<Raised>) returns (r: Option<Snapshot>)
      requires Valid()
      modifies this, gateway.service
      ensures Valid()
      ensures r.None? <==> old(snapshot).state.Running?
      ensures r.None? ==> snapshot == old(snapshot) && seen == old(seen) && published == old(published)
                          && gateway.service.state == old(gateway.service.state)
      ensures r.Some? ==> r == Some(snapshot) && seen == old(seen) + [Starting, snapshot.state]
                          && published == old(published) + [if snapshot.state.Running? then ReceiverStarted else ErrorRaised]
      ensures r.Some? && snapshot.state.Running? ==> gateway.service.state.status.Running? && snapshot.error.None?
      ensures r.Some? && !snapshot.state.Running? ==> snapshot.state.Failed? && snapshot.error.Some?
      ensures fault.None? && old(snapshot).state.Stopped? ==> (r.Some? && (snapshot.state.Running? <==> luck.Fine?))
      ensures fault.None? && old(snapshot).state.Stopped? && !luck.Fine? ==>
                snapshot.error == Some(Reported(if luck.Invalid? then "INVALID_REQUEST"
                                                else if luck.BindFails? then "BIND_FAILED" else "INTERNAL_ERROR"))
      ensures fault.None? && old(snapshot).state.Failed? && old(gateway.service.state.status).Failed? ==>
                snapshot.error == Some(Reported(if luck.Invalid? then "INVALID_REQUEST" else "ALREADY_RUNNING"))
      ensures r.Some? && snapshot.state.Failed? ==>
                || Blamed(fault, snapshot.error)
                || (exists code <- {"INVALID_REQUEST", "ALREADY_RUNNING", "BIND_FAILED", "INTERNAL_ERROR"} ::
                      snapshot.error == Some(Reported(code)))
      ensures fault.None? && old(snapshot).state.Stopped? ==>
                match luck
                case Invalid => gateway.service.state.status.Stopped?
                case BindFails => gateway.service.state.status.Failed?
                case SpawnFails => Stranded(gateway.service.state)
                case Fine => gateway.service.state.status.Running?
      ensures fault.None? && old(snapshot).state.Failed? && old(gateway.service.state.status).Failed? ==>
                snapshot.state.Failed? && gateway.service.state.status.Failed?
      ensures old(Stranded(gateway.service.state)) ==> (r.Some? && snapshot.state.Failed? && Stranded(gateway.service.state))
    {
      if snapshot.state == Starting || snapshot.state == Running || snapshot.state == Stopping {
        return None;
      }
      Set(Snapshot(Starting, None));
      var native := gateway.StartReceiver(luck, fault);
      match native {
        case Err(raised) =>
          SetFailed(ProblemOf(raised));
        case Ok(status) =>
          Set(Snapshot(status, None));
          published := published + [ReceiverStarted];
      }
      return Some(snapshot);
    }

    /** stop, with the poll. */
    method Stop(fault: Option<Raised>) returns (r: Snapshot)
      requires Valid()
      modifies this, gateway.service, clock
      ensures Valid() && r == snapshot
      ensures r.state.Stopped? || r.state.Failed?
      ensures old(snapshot).state.Stopped? ==> snapshot == old(snapshot) && seen == old(seen) && published == old(published)
                                               && gateway.service.state == old(gateway.service.state)
      ensures !old(snapshot).state.Stopped? ==> seen == old(seen) + [Stopping, snapshot.state]
      ensures !old(snapshot).state.Stopped? ==> published == old(published) + [if r.state.Stopped? then ReceiverStopped else ErrorRaised]
      ensures fault.None? ==> !gateway.service.state.status.Running?
      ensures fault.None? && old(snapshot).state.Running? ==> (r.state.Stopped? <==> gateway.service.state.status.Stopped?)
      ensures fault.None? && old(snapshot).state.Failed? && old(gateway.service.state.status).Failed? ==> r.state.Stopped?
      ensures fault.None? && old(snapshot).state.Failed? && old(gateway.service.state.status).Stopped? ==>
                r == Snapshot(Failed, Some(Reported("NOT_RUNNING")))
      ensures old(Stranded(gateway.service.state)) ==> r.state.Failed? && Stranded(gateway.service.state)
      ensures r.state.Stopped? && !old(snapshot).state.Stopped? ==> r.error.None?
      ensures r.state.Failed? ==>
                || Blamed(fault, r.error)
                || (r.error == Some(Reported("NOT_RUNNING")) && gateway.service.state.status.Stopped?)
                || (r.error == Some(StopTimeout) && gateway.service.state.status.Stopping?)
                || (r.error.None? && gateway.service.state.status.Failed?)
    {
      if snapshot.state == Stopped {
        return snapshot;
      }
      Set(Snapshot(Stopping, None));
      var native := gateway.StopReceiver(fault);
      match native {
        case Err(raised) =>
          SetFailed(ProblemOf(raised));
        case Ok(status) =>
          var last, rounds := WaitForStop(Snapshot(status, None), fault);
          Set(last);
          published := published + [if last.state == Stopped then ReceiverStopped else ErrorRaised];
      }
      return snapshot;
    }

    /** _wait_for_stop: the deadline comes, whatever the native service does, after at most eighty rounds; a
        timeout is reported only once two seconds have passed with the service still stopping. */
    method WaitForStop(first: Snapshot, fault: Option<Raised>) returns (last: Snapshot, rounds: nat)
      requires gateway.service.Valid() && (first.state.Stopping? || first.state.Stopped?)
      requires gateway.service.state.status == first.state && first.error.None?
      modifies gateway.service, clock
      ensures gateway.service.Valid() && (last.state.Stopped? || last.state.Failed?)
      ensures rounds <= 80
      ensures last.state.Stopped? ==> gateway.service.state.status.Stopped?
      ensures fault.None? ==> (last.state.Stopped? <==> gateway.service.state.status.Stopped?)
      ensures last.state.Stopped? ==> last.error.None?
      ensures last.state.Failed? ==>
                || Blamed(fault, last.error)
                || (last.error == Some(StopTimeout) && gateway.service.state.status.Stopping?)
                || (last.error.None? && gateway.service.state.status.Failed?)
      ensures last.error == Some(StopTimeout) ==> old(clock.now) + 2000 <= clock.now && gateway.service.state.status.Stopping?
      ensures first.state.Stopped? ==> last == first && rounds == 0
      ensures !gateway.service.state.status.Running?
      ensures Stranded(gateway.service.state) <==> old(Stranded(gateway.service.state))
    {
      last, rounds := first, 0;
      var time := clock.Monotonic();
      var deadline := time + STOP_WAIT;
      time := clock.Monotonic();
      while last.state == Stopping && time < deadline
        invariant gateway.service.Valid() && gateway.service.state.status == last.state
        invariant last.state.Stopping? || last.state.Stopped? || last.state.Failed?
        invariant first.state.Stopped? ==> last == first && rounds == 0
        invariant last.error.None?
        invariant deadline <= time + STOP_WAIT - rounds * STOP_POLL && rounds <= 80
        invariant old(clock.now) + STOP_WAIT <= deadline && time == clock.now
        invariant Stranded(gateway.service.state) <==> old(Stranded(gateway.service.state))
        decreases deadline + STOP_POLL - time
      {
        clock.Sleep(STOP_POLL);
        var status := gateway.ReceiverStatus(fault);
        rounds := rounds + 1;
        match status {
          case Err(raised) =>
            return Snapshot(Failed, Some(ProblemOf(raised))), rounds;
          case Ok(now) =>
            last := Snapshot(now, None);
        }
        time := clock.Monotonic();
      }
      if last.state == Stopped {
        return last, rounds;
      }
      if last.state == Failed {
        return Snapshot(Failed, last.error), rounds;
      }
      return Snapshot(Failed, Some(StopTimeout)), rounds;
    }
  }

  // ---------- when RUNNING is true ----------

  /** A network or other error has ended an accept or a receive of the worker. */
  ghost predicate ErrorEnded(s: Native, steps: seq<Happening>)
    decreases |steps|
  {
    steps != [] && Next(s, WorkerMoves(steps[0])).Some? &&
    ( || (s.worker.Worker? && (s.worker.pc.Accepting? || s.worker.pc.Receiving?) && (steps[0].NetworkError? || steps[0].OtherError?))
      || ErrorEnded(Next(s, WorkerMoves(steps[0])).value, steps[1..]))
  }

  lemma RunningStep(s: Native, h: Happening)
    requires NativeOk(s) && MutexFree(s) && s.status.Running? && s.worker.pc != Leaving(true)
    requires Next(s, WorkerMoves(h)).Some?
    ensures var t := Next(s, WorkerMoves(h)).value;
            && t.status.Running?
            && (t.worker.pc == Leaving(true) <==>
                  (s.worker.pc.Accepting? || s.worker.pc.Receiving?) && (h.NetworkError? || h.OtherError?))
  {
  }

  /** Once the worker is on its way out, only the mutex keeps it from writing FAILED. */
  lemma {:induction false} LeavingRun(s: Native, steps: seq<Happening>, to: Native)
    requires NativeOk(s) && MutexFree(s) && WorkerRun(s, steps, to)
    requires s.status.Running? && s.worker.pc == Leaving(true)
    ensures if steps == [] then to == s else to.status.Failed? && to.worker.Worker? && !to.worker.pc.Leaving?
    decreases |steps|
  {
    if steps != [] {
      var t := Next(s, WorkerMoves(steps[0])).value;
      assert t.status.Failed? && t.worker.pc.Ending? && MutexFree(t);
      EndedRun(t, steps[1..], to);
    }
  }

  lemma {:induction false} EndedRun(s: Native, steps: seq<Happening>, to: Native)
    requires WorkerRun(s, steps, to) && s.status.Failed? && s.worker.Worker? && (s.worker.pc.Ending? || s.worker.pc.Ended?)
    ensures to.status.Failed? && to.worker.Worker? && (to.worker.pc.Ending? || to.worker.pc.Ended?)
    decreases |steps|
  {
    if steps != [] {
      EndedRun(Next(s, WorkerMoves(steps[0])).value, steps[1..], to);
    }
  }

  /** Without a stop, the native service is still RUNNING if and only if no network or other error has ended an
      accept or a receive, or the worker has yet to get the mutex to say so; otherwise it is FAILED, which a
      RUNNING snapshot of the manager does not show. */
  lemma {:induction false} RunningIff(s: Native, steps: seq<Happening>, to: Native)
    requires NativeOk(s) && MutexFree(s) && WorkerRun(s, steps, to)
    requires s.status.Running? && s.worker.pc != Leaving(true)
    ensures to.worker.Worker? && (to.worker.pc == Leaving(true) ==> ErrorEnded(s, steps))
    ensures to.status.Running? <==> !ErrorEnded(s, steps) || to.worker.pc == Leaving(true)
    ensures to.status.Failed? <==> !to.status.Running?
    decreases |steps|
  {
    if steps != [] {
      var next := Next(s, WorkerMoves(steps[0])).value;
      RunningStep(s, steps[0]);
      StepKeepsOk(s, WorkerMoves(steps[0]));
      WorkerOnlyStatus(s, steps[0]);
      hide NativeOk;
      hide Next;
      if next.worker.pc == Leaving(true) {
        LeavingRun(next, steps[1..], to);
      } else {
        RunningIff(next, steps[1..], to);
      }
    }
  }

  /** It can happen: a running manager may sit on a native service that has failed. */
  lemma RunningMayBeStale() returns (steps: seq<Happening>, failed: Native)
    ensures var started := StartCall(FRESH, Fine).0;
            WorkerRun(started, steps, failed) && failed.status.Failed? && SnapshotOk(Running, failed.status)
  {
    var s0 := StartCall(FRESH, Fine).0;
    steps := [Nothing, NetworkError, Nothing];
    var s1 := Next(s0, WorkerMoves(Nothing)).value;
    var s2 := Next(s1, WorkerMoves(NetworkError)).value;
    failed := Next(s2, WorkerMoves(Nothing)).value;
    assert steps[1..] == [NetworkError, Nothing] && steps[1..][1..] == [Nothing] && steps[1..][1..][1..] == [];
    assert WorkerRun(failed, [], failed);
    assert WorkerRun(s2, [Nothing], failed);
    assert WorkerRun(s1, [NetworkError, Nothing], failed);
  }

  // ---------- how a stop ends ----------

  /** An error other than a network error has ended an accept or a receive of the worker. */
  ghost predicate OtherEnded(s: Native, steps: seq<Happening>)
    decreases |steps|
  {
    steps != [] && Next(s, WorkerMoves(steps[0])).Some? &&
    ( || (s.worker.Worker? && (s.worker.pc.Accepting? || s.worker.pc.Receiving?) && steps[0].OtherError?)
      || OtherEnded(Next(s, WorkerMoves(steps[0])).value, steps[1..]))
  }

  lemma StoppingStep(s: Native, h: Happening)
    requires NativeOk(s) && MutexFree(s) && s.status.Stopping? && !Stranded(s) && !s.worker.pc.Leaving?
    requires Next(s, WorkerMoves(h)).Some?
    ensures var t := Next(s, WorkerMoves(h)).value;
            && t.status.Stopping? && MutexFree(t) && !Stranded(t) && t.worker.Worker?
            && (t.worker.pc == Leaving(true) <==> (s.worker.pc.Accepting? || s.worker.pc.Receiving?) && h.OtherError?)
  {
  }

  lemma {:induction false} LeftRun(s: Native, steps: seq<Happening>, to: Native)
    requires WorkerRun(s, steps, to) && s.worker.Worker? && (s.worker.pc.Ending? || s.worker.pc.Ended?)
    ensures to.status == s.status && !OtherEnded(s, steps)
    decreases |steps|
  {
    if steps != [] {
      LeftRun(Next(s, WorkerMoves(steps[0])).value, steps[1..], to);
    }
  }

  lemma StopsBy(s: Native, steps: seq<Happening>, to: Native)
    requires NativeOk(s) && MutexFree(s) && s.status.Stopping? && s.worker.Worker? && s.worker.pc.Leaving? && WorkerRun(s, steps, to)
    ensures !OtherEnded(s, steps)
    ensures to.status == if steps == [] then Stopping else if s.worker.pc.failed then Failed else Stopped
  {
    if steps != [] {
      LeftRun(Next(s, WorkerMoves(steps[0])).value, steps[1..], to);
    }
  }

  /** After a stop request the worker ends in FAILED if and only if an error that is no network error has ended an
      accept or a receive since; a network error, as closing the listener or the connection causes one, and a
      failed transfer count as a normal stop. */
  lemma {:induction false} StopOutcomeIff(s: Native, steps: seq<Happening>, to: Native)
    requires NativeOk(s) && MutexFree(s) && WorkerRun(s, steps, to)
    requires s.status.Stopping? && !Stranded(s) && !s.worker.pc.Leaving?
    ensures to.status.Stopping? || (to.status.Failed? && OtherEnded(s, steps)) || (to.status.Stopped? && !OtherEnded(s, steps))
    decreases |steps|
  {
    if steps != [] {
      var next := Next(s, WorkerMoves(steps[0])).value;
      StoppingStep(s, steps[0]);
      StepKeepsOk(s, WorkerMoves(steps[0]));
      hide NativeOk;
      hide Next;
      hide Stranded;
      if next.worker.pc.Leaving? {
        StopsBy(next, steps[1..], to);
      } else {
        StopOutcomeIff(next, steps[1..], to);
      }
    }
  }

  // ---------- connections ----------

  /** The connections that the worker accepts along these steps, and the receives that end. */
  function Accepts(s: Native, steps: seq<Happening>): nat
    decreases |steps|
  {
    if steps == [] || Next(s, WorkerMoves(steps[0])).None? then 0
    else
      (if s.worker.Worker? && s.worker.pc.Accepting? && steps[0].Connection? then 1 else 0)
      + Accepts(Next(s, WorkerMoves(steps[0])).value, steps[1..])
  }

  function Receives(s: Native, steps: seq<Happening>): nat
    decreases |steps|
  {
    if steps == [] || Next(s, WorkerMoves(steps[0])).None? then 0
    else
      (if s.worker.Worker? && s.worker.pc.Receiving? then 1 else 0)
      + Receives(Next(s, WorkerMoves(steps[0])).value, steps[1..])
  }

  function UnderWay(s: Native): nat { if s.worker.Worker? && s.worker.pc.Receiving? then 1 else 0 }

  /** Every connection that is accepted is received, one at a time: over any run of the worker the receives that
      have ended are those accepted, but for the one under way. */
  lemma {:induction false} EveryConnectionIsReceived(s: Native, steps: seq<Happening>, to: Native)
    requires WorkerRun(s, steps, to)
    ensures UnderWay(s) + Accepts(s, steps) == Receives(s, steps) + UnderWay(to)
    decreases |steps|
  {
    if steps != [] {
      EveryConnectionIsReceived(Next(s, WorkerMoves(steps[0])).value, steps[1..], to);
    }
  }
}
