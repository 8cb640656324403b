/** Slow clients: whatever the queue drops, once everything in flight has arrived every finished task is
    shown as the manager knows it. */
module Convergence {
  import opened Results
  import opened ControlTypes
  import opened TaskLifecycle
  import opened EventQueue
  import opened Dashboard
  import opened ControlSystem

  // ---------- a dashboard that misses nothing ----------

  /** The events of a run of the task manager, in the order of its changes. */
  function Published(from: Tasks, actions: seq<TaskAction>): seq<Event>
    decreases |actions|
  {
    if actions == [] then []
    else
      var c := TaskLifecycle.Apply(from, actions[0]);
      (if c.event.Some? then [c.event.value] else []) + Published(c.after, actions[1..])
  }

  lemma ChangeShown(tasks: seq<Task>, m: Tasks, a: TaskAction, id: string)
    requires TasksOk(m) && Possible(m, a)
    requires Lookup(tasks, id) == Current(m, id)
    ensures var c := TaskLifecycle.Apply(m, a);
            var shown := if c.event.Some? then ApplyToTasks(tasks, c.event.value) else tasks;
            Lookup(shown, id) == Current(c.after, id)
  {
    EventIsChange(m, a);
    hide TasksOk;
    var c := TaskLifecycle.Apply(m, a);
    hide TaskLifecycle.Apply;
    if c.event.Some? {
      ApplyLookup(tasks, c.event.value, id);
    }
  }

  /** A dashboard that starts from the manager's state and gets every event shows the manager's state. */
  lemma {:induction false} FoldFollows(tasks: seq<Task>, from: Tasks, actions: seq<TaskAction>, to: Tasks)
    requires TasksOk(from) && TaskRun(from, actions, to) && Represents(tasks, from)
    ensures Represents(Fold(tasks, Published(from, actions)), to)
    decreases |actions|
  {
    hide TaskLifecycle.Apply;
    hide TasksOk;
    if actions != [] {
      var c := TaskLifecycle.Apply(from, actions[0]);
      var first := if c.event.Some? then [c.event.value] else [];
      var shown := if c.event.Some? then ApplyToTasks(tasks, c.event.value) else tasks;
      forall id
        ensures Lookup(shown, id) == Current(c.after, id)
      {
        ChangeShown(tasks, from, actions[0], id);
      }
      ChangeKeepsOk(from, actions[0]);
      FoldFollows(shown, c.after, actions[1..], to);
      FoldConcat(tasks, first, Published(c.after, actions[1..]));
      assert first[..0] == [] && Fold(tasks, []) == tasks;
      assert Fold(tasks, first) == shown;
    }
  }

  /** A snapshot of the manager after some changes, applied to a dashboard in any state, followed by all
      events from an earlier one on, some of them already in the snapshot, shows exactly the manager's state
      at the end. */
  lemma SnapshotThenOverlap(first: seq<TaskAction>, mid: Tasks, second: seq<TaskAction>, to: Tasks,
                            state: DashboardState, snapshot: AppSnapshot, j: nat)
    requires TaskRun(EMPTY, first, mid) && TaskRun(mid, second, to) && TasksOk(mid)
    requires Represents(snapshot.tasks, mid) && j <= |Published(EMPTY, first)|
    ensures var events := Published(EMPTY, first) + Published(mid, second);
            Represents(Listed(Replay(ApplySnapshot(state, snapshot), events[j..])), to)
  {
    hide TaskLifecycle.Apply;
    var before, after := Published(EMPTY, first), Published(mid, second);
    var events := before + after;
    assert Represents([], EMPTY);
    FoldFollows([], EMPTY, first, mid);
    FoldFollows(Fold([], before), mid, second, to);
    hide TaskRun;
    hide Published;
    FoldConcat([], before, after);
    assert events[..|before|] == before;
    ReplayShown(ApplySnapshot(state, snapshot), events[j..]);
    forall id
      ensures Lookup(Fold(snapshot.tasks, events[j..]), id) == Current(to, id)
    {
      OverlapReplay([], events, j, |before|, id);
      FoldLookup(Fold([], before), events[j..], id);
      FoldLookup(snapshot.tasks, events[j..], id);
      assert Lookup(snapshot.tasks, id) == Lookup(Fold([], before), id);
    }
  }

  // ---------- finished tasks ----------

  /** The last event in flight that is about this task. */
  function LastFor(events: seq<Envelope>, id: string): Option<Event> {
    if events == [] then None
    else if Subject(events[|events| - 1].event) == Some(id) then Some(events[|events| - 1].event)
    else LastFor(events[..|events| - 1], id)
  }

  /** The event that carries the task's final snapshot. */
  predicate FinalFor(e: Event, task: Task) {
    TerminalType(e.kind) && TaskType(e.kind) && e.body == WholeTask(task)
  }

  /** The final snapshot is still on its way and nothing about the task comes after it. */
  predicate Arriving(s: System, task: Task) {
    || (EventOf(s.loop).Some? && FinalFor(EventOf(s.loop).value, task))
    || (LastFor(InFlight(s), task.id).Some? && FinalFor(LastFor(InFlight(s), task.id).value, task))
  }

  predicate Arrived(s: System, task: Task) {
    LastFor(InFlight(s), task.id).None? && (s.client.refreshed ==> Lookup(Listed(s.client.view), task.id) == Some(task))
  }

  predicate Settled(s: System, id: string) {
    id in s.m.tasks && TerminalState(s.m.tasks[id].state) ==>
      Arriving(s, s.m.tasks[id]) || Arrived(s, s.m.tasks[id])
  }

  ghost predicate AllSettled(s: System) { forall id :: Settled(s, id) }

  // ---------- the queue keeps final snapshots ----------

  lemma {:induction false} LastForConcat(a: seq<Envelope>, b: seq<Envelope>, id: string)
    ensures LastFor(a + b, id) == if LastFor(b, id).Some? then LastFor(b, id) else LastFor(a, id)
    ensures LastFor(b, id).Some? ==> Subject(LastFor(b, id).value) == Some(id)
  {
    if b == [] {
      assert a + b == a;
    } else {
      LastForConcat(a, b[..|b| - 1], id);
      assert (a + b)[..|a + b| - 1] == a + b[..|b| - 1];
    }
  }

  lemma LastForOne(e: Envelope, id: string)
    ensures LastFor([e], id) == if Subject(e.event) == Some(id) then Some(e.event) else None
  {
    assert [e][..0] == [];
  }

  /** The last event about a task is lost only if it is not terminal. */
  predicate SameNews(before: Option<Event>, after: Option<Event>) {
    && (before.None? ==> after.None?)
    && (before.Some? && TerminalType(before.value.kind) ==> after == before)
  }

  lemma DroppingKeeps(a: seq<Envelope>, x: Envelope, b: seq<Envelope>, id: string)
    requires !EventQueue.Terminal(x)
    ensures SameNews(LastFor(a + [x] + b, id), LastFor(a + b, id))
  {
    hide LastFor;
    LastForConcat(a + [x], b, id);
    LastForConcat(a, [x], id);
    LastForOne(x, id);
    LastForConcat(a, b, id);
  }

  lemma OfferKeepsNews(sent: seq<Envelope>, queue: seq<Envelope>, ready: seq<Envelope>, limit: nat, id: string)
    requires ready != []
    ensures SameNews(LastFor(sent + queue + ready, id), LastFor(sent + Offered(queue, ready[0], limit) + ready[1..], id))
  {
    hide LastFor;
    var e, rest := ready[0], ready[1..];
    assert sent + queue + ready == sent + queue + [e] + rest;
    if |queue| < limit {
      assert sent + (queue + [e]) + rest == sent + queue + [e] + rest;
    } else if !EventQueue.Terminal(e) {
      DroppingKeeps(sent + queue, e, rest, id);
    } else if i: nat :| i < |queue| && !EventQueue.Terminal(queue[i])
                        && forall j :: 0 <= j < i ==> EventQueue.Terminal(queue[j]) {
      WithoutAt(queue, i);
      DroppingKeeps(sent + queue[..i], queue[i], queue[i + 1..] + [e] + rest, id);
      assert sent + queue + [e] + rest == sent + queue[..i] + [queue[i]] + (queue[i + 1..] + [e] + rest);
      assert sent + (WithoutFirst(queue) + [e]) + rest == sent + queue[..i] + (queue[i + 1..] + [e] + rest);
    } else {
      FirstNonTerminal(queue);
      WithoutNone(queue);
      assert sent + (queue + [e]) + rest == sent + queue + [e] + rest;
    }
  }

  // ---------- one step ----------

  /** The loop's event about a finished task is its final snapshot. */
  lemma FinalNames(s: System, id: string)
    requires LoopOk(s) && EventOf(s.loop).Some? && TasksOk(s.m)
    ensures id in s.m.tasks ==> s.m.tasks[id].id == id
    ensures Subject(EventOf(s.loop).value) == Some(id) && id in s.m.tasks && TerminalState(s.m.tasks[id].state) ==>
              FinalFor(EventOf(s.loop).value, s.m.tasks[id])
  {
    assert EntryOk(s.m, id);
  }

  lemma LoopSettles(s: System, a: TaskAction)
    requires SystemOk(s) && AllSettled(s) && LoopMay(s, a)
    ensures AllSettled(LoopDoes(s, a))
  {
    hide TasksOk;
    hide LastFor;
    hide Lookup;
    var c := TaskLifecycle.Apply(s.m, a);
    LoopChange(s.m, a);
    hide TaskLifecycle.Apply;
    var after := LoopDoes(s, a);
    TaskHasItsId(c.after, a.id);
    forall id
      ensures Settled(after, id)
    {
      assert Settled(s, id);
      if c.event.Some? && id == a.id {
        assert EventOf(after.loop) == c.event;
      } else {
        assert EventOf(s.loop).None? && InFlight(after) == InFlight(s);
      }
    }
  }

  lemma WorkerSettles(s: System, id: string, progress: TransferProgress, setting: Setting)
    requires SystemOk(s) && AllSettled(s) && SystemStep(s, WorkerProgress(id, progress), setting).Some?
    ensures AllSettled(SystemStep(s, WorkerProgress(id, progress), setting).value)
  {
    hide LastFor;
    hide Lookup;
    hide TasksOk;
    var after := SystemStep(s, WorkerProgress(id, progress), setting).value;
    forall other
      ensures Settled(after, other)
    {
      assert Settled(s, other);
      assert InFlight(after) == InFlight(s);
    }
  }

  /** Taking a number moves no event; a heartbeat that follows what was sent is about no task. */
  lemma NumbersSettle(s: System, a: SystemAction, setting: Setting)
    requires TakesNumber(a)
    requires AllSettled(s) && SystemStep(s, a, setting).Some?
    ensures AllSettled(SystemStep(s, a, setting).value)
  {
    hide LastFor;
    hide Lookup;
    var after := SystemStep(s, a, setting).value;
    forall id
      ensures Settled(after, id)
    {
      assert Settled(s, id);
      if a.HandlerBeats? && id in s.m.tasks {
        BeatIsNoNews(s, s.m.tasks[id].id);
      }
    }
  }

  lemma BeatIsNoNews(s: System, id: string)
    ensures LastFor(s.socket + [Next(s, BEAT)] + s.queue + s.ready, id) == LastFor(InFlight(s), id)
  {
    var beat, rest := Next(s, BEAT), s.queue + s.ready;
    LastForConcat(s.socket, rest, id);
    LastForConcat(s.socket + [beat], rest, id);
    LastForConcat(s.socket, [beat], id);
    LastForOne(beat, id);
    hide LastFor;
    assert s.socket + [beat] + s.queue + s.ready == s.socket + [beat] + rest;
    assert InFlight(s) == s.socket + rest;
  }

  /** The event a thread hands to the loop becomes the last one in flight, or goes to a closed connection. */
  lemma SchedulesSettle(s: System, a: SystemAction, setting: Setting)
    requires HandsOver(a)
    requires SystemOk(s) && AllSettled(s) && SystemStep(s, a, setting).Some?
    ensures AllSettled(SystemStep(s, a, setting).value)
  {
    hide LastFor;
    hide Lookup;
    hide TasksOk;
    hide Recorded;
    hide ChannelsOk;
    hide DashboardOk;
    var after := SystemStep(s, a, setting).value;
    var out := if a.LoopSchedules? then s.loop.out else if a.WorkerSchedules? then s.workers[a.id].out else s.others[a.k];
    if a.WorkerSchedules? {
      assert WorkerOk(s, a.id);
    } else if a.OtherSchedules? {
      assert OtherOk(s.history, s.others[a.k]);
    }
    forall id
      ensures Settled(after, id)
    {
      assert Settled(s, id);
      TaskHasItsId(s.m, id);
      LastForConcat(InFlight(s), [out.envelope], id);
      LastForOne(out.envelope, id);
      assert InFlight(after) == InFlight(s) + [out.envelope] || InFlight(after) == InFlight(s);
      if a.LoopSchedules? {
        FinalNames(s, id);
      }
    }
  }

  lemma QueueSettles(s: System, a: SystemAction, setting: Setting)
    requires Moves(a)
    requires AllSettled(s) && SystemStep(s, a, setting).Some?
    ensures AllSettled(SystemStep(s, a, setting).value)
  {
    hide LastFor;
    hide Lookup;
    hide Offered;
    var after := SystemStep(s, a, setting).value;
    forall id
      ensures Settled(after, id)
    {
      assert Settled(s, id);
      if id in s.m.tasks {
        var name := s.m.tasks[id].id;
        NothingLast(name);
        if a.LoopOffers? {
          OfferKeepsNews(s.socket, s.queue, s.ready, setting.limit, name);
        } else if a.HandlerSends? {
          assert InFlight(after) == InFlight(s);
        } else if a.Reconnects? {
          assert InFlight(after) == [];
        }
      }
    }
  }

  lemma NothingLast(id: string)
    ensures LastFor([], id) == None
  {
  }

  lemma ReceiveSettles(s: System, setting: Setting)
    requires SystemOk(s) && AllSettled(s) && s.socket != []
    ensures AllSettled(SystemStep(s, ClientReceives, setting).value)
  {
    hide LastFor;
    hide Lookup;
    hide ApplyEvent;
    hide ApplyToTasks;
    hide TasksOk;
    var after := SystemStep(s, ClientReceives, setting).value;
    var e := s.socket[0];
    EventShown(s.client.view, e.event);
    forall id
      ensures Settled(after, id)
    {
      assert Settled(s, id);
      TaskHasItsId(s.m, id);
      assert InFlight(s) == [e] + InFlight(after);
      LastForConcat([e], InFlight(after), id);
      LastForOne(e, id);
      ApplyLookup(Listed(s.client.view), e.event, id);
      EffectElsewhere(e.event, id);
    }
  }

  lemma EffectElsewhere(e: Event, id: string)
    ensures Subject(e) != Some(id) ==> EffectOf(e, id) == Keep
  {
  }

  lemma RefreshSettles(s: System, snapshot: AppSnapshot, setting: Setting)
    requires SystemOk(s) && AllSettled(s) && SystemStep(s, ClientRefreshes(snapshot), setting).Some?
    ensures AllSettled(SystemStep(s, ClientRefreshes(snapshot), setting).value)
  {
    hide LastFor;
    hide Lookup;
    hide TasksOk;
    var after := SystemStep(s, ClientRefreshes(snapshot), setting).value;
    forall id
      ensures Settled(after, id)
    {
      assert Settled(s, id);
      TaskHasItsId(s.m, id);
    }
  }

  lemma HearSettles(s: System, k: nat, setting: Setting)
    requires SystemOk(s) && AllSettled(s) && k < |s.responses| && HeardWell(s, ClientHears(k), setting)
    ensures AllSettled(SystemStep(s, ClientHears(k), setting).value)
  {
    hide LastFor;
    hide Lookup;
    hide ApplyEvent;
    hide ApplyToTasks;
    hide TasksOk;
    var after := SystemStep(s, ClientHears(k), setting).value;
    var r := s.responses[k];
    assert AnswerOk(s.m, r);
    EventShown(s.client.view, ResponseEvent(r));
    forall id
      ensures Settled(after, id)
    {
      assert Settled(s, id);
      TaskHasItsId(s.m, id);
      ApplyLookup(Listed(s.client.view), ResponseEvent(r), id);
    }
  }

  lemma StepSettles(s: System, a: SystemAction, setting: Setting)
    requires SystemOk(s) && AllSettled(s) && SystemStep(s, a, setting).Some? && HeardWell(s, a, setting)
    ensures AllSettled(SystemStep(s, a, setting).value)
  {
    hide SystemOk;
    hide AllSettled;
    hide HeardWell;
    match a
    case OnLoop(action) => LoopSettles(s, action);
    case WorkerProgress(id, progress) => WorkerSettles(s, id, progress, setting);
    case ClientReceives => ReceiveSettles(s, setting);
    case ClientRefreshes(snapshot) => RefreshSettles(s, snapshot, setting);
    case ClientHears(k) => HearSettles(s, k, setting);
    case _ =>
      if TakesNumber(a) {
        NumbersSettle(s, a, setting);
      } else if HandsOver(a) {
        SchedulesSettle(s, a, setting);
      } else {
        QueueSettles(s, a, setting);
      }
  }

  // ---------- every run ----------

  lemma {:induction false} RunSettles(s: System, actions: seq<SystemAction>, setting: Setting, to: System)
    requires SystemOk(s) && AllSettled(s) && SystemRun(s, actions, setting, to) && AnswersGuarded(s, actions, setting)
    ensures SystemOk(to) && AllSettled(to)
    decreases |actions|
  {
    hide SystemOk;
    hide AllSettled;
    hide SystemStep;
    hide HeardWell;
    if actions != [] {
      StepKeepsOk(s, actions[0], setting);
      StepSettles(s, actions[0], setting);
      RunSettles(SystemStep(s, actions[0], setting).value, actions[1..], setting, to);
    }
  }

  /** Whatever the queue dropped on the way, however often the connection was lost, and in whatever order the
      manager, the workers, the other threads, the loop and the client acted: once drained, a dashboard that
      has had a snapshot on this connection, and never put a finished task back by itself, shows every
      finished task exactly as the manager holds it. */
  lemma AnyClientConverges(actions: seq<SystemAction>, setting: Setting, to: System, id: string)
    requires SystemRun(START, actions, setting, to) && AnswersGuarded(START, actions, setting)
    requires Drained(to) && to.client.refreshed
    requires id in to.m.tasks && TerminalState(to.m.tasks[id].state)
    ensures Lookup(Listed(to.client.view), id) == Some(to.m.tasks[id])
  {
    hide SystemStep;
    hide Lookup;
    StartOk();
    RunSettles(START, actions, setting, to);
    TaskHasItsId(to.m, id);
    assert Settled(to, id);
    NothingLast(to.m.tasks[id].id);
  }

  /** A dashboard that looks at its list before it applies a cancel answer always converges. */
  lemma SlowClientConverges(actions: seq<SystemAction>, setting: Setting, to: System, id: string)
    requires setting.guards && SystemRun(START, actions, setting, to)
    requires Drained(to) && to.client.refreshed
    requires id in to.m.tasks && TerminalState(to.m.tasks[id].state)
    ensures Lookup(Listed(to.client.view), id) == Some(to.m.tasks[id])
  {
    GuardingIsGuarded(START, actions, setting, to);
    AnyClientConverges(actions, setting, to, id);
  }
}
