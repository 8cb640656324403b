/** Cancel answers that arrive late: when they do harm, and that nothing but a snapshot or another answer
    undoes it. */
module LateAnswers {
  import opened Results
  import opened ControlTypes
  import opened TaskLifecycle
  import opened EventQueue
  import opened Dashboard
  import opened ControlSystem
  import opened Convergence

  /** The source's dashboard, which applies every answer. */
  function Unguarded(limit: nat): Setting { Setting(limit, false) }

  /** No event about the task is on its way. */
  predicate NothingComing(s: System, id: string) {
    LastFor(InFlight(s), id).None? && !(EventOf(s.loop).Some? && Subject(EventOf(s.loop).value) == Some(id))
  }

  /** The manager has finished the task; the dashboard lists something else, and no event will tell it. */
  predicate Stranded(s: System, id: string) {
    && id in s.m.tasks && TerminalState(s.m.tasks[id].state) && NothingComing(s, id)
    && s.client.view.snapshot.Some? && Lookup(Listed(s.client.view), id) != Some(s.m.tasks[id])
  }

  /** An answer about a finished task with nothing more to come about it: the dashboard then shows the task as
      the manager has it if and only if the answer met the guard, and is stranded otherwise. */
  lemma HearingIff(s: System, k: nat, limit: nat)
    requires SystemOk(s) && AllSettled(s) && k < |s.responses| && s.client.refreshed
    requires NothingComing(s, s.responses[k].id)
    requires s.responses[k].id in s.m.tasks && TerminalState(s.m.tasks[s.responses[k].id].state)
    ensures var r := s.responses[k];
            var after := SystemStep(s, ClientHears(k), Unguarded(limit)).value;
            && (Guard(s.client.view, r) <==> Lookup(Listed(after.client.view), r.id) == Some(after.m.tasks[r.id]))
            && (!Guard(s.client.view, r) <==> Stranded(after, r.id))
  {
    hide LastFor;
    hide Lookup;
    hide ApplyEvent;
    hide ApplyToTasks;
    hide TasksOk;
    var r := s.responses[k];
    assert AnswerOk(s.m, r) && Settled(s, r.id);
    TaskHasItsId(s.m, r.id);
    EventShown(s.client.view, ResponseEvent(r));
    ApplyLookup(Listed(s.client.view), ResponseEvent(r), r.id);
    if EventOf(s.loop).Some? {
      FinalNames(s, r.id);
    }
  }

  // ---------- stranded for ever ----------

  /** Neither a snapshot nor another answer about this task. */
  predicate NoHelp(a: SystemAction, id: string) { !a.ClientRefreshes? && a != OnLoop(DoCancel(id)) }

  predicate NoAnswer(s: System, id: string) { forall r <- s.responses :: r.id != id }

  lemma LoopStrands(s: System, a: TaskAction, id: string)
    requires SystemOk(s) && Stranded(s, id) && NoAnswer(s, id) && LoopMay(s, a) && a != DoCancel(id)
    ensures Stranded(LoopDoes(s, a), id) && NoAnswer(LoopDoes(s, a), id) && LoopDoes(s, a).client == s.client
  {
    hide LastFor;
    hide Lookup;
    hide TasksOk;
    LoopChange(s.m, a);
    hide TaskLifecycle.Apply;
    var after := LoopDoes(s, a);
    assert InFlight(after) == InFlight(s);
    assert WorkerOk(s, id);
    TaskHasItsId(after.m, a.id);
  }

  lemma HandingStrands(s: System, a: SystemAction, setting: Setting, id: string)
    requires SystemOk(s) && Stranded(s, id) && NoAnswer(s, id) && SystemStep(s, a, setting).Some? && HandsOver(a)
    ensures var after := SystemStep(s, a, setting).value;
            Stranded(after, id) && NoAnswer(after, id) && Listed(after.client.view) == Listed(s.client.view)
  {
    hide LastFor;
    hide Lookup;
    hide TasksOk;
    hide ChannelsOk;
    hide DashboardOk;
    hide Recorded;
    var after := SystemStep(s, a, setting).value;
    var e := if a.LoopSchedules? then s.loop.out.envelope
             else if a.WorkerSchedules? then s.workers[a.id].out.envelope else s.others[a.k].envelope;
    if a.WorkerSchedules? {
      assert WorkerOk(s, a.id);
    } else if a.OtherSchedules? {
      assert OtherOk(s.history, s.others[a.k]);
    }
    assert InFlight(after) == InFlight(s) + [e] || InFlight(after) == InFlight(s);
    LastForConcat(InFlight(s), [e], id);
    LastForOne(e, id);
  }

  lemma BackendStrands(s: System, a: SystemAction, setting: Setting, id: string)
    requires SystemOk(s) && Stranded(s, id) && NoAnswer(s, id) && SystemStep(s, a, setting).Some?
    requires TakesNumber(a) || Moves(a) || a.WorkerProgress?
    ensures var after := SystemStep(s, a, setting).value;
            Stranded(after, id) && NoAnswer(after, id) && Listed(after.client.view) == Listed(s.client.view)
  {
    hide LastFor;
    hide Lookup;
    hide TasksOk;
    hide Offered;
    hide ChannelsOk;
    hide DashboardOk;
    hide Recorded;
    hide InFlight;
    var after := SystemStep(s, a, setting).value;
    if a.WorkerProgress? {
      assert WorkerOk(s, a.id);
    }
    hide ServerOk;
    NothingLast(id);
    FlightAfter(s, a, setting, id);
  }

  lemma FlightAfter(s: System, a: SystemAction, setting: Setting, id: string)
    requires SystemStep(s, a, setting).Some? && LastFor(InFlight(s), id).None?
    requires TakesNumber(a) || Moves(a) || a.WorkerProgress?
    ensures LastFor(InFlight(SystemStep(s, a, setting).value), id).None?
  {
    hide LastFor;
    hide Offered;
    hide OnProgress;
    NothingLast(id);
    var after := SystemStep(s, a, setting).value;
    if a.HandlerBeats? {
      BeatIsNoNews(s, id);
    } else if a.LoopOffers? {
      OfferKeepsNews(s.socket, s.queue, s.ready, setting.limit, id);
    } else if a.Reconnects? {
      assert InFlight(after) == [];
    } else {
      assert InFlight(after) == InFlight(s);
    }
  }

  lemma ReceiveStrands(s: System, setting: Setting, id: string)
    requires SystemOk(s) && Stranded(s, id) && NoAnswer(s, id) && s.socket != []
    ensures var after := SystemStep(s, ClientReceives, setting).value;
            && Stranded(after, id) && NoAnswer(after, id)
            && Lookup(Listed(after.client.view), id) == Lookup(Listed(s.client.view), id)
  {
    hide LastFor;
    hide Lookup;
    hide ApplyEvent;
    hide ApplyToTasks;
    var after := SystemStep(s, ClientReceives, setting).value;
    var e := s.socket[0];
    assert InFlight(s) == [e] + InFlight(after);
    LastForConcat([e], InFlight(after), id);
    LastForOne(e, id);
    EventShown(s.client.view, e.event);
    ApplyLookup(Listed(s.client.view), e.event, id);
    EffectElsewhere(e.event, id);
  }

  lemma HearStrands(s: System, k: nat, setting: Setting, id: string)
    requires SystemOk(s) && Stranded(s, id) && NoAnswer(s, id) && k < |s.responses|
    ensures var after := SystemStep(s, ClientHears(k), setting).value;
            && Stranded(after, id) && NoAnswer(after, id)
            && Lookup(Listed(after.client.view), id) == Lookup(Listed(s.client.view), id)
  {
    hide LastFor;
    hide Lookup;
    hide ApplyEvent;
    hide ApplyToTasks;
    var after := SystemStep(s, ClientHears(k), setting).value;
    var r := s.responses[k];
    assert InFlight(after) == InFlight(s);
    EventShown(s.client.view, ResponseEvent(r));
    ApplyLookup(Listed(s.client.view), ResponseEvent(r), id);
  }

  /** However the system goes on, through any number of events, heartbeats and reconnects: without a snapshot
      and without another answer about the task, the dashboard shows what it shows. */
  lemma {:induction false} StrandedForEver(s: System, actions: seq<SystemAction>, setting: Setting, to: System, id: string)
    requires SystemOk(s) && Stranded(s, id) && NoAnswer(s, id) && SystemRun(s, actions, setting, to)
    requires forall a <- actions :: NoHelp(a, id)
    ensures Stranded(to, id) && Lookup(Listed(to.client.view), id) == Lookup(Listed(s.client.view), id)
    decreases |actions|
  {
    hide SystemOk;
    hide Stranded;
    hide SystemStep;
    hide Lookup;
    hide NoAnswer;
    if actions != [] {
      var a := actions[0];
      var next := SystemStep(s, a, setting).value;
      assert NoHelp(a, id);
      StepKeepsOk(s, a, setting);
      StepStrands(s, a, setting, id);
      StrandedForEver(next, actions[1..], setting, to, id);
    }
  }

  lemma StepStrands(s: System, a: SystemAction, setting: Setting, id: string)
    requires SystemOk(s) && Stranded(s, id) && NoAnswer(s, id) && SystemStep(s, a, setting).Some? && NoHelp(a, id)
    ensures var after := SystemStep(s, a, setting).value;
            && Stranded(after, id) && NoAnswer(after, id)
            && Lookup(Listed(after.client.view), id) == Lookup(Listed(s.client.view), id)
  {
    hide SystemOk;
    hide Stranded;
    hide NoAnswer;
    hide Lookup;
    if a.OnLoop? {
      LoopStrands(s, a.action, id);
    } else if a.ClientReceives? {
      ReceiveStrands(s, setting, id);
    } else if a.ClientHears? {
      HearStrands(s, a.k, setting, id);
    } else if HandsOver(a) {
      HandingStrands(s, a, setting, id);
    } else {
      BackendStrands(s, a, setting, id);
    }
  }

  // ---------- a run that ends so ----------

  /** The first task as far as it has come. */
  function First(state: TaskState): Task { Task("a", state, !state.Pending?, TerminalState(state), None, None) }

  lemma CreateRun(setting: Setting) returns (s: System)
    requires setting.limit > 0
    ensures SystemRun(START, Publishes(DoCreate("a")) + DELIVERY, setting, s) && Drained(s)
    ensures s.m.tasks == map["a" := First(Pending)] && s.workers == map[] && s.responses == []
    ensures |s.history| == 1 && s.client == Client(INITIAL, Some(1), false, false, false)
  {
    Round(START, DoCreate("a"), setting);
    s := AfterRound(START, DoCreate("a"));
  }

  /** The task is created and begun, and both events have arrived. */
  lemma BeginRun(setting: Setting) returns (actions: seq<SystemAction>, s: System)
    requires setting.limit > 0
    ensures SystemRun(START, actions, setting, s) && Drained(s)
    ensures s.m.tasks == map["a" := First(Running)] && s.workers == map["a" := Idle] && s.responses == []
    ensures |s.history| == 2 && s.client == Client(INITIAL, Some(2), false, false, false)
  {
    hide SystemRun;
    var created := CreateRun(setting);
    var begin := DoBegin("a");
    Round(created, begin, setting);
    s := AfterRound(created, begin);
    actions := Publishes(DoCreate("a")) + DELIVERY + (Publishes(begin) + DELIVERY);
    RunConcat(START, Publishes(DoCreate("a")) + DELIVERY, created, Publishes(begin) + DELIVERY, setting, s);
  }

  lemma SnapshotStep(b: System, receiver: ReceiverSnapshot, setting: Setting) returns (snapshot: AppSnapshot)
    requires b.loop.Idle? && b.m.tasks == map["a" := First(Running)]
    ensures SystemStep(b, ClientRefreshes(snapshot), setting) == Some(b.(client := Refreshed(b.client, snapshot)))
    ensures snapshot.tasks == [First(Running)]
  {
    snapshot := AppSnapshot([First(Running)], receiver);
    assert snapshot.tasks[1..] == [];
    forall id
      ensures Lookup(snapshot.tasks, id) == Current(b.m, id)
    {
      assert Lookup([], id) == None;
    }
  }

  /** A snapshot, then the cancel request. */
  lemma CancelRun(b: System, receiver: ReceiverSnapshot, setting: Setting) returns (actions: seq<SystemAction>, s: System)
    requires setting.limit > 0 && Drained(b)
    requires b.m.tasks == map["a" := First(Running)] && b.workers == map["a" := Idle] && b.responses == []
    requires |b.history| == 2 && b.client == Client(INITIAL, Some(2), false, false, false)
    ensures SystemRun(b, actions, setting, s) && Drained(s)
    ensures s.m.tasks == map["a" := First(Canceling)] && s.workers == map["a" := Idle] && s.responses == [First(Canceling)]
    ensures |s.history| == 3 && s.client.last == Some(3) && s.client.refreshed && s.client.based && !s.client.stale
    ensures s.client.view.snapshot.Some? && Listed(s.client.view) == [First(Canceling)]
  {
    hide SystemRun;
    hide Lookup;
    var cancel := DoCancel("a");
    var snapshot := SnapshotStep(b, receiver, setting);
    hide SystemStep;
    var shown := b.(client := Refreshed(b.client, snapshot));
    s := AfterRound(shown, cancel);
    var e := TaskLifecycle.Apply(shown.m, cancel).event.value;
    assert e == Event(EventType.TaskCanceling, WholeTask(First(Canceling)));
    Replaced(shown.client.view, e, First(Running));
    Round(shown, cancel, setting);
    hide ApplyEvent;
    var round := Publishes(cancel) + DELIVERY;
    actions := [ClientRefreshes(snapshot)] + round;
    RunStep(b, ClientRefreshes(snapshot), shown, round, setting, s);
  }

  lemma Replaced(view: DashboardState, e: Event, before: Task)
    requires view.snapshot.Some? && Listed(view) == [before] && e.body.WholeTask? && TaskType(e.kind) && e.body.task.id == before.id
    ensures Listed(ApplyEvent(view, e)) == [e.body.task]
  {
    EventShown(view, e);
    assert [before][1..] == [];
    assert Others([before], e.body.task.id) == [];
  }

  /** The send ends all the same, and the answer to the cancel request comes last. */
  lemma EndRun(c: System, totalBytes: nat, setting: Setting) returns (actions: seq<SystemAction>, s: System)
    requires setting.limit > 0 && !setting.guards && Drained(c)
    requires c.m.tasks == map["a" := First(Canceling)] && c.workers == map["a" := Idle] && c.responses == [First(Canceling)]
    requires |c.history| == 3 && c.client.last == Some(3) && c.client.refreshed && c.client.based && !c.client.stale
    requires c.client.view.snapshot.Some? && Listed(c.client.view) == [First(Canceling)]
    ensures SystemRun(c, actions, setting, s) && Drained(s) && s.responses == []
    ensures s.m.tasks == map["a" := First(Completed)]
    ensures |s.history| == 4 && s.client.last == Some(4) && s.client.refreshed && s.client.based && !s.client.stale
    ensures s.client.view.snapshot.Some? && Listed(s.client.view) == [First(Canceling)]
  {
    var end := DoEnd("a", Sent(totalBytes));
    var ended := AfterRound(c, end);
    var e := TaskLifecycle.Apply(c.m, end).event.value;
    assert e == Event(EventType.TaskCompleted, WholeTask(First(Completed)));
    Replaced(c.client.view, e, First(Canceling));
    Round(c, end, setting);
    var round := Publishes(end) + DELIVERY;
    assert ended.m.tasks == map["a" := First(Completed)] && ended.responses == [First(Canceling)] && Drained(ended);
    hide AfterRound;
    hide SystemRun;
    hide TaskLifecycle.Apply;
    LastAnswer(ended, setting);
    s := ended.(responses := [], client := ended.client.(view := ApplyEvent(ended.client.view, ResponseEvent(First(Canceling)))));
    RunConcat(c, round, ended, [ClientHears(0)], setting, s);
    actions := round + [ClientHears(0)];
  }

  lemma LastAnswer(s: System, setting: Setting)
    requires !setting.guards && s.responses == [First(Canceling)] && s.client.view.snapshot.Some? && Listed(s.client.view) == [First(Completed)]
    ensures var view := ApplyEvent(s.client.view, ResponseEvent(First(Canceling)));
            && SystemRun(s, [ClientHears(0)], setting, s.(responses := [], client := s.client.(view := view)))
            && Listed(view) == [First(Canceling)] && view.snapshot.Some?
  {
    var r := First(Canceling);
    Replaced(s.client.view, ResponseEvent(r), First(Completed));
    var to := s.(responses := [], client := s.client.(view := ApplyEvent(s.client.view, ResponseEvent(r))));
    assert [r][..0] + [r][1..] == [];
    assert SystemStep(s, ClientHears(0), setting) == Some(to);
    hide SystemStep;
    RunNone(to, setting);
    RunStep(s, ClientHears(0), to, [], setting, to);
    assert [ClientHears(0)] + [] == [ClientHears(0)];
  }

  /** A task is created and begun, the dashboard takes a snapshot, the task is cancelled and ends all the
      same; every event arrives at once and without a gap, and last the answer to the cancel request.  The
      manager has the task completed, the dashboard shows it as cancelling. */
  lemma LateAnswerStrands(limit: nat, totalBytes: nat, receiver: ReceiverSnapshot) returns (actions: seq<SystemAction>, to: System)
    requires limit > 0
    ensures SystemRun(START, actions, Unguarded(limit), to) && Drained(to) && to.responses == []
    ensures to.m.tasks == map["a" := First(Completed)] && Listed(to.client.view) == [First(Canceling)]
    ensures Stranded(to, "a") && NoAnswer(to, "a")
    ensures to.client.refreshed && to.client.based && !to.client.stale && to.client.last == Some(|to.history|)
  {
    hide SystemRun;
    var setting := Unguarded(limit);
    var first, begun := BeginRun(setting);
    var second, cancelling := CancelRun(begun, receiver, setting);
    var third, ended := EndRun(cancelling, totalBytes, setting);
    to := ended;
    RunConcat(begun, second, cancelling, third, setting, to);
    RunConcat(START, first, begun, second + third, setting, to);
    actions := first + (second + third);
    NothingLast("a");
  }

  /** Why it matters that the routes cancel on the loop: were TaskManager.cancel called from another thread,
      the change could be made first, the send then end and be published, and the stale event come last.  The
      dashboard would end on CANCELING although the manager has the task completed. */
  lemma CancelOffTheLoopStrands(tasks: seq<Task>, m: Tasks, id: string, totalBytes: nat)
    requires TasksOk(m) && id in m.tasks && m.tasks[id].state.Running?
    ensures var cancelling := Cancel(m, id);
            var ended := End(cancelling.after, id, Sent(totalBytes));
            && cancelling.event.Some? && ended.event.Some?
            && ended.after.tasks[id].state == Completed
            && Lookup(Fold(tasks, [ended.event.value, cancelling.event.value]), id).Some?
            && Lookup(Fold(tasks, [ended.event.value, cancelling.event.value]), id).value.state == Canceling
  {
    assert EntryOk(m, id);
    var cancelling := Cancel(m, id);
    var ended := End(cancelling.after, id, Sent(totalBytes));
    var events := [ended.event.value, cancelling.event.value];
    FoldLookup(tasks, events, id);
    assert events[..1] == [ended.event.value];
  }
}
