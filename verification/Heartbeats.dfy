/** What the numbers and the heartbeat are for: a dashboard that has seen no gap since its snapshot is behind
    the manager by exactly the events numbered after its last delivery; so one heartbeat tells it whether it
    shows every task, running ones too, as the manager has it. */
module Heartbeats {
  import opened Results
  import opened ControlTypes
  import opened TaskLifecycle
  import opened EventQueue
  import opened Dashboard
  import opened ControlSystem

  // ---------- effects in a row ----------

  lemma ActCompose(first: Effect, second: Effect, task: Option<Task>)
    ensures Act(Compose(first, second), task) == Act(second, Act(first, task))
  {
  }

  lemma {:induction false} NetConcat(a: seq<Event>, b: seq<Event>, id: string, task: Option<Task>)
    ensures Act(Net(a + b, id), task) == Act(Net(b, id), Act(Net(a, id), task))
    decreases |b|
  {
    if b == [] {
      assert a + b == a;
    } else {
      var last := |b| - 1;
      NetConcat(a, b[..last], id, task);
      assert (a + b)[..|a + b| - 1] == a + b[..last];
      ActCompose(Net(a + b[..last], id), EffectOf(b[last], id), task);
      ActCompose(Net(b[..last], id), EffectOf(b[last], id), Act(Net(a, id), task));
    }
  }

  lemma NetOne(e: Event, id: string, task: Option<Task>)
    ensures Act(Net([e], id), task) == Act(EffectOf(e, id), task)
  {
    assert [e][..0] == [];
  }

  // ---------- what is still to come ----------

  /** The change of a task whose event has no number yet; if there are two, the loop's, which is the whole
      task. */
  function Pending(s: System, id: string): Effect {
    if s.loop.Changed? && Subject(s.loop.event) == Some(id) then EffectOf(s.loop.event, id)
    else if id in s.workers && s.workers[id].Changed? then EffectOf(s.workers[id].event, id)
    else Keep
  }

  /** The events numbered after j, and those without a number, turn this into the task as the manager has it. */
  predicate Leads(s: System, j: nat, id: string, task: Option<Task>)
    requires j <= |s.history|
  {
    Act(Pending(s, id), Act(Net(s.history[j..], id), task)) == Current(s.m, id)
  }

  /** Replaying the events from any number on onto the manager's own state changes nothing. */
  ghost predicate Replayable(s: System, id: string) {
    forall j: nat :: j <= |s.history| ==> Leads(s, j, id, Current(s.m, id))
  }

  /** The dashboard lacks exactly the events after its last delivery. */
  predicate InStep(s: System, id: string) {
    s.client.based && !s.client.stale ==>
      && s.client.last.Some? && s.client.last.value <= |s.history|
      && Leads(s, s.client.last.value, id, Lookup(Listed(s.client.view), id))
  }

  ghost predicate Following(s: System) { forall id :: Replayable(s, id) && InStep(s, id) }

  lemma PendingFixes(s: System, id: string)
    requires LoopOk(s) && WorkerOk(s, id)
    ensures Leads(s, |s.history|, id, Current(s.m, id))
  {
    assert s.history[|s.history|..] == [];
  }

  // ---------- steps of the backend ----------

  lemma LoopLeads(s: System, a: TaskAction, j: nat, id: string, task: Option<Task>)
    requires SystemOk(s) && LoopMay(s, a) && j <= |s.history|
    requires Leads(s, j, id, task)
    ensures Leads(LoopDoes(s, a), j, id, task)
    ensures Leads(s, j, id, Current(s.m, id)) ==> Leads(LoopDoes(s, a), j, id, Current(LoopDoes(s, a).m, id))
  {
    hide TasksOk;
    LoopChange(s.m, a);
    hide TaskLifecycle.Apply;
    hide Net;
  }

  lemma WorkerLeads(s: System, w: string, progress: TransferProgress, setting: Setting, j: nat, id: string, task: Option<Task>)
    requires SystemOk(s) && SystemStep(s, WorkerProgress(w, progress), setting).Some? && j <= |s.history|
    requires Leads(s, j, id, task)
    ensures var after := SystemStep(s, WorkerProgress(w, progress), setting).value;
            && Leads(after, j, id, task)
            && (Leads(s, j, id, Current(s.m, id)) ==> Leads(after, j, id, Current(after.m, id)))
  {
    hide Net;
    hide TasksOk;
    assert WorkerOk(s, w);
    assert WorkerOk(s, id);
    hide WorkerOk;
    var after := SystemStep(s, WorkerProgress(w, progress), setting).value;
    var net := Net(s.history[j..], id);
    assert after.history == s.history;
    match net {
      case Replace(_) =>
      case Advance(_) =>
      case Keep =>
    }
  }

  /** A numbered event moves from what is pending to the history, where it has the same effect. */
  lemma NumbersLead(s: System, a: SystemAction, setting: Setting, j: nat, id: string, task: Option<Task>)
    requires TakesNumber(a)
    requires SystemOk(s) && SystemStep(s, a, setting).Some? && j <= |s.history|
    requires Leads(s, j, id, task)
    ensures Leads(SystemStep(s, a, setting).value, j, id, task)
  {
    hide Net;
    hide TasksOk;
    hide DashboardOk;
    hide ChannelsOk;
    var after := SystemStep(s, a, setting).value;
    var e := after.history[|s.history|];
    assert after.history[j..] == s.history[j..] + [e];
    NetConcat(s.history[j..], [e], id, task);
    NetOne(e, id, Act(Net(s.history[j..], id), task));
    assert WorkerOk(s, id);
    if a.WorkerNumbers? {
      assert WorkerOk(s, a.id);
    }
  }

  lemma SchedulesLead(s: System, a: SystemAction, setting: Setting, j: nat, id: string, task: Option<Task>)
    requires HandsOver(a) || Moves(a)
    requires SystemOk(s) && SystemStep(s, a, setting).Some? && j <= |s.history|
    requires Leads(s, j, id, task)
    ensures Leads(SystemStep(s, a, setting).value, j, id, task)
  {
    hide Net;
    hide TasksOk;
    hide DashboardOk;
    hide ChannelsOk;
    assert WorkerOk(s, id);
    if a.WorkerSchedules? {
      assert WorkerOk(s, a.id);
    }
  }

  lemma BackendLeads(s: System, a: SystemAction, setting: Setting, j: nat, id: string, task: Option<Task>)
    requires SystemOk(s) && SystemStep(s, a, setting).Some? && !AtTheClient(a) && j <= |s.history|
    requires Leads(s, j, id, task)
    ensures var after := SystemStep(s, a, setting).value;
            |after.history| >= |s.history| && Leads(after, j, id, task)
  {
    hide Leads;
    hide SystemOk;
    match a {
      case OnLoop(action) => LoopLeads(s, action, j, id, task);
      case WorkerProgress(w, progress) => WorkerLeads(s, w, progress, setting, j, id, task);
      case _ =>
        if TakesNumber(a) {
          NumbersLead(s, a, setting, j, id, task);
        } else {
          SchedulesLead(s, a, setting, j, id, task);
        }
    }
  }

  lemma BackendReplays(s: System, a: SystemAction, setting: Setting, id: string)
    requires SystemOk(s) && SystemStep(s, a, setting).Some? && !AtTheClient(a)
    requires Replayable(s, id)
    ensures Replayable(SystemStep(s, a, setting).value, id)
  {
    var after := SystemStep(s, a, setting).value;
    StepKeepsOk(s, a, setting);
    assert LoopOk(after) && WorkerOk(after, id);
    hide SystemOk;
    hide WorkerOk;
    hide LoopOk;
    PendingFixes(after, id);
    forall j: nat | j <= |after.history|
      ensures Leads(after, j, id, Current(after.m, id))
    {
      if j <= |s.history| {
        assert Leads(s, j, id, Current(s.m, id));
        hide Leads;
        if a.OnLoop? {
          LoopLeads(s, a.action, j, id, Current(s.m, id));
        } else if a.WorkerProgress? {
          WorkerLeads(s, a.id, a.progress, setting, j, id, Current(s.m, id));
        } else {
          assert after.m == s.m;
          BackendLeads(s, a, setting, j, id, Current(s.m, id));
        }
      }
    }
  }

  lemma BackendFollows(s: System, a: SystemAction, setting: Setting)
    requires SystemOk(s) && Following(s) && SystemStep(s, a, setting).Some? && !AtTheClient(a)
    ensures Following(SystemStep(s, a, setting).value)
  {
    hide SystemOk;
    hide Leads;
    hide Replayable;
    var after := SystemStep(s, a, setting).value;
    ClientAlone(s, a, setting);
    forall id
      ensures Replayable(after, id) && InStep(after, id)
    {
      assert Replayable(s, id) && InStep(s, id);
      BackendReplays(s, a, setting, id);
      if s.client.based && !s.client.stale {
        BackendLeads(s, a, setting, s.client.last.value, id, Lookup(Listed(s.client.view), id));
      }
    }
  }

  lemma ClientAlone(s: System, a: SystemAction, setting: Setting)
    requires SystemStep(s, a, setting).Some? && !AtTheClient(a)
    ensures SystemStep(s, a, setting).value.client.(refreshed := s.client.refreshed) == s.client
  {
  }

  // ---------- steps of the client ----------

  /** What happens at the client changes nothing that is still to come. */
  lemma StillToCome(s: System, after: System, id: string)
    requires after.m == s.m && after.loop == s.loop && after.workers == s.workers && after.history == s.history
    ensures Replayable(after, id) <==> Replayable(s, id)
    ensures forall j: nat, task :: j <= |s.history| ==> (Leads(after, j, id, task) <==> Leads(s, j, id, task))
  {
    hide Net;
    assert Pending(after, id) == Pending(s, id);
    forall j: nat, task | j <= |s.history|
      ensures Leads(after, j, id, task) <==> Leads(s, j, id, task)
    {
    }
    hide Pending;
    hide Leads;
  }

  /** The event with the next number is the first of those the dashboard lacks. */
  lemma DeliveryLeads(s: System, id: string, task: Option<Task>, n: nat)
    requires n < |s.history| && Leads(s, n, id, task)
    ensures Leads(s, n + 1, id, Act(EffectOf(s.history[n], id), task))
  {
    assert s.history[n..] == [s.history[n]] + s.history[n + 1..];
    NetConcat([s.history[n]], s.history[n + 1..], id, task);
    NetOne(s.history[n], id, task);
  }

  lemma ReceiveFollows(s: System, setting: Setting)
    requires SystemOk(s) && Following(s) && SystemStep(s, ClientReceives, setting).Some?
    ensures Following(SystemStep(s, ClientReceives, setting).value)
  {
    hide ApplyEvent;
    hide ApplyToTasks;
    var after := SystemStep(s, ClientReceives, setting).value;
    var e := s.socket[0];
    assert Recorded(s.history, e) && ClientOk(s.client, s.history);
    hide SystemOk;
    hide Leads;
    hide Replayable;
    EventShown(s.client.view, e.event);
    forall id
      ensures Replayable(after, id) && InStep(after, id)
    {
      assert Replayable(s, id) && InStep(s, id);
      StillToCome(s, after, id);
      if after.client.based && !after.client.stale {
        DeliveryLeads(s, id, Lookup(Listed(s.client.view), id), s.client.last.value);
        ApplyLookup(Listed(s.client.view), e.event, id);
      }
    }
  }

  lemma RefreshFollows(s: System, snapshot: AppSnapshot, setting: Setting)
    requires SystemOk(s) && Following(s) && SystemStep(s, ClientRefreshes(snapshot), setting).Some?
    ensures Following(SystemStep(s, ClientRefreshes(snapshot), setting).value)
  {
    hide Lookup;
    hide Leads;
    var after := SystemStep(s, ClientRefreshes(snapshot), setting).value;
    assert ClientOk(s.client, s.history);
    hide SystemOk;
    forall id
      ensures Replayable(after, id) && InStep(after, id)
    {
      assert Replayable(s, id);
      StillToCome(s, after, id);
      assert Lookup(snapshot.tasks, id) == Current(s.m, id);
    }
  }

  /** An answer that meets the guard is the task as it is, or overwrites a task that a whole snapshot still to
      come will overwrite. */
  lemma AnswerLeads(s: System, j: nat, r: Task, shown: Option<Task>)
    requires AnswerOk(s.m, r) && j <= |s.history|
    requires Leads(s, j, r.id, Some(s.m.tasks[r.id])) && Leads(s, j, r.id, shown)
    requires shown.Some? && TerminalState(shown.value.state) ==> TerminalState(r.state)
    ensures Leads(s, j, r.id, Some(r))
  {
    hide Net;
    hide Pending;
  }

  lemma HearFollows(s: System, k: nat, setting: Setting)
    requires SystemOk(s) && Following(s) && SystemStep(s, ClientHears(k), setting).Some? && HeardWell(s, ClientHears(k), setting)
    ensures Following(SystemStep(s, ClientHears(k), setting).value)
  {
    hide ApplyEvent;
    hide ApplyToTasks;
    hide Lookup;
    var after := SystemStep(s, ClientHears(k), setting).value;
    var r := s.responses[k];
    assert AnswerOk(s.m, r) && ClientOk(s.client, s.history);
    hide SystemOk;
    hide Leads;
    EventShown(s.client.view, ResponseEvent(r));
    forall id
      ensures Replayable(after, id) && InStep(after, id)
    {
      assert Replayable(s, id) && InStep(s, id);
      StillToCome(s, after, id);
      ApplyLookup(Listed(s.client.view), ResponseEvent(r), id);
      if s.client.based && !s.client.stale && id == r.id && Heard(s.client.view, r, setting) != s.client.view {
        AnswerLeads(s, s.client.last.value, r, Lookup(Listed(s.client.view), id));
      }
    }
  }

  // ---------- every run ----------

  lemma {:induction false} RunFollows(s: System, actions: seq<SystemAction>, setting: Setting, to: System)
    requires SystemOk(s) && Following(s) && SystemRun(s, actions, setting, to) && AnswersGuarded(s, actions, setting)
    ensures SystemOk(to) && Following(to)
    decreases |actions|
  {
    hide SystemOk;
    hide Following;
    hide SystemStep;
    hide HeardWell;
    if actions != [] {
      StepKeepsOk(s, actions[0], setting);
      match actions[0] {
        case ClientReceives => ReceiveFollows(s, setting);
        case ClientRefreshes(snapshot) => RefreshFollows(s, snapshot, setting);
        case ClientHears(k) => HearFollows(s, k, setting);
        case _ => BackendFollows(s, actions[0], setting);
      }
      RunFollows(SystemStep(s, actions[0], setting).value, actions[1..], setting, to);
    }
  }

  lemma StartFollows()
    ensures Following(START)
  {
    forall id
      ensures Replayable(START, id)
    {
      StartOk();
      PendingFixes(START, id);
    }
  }

  /** Every change of the manager has its event numbered. */
  ghost predicate AllNumbered(s: System) {
    !s.loop.Changed? && forall id <- s.workers :: !s.workers[id].Changed?
  }

  /** A dashboard whose last snapshot came after a delivery, that has seen no gap since and has received the
      last number given out shows every task, unfinished ones too, as the manager has it. */
  lemma CaughtUp(actions: seq<SystemAction>, setting: Setting, to: System)
    requires SystemRun(START, actions, setting, to) && AnswersGuarded(START, actions, setting)
    requires AllNumbered(to) && to.client.based && !to.client.stale && to.client.last == Some(|to.history|)
    ensures Represents(Listed(to.client.view), to.m)
  {
    StartOk();
    StartFollows();
    RunFollows(START, actions, setting, to);
    ShowsAll(to);
  }

  lemma ShowsAll(s: System)
    requires Following(s) && AllNumbered(s) && s.client.based && !s.client.stale && s.client.last == Some(|s.history|)
    ensures Represents(Listed(s.client.view), s.m)
  {
    hide Lookup;
    forall id
      ensures Lookup(Listed(s.client.view), id) == Current(s.m, id)
    {
      assert InStep(s, id);
      assert s.history[|s.history|..] == [];
    }
  }

  /** One heartbeat tells: with everything numbered, everything sent received, and a snapshot since some
      delivery, the heartbeat either shows a gap, or a gap was already noticed, so that a refresh is due,
      which then shows the manager's state; or the dashboard shows the manager's state as it is. */
  lemma HeartbeatTells(actions: seq<SystemAction>, setting: Setting, s: System)
    requires SystemRun(START, actions, setting, s) && AnswersGuarded(START, actions, setting)
    requires AllNumbered(s) && s.loop.Idle? && s.socket == [] && s.client.based
    ensures var sent := SystemStep(s, HandlerBeats, setting).value;
            var told := SystemStep(sent, ClientReceives, setting).value;
            && told.m == s.m && told.client.last == Some(|told.history|)
            && (!told.client.stale ==> Represents(Listed(told.client.view), told.m))
            && (told.client.stale <==> s.client.stale || s.client.last != Some(|s.history|))
  {
    hide SystemOk;
    hide Following;
    hide SystemRun;
    hide AnswersGuarded;
    hide Represents;
    hide SystemStep;
    StartOk();
    StartFollows();
    RunFollows(START, actions, setting, s);
    BeatArrives(s, setting);
    var sent := SystemStep(s, HandlerBeats, setting).value;
    var told := SystemStep(sent, ClientReceives, setting).value;
    StepKeepsOk(s, HandlerBeats, setting);
    BackendFollows(s, HandlerBeats, setting);
    ReceiveFollows(sent, setting);
    if !told.client.stale {
      ShowsAll(told);
    }
  }

  lemma BeatArrives(s: System, setting: Setting)
    requires SystemOk(s) && AllNumbered(s) && s.loop.Idle? && s.socket == [] && s.client.based
    ensures SystemStep(s, HandlerBeats, setting).Some?
    ensures var sent := SystemStep(s, HandlerBeats, setting).value;
            && SystemStep(sent, ClientReceives, setting).Some?
            && var told := SystemStep(sent, ClientReceives, setting).value;
            && told.m == s.m && told.client.last == Some(|told.history|) && AllNumbered(told) && told.client.based
            && (told.client.stale <==> s.client.stale || s.client.last != Some(|s.history|))
  {
    assert ClientOk(s.client, s.history);
    hide SystemOk;
    hide ApplyEvent;
    assert SystemStep(s, HandlerBeats, setting).value.socket == [Next(s, BEAT)];
  }

  // ---------- a snapshot before any delivery ----------

  lemma EmptySnapshotRun(receiver: ReceiverSnapshot, setting: Setting) returns (actions: seq<SystemAction>, s: System)
    ensures SystemRun(START, actions, setting, s) && s == START.(client := s.client)
    ensures s.client == Client(DashboardState(Some(AppSnapshot([], receiver)), Online, None), None, true, false, false)
  {
    hide SystemRun;
    var snapshot := AppSnapshot([], receiver);
    assert Represents([], EMPTY);
    s := START.(client := Refreshed(START.client, snapshot));
    assert SystemStep(START, ClientRefreshes(snapshot), setting) == Some(s);
    hide SystemStep;
    RunNone(s, setting);
    RunStep(START, ClientRefreshes(snapshot), s, [], setting, s);
    actions := [ClientRefreshes(snapshot)] + [];
  }

  lemma OfferRun(s: System, e: Envelope, setting: Setting)
    requires s.loop.Idle? && s.ready == [e]
    ensures SystemRun(s, [LoopOffers], setting, s.(ready := [], queue := Offered(s.queue, e, setting.limit)))
  {
    hide SystemRun;
    hide Offered;
    var to := s.(ready := [], queue := Offered(s.queue, e, setting.limit));
    assert [e][1..] == [];
    assert SystemStep(s, LoopOffers, setting) == Some(to);
    hide SystemStep;
    RunNone(to, setting);
    RunStep(s, LoopOffers, to, [], setting, to);
    assert [LoopOffers] + [] == [LoopOffers];
  }

  /** An empty snapshot; then a task is created, and its event, number 1, waits in the queue. */
  lemma QueuedRun(receiver: ReceiverSnapshot, setting: Setting) returns (actions: seq<SystemAction>, e: Envelope, s: System)
    requires setting.limit > 0
    ensures SystemRun(START, actions, setting, s) && !EventQueue.Terminal(e)
    ensures "a" in s.m.tasks && s.workers == map[] && s.loop.Idle? && s.others == [] && |s.history| == 1
    ensures s.queue == [e] && s.ready == [] && s.socket == []
    ensures s.client == Client(DashboardState(Some(AppSnapshot([], receiver)), Online, None), None, true, false, false)
  {
    hide SystemRun;
    hide SystemStep;
    var first, shown := EmptySnapshotRun(receiver, setting);
    var create := DoCreate("a");
    var published := AfterPublishing(shown, create);
    e := Next(shown, TaskLifecycle.Apply(shown.m, create).event.value);
    assert published.ready == [e] && published.queue == [];
    Publish(shown, create, setting);
    s := published.(ready := [], queue := [e]);
    assert "a" in published.m.tasks && published.workers == map[] && published.client == shown.client;
    hide AfterPublishing;
    OfferRun(published, e, setting);
    assert Offered([], e, setting.limit) == [] + [e] == [e];
    RunConcat(shown, Publishes(create), published, [LoopOffers], setting, s);
    RunConcat(START, first, shown, Publishes(create) + [LoopOffers], setting, s);
    actions := first + (Publishes(create) + [LoopOffers]);
  }

  function Failure(error: ErrorPayload): Event { Event(ErrorRaised, ErrorBody(error)) }

  /** A receiver thread publishes an error, which is offered at once. */
  lemma ErrorRun(s: System, error: ErrorPayload, setting: Setting) returns (actions: seq<SystemAction>, to: System)
    requires s.loop.Idle? && s.others == [] && s.ready == []
    ensures SystemRun(s, actions, setting, to)
    ensures to == s.(history := s.history + [Failure(error)], queue := Offered(s.queue, Next(s, Failure(error)), setting.limit))
  {
    hide SystemRun;
    hide Offered;
    var e := Next(s, Failure(error));
    var sent := Outgoing(e, s.connection);
    var numbered := s.(history := s.history + [e.event], others := [sent]);
    var scheduled := numbered.(others := [], ready := [e]);
    to := scheduled.(ready := [], queue := Offered(s.queue, e, setting.limit));
    assert [sent][..0] + [sent][1..] == [] && [] + [e] == [e] && [] + [sent] == [sent];
    assert SystemStep(s, OtherNumbers(e.event), setting) == Some(numbered);
    assert SystemStep(numbered, OtherSchedules(0), setting) == Some(scheduled);
    hide SystemStep;
    OfferRun(scheduled, e, setting);
    RunStep(numbered, OtherSchedules(0), scheduled, [LoopOffers], setting, to);
    RunStep(s, OtherNumbers(e.event), numbered, [OtherSchedules(0)] + [LoopOffers], setting, to);
    actions := [OtherNumbers(e.event)] + ([OtherSchedules(0)] + [LoopOffers]);
  }

  /** The queue holds errors with the numbers from this one on. */
  predicate Failures(queue: seq<Envelope>, first: nat, error: ErrorPayload) {
    forall i :: 0 <= i < |queue| ==> queue[i] == Envelope(first + i, Failure(error))
  }

  /** Errors fill the queue behind the task's event. */
  lemma {:induction false} FillRun(s: System, e: Envelope, k: nat, error: ErrorPayload, setting: Setting)
    returns (actions: seq<SystemAction>, to: System)
    requires s.loop.Idle? && s.others == [] && s.ready == [] && s.queue != [] && s.queue[0] == e && |s.history| == |s.queue|
    requires Failures(s.queue[1..], 2, error) && |s.queue| + k <= setting.limit
    ensures SystemRun(s, actions, setting, to) && to == s.(history := to.history, queue := to.queue)
    ensures |to.queue| == |s.queue| + k == |to.history| && to.queue[0] == e && Failures(to.queue[1..], 2, error)
    decreases k
  {
    hide SystemRun;
    if k == 0 {
      RunNone(s, setting);
      actions, to := [], s;
    } else {
      var one, next := ErrorRun(s, error, setting);
      var more;
      assert next.queue == s.queue + [Next(s, Failure(error))];
      more, to := FillRun(next, e, k - 1, error, setting);
      RunConcat(s, one, next, more, setting, to);
      actions := one + more;
    }
  }

  /** One error more takes the place of the task's event. */
  lemma DisplacedRun(s: System, e: Envelope, error: ErrorPayload, setting: Setting) returns (actions: seq<SystemAction>, to: System)
    requires s.loop.Idle? && s.others == [] && s.ready == [] && s.queue != [] && s.queue[0] == e && !EventQueue.Terminal(e)
    requires |s.history| == |s.queue| == setting.limit && Failures(s.queue[1..], 2, error)
    ensures SystemRun(s, actions, setting, to) && to == s.(history := to.history, queue := to.queue)
    ensures |to.queue| == setting.limit && |to.history| == setting.limit + 1 && Failures(to.queue, 2, error)
  {
    hide SystemRun;
    WithoutAt(s.queue, 0);
    assert s.queue[..0] + s.queue[1..] == s.queue[1..];
    assert EventQueue.Terminal(Next(s, Failure(error)));
    actions, to := ErrorRun(s, error, setting);
  }

  /** The queue is delivered; what the dashboard lists does not change and no gap shows. */
  lemma {:induction false} DrainRun(s: System, first: nat, error: ErrorPayload, setting: Setting) returns (actions: seq<SystemAction>, to: System)
    requires s.loop.Idle? && s.ready == [] && s.socket == [] && first > 0 && Failures(s.queue, first, error)
    requires s.client.view.snapshot.Some? && (s.client.last.None? || s.client.last == Some(first - 1)) && !s.client.stale
    ensures SystemRun(s, actions, setting, to) && to == s.(queue := [], client := to.client)
    ensures to.client == s.client.(view := to.client.view, last := to.client.last)
    ensures Listed(to.client.view) == Listed(s.client.view) && to.client.view.snapshot.Some?
    ensures to.client.last == if s.queue == [] then s.client.last else Some(first + |s.queue| - 1)
    decreases |s.queue|
  {
    hide SystemRun;
    if s.queue == [] {
      RunNone(s, setting);
      actions, to := [], s;
    } else {
      var e := s.queue[0];
      var one, next := DeliveredRun(s, e, setting);
      ErrorShown(s.client, e);
      hide Received;
      assert Failures(next.queue, first + 1, error);
      var more;
      more, to := DrainRun(next, first + 1, error, setting);
      RunConcat(s, one, next, more, setting, to);
      actions := one + more;
    }
  }

  lemma DeliveredRun(s: System, e: Envelope, setting: Setting) returns (actions: seq<SystemAction>, to: System)
    requires s.loop.Idle? && s.queue != [] && s.queue[0] == e && s.socket == []
    ensures SystemRun(s, actions, setting, to) && to == s.(queue := s.queue[1..], client := Received(s.client, e))
  {
    hide SystemRun;
    hide Received;
    var sent := s.(queue := s.queue[1..], socket := [e]);
    to := s.(queue := s.queue[1..], client := Received(s.client, e));
    assert [e][1..] == [] && [] + [e] == [e];
    assert SystemStep(s, HandlerSends, setting) == Some(sent);
    assert SystemStep(sent, ClientReceives, setting) == Some(to);
    hide SystemStep;
    RunNone(to, setting);
    RunStep(sent, ClientReceives, to, [], setting, to);
    RunStep(s, HandlerSends, sent, [ClientReceives] + [], setting, to);
    actions := [HandlerSends] + ([ClientReceives] + []);
  }

  lemma ErrorShown(c: Client, e: Envelope)
    requires e.event.kind.ErrorRaised? && e.event.body.ErrorBody? && c.view.snapshot.Some? && (c.last.None? || c.last == Some(e.number - 1)) && !c.stale
    ensures var after := Received(c, e);
            && after == c.(view := after.view, last := Some(e.number))
            && Listed(after.view) == Listed(c.view) && after.view.snapshot.Some?
  {
    EventShown(c.view, e.event);
  }

  /** A heartbeat with the next number. */
  lemma BeatRun(s: System, setting: Setting) returns (actions: seq<SystemAction>, to: System)
    requires s.loop.Idle? && s.socket == [] && s.client.last == Some(|s.history|) && s.client.view.snapshot.Some?
    ensures SystemRun(s, actions, setting, to) && to == s.(history := s.history + [BEAT], client := to.client)
    ensures to.client == s.client.(view := to.client.view, last := Some(|s.history| + 1))
    ensures Listed(to.client.view) == Listed(s.client.view)
  {
    hide SystemRun;
    var beat := Next(s, BEAT);
    var beating := s.(history := s.history + [BEAT], socket := [beat]);
    to := beating.(socket := [], client := Received(s.client, beat));
    assert [beat][1..] == [] && [] + [beat] == [beat];
    assert SystemStep(s, HandlerBeats, setting) == Some(beating);
    assert SystemStep(beating, ClientReceives, setting) == Some(to);
    hide SystemStep;
    RunNone(to, setting);
    RunStep(beating, ClientReceives, to, [], setting, to);
    RunStep(s, HandlerBeats, beating, [ClientReceives] + [], setting, to);
    actions := [HandlerBeats] + ([ClientReceives] + []);
  }

  /** A drop before the first delivery goes unnoticed, also by the heartbeat, if the snapshot came before that
      delivery, for every queue size: nothing is on its way, no gap was seen, the last number has arrived, and
      the manager has a task that the dashboard does not list. */
  lemma FirstDropHides(receiver: ReceiverSnapshot, error: ErrorPayload, setting: Setting) returns (actions: seq<SystemAction>, to: System)
    requires setting.limit > 0
    ensures SystemRun(START, actions, setting, to) && Drained(to) && AllNumbered(to)
    ensures to.client.refreshed && !to.client.based && !to.client.stale && to.client.last == Some(|to.history|)
    ensures "a" in to.m.tasks && Lookup(Listed(to.client.view), "a") == None
  {
    hide SystemRun;
    var first, e, queued := QueuedRun(receiver, setting);
    var second, full := FillRun(queued, e, setting.limit - 1, error, setting);
    var third, displaced := DisplacedRun(full, e, error, setting);
    var fourth, drained := DrainRun(displaced, 2, error, setting);
    var fifth, beaten := BeatRun(drained, setting);
    to := beaten;
    RunConcat(displaced, fourth, drained, fifth, setting, to);
    RunConcat(full, third, displaced, fourth + fifth, setting, to);
    RunConcat(queued, second, full, third + (fourth + fifth), setting, to);
    RunConcat(START, first, queued, second + (third + (fourth + fifth)), setting, to);
    actions := first + (second + (third + (fourth + fifth)));
  }
}
