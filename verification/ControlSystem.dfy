/** TaskManager, its workers, the event bus, one dashboard's connection and the dashboard, as one system of
    interleaved steps. */
module ControlSystem {
  import opened Results
  import opened ControlTypes
  import opened TaskLifecycle
  import opened EventQueue
  import opened EventSequence
  import opened Dashboard

  /** An event with its number, and the connection whose subscription was open when it got the number. */
  datatype Outgoing = Outgoing(envelope: Envelope, connection: nat)

  /** How far a thread is with an event: the manager has changed and the event is not yet numbered, or it is
      numbered and not yet handed to the loop. */
  datatype Publishing = Idle | Changed(event: Event) | Numbered(out: Outgoing)

  /** The dashboard and the adapter.  last is the adapter's `sequence`; refreshed says that a snapshot came on
      this connection, based that the last snapshot came after some delivery, stale that a gap was seen since
      the last snapshot, so that a refresh is under way or has failed. */
  datatype Client = Client(view: DashboardState, last: Option<nat>, refreshed: bool, based: bool, stale: bool)

  /** m is changed under the manager's lock; loop is the event the loop is publishing, workers holds each
      running send's, others the numbered ones of the receiver's threads.  history are all numbered events,
      that of number n at n - 1; ready are the offers scheduled on the loop, queue the subscription, socket
      what the connection's handler has sent; responses are the answers to cancel requests on their way. */
  datatype System = System(
    m: Tasks, loop: Publishing, workers: map<string, Publishing>, others: seq<Outgoing>, history: seq<Event>,
    connection: nat, ready: seq<Envelope>, queue: seq<Envelope>, socket: seq<Envelope>, client: Client,
    responses: seq<Task>)

  datatype SystemAction =
    | OnLoop(action: TaskAction)
    | LoopNumbers
    | LoopSchedules
    | WorkerProgress(id: string, progress: TransferProgress)
    | WorkerNumbers(id: string)
    | WorkerSchedules(id: string)
    | OtherNumbers(event: Event)
    | OtherSchedules(k: nat)
    | ForeignBeat
    | LoopOffers
    | HandlerSends
    | HandlerBeats
    | ClientReceives
    | ClientRefreshes(snapshot: AppSnapshot)
    | ClientHears(k: nat)
    | Reconnects

  /** queue_size, and whether the dashboard looks at its list before it applies a cancel answer: the source's
      does not. */
  datatype Setting = Setting(limit: nat, guards: bool)

  /** The backend has started and the dashboard has connected. */
  const START := System(EMPTY, Idle, map[], [], [], 0, [], [], [], Client(INITIAL, None, false, false, false), [])

  const BEAT := Event(Heartbeat, NoBody)

  function Current(m: Tasks, id: string): Option<Task> { if id in m.tasks then Some(m.tasks[id]) else None }

  ghost predicate Represents(tasks: seq<Task>, m: Tasks) { forall id :: Lookup(tasks, id) == Current(m, id) }

  /** What the loop may do to a task now: gateway.send ends after its last callback has returned. */
  predicate LoopMay(s: System, a: TaskAction) {
    && s.loop.Idle? && Possible(s.m, a) && !a.DoProgress?
    && (a.DoEnd? ==> a.id in s.workers && s.workers[a.id].Idle?)
  }

  function LoopDoes(s: System, a: TaskAction): System {
    var c := TaskLifecycle.Apply(s.m, a);
    s.(m := c.after, loop := if c.event.Some? then Changed(c.event.value) else Idle,
       workers := if a.DoEnd? then s.workers - {a.id} else s.workers,
       responses := if a.DoCancel? && a.id in c.after.tasks then s.responses + [c.after.tasks[a.id]] else s.responses)
  }

  /** Under the bus's lock. */
  function NumberedBy(s: System, e: Event): Publishing { Numbered(Outgoing(Next(s, e), s.connection)) }

  function Next(s: System, e: Event): Envelope { Envelope(|s.history| + 1, e) }

  /** The offer goes to the subscription that was open when the number was taken. */
  function Scheduled(s: System, out: Outgoing): seq<Envelope> {
    if out.connection == s.connection then s.ready + [out.envelope] else s.ready
  }

  /** run calls gateway.send once it has published task.started. */
  function Running(s: System, e: Event): map<string, Publishing> {
    if e.kind.TaskStarted? && e.body.WholeTask? then s.workers[e.body.task.id := Idle] else s.workers
  }

  function Received(c: Client, e: Envelope): Client {
    c.(view := ApplyEvent(c.view, e.event), last := Some(e.number), stale := c.stale || GapAfter(c.last, e.number))
  }

  function Refreshed(c: Client, snapshot: AppSnapshot): Client {
    c.(view := ApplySnapshot(c.view, snapshot), refreshed := true, based := c.last.Some?, stale := false)
  }

  /** The dashboard treats the answer to a cancel request as an event. */
  function ResponseEvent(task: Task): Event {
    Event(if task.state.Canceled? then TaskCanceled else TaskCanceling, WholeTask(task))
  }

  /** For a task that the cancel has reached, it is the event that the manager has published, too; any other task,
      a finished one included, is announced as cancelling, with its whole snapshot. */
  lemma AnswerAsEvent(m: Tasks, id: string)
    requires id in m.tasks && TasksOk(m) && Cancel(m, id).event.Some?
    ensures ResponseEvent(Cancel(m, id).after.tasks[id]) == Cancel(m, id).event.value
    ensures forall task: Task :: ResponseEvent(task).body == WholeTask(task)
                                 && (ResponseEvent(task).kind == TaskCanceling || WellTyped(ResponseEvent(task)))
  {
  }

  /** What the dashboard can see for itself: the answer does not put a finished task back to unfinished. */
  predicate Guard(view: DashboardState, r: Task) {
    var shown := Lookup(Listed(view), r.id);
    view.snapshot.Some? && shown.Some? && TerminalState(shown.value.state) ==> TerminalState(r.state)
  }

  function Heard(view: DashboardState, r: Task, setting: Setting): DashboardState {
    if setting.guards && !Guard(view, r) then view else ApplyEvent(view, ResponseEvent(r))
  }

  ghost function SystemStep(s: System, a: SystemAction, setting: Setting): Option<System> {
    match a
    case OnLoop(action) => if LoopMay(s, action) then Some(LoopDoes(s, action)) else None
    case LoopNumbers =>
      if !s.loop.Changed? then None
      else Some(s.(loop := NumberedBy(s, s.loop.event), history := s.history + [s.loop.event]))
    case LoopSchedules =>
      if !s.loop.Numbered? then None
      else Some(s.(loop := Idle, ready := Scheduled(s, s.loop.out), workers := Running(s, s.loop.out.envelope.event)))
    case WorkerProgress(id, progress) =>
      if id !in s.workers || !s.workers[id].Idle? then None
      else
        var c := OnProgress(s.m, id, progress);
        Some(s.(m := c.after, workers := if c.event.Some? then s.workers[id := Changed(c.event.value)] else s.workers))
    case WorkerNumbers(id) =>
      if id !in s.workers || !s.workers[id].Changed? then None
      else Some(s.(workers := s.workers[id := NumberedBy(s, s.workers[id].event)], history := s.history + [s.workers[id].event]))
    case WorkerSchedules(id) =>
      if id !in s.workers || !s.workers[id].Numbered? then None
      else Some(s.(ready := Scheduled(s, s.workers[id].out), workers := s.workers[id := Idle]))
    case OtherNumbers(e) =>
      if !WellTyped(e) || !(e.body.ReceiverBody? || e.body.ErrorBody?) then None
      else Some(s.(others := s.others + [Outgoing(Next(s, e), s.connection)], history := s.history + [e]))
    case OtherSchedules(k) =>
      if k >= |s.others| then None
      else Some(s.(ready := Scheduled(s, s.others[k]), others := s.others[..k] + s.others[k + 1..]))
    case ForeignBeat => if !s.loop.Idle? then None else Some(s.(history := s.history + [BEAT]))
    case LoopOffers =>
      if s.ready == [] || !s.loop.Idle? then None
      else Some(s.(queue := Offered(s.queue, s.ready[0], setting.limit), ready := s.ready[1..]))
    case HandlerSends =>
      if s.queue == [] || !s.loop.Idle? then None
      else Some(s.(socket := s.socket + [s.queue[0]], queue := s.queue[1..]))
    case HandlerBeats =>
      if !s.loop.Idle? then None
      else Some(s.(socket := s.socket + [Next(s, BEAT)], history := s.history + [BEAT]))
    case ClientReceives =>
      if s.socket == [] then None
      else Some(s.(socket := s.socket[1..], client := Received(s.client, s.socket[0])))
    case ClientRefreshes(snapshot) =>
      if !s.loop.Idle? || !Represents(snapshot.tasks, s.m) then None
      else Some(s.(client := Refreshed(s.client, snapshot)))
    case ClientHears(k) =>
      if k >= |s.responses| then None
      else Some(s.(responses := s.responses[..k] + s.responses[k + 1..],
                   client := s.client.(view := Heard(s.client.view, s.responses[k], setting))))
    case Reconnects =>
      if !s.loop.Idle? then None
      else Some(s.(connection := s.connection + 1, ready := [], queue := [], socket := [],
                   client := s.client.(refreshed := false)))
  }

  predicate TakesNumber(a: SystemAction) {
    a.LoopNumbers? || a.WorkerNumbers? || a.OtherNumbers? || a.ForeignBeat? || a.HandlerBeats?
  }

  predicate HandsOver(a: SystemAction) { a.LoopSchedules? || a.WorkerSchedules? || a.OtherSchedules? }

  predicate Moves(a: SystemAction) { a.LoopOffers? || a.HandlerSends? || a.Reconnects? }

  predicate AtTheClient(a: SystemAction) { a.ClientReceives? || a.ClientRefreshes? || a.ClientHears? }

  ghost predicate SystemRun(s: System, actions: seq<SystemAction>, setting: Setting, to: System)
    decreases |actions|
  {
    if actions == [] then s == to
    else SystemStep(s, actions[0], setting).Some? && SystemRun(SystemStep(s, actions[0], setting).value, actions[1..], setting, to)
  }

  /** The dashboard looks first, or need not: the answer meets the guard. */
  predicate HeardWell(s: System, a: SystemAction, setting: Setting) {
    a.ClientHears? && a.k < |s.responses| ==> setting.guards || Guard(s.client.view, s.responses[a.k])
  }

  /** Every answer that is applied in a run meets the guard when it is applied. */
  ghost predicate AnswersGuarded(s: System, actions: seq<SystemAction>, setting: Setting)
    decreases |actions|
  {
    actions == [] ||
    ( && HeardWell(s, actions[0], setting) && SystemStep(s, actions[0], setting).Some?
      && AnswersGuarded(SystemStep(s, actions[0], setting).value, actions[1..], setting))
  }

  lemma {:induction false} GuardingIsGuarded(s: System, actions: seq<SystemAction>, setting: Setting, to: System)
    requires setting.guards && SystemRun(s, actions, setting, to)
    ensures AnswersGuarded(s, actions, setting)
    decreases |actions|
  {
    hide SystemStep;
    if actions != [] {
      GuardingIsGuarded(SystemStep(s, actions[0], setting).value, actions[1..], setting, to);
    }
  }

  // ---------- what every step keeps ----------

  /** The event a thread is publishing. */
  function EventOf(p: Publishing): Option<Event> {
    match p
    case Idle => None
    case Changed(e) => Some(e)
    case Numbered(out) => Some(out.envelope.event)
  }

  predicate Recorded(history: seq<Event>, e: Envelope) {
    0 < e.number <= |history| && history[e.number - 1] == e.event
  }

  predicate PublishingOk(history: seq<Event>, p: Publishing) { p.Numbered? ==> Recorded(history, p.out.envelope) }

  /** The loop's event is the task as the manager has it. */
  predicate LoopOk(s: System) {
    && PublishingOk(s.history, s.loop)
    && (s.loop.Numbered? ==> s.loop.out.connection == s.connection)
    && (EventOf(s.loop).Some? ==>
          var e := EventOf(s.loop).value;
          && WellTyped(e) && e.body.WholeTask? && Current(s.m, e.body.task.id) == Some(e.body.task)
          && (e.body.task.state.Running? ==> e.body.task.id !in s.workers)
          && (e.kind.TaskStarted? ==> e.body.task.state.Running?))
  }

  /** A worker's event is the task's progress as the manager has it. */
  predicate WorkerOk(s: System, id: string) {
    id in s.workers ==>
      && id in s.m.tasks && (s.m.tasks[id].state.Running? || s.m.tasks[id].state.Canceling?)
      && PublishingOk(s.history, s.workers[id])
      && (EventOf(s.workers[id]).Some? ==>
            s.m.tasks[id].progress.Some? && EventOf(s.workers[id]).value == Event(ProgressMade, Partial(id, s.m.tasks[id].progress.value)))
  }

  /** What a published event says about a finished task is final. */
  predicate NewsOk(m: Tasks, e: Event) {
    e.body.WholeTask? ==>
      WellTyped(e) && e.body.task.id in m.tasks
      && (TerminalState(e.body.task.state) ==> m.tasks[e.body.task.id] == e.body.task)
  }

  /** An answer is the task as it is, or as it was before it finished. */
  predicate AnswerOk(m: Tasks, r: Task) {
    && r.id in m.tasks && (r.state.Canceling? || TerminalState(r.state))
    && (m.tasks[r.id] == r || (TerminalState(m.tasks[r.id].state) && !TerminalState(r.state)))
  }

  /** A task shown as finished is finished, and just so; an older progress may be shown for a while. */
  predicate ShownOk(m: Tasks, view: DashboardState, id: string) {
    var shown := Lookup(Listed(view), id);
    shown.Some? && TerminalState(shown.value.state) ==>
      id in m.tasks && m.tasks[id].(progress := shown.value.progress) == shown.value
  }

  predicate OtherOk(history: seq<Event>, out: Outgoing) {
    Recorded(history, out.envelope) && Subject(out.envelope.event).None?
  }

  predicate ClientOk(c: Client, history: seq<Event>) {
    && (c.refreshed || c.based ==> c.view.snapshot.Some?)
    && (c.based ==> c.last.Some?)
    && (c.last.Some? ==> c.last.value <= |history|)
  }

  function InFlight(s: System): seq<Envelope> { s.socket + s.queue + s.ready }

  ghost predicate ServerOk(s: System) {
    && TasksOk(s.m) && LoopOk(s)
    && (forall id :: WorkerOk(s, id))
    && (forall o <- s.others :: OtherOk(s.history, o))
    && (forall e <- s.history :: NewsOk(s.m, e))
  }

  ghost predicate ChannelsOk(s: System) {
    && (forall e <- s.socket :: Recorded(s.history, e))
    && (forall e <- s.queue :: Recorded(s.history, e))
    && (forall e <- s.ready :: Recorded(s.history, e))
  }

  ghost predicate DashboardOk(s: System) {
    && (forall r <- s.responses :: AnswerOk(s.m, r))
    && (forall id :: ShownOk(s.m, s.client.view, id))
    && ClientOk(s.client, s.history)
  }

  ghost predicate SystemOk(s: System) { ServerOk(s) && ChannelsOk(s) && DashboardOk(s) }

  // ---------- the manager's changes ----------

  /** Finished tasks stay, cancelling ones stay or finish. */
  ghost predicate Grows(m: Tasks, to: Tasks) {
    forall id :: id in m.tasks ==>
      && id in to.tasks
      && (TerminalState(m.tasks[id].state) ==> to.tasks[id] == m.tasks[id])
      && (m.tasks[id].state.Canceling? ==> to.tasks[id] == m.tasks[id] || TerminalState(to.tasks[id].state))
  }

  lemma ChangeGrows(m: Tasks, a: TaskAction)
    requires Possible(m, a)
    ensures Grows(m, TaskLifecycle.Apply(m, a).after)
  {
  }

  /** What a block of the manager that runs on the loop does, in the terms of the system. */
  lemma LoopChange(m: Tasks, a: TaskAction)
    requires TasksOk(m) && Possible(m, a) && !a.DoProgress?
    ensures var c := TaskLifecycle.Apply(m, a);
            && TasksOk(c.after)
            && (c.event.None? ==> c.after == m)
            && (c.event.Some? ==>
                  var e := c.event.value;
                  && WellTyped(e) && e.body.WholeTask? && e.body.task.id == a.id
                  && c.after.tasks == m.tasks[a.id := e.body.task]
                  && !(a.id in m.tasks && TerminalState(m.tasks[a.id].state))
                  && (e.body.task.state.Running? ==> a.DoBegin? && a.id in m.tasks && m.tasks[a.id].state.Pending?)
                  && (e.kind.TaskStarted? ==> e.body.task.state.Running?)
                  && (a.DoEnd? || !(a.id in m.tasks && (m.tasks[a.id].state.Running? || m.tasks[a.id].state.Canceling?))
                      || e.body.task == m.tasks[a.id].(state := Canceling)))
            && (a.DoCancel? && a.id in c.after.tasks ==>
                  var r := c.after.tasks[a.id]; r.id == a.id && (r.state.Canceling? || TerminalState(r.state)))
  {
    EventIsChange(m, a);
    ChangeKeepsOk(m, a);
    assert EntryOk(m, a.id);
    assert EntryOk(TaskLifecycle.Apply(m, a).after, a.id);
    hide TasksOk;
    hide EntryOk;
  }

  lemma TaskHasItsId(m: Tasks, id: string)
    requires TasksOk(m)
    ensures id in m.tasks ==> m.tasks[id].id == id
  {
    assert EntryOk(m, id);
  }

  lemma GrownNews(m: Tasks, to: Tasks, e: Event)
    requires Grows(m, to) && NewsOk(m, e)
    ensures NewsOk(to, e)
  {
  }

  lemma GrownAnswer(m: Tasks, to: Tasks, r: Task)
    requires Grows(m, to) && AnswerOk(m, r)
    ensures AnswerOk(to, r)
  {
  }

  lemma GrownShown(m: Tasks, to: Tasks, view: DashboardState, id: string)
    requires Grows(m, to) && ShownOk(m, view, id)
    ensures ShownOk(to, view, id)
  {
    hide Lookup;
  }

  // ---------- one step ----------

  lemma LoopKeepsOk(s: System, a: TaskAction)
    requires SystemOk(s) && LoopMay(s, a)
    ensures SystemOk(LoopDoes(s, a))
  {
    hide TasksOk;
    hide Lookup;
    hide Grows;
    hide NewsOk;
    hide AnswerOk;
    hide ShownOk;
    var c := TaskLifecycle.Apply(s.m, a);
    LoopChange(s.m, a);
    ChangeGrows(s.m, a);
    hide TaskLifecycle.Apply;
    var after := LoopDoes(s, a);
    assert WorkerOk(s, a.id);
    forall id
      ensures WorkerOk(after, id)
    {
      assert WorkerOk(s, id);
    }
    Grown(s, after);
    if a.DoCancel? && a.id in c.after.tasks {
      NewAnswer(c.after, a.id);
    }
  }

  lemma NewAnswer(m: Tasks, id: string)
    requires id in m.tasks && m.tasks[id].id == id && (m.tasks[id].state.Canceling? || TerminalState(m.tasks[id].state))
    ensures AnswerOk(m, m.tasks[id])
  {
  }

  lemma Grown(s: System, after: System)
    requires Grows(s.m, after.m) && SystemOk(s) && after.history == s.history
    ensures forall e <- s.history :: NewsOk(after.m, e)
    ensures forall r <- s.responses :: AnswerOk(after.m, r)
    ensures forall id :: ShownOk(after.m, s.client.view, id)
  {
    hide NewsOk;
    hide AnswerOk;
    hide ShownOk;
    hide Grows;
    forall e | e in s.history
      ensures NewsOk(after.m, e)
    {
      GrownNews(s.m, after.m, e);
    }
    forall r | r in s.responses
      ensures AnswerOk(after.m, r)
    {
      GrownAnswer(s.m, after.m, r);
    }
    forall id
      ensures ShownOk(after.m, s.client.view, id)
    {
      GrownShown(s.m, after.m, s.client.view, id);
    }
  }

  lemma WorkerKeepsOk(s: System, id: string, progress: TransferProgress, setting: Setting)
    requires SystemOk(s) && SystemStep(s, WorkerProgress(id, progress), setting).Some?
    ensures SystemOk(SystemStep(s, WorkerProgress(id, progress), setting).value)
  {
    hide Lookup;
    hide Grows;
    hide NewsOk;
    hide AnswerOk;
    hide ShownOk;
    var a := DoProgress(id, progress);
    ChangeKeepsOk(s.m, a);
    ChangeGrows(s.m, a);
    hide TasksOk;
    var after := SystemStep(s, WorkerProgress(id, progress), setting).value;
    assert WorkerOk(s, id);
    forall other
      ensures WorkerOk(after, other)
    {
      assert WorkerOk(s, other);
    }
    Grown(s, after);
  }

  /** A new number changes nothing that the older ones mean. */
  lemma RecordedStill(history: seq<Event>, e: Event, x: Envelope)
    ensures Recorded(history, x) ==> Recorded(history + [e], x)
    ensures Recorded(history + [e], Envelope(|history| + 1, e))
  {
  }

  /** What a step that only takes a number leaves as it was. */
  lemma NumberingKeeps(s: System, e: Event)
    requires SystemOk(s) && NewsOk(s.m, e)
    ensures SystemOk(s.(history := s.history + [e]))
  {
    hide TasksOk;
    hide Lookup;
    hide Recorded;
    hide NewsOk;
    hide AnswerOk;
    hide ShownOk;
    var after := s.(history := s.history + [e]);
    forall x: Envelope
      ensures Recorded(s.history, x) ==> Recorded(after.history, x)
    {
      RecordedStill(s.history, e, x);
    }
    forall id
      ensures WorkerOk(after, id)
    {
      assert WorkerOk(s, id);
    }
  }

  lemma NumbersKeepsOk(s: System, a: SystemAction, setting: Setting)
    requires TakesNumber(a)
    requires SystemOk(s) && SystemStep(s, a, setting).Some?
    ensures SystemOk(SystemStep(s, a, setting).value)
  {
    hide TasksOk;
    hide Lookup;
    hide AnswerOk;
    hide ShownOk;
    var after := SystemStep(s, a, setting).value;
    var e := after.history[|s.history|];
    if a.WorkerNumbers? {
      assert WorkerOk(s, a.id);
    }
    assert NewsOk(s.m, e);
    NumberingKeeps(s, e);
    hide NewsOk;
    RecordedStill(s.history, e, Next(s, e));
    hide Recorded;
    var base := s.(history := s.history + [e]);
    forall id
      ensures WorkerOk(after, id)
    {
      assert WorkerOk(base, id);
    }
  }

  lemma SchedulesKeepsOk(s: System, a: SystemAction, setting: Setting)
    requires HandsOver(a)
    requires SystemOk(s) && SystemStep(s, a, setting).Some?
    ensures SystemOk(SystemStep(s, a, setting).value)
  {
    hide TasksOk;
    hide Lookup;
    hide AnswerOk;
    hide ShownOk;
    hide NewsOk;
    hide Recorded;
    hide ClientOk;
    var after := SystemStep(s, a, setting).value;
    if a.WorkerSchedules? {
      assert WorkerOk(s, a.id);
      assert Recorded(s.history, s.workers[a.id].out.envelope);
    } else if a.OtherSchedules? {
      assert OtherOk(s.history, s.others[a.k]);
    }
    forall id
      ensures WorkerOk(after, id)
    {
      assert WorkerOk(s, id);
    }
    assert ServerOk(after);
  }

  lemma QueueKeepsOk(s: System, a: SystemAction, setting: Setting)
    requires Moves(a)
    requires SystemOk(s) && SystemStep(s, a, setting).Some?
    ensures SystemOk(SystemStep(s, a, setting).value)
  {
    hide TasksOk;
    hide Lookup;
    hide AnswerOk;
    hide ShownOk;
    hide NewsOk;
    hide Recorded;
    hide Offered;
    var after := SystemStep(s, a, setting).value;
    if a.LoopOffers? {
      OfferedFrom(s.queue, s.ready[0], setting.limit);
    }
    forall id
      ensures WorkerOk(after, id)
    {
      assert WorkerOk(s, id);
    }
  }

  /** What happens at the dashboard leaves the backend as it is. */
  lemma BackendAlone(s: System, after: System)
    requires ServerOk(s) && ChannelsOk(s)
    requires after.(socket := s.socket, client := s.client, responses := s.responses) == s
    requires forall e <- after.socket :: e in s.socket
    ensures ServerOk(after) && ChannelsOk(after)
  {
    hide TasksOk;
    hide NewsOk;
    hide Recorded;
    forall id
      ensures WorkerOk(after, id)
    {
      assert WorkerOk(s, id);
    }
  }

  lemma ReceiveKeepsOk(s: System, setting: Setting)
    requires SystemOk(s) && s.socket != []
    ensures SystemOk(SystemStep(s, ClientReceives, setting).value)
  {
    var after := SystemStep(s, ClientReceives, setting).value;
    BackendAlone(s, after);
    var e := s.socket[0];
    HistoryNews(s, e);
    hide ServerOk;
    hide Lookup;
    hide ApplyEvent;
    assert Recorded(s.history, e);
    forall id
      ensures ShownOk(s.m, after.client.view, id)
    {
      assert ShownOk(s.m, s.client.view, id);
      ShowsNews(s.m, s.client.view, e.event, id);
    }
    EventShown(s.client.view, e.event);
  }

  lemma RefreshKeepsOk(s: System, snapshot: AppSnapshot, setting: Setting)
    requires SystemOk(s) && SystemStep(s, ClientRefreshes(snapshot), setting).Some?
    ensures SystemOk(SystemStep(s, ClientRefreshes(snapshot), setting).value)
  {
    var after := SystemStep(s, ClientRefreshes(snapshot), setting).value;
    BackendAlone(s, after);
    hide ServerOk;
    hide Lookup;
    forall id
      ensures ShownOk(s.m, after.client.view, id)
    {
      assert Lookup(snapshot.tasks, id) == Current(s.m, id);
    }
  }

  lemma HearKeepsOk(s: System, k: nat, setting: Setting)
    requires SystemOk(s) && k < |s.responses|
    ensures SystemOk(SystemStep(s, ClientHears(k), setting).value)
  {
    var after := SystemStep(s, ClientHears(k), setting).value;
    BackendAlone(s, after);
    var r := s.responses[k];
    hide ServerOk;
    hide Lookup;
    hide ApplyEvent;
    hide Guard;
    assert AnswerOk(s.m, r);
    forall id
      ensures ShownOk(s.m, after.client.view, id)
    {
      assert ShownOk(s.m, s.client.view, id);
      AnswerIsNews(s.m, r);
      ShowsNews(s.m, s.client.view, ResponseEvent(r), id);
    }
    EventShown(s.client.view, ResponseEvent(r));
  }

  lemma HistoryNews(s: System, e: Envelope)
    requires ServerOk(s) && Recorded(s.history, e)
    ensures NewsOk(s.m, e.event)
  {
  }

  /** What an answer says about a finished task is final. */
  lemma AnswerIsNews(m: Tasks, r: Task)
    requires AnswerOk(m, r)
    ensures TerminalState(r.state) ==> m.tasks[r.id] == r
  {
  }

  lemma ShowsNews(m: Tasks, view: DashboardState, e: Event, id: string)
    requires ShownOk(m, view, id)
    requires e.body.WholeTask? && TerminalState(e.body.task.state) ==> Current(m, e.body.task.id) == Some(e.body.task)
    ensures ShownOk(m, ApplyEvent(view, e), id)
  {
    EventShown(view, e);
    hide ApplyEvent;
    hide ApplyToTasks;
    ApplyLookup(Listed(view), e, id);
    assert view.snapshot.None? ==> Listed(ApplyEvent(view, e)) == [];
  }

  lemma StepKeepsOk(s: System, a: SystemAction, setting: Setting)
    requires SystemOk(s) && SystemStep(s, a, setting).Some?
    ensures SystemOk(SystemStep(s, a, setting).value)
  {
    hide SystemOk;
    match a
    case OnLoop(action) => LoopKeepsOk(s, action);
    case WorkerProgress(id, progress) => WorkerKeepsOk(s, id, progress, setting);
    case ClientReceives => ReceiveKeepsOk(s, setting);
    case ClientRefreshes(snapshot) => RefreshKeepsOk(s, snapshot, setting);
    case ClientHears(k) => HearKeepsOk(s, k, setting);
    case _ =>
      if TakesNumber(a) {
        NumbersKeepsOk(s, a, setting);
      } else if HandsOver(a) {
        SchedulesKeepsOk(s, a, setting);
      } else {
        QueueKeepsOk(s, a, setting);
      }
  }

  lemma StartOk()
    ensures SystemOk(START)
  {
  }

  /** Over every run, guarded or not: what is published, sent and shown agrees with the manager. */
  lemma {:induction false} RunKeepsOk(s: System, actions: seq<SystemAction>, setting: Setting, to: System)
    requires SystemOk(s) && SystemRun(s, actions, setting, to)
    ensures SystemOk(to)
    decreases |actions|
  {
    hide SystemOk;
    hide SystemStep;
    if actions != [] {
      StepKeepsOk(s, actions[0], setting);
      RunKeepsOk(SystemStep(s, actions[0], setting).value, actions[1..], setting, to);
    }
  }

  // ---------- putting runs together ----------

  lemma RunStep(s: System, a: SystemAction, next: System, actions: seq<SystemAction>, setting: Setting, to: System)
    requires SystemStep(s, a, setting) == Some(next) && SystemRun(next, actions, setting, to)
    ensures SystemRun(s, [a] + actions, setting, to)
  {
    hide SystemStep;
    assert ([a] + actions)[1..] == actions;
  }

  lemma {:induction false} RunConcat(s: System, first: seq<SystemAction>, mid: System, second: seq<SystemAction>, setting: Setting, to: System)
    requires SystemRun(s, first, setting, mid) && SystemRun(mid, second, setting, to)
    ensures SystemRun(s, first + second, setting, to)
    decreases |first|
  {
    hide SystemStep;
    if first == [] {
      assert first + second == second;
    } else {
      RunConcat(SystemStep(s, first[0], setting).value, first[1..], mid, second, setting, to);
      assert (first + second)[1..] == first[1..] + second;
    }
  }

  /** Nothing is on its way to the dashboard. */
  predicate Drained(s: System) { s.loop.Idle? && InFlight(s) == [] }

  const DELIVERY := [LoopOffers, HandlerSends, ClientReceives]

  /** The only offer in flight reaches the dashboard. */
  lemma Deliver(s: System, e: Envelope, setting: Setting)
    requires s.loop.Idle? && s.ready == [e] && s.queue == [] && s.socket == [] && setting.limit > 0
    ensures SystemRun(s, DELIVERY, setting, s.(ready := [], client := Received(s.client, e)))
  {
    hide SystemRun;
    hide Received;
    var queued := s.(ready := [], queue := [e]);
    var sent := s.(ready := [], socket := [e]);
    var to := s.(ready := [], client := Received(s.client, e));
    assert [e][1..] == [];
    RunNone(to, setting);
    RunStep(sent, ClientReceives, to, [], setting, to);
    assert [ClientReceives] + [] == [ClientReceives];
    assert queued.socket + [e] == [e];
    RunStep(queued, HandlerSends, sent, [ClientReceives], setting, to);
    assert [HandlerSends] + [ClientReceives] == [HandlerSends, ClientReceives];
    RunStep(s, LoopOffers, queued, [HandlerSends, ClientReceives], setting, to);
    assert [LoopOffers] + [HandlerSends, ClientReceives] == DELIVERY;
  }

  function AfterPublishing(s: System, a: TaskAction): System
    requires TaskLifecycle.Apply(s.m, a).event.Some?
  {
    var e := TaskLifecycle.Apply(s.m, a).event.value;
    var done := LoopDoes(s, a);
    done.(loop := Idle, history := s.history + [e], workers := Running(done, e), ready := s.ready + [Next(s, e)])
  }

  function Publishes(a: TaskAction): seq<SystemAction> { [OnLoop(a), LoopNumbers, LoopSchedules] }

  lemma Publish(s: System, a: TaskAction, setting: Setting)
    requires LoopMay(s, a) && TaskLifecycle.Apply(s.m, a).event.Some?
    ensures SystemRun(s, Publishes(a), setting, AfterPublishing(s, a))
  {
    var e := TaskLifecycle.Apply(s.m, a).event.value;
    hide TaskLifecycle.Apply;
    hide SystemRun;
    hide Running;
    var changed := LoopDoes(s, a);
    var out := Outgoing(Next(s, e), s.connection);
    var numbered := changed.(loop := Numbered(out), history := s.history + [e]);
    var to := AfterPublishing(s, a);
    RunNone(to, setting);
    assert Running(numbered, e) == Running(changed, e) by { RunningAlike(numbered, changed, e); }
    RunStep(numbered, LoopSchedules, to, [], setting, to);
    assert [LoopSchedules] + [] == [LoopSchedules];
    RunStep(changed, LoopNumbers, numbered, [LoopSchedules], setting, to);
    assert [LoopNumbers] + [LoopSchedules] == [LoopNumbers, LoopSchedules];
    RunStep(s, OnLoop(a), changed, [LoopNumbers, LoopSchedules], setting, to);
    assert [OnLoop(a)] + [LoopNumbers, LoopSchedules] == Publishes(a);
  }

  lemma RunningAlike(s: System, t: System, e: Event)
    requires s.workers == t.workers
    ensures Running(s, e) == Running(t, e)
  {
  }

  /** A block of the manager whose event reaches the dashboard at once. */
  function AfterRound(s: System, a: TaskAction): System
    requires TaskLifecycle.Apply(s.m, a).event.Some?
  {
    var e := TaskLifecycle.Apply(s.m, a).event.value;
    AfterPublishing(s, a).(ready := [], client := Received(s.client, Next(s, e)))
  }

  lemma Round(s: System, a: TaskAction, setting: Setting)
    requires Drained(s) && setting.limit > 0 && LoopMay(s, a) && TaskLifecycle.Apply(s.m, a).event.Some?
    ensures SystemRun(s, Publishes(a) + DELIVERY, setting, AfterRound(s, a))
    ensures Drained(AfterRound(s, a))
  {
    hide TaskLifecycle.Apply;
    hide SystemRun;
    hide Received;
    assert s.ready == [] && s.queue == [] && s.socket == [] by { assert |InFlight(s)| == |s.socket| + |s.queue| + |s.ready|; }
    var e := TaskLifecycle.Apply(s.m, a).event.value;
    Publish(s, a, setting);
    Deliver(AfterPublishing(s, a), Next(s, e), setting);
    RunConcat(s, Publishes(a), AfterPublishing(s, a), DELIVERY, setting, AfterRound(s, a));
  }

  lemma RunNone(s: System, setting: Setting)
    ensures SystemRun(s, [], setting, s)
  {
  }

  // ---------- what a new subscription gets ----------

  /** Taken on this connection or an earlier one; if on this one, with a number beyond n. */
  predicate OutOk(out: Outgoing, connection: nat, n: nat) {
    out.connection <= connection && (out.connection == connection ==> out.envelope.number > n)
  }

  predicate PublishesOk(p: Publishing, connection: nat, n: nat) { p.Numbered? ==> OutOk(p.out, connection, n) }

  ghost predicate OutgoingOk(s: System, n: nat) {
    && PublishesOk(s.loop, s.connection, n)
    && (forall id <- s.workers :: PublishesOk(s.workers[id], s.connection, n))
    && (forall o <- s.others :: OutOk(o, s.connection, n))
  }

  predicate OnlyAfter(s: System, n: nat) {
    && |s.history| >= n
    && (forall e <- s.ready :: e.number > n) && (forall e <- s.queue :: e.number > n) && (forall e <- s.socket :: e.number > n)
  }

  lemma StepHoldsNew(s: System, a: SystemAction, setting: Setting, n: nat)
    requires OutgoingOk(s, n) && |s.history| >= n && SystemStep(s, a, setting).Some? && !a.Reconnects?
    ensures var t := SystemStep(s, a, setting).value;
            OutgoingOk(t, n) && t.connection == s.connection && |t.history| >= n
  {
    hide TaskLifecycle.Apply;
    hide OnProgress;
    hide Received;
    hide Refreshed;
    hide Heard;
    hide Offered;
    hide Represents;
    hide Scheduled;
    var t := SystemStep(s, a, setting).value;
    if a.OtherNumbers? {
      assert forall o <- t.others :: o in s.others || o == Outgoing(Next(s, a.event), s.connection);
    }
    if a.OtherSchedules? {
      assert forall o <- t.others :: o in s.others;
    }
  }

  lemma StepDeliversNew(s: System, a: SystemAction, setting: Setting, n: nat)
    requires OutgoingOk(s, n) && OnlyAfter(s, n) && SystemStep(s, a, setting).Some? && !a.Reconnects?
    ensures OnlyAfter(SystemStep(s, a, setting).value, n)
  {
    hide TaskLifecycle.Apply;
    hide OnProgress;
    hide Received;
    hide Refreshed;
    hide Heard;
    hide Offered;
    hide Represents;
    hide Running;
    if a.LoopOffers? {
      OfferedFrom(s.queue, s.ready[0], setting.limit);
    }
    if a.OtherSchedules? {
      assert s.others[a.k] in s.others;
    }
  }

  lemma StepSubscribes(s: System, a: SystemAction, setting: Setting, n: nat)
    requires OutgoingOk(s, n) && OnlyAfter(s, n) && SystemStep(s, a, setting).Some? && !a.Reconnects?
    ensures var t := SystemStep(s, a, setting).value;
            OutgoingOk(t, n) && OnlyAfter(t, n) && t.connection == s.connection
  {
    hide SystemStep;
    hide OutgoingOk;
    StepHoldsNew(s, a, setting, n);
    StepDeliversNew(s, a, setting, n);
  }

  lemma {:induction false} RunSubscribes(s: System, actions: seq<SystemAction>, setting: Setting, to: System, n: nat)
    requires OutgoingOk(s, n) && OnlyAfter(s, n) && SystemRun(s, actions, setting, to) && forall a <- actions :: !a.Reconnects?
    ensures OnlyAfter(to, n)
    decreases |actions|
  {
    hide SystemStep;
    hide OutgoingOk;
    hide OnlyAfter;
    if actions != [] {
      assert actions[0] in actions;
      StepSubscribes(s, actions[0], setting, n);
      RunSubscribes(SystemStep(s, actions[0], setting).value, actions[1..], setting, to, n);
    }
  }

  /** No thread holds an event for a connection that is yet to come. */
  ghost predicate NoneAhead(s: System) {
    && (s.loop.Numbered? ==> s.loop.out.connection <= s.connection)
    && (forall id <- s.workers :: s.workers[id].Numbered? ==> s.workers[id].out.connection <= s.connection)
    && (forall o <- s.others :: o.connection <= s.connection)
  }

  lemma StepNotAhead(s: System, a: SystemAction, setting: Setting)
    requires NoneAhead(s) && SystemStep(s, a, setting).Some?
    ensures NoneAhead(SystemStep(s, a, setting).value)
  {
    hide TaskLifecycle.Apply;
    hide OnProgress;
    hide ApplyEvent;
    hide ApplySnapshot;
    hide Heard;
    hide Offered;
    hide Represents;
    var t := SystemStep(s, a, setting).value;
    if a.OtherNumbers? {
      assert forall o <- t.others :: o in s.others || o == Outgoing(Next(s, a.event), s.connection);
    }
    if a.OtherSchedules? {
      assert forall o <- t.others :: o in s.others;
    }
  }

  lemma {:induction false} RunNotAhead(s: System, actions: seq<SystemAction>, setting: Setting, to: System)
    requires NoneAhead(s) && SystemRun(s, actions, setting, to)
    ensures NoneAhead(to)
    decreases |actions|
  {
    hide SystemStep;
    hide NoneAhead;
    if actions != [] {
      StepNotAhead(s, actions[0], setting);
      RunNotAhead(SystemStep(s, actions[0], setting).value, actions[1..], setting, to);
    }
  }

  lemma Reconnected(s: System, setting: Setting)
    requires NoneAhead(s) && SystemStep(s, Reconnects, setting).Some?
    ensures OutgoingOk(SystemStep(s, Reconnects, setting).value, |s.history|)
    ensures OnlyAfter(SystemStep(s, Reconnects, setting).value, |s.history|)
  {
  }

  /** A subscription gets only what was numbered after it was opened: an event that a thread still held from
      before goes to the subscription that was open when it took its number. */
  lemma NewSubscription(before: seq<SystemAction>, s: System, after: seq<SystemAction>, setting: Setting, to: System)
    requires SystemRun(START, before, setting, s) && SystemStep(s, Reconnects, setting).Some?
    requires SystemRun(SystemStep(s, Reconnects, setting).value, after, setting, to) && forall a <- after :: !a.Reconnects?
    ensures forall e <- InFlight(to) :: e.number > |s.history|
  {
    RunNotAhead(START, before, setting, s);
    Reconnected(s, setting);
    RunSubscribes(SystemStep(s, Reconnects, setting).value, after, setting, to, |s.history|);
    hide SystemStep;
    hide SystemRun;
    assert forall e <- InFlight(to) :: e in to.socket || e in to.queue || e in to.ready;
  }
}
