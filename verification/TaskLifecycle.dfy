/** TaskManager: the send tasks, their cancel flags, and the event each change publishes. */
module TaskLifecycle {
  import opened Results
  import opened ControlTypes

  /** _tasks and _cancel_events. */
  datatype Tasks = Tasks(tasks: map<string, Task>, cancelled: map<string, bool>)

  /** The state after a change and the event it publishes, if it is one. */
  datatype Change = Change(after: Tasks, event: Option<Event>)

  function NoChange(m: Tasks): Change { Change(m, None) }

  function Put(m: Tasks, id: string, task: Task, kind: EventType): Change {
    Change(m.(tasks := m.tasks[id := task]), Some(Event(kind, WholeTask(task))))
  }

  // ---------- the atomic blocks ----------

  function Create(m: Tasks, id: string): Change {
    var task := Task(id, Pending, false, false, None, None);
    Change(Tasks(m.tasks[id := task], m.cancelled[id := false]), Some(Event(TaskCreated, WholeTask(task))))
  }

  /** run up to the call of gateway.send, which follows exactly when there is an event. */
  function Begin(m: Tasks, id: string): Change {
    if id !in m.tasks || !m.tasks[id].state.Pending? then NoChange(m)
    else Put(m, id, m.tasks[id].(state := Running, started := true), TaskStarted)
  }

  function OnProgress(m: Tasks, id: string, progress: TransferProgress): Change {
    if id !in m.tasks || !m.tasks[id].state.Running? then NoChange(m)
    else Change(m.(tasks := m.tasks[id := m.tasks[id].(progress := Some(progress))]),
                Some(Event(ProgressMade, Partial(id, progress))))
  }

  /** How gateway.send ends. */
  datatype Outcome =
    | Sent(totalBytes: nat)
    | GatewayError(error: ErrorPayload)
    | OtherError(message: string)

  function FinalProgress(progress: Option<TransferProgress>, totalBytes: nat): Option<TransferProgress> {
    if progress.None? || totalBytes == 0 then progress
    else Some(progress.value.(currentFileBytes := totalBytes, currentFileTotalBytes := totalBytes,
                              totalBytes := Some(totalBytes), transferredBytes := Some(totalBytes)))
  }

  function End(m: Tasks, id: string, outcome: Outcome): Change {
    if id !in m.tasks || !(m.tasks[id].state.Running? || m.tasks[id].state.Canceling?) then NoChange(m)
    else
      var task := m.tasks[id];
      match outcome
      case GatewayError(error) =>
        if error.code == "CANCELLED" then Put(m, id, task.(state := Canceled, error := None, finished := true), TaskCanceled)
        else Put(m, id, task.(state := Failed, error := Some(error), finished := true), TaskFailed)
      case OtherError(message) =>
        Put(m, id, task.(state := Failed, error := Some(ErrorPayload("INTERNAL_ERROR", message)), finished := true), TaskFailed)
      case Sent(totalBytes) =>
        var progress := if task.state.Running? then FinalProgress(task.progress, totalBytes) else task.progress;
        Put(m, id, task.(state := Completed, progress := progress, finished := true), TaskCompleted)
  }

  function Cancel(m: Tasks, id: string): Change {
    if id !in m.tasks || !(m.tasks[id].state.Pending? || m.tasks[id].state.Running?) then NoChange(m)
    else
      var flagged := m.(cancelled := m.cancelled[id := true]);
      if m.tasks[id].state.Running? then Put(flagged, id, m.tasks[id].(state := Canceling), TaskCanceling)
      else Put(flagged, id, m.tasks[id].(state := Canceled, finished := true), TaskCanceled)
  }

  /** gateway.send is under way for this task. */
  predicate Live(tasks: map<string, Task>, id: string) {
    id in tasks && (tasks[id].state.Running? || tasks[id].state.Canceling?)
  }

  /** How a task ends, field by field: CANCELED only on the native code for it, COMPLETED whenever gateway.send
      returns, FAILED with the very error otherwise; and the final byte counts. */
  predicate EndedAs(before: Task, outcome: Outcome, after: Task) {
    && after.id == before.id && after.started == before.started && after.finished
    && (after.state.Canceled? <==> outcome.GatewayError? && outcome.error.code == "CANCELLED")
    && (after.state.Completed? <==> outcome.Sent?)
    && (after.state.Failed? <==> outcome.OtherError? || (outcome.GatewayError? && outcome.error.code != "CANCELLED"))
    && (after.state.Canceled? ==> after.error.None?)
    && (after.state.Completed? ==> after.error == before.error)
    && (after.state.Failed? ==>
          after.error == Some(if outcome.GatewayError? then outcome.error else ErrorPayload("INTERNAL_ERROR", outcome.message)))
    && (after.progress.Some? <==> before.progress.Some?)
    && (after.progress.Some? ==>
          var was, now := before.progress.value, after.progress.value;
          if outcome.Sent? && before.state.Running? && outcome.totalBytes > 0 then
            && now.currentFileBytes == now.currentFileTotalBytes == outcome.totalBytes
            && now.totalBytes == now.transferredBytes == Some(outcome.totalBytes)
            && now.fileIndex == was.fileIndex && now.fileCount == was.fileCount && now.relativePath == was.relativePath
          else now == was)
  }

  // ---------- the manager ----------

  class TaskManager {
    var tasks: map<string, Task>
    var cancelled: map<string, bool>
    /** What has been handed to the event bus, oldest first. */
    var published: seq<Event>

    constructor ()
      ensures tasks == map[] && cancelled == map[] && published == []
    {
      tasks, cancelled, published := map[], map[], [];
    }

    function State(): Tasks
      reads this
    {
      Tasks(tasks, cancelled)
    }

    method Publish(kind: EventType, body: EventBody)
      modifies this`published
      ensures published == old(published) + [Event(kind, body)]
    {
      published := published + [Event(kind, body)];
    }

    method CreateTask(id: string) returns (created: Task)
      modifies this
      ensures State() == old(Create(State(), id)).after && created == tasks[id]
      ensures published == old(published) + [old(Create(State(), id)).event.value]
      ensures tasks == old(tasks)[id := created] && cancelled == old(cancelled)[id := false]
      ensures created.id == id && created.state.Pending? && !created.started && !created.finished
      ensures created.progress.None? && created.error.None?
      ensures published == old(published) + [Event(TaskCreated, WholeTask(created))]
    {
      created := Task(id, Pending, false, false, None, None);
      tasks := tasks[id := created];
      cancelled := cancelled[id := false];
      Publish(TaskCreated, WholeTask(created));
    }

    /** run until gateway.send is called; goesOn says whether it is. */
    method RunBegin(id: string) returns (goesOn: bool)
      modifies this
      ensures var c := old(Begin(State(), id));
              && State() == c.after && goesOn == c.event.Some?
              && published == old(published) + (if goesOn then [c.event.value] else [])
      ensures cancelled == old(cancelled)
      ensures goesOn <==> id in old(tasks) && old(tasks)[id].state.Pending?
      ensures !goesOn ==> tasks == old(tasks) && published == old(published)
      ensures goesOn ==>
                && tasks == old(tasks)[id := old(tasks)[id].(state := Running, started := true)]
                && published == old(published) + [Event(TaskStarted, WholeTask(tasks[id]))]
    {
      if id !in tasks || tasks[id].state != Pending {
        return false;
      }
      var running := tasks[id].(state := Running, started := true);
      tasks := tasks[id := running];
      Publish(TaskStarted, WholeTask(running));
      return true;
    }

    method Progress(id: string, progress: TransferProgress)
      modifies this
      ensures var c := old(OnProgress(State(), id, progress));
              && State() == c.after
              && published == old(published) + (if c.event.Some? then [c.event.value] else [])
      ensures cancelled == old(cancelled)
      ensures if id in old(tasks) && old(tasks)[id].state.Running? then
                && tasks == old(tasks)[id := old(tasks)[id].(progress := Some(progress))]
                && published == old(published) + [Event(ProgressMade, Partial(id, progress))]
              else tasks == old(tasks) && published == old(published)
    {
      if id in tasks && tasks[id].state == Running {
        tasks := tasks[id := tasks[id].(progress := Some(progress))];
        Publish(ProgressMade, Partial(id, progress));
      }
    }

    /** run after gateway.send has returned or raised. */
    method RunEnd(id: string, outcome: Outcome)
      modifies this
      ensures var c := old(End(State(), id, outcome));
              && State() == c.after
              && published == old(published) + (if c.event.Some? then [c.event.value] else [])
      ensures cancelled == old(cancelled)
      ensures !old(Live(tasks, id)) ==> tasks == old(tasks) && published == old(published)
      ensures old(Live(tasks, id)) ==>
                && id in tasks && tasks == old(tasks)[id := tasks[id]]
                && EndedAs(old(tasks)[id], outcome, tasks[id])
                && published == old(published) + [Event(KindOf(tasks[id].state), WholeTask(tasks[id]))]
    {
      if id !in tasks || (tasks[id].state != Running && tasks[id].state != Canceling) {
        return;
      }
      var current := tasks[id];
      match outcome {
        case GatewayError(error) =>
          var cancelledByNative := error.code == "CANCELLED";
          var ended := current.(state := if cancelledByNative then Canceled else Failed,
                                error := if cancelledByNative then None else Some(error), finished := true);
          tasks := tasks[id := ended];
          Publish(if ended.state == Canceled then TaskCanceled else TaskFailed, WholeTask(ended));
        case OtherError(message) =>
          var ended := current.(state := Failed, error := Some(ErrorPayload("INTERNAL_ERROR", message)), finished := true);
          tasks := tasks[id := ended];
          Publish(TaskFailed, WholeTask(ended));
        case Sent(totalBytes) =>
          var progress := current.progress;
          if current.state == Running && progress.Some? && totalBytes > 0 {
            progress := Some(progress.value.(currentFileBytes := totalBytes, currentFileTotalBytes := totalBytes,
                                             totalBytes := Some(totalBytes), transferredBytes := Some(totalBytes)));
          }
          var ended := current.(state := Completed, progress := progress, finished := true);
          tasks := tasks[id := ended];
          Publish(TaskCompleted, WholeTask(ended));
      }
    }

    method CancelTask(id: string) returns (task: Option<Task>)
      modifies this
      ensures var c := old(Cancel(State(), id));
              && State() == c.after
              && published == old(published) + (if c.event.Some? then [c.event.value] else [])
              && task == (if id in tasks then Some(tasks[id]) else None)
      ensures id !in old(tasks) || !(old(tasks)[id].state.Pending? || old(tasks)[id].state.Running?) ==>
                tasks == old(tasks) && cancelled == old(cancelled) && published == old(published)
      ensures id in old(tasks) && (old(tasks)[id].state.Pending? || old(tasks)[id].state.Running?) ==>
                && id in tasks && tasks == old(tasks)[id := tasks[id]] && cancelled == old(cancelled)[id := true]
                && tasks[id] == (if old(tasks)[id].state.Pending? then old(tasks)[id].(state := Canceled, finished := true)
                                 else old(tasks)[id].(state := Canceling))
                && published == old(published) + [Event(KindOf(tasks[id].state), WholeTask(tasks[id]))]
    {
      if id !in tasks {
        return None;
      }
      if tasks[id].state != Pending && tasks[id].state != Running {
        return Some(tasks[id]);
      }
      cancelled := cancelled[id := true];
      var updated := if tasks[id].state == Running then tasks[id].(state := Canceling)
                     else tasks[id].(state := Canceled, finished := true);
      tasks := tasks[id := updated];
      Publish(if updated.state == Canceling then TaskCanceling else TaskCanceled, WholeTask(updated));
      return Some(updated);
    }
  }

  // ---------- every interleaving ----------

  datatype TaskAction =
    | DoCreate(id: string)
    | DoBegin(id: string)
    | DoProgress(id: string, progress: TransferProgress)
    | DoEnd(id: string, outcome: Outcome)
    | DoCancel(id: string)

  function Apply(m: Tasks, a: TaskAction): Change {
    match a
    case DoCreate(id) => Create(m, id)
    case DoBegin(id) => Begin(m, id)
    case DoProgress(id, p) => OnProgress(m, id, p)
    case DoEnd(id, outcome) => End(m, id, outcome)
    case DoCancel(id) => Cancel(m, id)
  }

  /** uuid4 never repeats; everything else may happen in any order. */
  predicate Possible(m: Tasks, a: TaskAction) { a.DoCreate? ==> a.id !in m.tasks }

  ghost predicate TaskRun(from: Tasks, actions: seq<TaskAction>, to: Tasks)
    decreases |actions|
  {
    if actions == [] then from == to
    else Possible(from, actions[0]) && TaskRun(Apply(from, actions[0]).after, actions[1..], to)
  }

  const EMPTY := Tasks(map[], map[])

  /** finished_at exactly in terminal states, error exactly in FAILED, started_at exactly once running. */
  predicate TaskOk(id: string, t: Task) {
    && t.id == id
    && (t.finished <==> TerminalState(t.state))
    && (t.error.Some? <==> t.state.Failed?)
    && (t.state.Pending? ==> !t.started && t.progress.None?)
    && (t.state.Running? || t.state.Canceling? || t.state.Completed? || t.state.Failed? ==> t.started)
  }

  predicate EntryOk(m: Tasks, id: string) {
    && (id in m.tasks <==> id in m.cancelled)
    && (id in m.tasks ==> TaskOk(id, m.tasks[id]) && (m.tasks[id].state.Canceling? ==> m.cancelled[id]))
  }

  ghost predicate TasksOk(m: Tasks) { forall id :: EntryOk(m, id) }

  lemma ChangeKeepsEntry(m: Tasks, a: TaskAction, id: string)
    requires EntryOk(m, id) && EntryOk(m, a.id) && Possible(m, a)
    ensures EntryOk(Apply(m, a).after, id)
  {
  }

  lemma ChangeKeepsOk(m: Tasks, a: TaskAction)
    requires TasksOk(m) && Possible(m, a)
    ensures TasksOk(Apply(m, a).after)
  {
    hide Apply;
    hide EntryOk;
    forall id
      ensures EntryOk(Apply(m, a).after, id)
    {
      ChangeKeepsEntry(m, a, id);
    }
  }

  /** A published event is the change: folding it into the old state gives the new one. */
  lemma EventIsChange(m: Tasks, a: TaskAction)
    requires TasksOk(m) && Possible(m, a)
    ensures var c := Apply(m, a);
            match c.event
            case None => c.after == m
            case Some(e) =>
              && WellTyped(e) && Subject(e) == Some(a.id)
              && (match e.body
                  case WholeTask(t) => c.after.tasks == m.tasks[a.id := t]
                  case Partial(_, p) => a.id in m.tasks && c.after.tasks == m.tasks[a.id := m.tasks[a.id].(progress := Some(p))]
                  case _ => false)
  {
    assert EntryOk(m, a.id);
  }

  /** From every good state the run of a task ends as the outcome of gateway.send says, whoever asked for a
      cancel meanwhile; the event reports the state it ends in, and the task ends once. */
  lemma EndIsFinal(m: Tasks, id: string, outcome: Outcome, again: TaskAction)
    requires TasksOk(m) && Live(m.tasks, id) && Possible(m, again)
    ensures var c := Apply(m, DoEnd(id, outcome));
            && EndedAs(m.tasks[id], outcome, c.after.tasks[id])
            && c.after == m.(tasks := m.tasks[id := c.after.tasks[id]])
            && c.event == Some(Event(KindOf(c.after.tasks[id].state), WholeTask(c.after.tasks[id])))
            && (again.id == id ==> Apply(c.after, again) == NoChange(c.after))
  {
    assert EntryOk(m, id);
  }

  /** How far a task has come; no change takes it back. */
  function Age(m: Tasks, id: string): nat {
    if id !in m.tasks then 0
    else match m.tasks[id].state
      case Pending => 1
      case Running => 2
      case Canceling => 3
      case _ => 4
  }

  lemma ChangeAges(m: Tasks, a: TaskAction, id: string)
    requires TasksOk(m) && Possible(m, a)
    ensures Age(m, id) <= Age(Apply(m, a).after, id)
    ensures Age(m, id) == 4 ==> Apply(m, a).after.tasks[id] == m.tasks[id]
    ensures a == DoBegin(id) && Apply(m, a).event.Some? ==> Age(m, id) == 1 && Age(Apply(m, a).after, id) == 2
  {
    assert EntryOk(m, a.id);
  }

  /** gateway.send is called for this task, once per entry. */
  function Sends(from: Tasks, actions: seq<TaskAction>, id: string): nat
    decreases |actions|
  {
    if actions == [] then 0
    else
      var c := Apply(from, actions[0]);
      (if actions[0] == DoBegin(id) && c.event.Some? then 1 else 0) + Sends(c.after, actions[1..], id)
  }

  /** Over every interleaving from every good state: the state stays good, finished snapshots never
      change, a task is sent at most once, and never once it has left PENDING in any other way. */
  lemma {:induction false} TaskLaws(from: Tasks, actions: seq<TaskAction>, to: Tasks, id: string)
    requires TasksOk(from) && TaskRun(from, actions, to)
    ensures TasksOk(to)
    ensures Age(from, id) <= Age(to, id)
    ensures Age(from, id) == 4 ==> to.tasks[id] == from.tasks[id]
    ensures Sends(from, actions, id) <= (if Age(from, id) <= 1 then 1 else 0)
    decreases |actions|
  {
    hide Apply;
    hide TasksOk;
    if actions != [] {
      ChangeKeepsOk(from, actions[0]);
      ChangeAges(from, actions[0], id);
      TaskLaws(Apply(from, actions[0]).after, actions[1..], to, id);
    }
  }

  /** A task cancelled while pending is never sent, whatever happens afterwards. */
  lemma CancelledPendingIsNeverSent(from: Tasks, id: string, actions: seq<TaskAction>, to: Tasks)
    requires TasksOk(from) && id in from.tasks && from.tasks[id].state.Pending?
    requires TaskRun(Cancel(from, id).after, actions, to)
    ensures Sends(Cancel(from, id).after, actions, id) == 0
    ensures id in to.tasks && to.tasks[id].state == Canceled && to.tasks[id] == Cancel(from, id).after.tasks[id]
  {
    ChangeKeepsOk(from, DoCancel(id));
    TaskLaws(Cancel(from, id).after, actions, to, id);
  }
}
