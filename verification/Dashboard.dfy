/** The dashboard's reducer: a list of task snapshots kept up to date by events, and why replaying events
    that a snapshot already contains does no harm. */
module Dashboard {
  import opened Results
  import opened ControlTypes

  datatype AppSnapshot = AppSnapshot(tasks: seq<Task>, receiver: ReceiverSnapshot)

  datatype Connection = Connecting | Online | Offline

  datatype DashboardState = DashboardState(snapshot: Option<AppSnapshot>, connection: Connection, lastError: Option<ErrorPayload>)

  const INITIAL := DashboardState(None, Connecting, None)

  function ApplySnapshot(state: DashboardState, snapshot: AppSnapshot): DashboardState {
    state.(snapshot := Some(snapshot), connection := Online)
  }

  function Others(tasks: seq<Task>, id: string): seq<Task> {
    if tasks == [] then []
    else (if tasks[0].id != id then [tasks[0]] else []) + Others(tasks[1..], id)
  }

  function WithTask(tasks: seq<Task>, task: Task): seq<Task> { Others(tasks, task.id) + [task] }

  function WithProgress(tasks: seq<Task>, id: string, progress: TransferProgress): seq<Task> {
    if tasks == [] then []
    else [if tasks[0].id == id then tasks[0].(progress := Some(progress)) else tasks[0]] + WithProgress(tasks[1..], id, progress)
  }

  function ApplyToTasks(tasks: seq<Task>, e: Event): seq<Task> {
    match e.body
    case WholeTask(task) => if TaskType(e.kind) then WithTask(tasks, task) else tasks
    case Partial(id, progress) => if e.kind.ProgressMade? then WithProgress(tasks, id, progress) else tasks
    case _ => tasks
  }

  function ApplyEvent(state: DashboardState, e: Event): DashboardState {
    if e.kind.Unknown? then state
    else if e.kind.ErrorRaised? then
      (match e.body
       case ErrorBody(error) =>
         state.(connection := if error.code == "BACKEND_UNAVAILABLE" then Offline else state.connection, lastError := Some(error))
       case _ => state)
    else if state.snapshot.None? then state
    else
      var snapshot := state.snapshot.value;
      match e.body
      case ReceiverBody(receiver) =>
        if e.kind.ReceiverStarted? || e.kind.ReceiverStopped? then state.(snapshot := Some(snapshot.(receiver := receiver)))
        else state
      case _ => state.(snapshot := Some(snapshot.(tasks := ApplyToTasks(snapshot.tasks, e))))
  }

  /** What the dashboard lists; without a snapshot, nothing. */
  function Listed(state: DashboardState): seq<Task> {
    if state.snapshot.None? then [] else state.snapshot.value.tasks
  }

  /** The exported reducer, for any event whatever its payload: without a snapshot no task appears, with one
      the tasks change as ApplyToTasks says; only receiver events change the receiver and only errors the
      error shown. */
  lemma EventShown(state: DashboardState, e: Event)
    ensures var after := ApplyEvent(state, e);
            && (after.snapshot.Some? <==> state.snapshot.Some?)
            && (state.snapshot.Some? ==> Listed(after) == ApplyToTasks(Listed(state), e))
            && (state.snapshot.Some? && !e.body.ReceiverBody? ==> after.snapshot.value.receiver == state.snapshot.value.receiver)
            && (!e.kind.ErrorRaised? ==> after.lastError == state.lastError && after.connection == state.connection)
  {
  }

  /** A snapshot replaces what is shown and says that the backend is there; the error stays. */
  lemma SnapshotShown(state: DashboardState, snapshot: AppSnapshot)
    ensures var after := ApplySnapshot(state, snapshot);
            after.snapshot == Some(snapshot) && after.connection == Online && after.lastError == state.lastError
  {
  }

  /** A receiver event replaces the receiver and nothing else. */
  lemma ReceiverShown(state: DashboardState, receiver: ReceiverSnapshot)
    requires state.snapshot.Some?
    ensures forall kind <- {ReceiverStarted, ReceiverStopped} ::
              var after := ApplyEvent(state, Event(kind, ReceiverBody(receiver)));
              && after.snapshot.Some? && after.snapshot.value.receiver == receiver
              && after.snapshot.value.tasks == state.snapshot.value.tasks
              && after.lastError == state.lastError && after.connection == state.connection
  {
  }

  /** An error event, with or without a snapshot, shows the error; only one code takes the dashboard offline. */
  lemma ErrorShown(state: DashboardState, error: ErrorPayload)
    ensures var after := ApplyEvent(state, Event(ErrorRaised, ErrorBody(error)));
            && after.lastError == Some(error) && after.snapshot == state.snapshot
            && (error.code == "BACKEND_UNAVAILABLE" ==> after.connection == Offline)
            && (error.code != "BACKEND_UNAVAILABLE" ==> after.connection == state.connection)
  {
  }

  // ---------- the list as a map ----------

  predicate UniqueIds(tasks: seq<Task>) {
    forall i, j :: 0 <= i < j < |tasks| ==> tasks[i].id != tasks[j].id
  }

  /** The task with this id, if it is listed. */
  function Lookup(tasks: seq<Task>, id: string): Option<Task> {
    if tasks == [] then None
    else if tasks[0].id == id then Some(tasks[0])
    else Lookup(tasks[1..], id)
  }

  /** What an event does to the task with this id. */
  datatype Effect = Replace(task: Task) | Advance(progress: TransferProgress) | Keep

  function EffectOf(e: Event, id: string): Effect {
    match e.body
    case WholeTask(task) => if task.id == id && TaskType(e.kind) then Replace(task) else Keep
    case Partial(other, progress) => if other == id && e.kind.ProgressMade? then Advance(progress) else Keep
    case _ => Keep
  }

  function Act(effect: Effect, task: Option<Task>): Option<Task> {
    match effect
    case Replace(t) => Some(t)
    case Advance(p) => if task.Some? then Some(task.value.(progress := Some(p))) else None
    case Keep => task
  }

  function Compose(first: Effect, second: Effect): Effect {
    match second
    case Replace(_) => second
    case Keep => first
    case Advance(p) => if first.Replace? then Replace(first.task.(progress := Some(p))) else second
  }

  lemma {:induction false} OthersLookup(tasks: seq<Task>, id: string, other: string)
    ensures Lookup(Others(tasks, id), other) == if other == id then None else Lookup(tasks, other)
  {
    if tasks != [] {
      OthersLookup(tasks[1..], id, other);
      if tasks[0].id != id {
        assert Others(tasks, id)[1..] == Others(tasks[1..], id);
      } else {
        assert Others(tasks, id) == Others(tasks[1..], id);
      }
    }
  }

  lemma {:induction false} AppendLookup(tasks: seq<Task>, task: Task, id: string)
    ensures Lookup(tasks + [task], id)
         == if Lookup(tasks, id).Some? then Lookup(tasks, id) else if task.id == id then Some(task) else None
  {
    if tasks == [] {
      assert [] + [task] == [task];
    } else {
      assert (tasks + [task])[1..] == tasks[1..] + [task];
      AppendLookup(tasks[1..], task, id);
    }
  }

  lemma {:induction false} ProgressLookup(tasks: seq<Task>, id: string, progress: TransferProgress, other: string)
    ensures Lookup(WithProgress(tasks, id, progress), other)
         == if other == id && Lookup(tasks, id).Some? then Some(Lookup(tasks, id).value.(progress := Some(progress)))
            else Lookup(tasks, other)
  {
    if tasks != [] {
      ProgressLookup(tasks[1..], id, progress, other);
      assert WithProgress(tasks, id, progress)[1..] == WithProgress(tasks[1..], id, progress);
    }
  }

  /** The reducer on the list is the effect on each task. */
  lemma ApplyLookup(tasks: seq<Task>, e: Event, id: string)
    ensures Lookup(ApplyToTasks(tasks, e), id) == Act(EffectOf(e, id), Lookup(tasks, id))
  {
    match e.body
    case WholeTask(task) =>
      OthersLookup(tasks, task.id, id);
      AppendLookup(Others(tasks, task.id), task, id);
    case Partial(other, progress) => ProgressLookup(tasks, other, progress, id);
    case _ =>
  }

  lemma {:induction false} OthersUnique(tasks: seq<Task>, id: string)
    requires UniqueIds(tasks)
    ensures UniqueIds(Others(tasks, id))
    ensures forall t <- Others(tasks, id) :: t.id != id && t in tasks
  {
    if tasks != [] {
      OthersUnique(tasks[1..], id);
      assert forall t <- tasks[1..] :: t.id != tasks[0].id;
    }
  }

  lemma {:induction false} ProgressIds(tasks: seq<Task>, id: string, progress: TransferProgress)
    ensures |WithProgress(tasks, id, progress)| == |tasks|
    ensures forall k :: 0 <= k < |tasks| ==> WithProgress(tasks, id, progress)[k].id == tasks[k].id
  {
    if tasks != [] {
      ProgressIds(tasks[1..], id, progress);
    }
  }

  /** The reducer never lists a task twice. */
  lemma ApplyKeepsUnique(tasks: seq<Task>, e: Event)
    requires UniqueIds(tasks)
    ensures UniqueIds(ApplyToTasks(tasks, e))
  {
    match e.body
    case WholeTask(task) =>
      OthersUnique(tasks, task.id);
      var others := Others(tasks, task.id);
      assert forall k :: 0 <= k < |others| ==> others[k] in others;
    case Partial(id, progress) => ProgressIds(tasks, id, progress);
    case _ =>
  }

  lemma {:induction false} Unlisted(tasks: seq<Task>, id: string, progress: TransferProgress)
    requires forall t <- tasks :: t.id != id
    ensures Others(tasks, id) == tasks && WithProgress(tasks, id, progress) == tasks
  {
    if tasks != [] {
      assert tasks[0] in tasks;
      Unlisted(tasks[1..], id, progress);
    }
  }

  lemma {:induction false} OthersAt(tasks: seq<Task>, k: nat, id: string, progress: TransferProgress)
    requires UniqueIds(tasks) && k < |tasks| && tasks[k].id == id
    ensures Others(tasks, id) == tasks[..k] + tasks[k + 1..]
  {
    var rest := tasks[1..];
    if k == 0 {
      Unlisted(rest, id, progress);
      assert tasks[..0] + tasks[0 + 1..] == rest;
    } else {
      OthersAt(rest, k - 1, id, progress);
      assert Others(tasks, id) == [tasks[0]] + Others(rest, id);
      assert [tasks[0]] + (rest[..k - 1] + rest[k..]) == tasks[..k] + tasks[k + 1..];
    }
  }

  lemma {:induction false} ProgressAt(tasks: seq<Task>, k: nat, id: string, progress: TransferProgress)
    requires UniqueIds(tasks) && k < |tasks| && tasks[k].id == id
    ensures WithProgress(tasks, id, progress) == tasks[k := tasks[k].(progress := Some(progress))]
  {
    var rest := tasks[1..];
    if k == 0 {
      Unlisted(rest, id, progress);
    } else {
      ProgressAt(rest, k - 1, id, progress);
    }
  }

  /** A task event moves its task to the end of the list, or adds it there; a progress event changes it in
      place; nothing else moves or changes. */
  lemma ListedInOrder(tasks: seq<Task>, k: nat, task: Task, progress: TransferProgress)
    requires UniqueIds(tasks)
    requires if k < |tasks| then tasks[k].id == task.id else forall t <- tasks :: t.id != task.id
    ensures ApplyToTasks(tasks, Event(KindOf(task.state), WholeTask(task)))
         == (if k < |tasks| then tasks[..k] + tasks[k + 1..] else tasks) + [task]
    ensures ApplyToTasks(tasks, Event(ProgressMade, Partial(task.id, progress)))
         == if k < |tasks| then tasks[k := tasks[k].(progress := Some(progress))] else tasks
  {
    if k < |tasks| {
      OthersAt(tasks, k, task.id, progress);
      ProgressAt(tasks, k, task.id, progress);
    } else {
      Unlisted(tasks, task.id, progress);
    }
  }

  // ---------- replay ----------

  function Fold(tasks: seq<Task>, events: seq<Event>): seq<Task>
    decreases |events|
  {
    if events == [] then tasks else ApplyToTasks(Fold(tasks, events[..|events| - 1]), events[|events| - 1])
  }

  function Net(events: seq<Event>, id: string): Effect
    decreases |events|
  {
    if events == [] then Keep else Compose(Net(events[..|events| - 1], id), EffectOf(events[|events| - 1], id))
  }

  lemma {:induction false} FoldLookup(tasks: seq<Task>, events: seq<Event>, id: string)
    ensures Lookup(Fold(tasks, events), id) == Act(Net(events, id), Lookup(tasks, id))
    decreases |events|
  {
    if events != [] {
      var k := |events| - 1;
      FoldLookup(tasks, events[..k], id);
      ApplyLookup(Fold(tasks, events[..k]), events[k], id);
    }
  }

  lemma {:induction false} FoldConcat(tasks: seq<Task>, a: seq<Event>, b: seq<Event>)
    ensures Fold(tasks, a + b) == Fold(Fold(tasks, a), b)
    decreases |b|
  {
    if b == [] {
      assert a + b == a;
    } else {
      FoldConcat(tasks, a, b[..|b| - 1]);
      assert (a + b)[..|a + b| - 1] == a + b[..|b| - 1];
    }
  }

  lemma ActTwice(effect: Effect, task: Option<Task>)
    ensures Act(effect, Act(effect, task)) == Act(effect, task)
  {
  }

  /** Folding a stretch of events again changes no task. */
  lemma FoldAgain(tasks: seq<Task>, events: seq<Event>, id: string)
    ensures Lookup(Fold(Fold(tasks, events), events), id) == Lookup(Fold(tasks, events), id)
  {
    FoldLookup(Fold(tasks, events), events, id);
    FoldLookup(tasks, events, id);
    ActTwice(Net(events, id), Lookup(tasks, id));
  }

  /** A snapshot taken after event k, with the events from an earlier j on applied after it, shows every
      task as it is after all the events. */
  lemma OverlapReplay(tasks: seq<Task>, events: seq<Event>, j: nat, k: nat, id: string)
    requires j <= k <= |events|
    ensures Lookup(Fold(Fold(tasks, events[..k]), events[j..]), id) == Lookup(Fold(tasks, events), id)
  {
    var before := Fold(tasks, events[..j]);
    var again := events[j..k];
    var rest := events[k..];
    assert events[..j] + again == events[..k] && events[..k] + rest == events && again + rest == events[j..];
    FoldConcat(tasks, events[..j], again);
    FoldConcat(tasks, events[..k], rest);
    FoldConcat(Fold(tasks, events[..k]), again, rest);
    FoldAgain(before, again, id);
    FoldLookup(Fold(Fold(tasks, events[..k]), again), rest, id);
    FoldLookup(Fold(tasks, events[..k]), rest, id);
  }

  // ---------- replay through the reducer ----------

  /** The reducer over a stretch of events. */
  function Replay(state: DashboardState, events: seq<Event>): DashboardState
    decreases |events|
  {
    if events == [] then state else ApplyEvent(Replay(state, events[..|events| - 1]), events[|events| - 1])
  }

  lemma {:induction false} ReplayShown(state: DashboardState, events: seq<Event>)
    ensures var after := Replay(state, events);
            && (after.snapshot.Some? <==> state.snapshot.Some?)
            && (state.snapshot.Some? ==> Listed(after) == Fold(Listed(state), events))
    decreases |events|
  {
    hide ApplyEvent;
    hide ApplyToTasks;
    if events != [] {
      var k := |events| - 1;
      ReplayShown(state, events[..k]);
      EventShown(Replay(state, events[..k]), events[k]);
    }
  }

  /** A snapshot of the state after event k, applied to any state at all, with the events from an earlier j
      on applied after it, shows every task as it is after all the events. */
  lemma SnapshotReplay(state: DashboardState, snapshot: AppSnapshot, start: DashboardState, events: seq<Event>, j: nat, k: nat, id: string)
    requires j <= k <= |events| && start.snapshot.Some?
    requires Lookup(snapshot.tasks, id) == Lookup(Listed(Replay(start, events[..k])), id)
    ensures Lookup(Listed(Replay(ApplySnapshot(state, snapshot), events[j..])), id) == Lookup(Listed(Replay(start, events)), id)
  {
    hide Fold;
    hide Replay;
    hide Lookup;
    ReplayShown(ApplySnapshot(state, snapshot), events[j..]);
    ReplayShown(start, events[..k]);
    ReplayShown(start, events);
    OverlapReplay(Listed(start), events, j, k, id);
    FoldLookup(snapshot.tasks, events[j..], id);
    FoldLookup(Fold(Listed(start), events[..k]), events[j..], id);
  }

  /** The payload of the last receiver event, or what was shown before. */
  function LastReceiver(events: seq<Event>, before: ReceiverSnapshot): ReceiverSnapshot
    decreases |events|
  {
    if events == [] then before
    else
      var e := events[|events| - 1];
      if e.kind in {ReceiverStarted, ReceiverStopped} && e.body.ReceiverBody? then e.body.receiver
      else LastReceiver(events[..|events| - 1], before)
  }

  function LastError(events: seq<Event>, before: Option<ErrorPayload>): Option<ErrorPayload>
    decreases |events|
  {
    if events == [] then before
    else
      var e := events[|events| - 1];
      if e.kind.ErrorRaised? && e.body.ErrorBody? then Some(e.body.error)
      else LastError(events[..|events| - 1], before)
  }

  /** Some error event says that the backend cannot be reached. */
  predicate Unreachable(events: seq<Event>) {
    exists e <- events :: e.kind.ErrorRaised? && e.body.ErrorBody? && e.body.error.code == "BACKEND_UNAVAILABLE"
  }

  /** Over any stretch of events the dashboard shows the receiver of the last receiver event and the error of
      the last error event, and is taken offline exactly by an error that says so. */
  lemma {:induction false} LatestShown(state: DashboardState, events: seq<Event>)
    ensures Replay(state, events).lastError == LastError(events, state.lastError)
    ensures Replay(state, events).connection == if Unreachable(events) then Offline else state.connection
    ensures state.snapshot.Some? ==>
              && Replay(state, events).snapshot.Some?
              && Replay(state, events).snapshot.value.receiver == LastReceiver(events, state.snapshot.value.receiver)
    decreases |events|
  {
    if events != [] {
      var before := events[..|events| - 1];
      var e := events[|events| - 1];
      LatestShown(state, before);
      assert events == before + [e];
      assert Unreachable(events) <==> Unreachable(before) || Unreachable([e]);
      EventShown(Replay(state, before), e);
      match e.body {
        case ReceiverBody(receiver) =>
          if state.snapshot.Some? {
            ReceiverShown(Replay(state, before), receiver);
          }
        case ErrorBody(error) => ErrorShown(Replay(state, before), error);
        case _ =>
      }
    }
  }
}
