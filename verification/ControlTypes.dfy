/** Values of the control plane that the backend and the dashboard share. */
module ControlTypes {
  import opened Results

  datatype TaskState = Pending | Running | Canceling | Completed | Failed | Canceled

  predicate TerminalState(s: TaskState) { s.Completed? || s.Failed? || s.Canceled? }

  datatype TransferProgress = TransferProgress(
    fileIndex: nat, fileCount: nat, relativePath: string, currentFileBytes: nat, currentFileTotalBytes: nat,
    totalBytes: Option<nat>, transferredBytes: Option<nat>)

  datatype ErrorPayload = ErrorPayload(code: string, message: string)

  /** A task snapshot; of the time stamps only whether they are set. */
  datatype Task = Task(id: string, state: TaskState, started: bool, finished: bool,
                       progress: Option<TransferProgress>, error: Option<ErrorPayload>)

  datatype EventType =
    | TaskCreated | TaskStarted | TaskCanceling | TaskCompleted | TaskFailed | TaskCanceled
    | ProgressMade
    | ReceiverStarted | ReceiverStopped | ErrorRaised | Heartbeat
    | Unknown(name: string)

  predicate TerminalType(t: EventType) {
    t.TaskCompleted? || t.TaskFailed? || t.TaskCanceled? || t.ReceiverStopped? || t.ErrorRaised?
  }

  /** Types whose payload is a whole task. */
  predicate TaskType(t: EventType) {
    t.TaskCreated? || t.TaskStarted? || t.TaskCanceling? || t.TaskCompleted? || t.TaskFailed? || t.TaskCanceled?
  }

  datatype ReceiverSnapshot = ReceiverSnapshot(state: string, lastError: Option<ErrorPayload>)

  datatype EventBody =
    | WholeTask(task: Task)
    | Partial(taskId: string, progress: TransferProgress)
    | ReceiverBody(receiver: ReceiverSnapshot)
    | ErrorBody(error: ErrorPayload)
    | NoBody

  datatype Event = Event(kind: EventType, body: EventBody)

  /** An event as the bus sends it, with its number. */
  datatype Envelope = Envelope(number: nat, event: Event)

  /** The task an event is about. */
  function Subject(e: Event): Option<string> {
    match e.body
    case WholeTask(task) => Some(task.id)
    case Partial(id, _) => Some(id)
    case _ => None
  }

  /** The type of event that reports a task in this state. */
  function KindOf(s: TaskState): EventType {
    match s
    case Pending => TaskCreated
    case Running => TaskStarted
    case Canceling => TaskCanceling
    case Completed => TaskCompleted
    case Failed => TaskFailed
    case Canceled => TaskCanceled
  }

  /** The type and the payload belong together, as every publisher makes them. */
  predicate WellTyped(e: Event) {
    match e.body
    case WholeTask(task) => e.kind == KindOf(task.state)
    case Partial(_, _) => e.kind.ProgressMade?
    case ReceiverBody(_) => e.kind.ReceiverStarted? || e.kind.ReceiverStopped?
    case ErrorBody(_) => e.kind.ErrorRaised?
    case NoBody => e.kind.Heartbeat? || e.kind.Unknown?
  }
}
