/** The rows of the five tables, and what one engine call replies. */
module Types {

  datatype Option<+T> = None | Some(value: T)

  predicate Distinct<T(==)>(s: seq<T>) {
    forall i, j :: 0 <= i < j < |s| ==> s[i] != s[j]
  }

  type Id = string
  type Worker = string

  /** A nullable JSON column. The text of a payload is opaque; the one object
      the engine builds itself for a step row is the failure record. */
  datatype Payload = Null | Text(json: string) | FailureOf(step: int, message: string)

  datatype Status = Queued | Running | Waiting | Completed | Failed

  /** A row of `workflows`; the key is the workflow id. */
  datatype Workflow = Workflow(
    wtype: string,
    status: Status,
    currentStep: int,
    owner: Option<Worker>,
    expires: Option<int>,
    createdAt: int,
    updatedAt: int,
    completedAt: Option<int>,
    version: int)

  /** The event_type column with the parts of payload_json the engine writes. */
  datatype Kind =
    | EvCreated
    | EvStarted
    | EvStepStarted(input: Payload)
    | EvStepCompleted(step: int, output: Payload)
    | EvStepFailed(step: int, message: string)
    | EvSignal(signalId: int, signalType: string)
    | EvTimerFired
    | EvCompleted
    | EvFailed

  /** A row of `workflow_events`; event_id is the position in the table plus 1. */
  datatype Event = Event(wf: Id, kind: Kind, seqNo: int, createdAt: int)

  datatype StepStatus = StepRunning | StepCompleted | StepFailed

  /** A row of `workflow_steps`; the key is (workflow id, step number). */
  datatype StepRow = StepRow(
    status: StepStatus,
    input: Payload,
    output: Payload,
    startedAt: int,
    completedAt: Option<int>)

  /** A row of `workflow_signals`; signal_id is the position in the table plus 1. */
  datatype Signal = Signal(wf: Id, signalType: string, payload: Payload, consumed: bool, createdAt: int)

  /** A row of `workflow_timers`; timer_id is the position in the table plus 1. */
  datatype Timer = Timer(wf: Id, wakeAt: int, fired: bool)

  datatype Error = LeaseMismatch | StepAlreadyCompleted | NoRows | UniqueViolation | ForeignKeyViolation

  datatype Reply =
    | Done
    | Verified                 // the lease check of a two-part call succeeded
    | Leased(id: Id)
    | NoWork
    | SignalSent(position: nat)
    | SignalTaken(position: nat)
    | NoSignal
    | TimerSet(position: nat)
    | Affected(count: nat)
    | RetriesExhausted
    | Failure(error: Error)
    | NotOffered               // a choice the database would not make: nothing happened

  /** The whole database: rows of the AUTOINCREMENT tables stay in insertion
      order and are never deleted. */
  datatype Db = Db(
    workflows: map<Id, Workflow>,
    events: seq<Event>,
    steps: map<(Id, int), StepRow>,
    signals: seq<Signal>,
    timers: seq<Timer>)

  const EMPTY_DB := Db(map[], [], map[], [], [])

  /** The outcome of one atomic transaction. */
  datatype Tx = Tx(db: Db, reply: Reply)
}
