/** What each transaction (or bare statement) does to the database, as a
    function of the database before it. Choices SQL leaves open (which of several
    oldest rows, which order a join delivers) are parameters. */
module Transactions {
  import opened Types

  // ---------------------------------------------------------------- events

  /** The rows of one workflow in table order. */
  function LogOf(events: seq<Event>, w: Id): seq<Event> {
    if |events| == 0 then []
    else
      var rest := LogOf(events[..|events| - 1], w);
      var last := events[|events| - 1];
      if last.wf == w then rest + [last] else rest
  }

  /** SELECT MAX(sequence_number) over the rows of one workflow. */
  function MaxSeq(log: seq<Event>): Option<int> {
    if |log| == 0 then None
    else
      match MaxSeq(log[..|log| - 1])
      case None => Some(log[|log| - 1].seqNo)
      case Some(m) => Some(if m < log[|log| - 1].seqNo then log[|log| - 1].seqNo else m)
  }

  function NextSeq(log: seq<Event>): int {
    match MaxSeq(log)
    case None => 1
    case Some(m) => m + 1
  }

  function Append(db: Db, w: Id, kind: Kind, now: int): Db {
    db.(events := db.events + [Event(w, kind, NextSeq(LogOf(db.events, w)), now)])
  }

  function SetRow(db: Db, w: Id, row: Workflow): Db {
    db.(workflows := db.workflows[w := row])
  }

  // ------------------------------------------------------------- workflows

  function NewRow(wtype: string, now: int): Workflow {
    Workflow(wtype, Queued, 0, None, None, now, now, None, 1)
  }

  function CreateWorkflow(db: Db, w: Id, wtype: string, now: int): Tx {
    if w in db.workflows then Tx(db, Failure(UniqueViolation))
    else
      var db1 := SetRow(db, w, NewRow(wtype, now));
      Tx(db1.(events := db1.events + [Event(w, EvCreated, 1, now)]), Done)
  }

  predicate Due(timer: Timer, now: int) {
    !timer.fired && timer.wakeAt <= now
  }

  predicate HasDueTimer(db: Db, now: int, w: Id) {
    exists t :: 0 <= t < |db.timers| && db.timers[t].wf == w && Due(db.timers[t], now)
  }

  predicate Expired(row: Workflow, now: int) {
    row.expires.Some? && row.expires.value <= now
  }

  /** The WHERE clause of AcquireLease. */
  predicate Eligible(db: Db, now: int, w: Id) {
    w in db.workflows &&
    var row := db.workflows[w];
    || row.status == Queued
    || (row.status == Waiting && HasDueTimer(db, now, w))
    || Expired(row, now)
  }

  /** Any row ORDER BY created_at LIMIT 1 may return. */
  predicate IsPick(db: Db, now: int, w: Id) {
    && Eligible(db, now, w)
    && forall v :: v in db.workflows && Eligible(db, now, v) ==> db.workflows[w].createdAt <= db.workflows[v].createdAt
  }

  predicate AcquireOffered(db: Db, now: int, pick: Option<Id>) {
    match pick
    case None => forall v :: v in db.workflows ==> !Eligible(db, now, v)
    case Some(w) => IsPick(db, now, w)
  }

  function LeasedRow(row: Workflow, k: Worker, secs: int, now: int): Workflow {
    row.(status := Running, owner := Some(k), expires := Some(now + secs), updatedAt := now, version := row.version + 1)
  }

  function AcquireLease(db: Db, k: Worker, secs: int, now: int, pick: Option<Id>): Tx
    requires AcquireOffered(db, now, pick)
  {
    match pick
    case None => Tx(db, NoWork)
    case Some(w) => Tx(Append(SetRow(db, w, LeasedRow(db.workflows[w], k, secs, now)), w, EvStarted, now), Leased(w))
  }

  predicate Holds(db: Db, w: Id, k: Worker) {
    w in db.workflows && db.workflows[w].owner == Some(k)
  }

  predicate Runs(db: Db, w: Id, k: Worker) {
    Holds(db, w, k) && db.workflows[w].status == Running
  }

  function RenewLease(db: Db, w: Id, k: Worker, secs: int, now: int): Tx {
    if Runs(db, w, k) then
      Tx(SetRow(db, w, db.workflows[w].(expires := Some(now + secs), updatedAt := now)), Done)
    else Tx(db, Failure(LeaseMismatch))
  }

  function RequeuedRow(row: Workflow, now: int): Workflow {
    row.(status := Queued, owner := None, expires := None, updatedAt := now)
  }

  function ReleaseLease(db: Db, w: Id, k: Worker, now: int): Tx {
    if Holds(db, w, k) then Tx(SetRow(db, w, RequeuedRow(db.workflows[w], now)), Done)
    else Tx(db, Failure(LeaseMismatch))
  }

  function EndedRow(row: Workflow, status: Status, now: int): Workflow {
    row.(status := status, owner := None, expires := None, completedAt := Some(now), updatedAt := now,
         version := row.version + 1)
  }

  function CompleteWorkflow(db: Db, w: Id, k: Worker, now: int): Tx {
    if Runs(db, w, k) then
      Tx(Append(SetRow(db, w, EndedRow(db.workflows[w], Completed, now)), w, EvCompleted, now), Done)
    else Tx(db, Failure(LeaseMismatch))
  }

  function FailWorkflow(db: Db, w: Id, k: Worker, now: int): Tx {
    if Runs(db, w, k) then
      Tx(Append(SetRow(db, w, EndedRow(db.workflows[w], Failed, now)), w, EvFailed, now), Done)
    else Tx(db, Failure(LeaseMismatch))
  }

  function MarkWaiting(db: Db, w: Id, k: Worker, now: int): Tx {
    if Runs(db, w, k) then
      Tx(SetRow(db, w, db.workflows[w].(status := Waiting, updatedAt := now)), Done)
    else Tx(db, Failure(LeaseMismatch))
  }

  function VerifyLease(db: Db, w: Id, k: Worker): Reply {
    if w !in db.workflows then Failure(NoRows)
    else if db.workflows[w].owner != Some(k) then Failure(LeaseMismatch)
    else Verified
  }

  // ----------------------------------------------------------------- steps

  /** The write half of StartStep: INSERT OR IGNORE, then the event. */
  function WriteStepStart(db: Db, w: Id, n: int, input: Payload, now: int): Tx {
    if w !in db.workflows then Tx(db, Failure(ForeignKeyViolation))
    else
      var steps := if (w, n) in db.steps then db.steps
                   else db.steps[(w, n) := StepRow(StepRunning, input, Null, now, None)];
      Tx(Append(db.(steps := steps), w, EvStepStarted(input), now), Done)
  }

  predicate StepIsCompleted(db: Db, w: Id, n: int) {
    (w, n) in db.steps && db.steps[(w, n)].status == StepCompleted
  }

  /** INSERT ... ON CONFLICT DO UPDATE SET status, output_json, completed_at. */
  function Upserted(db: Db, w: Id, n: int, status: StepStatus, input: Payload, output: Payload, now: int): StepRow {
    if (w, n) in db.steps
    then db.steps[(w, n)].(status := status, output := output, completedAt := Some(now))
    else StepRow(status, input, output, now, Some(now))
  }

  function CompleteStep(db: Db, w: Id, k: Worker, n: int, input: Payload, output: Payload, now: int): Tx {
    if w !in db.workflows then Tx(db, Failure(NoRows))
    else if db.workflows[w].owner != Some(k) then Tx(db, Failure(LeaseMismatch))
    else if StepIsCompleted(db, w, n) then Tx(db, Failure(StepAlreadyCompleted))
    else
      var row := db.workflows[w];
      var db1 := db.(steps := db.steps[(w, n) := Upserted(db, w, n, StepCompleted, input, output, now)]);
      var db2 := SetRow(db1, w, row.(currentStep := row.currentStep + 1, updatedAt := now, version := row.version + 1));
      Tx(Append(db2, w, EvStepCompleted(n, output), now), Done)
  }

  /** The write half of FailStep: an unguarded upsert, then the event. */
  function WriteStepFailure(db: Db, w: Id, n: int, input: Payload, message: string, now: int): Tx {
    if w !in db.workflows then Tx(db, Failure(ForeignKeyViolation))
    else
      var db1 := db.(steps := db.steps[(w, n) := Upserted(db, w, n, StepFailed, input, FailureOf(n, message), now)]);
      Tx(Append(db1, w, EvStepFailed(n, message), now), Done)
  }

  /** StartStep and FailStep with nothing between the check and the write. */
  function StartStep(db: Db, w: Id, k: Worker, n: int, input: Payload, now: int): Tx {
    var check := VerifyLease(db, w, k);
    if check.Failure? then Tx(db, check) else WriteStepStart(db, w, n, input, now)
  }

  function FailStep(db: Db, w: Id, k: Worker, n: int, input: Payload, message: string, now: int): Tx {
    var check := VerifyLease(db, w, k);
    if check.Failure? then Tx(db, check) else WriteStepFailure(db, w, n, input, message, now)
  }

  // --------------------------------------------------------------- signals

  function SendSignal(db: Db, w: Id, signalType: string, payload: Payload, now: int): Tx {
    if w !in db.workflows then Tx(db, Failure(ForeignKeyViolation))
    else
      var position := |db.signals|;
      var db1 := db.(signals := db.signals + [Signal(w, signalType, payload, false, now)]);
      Tx(Append(db1, w, EvSignal(position + 1, signalType), now), SignalSent(position))
  }

  predicate IsPending(db: Db, w: Id, i: int) {
    0 <= i < |db.signals| && db.signals[i].wf == w && !db.signals[i].consumed
  }

  /** Any row ORDER BY created_at LIMIT 1 may return. */
  predicate IsOldestSignal(db: Db, w: Id, i: int) {
    && IsPending(db, w, i)
    && forall j :: 0 <= j < |db.signals| && IsPending(db, w, j) ==> db.signals[i].createdAt <= db.signals[j].createdAt
  }

  predicate ConsumeOffered(db: Db, w: Id, pick: Option<nat>) {
    match pick
    case None => forall j :: 0 <= j < |db.signals| ==> !IsPending(db, w, j)
    case Some(i) => IsOldestSignal(db, w, i)
  }

  function ConsumeSignal(db: Db, w: Id, pick: Option<nat>): Tx
    requires ConsumeOffered(db, w, pick)
  {
    match pick
    case None => Tx(db, NoSignal)
    case Some(i) => Tx(db.(signals := db.signals[i := db.signals[i].(consumed := true)]), SignalTaken(i))
  }

  // ---------------------------------------------------------------- timers

  function CreateTimer(db: Db, w: Id, wakeAt: int): Tx {
    if w !in db.workflows then Tx(db, Failure(ForeignKeyViolation))
    else Tx(db.(timers := db.timers + [Timer(w, wakeAt, false)]), TimerSet(|db.timers|))
  }

  /** RetryStep with its two transactions back to back. */
  function RetryStep(db: Db, w: Id, k: Worker, wakeAt: int, later: int): Tx {
    var timer := CreateTimer(db, w, wakeAt);
    if timer.reply.Failure? then timer else MarkWaiting(timer.db, w, k, later)
  }

  /** The SELECT of fireExpiredTimers. */
  predicate Fires(db: Db, now: int, t: int) {
    && 0 <= t < |db.timers|
    && Due(db.timers[t], now)
    && db.timers[t].wf in db.workflows
    && db.workflows[db.timers[t].wf].status == Waiting
  }

  /** Any order in which the join may deliver its rows. */
  predicate FireOffered(db: Db, now: int, order: seq<nat>) {
    && Distinct(order)
    && (forall t :: t in order ==> Fires(db, now, t))
    && (forall t :: 0 <= t < |db.timers| && Fires(db, now, t) ==> t in order)
  }

  /** One pass of the loop body. The two UPDATEs name their row by its key and
      test nothing else; a row that is not there is left alone. */
  function FireOne(db: Db, now: int, t: nat): Db {
    if t >= |db.timers| then db
    else
      var w := db.timers[t].wf;
      var db1 := db.(timers := db.timers[t := db.timers[t].(fired := true)]);
      if w !in db.workflows then db1
      else Append(SetRow(db1, w, RequeuedRow(db.workflows[w], now)), w, EvTimerFired, now)
  }

  function FireAll(db: Db, now: int, order: seq<nat>): Db {
    if |order| == 0 then db
    else FireOne(FireAll(db, now, order[..|order| - 1]), now, order[|order| - 1])
  }

  function FireExpiredTimers(db: Db, now: int, order: seq<nat>): Tx
    requires FireOffered(db, now, order)
  {
    Tx(FireAll(db, now, order), Affected(|order|))
  }

  predicate Lapsed(row: Workflow, now: int) {
    Expired(row, now) && row.status == Running
  }

  function ExpireLeases(db: Db, now: int): Tx {
    var lapsed := set w | w in db.workflows && Lapsed(db.workflows[w], now);
    Tx(db.(workflows := map w | w in db.workflows ::
             if Lapsed(db.workflows[w], now) then RequeuedRow(db.workflows[w], now) else db.workflows[w]),
       Affected(|lapsed|))
  }

  /** One scheduler cycle with nothing in between its two halves. */
  function Tick(db: Db, now: int, order: seq<nat>): Db
    requires FireOffered(db, now, order)
  {
    ExpireLeases(FireAll(db, now, order), now).db
  }
}
