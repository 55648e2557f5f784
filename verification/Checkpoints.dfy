/** The step table is what the log says it is. */
module Checkpoints {
  import opened Types
  import opened Runs
  import opened Preservation
  import opened Calls
  import T = Transactions

  predicate IsStepOutcome(kind: Kind) {
    kind.EvStepCompleted? || kind.EvStepFailed?
  }

  predicate IsOutcome(e: Event, w: Id, n: int) {
    e.wf == w && IsStepOutcome(e.kind) && e.kind.step == n
  }

  /** The last STEP_COMPLETED or STEP_FAILED row for step n of w. */
  function LastOutcome(events: seq<Event>, w: Id, n: int): Option<Event> {
    if |events| == 0 then None
    else if IsOutcome(events[|events| - 1], w, n) then Some(events[|events| - 1])
    else LastOutcome(events[..|events| - 1], w, n)
  }

  /** Status, output and completion time of a step, from its last outcome. */
  ghost predicate AgreesWith(steps: map<(Id, int), StepRow>, w: Id, n: int, outcome: Option<Event>) {
    match outcome
    case None => (w, n) in steps ==> steps[(w, n)].status == StepRunning && steps[(w, n)].output == Null && steps[(w, n)].completedAt == None
    case Some(e) =>
      && (w, n) in steps
      && steps[(w, n)].completedAt == Some(e.createdAt)
      && match e.kind {
           case EvStepCompleted(_, output) => steps[(w, n)].status == StepCompleted && steps[(w, n)].output == output
           case EvStepFailed(_, message) => steps[(w, n)].status == StepFailed && steps[(w, n)].output == FailureOf(n, message)
           case _ => false
         }
  }

  ghost predicate Agrees(db: Db, w: Id, n: int) {
    AgreesWith(db.steps, w, n, LastOutcome(db.events, w, n))
  }

  lemma OutcomeAppend(events: seq<Event>, e: Event, w: Id, n: int)
    ensures LastOutcome(events + [e], w, n) == if IsOutcome(e, w, n) then Some(e) else LastOutcome(events, w, n)
  {
    assert (events + [e])[..|events|] == events;
  }

  /** Events that are no outcome of a step leave its last outcome as it was. */
  lemma {:induction false} NoNewOutcome(events: seq<Event>, events': seq<Event>, w: Id, n: int)
    requires events <= events'
    requires forall i :: |events| <= i < |events'| ==> !IsOutcome(events'[i], w, n)
    ensures LastOutcome(events', w, n) == LastOutcome(events, w, n)
    decreases |events'|
  {
    if |events'| > |events| {
      NoNewOutcome(events, events'[..|events'| - 1], w, n);
    } else {
      assert events == events';
    }
  }

  lemma {:induction false} FiringIsNoOutcome(db: Db, now: int, order: seq<nat>, w: Id, n: int)
    ensures
      var events := T.FireAll(db, now, order).events;
      db.events <= events && forall i :: |db.events| <= i < |events| ==> !IsOutcome(events[i], w, n)
  {
    if |order| > 0 {
      FiringIsNoOutcome(db, now, order[..|order| - 1], w, n);
    }
  }

  lemma WritesAgree(db: Db, w: Id, n: int, v: Id, m: int, k: Worker, input: Payload, output: Payload, message: string, now: int)
    requires Agrees(db, w, n)
    ensures Agrees(T.CompleteStep(db, v, k, m, input, output, now).db, w, n)
    ensures Agrees(T.WriteStepFailure(db, v, m, input, message, now).db, w, n)
    ensures Agrees(T.WriteStepStart(db, v, m, input, now).db, w, n)
  {
    var seqNo := T.NextSeq(T.LogOf(db.events, v));
    OutcomeAppend(db.events, Event(v, EvStepCompleted(m, output), seqNo, now), w, n);
    OutcomeAppend(db.events, Event(v, EvStepFailed(m, message), seqNo, now), w, n);
    OutcomeAppend(db.events, Event(v, EvStepStarted(input), seqNo, now), w, n);
  }

  predicate WritesSteps(a: Action) {
    a.FinishStep? || (a.Pay? && !a.debt.RetryMark?)
  }

  lemma OthersWriteNoSteps(s: Sys, a: Action, w: Id, n: int)
    requires !WritesSteps(a)
    ensures
      var db' := Apply(s, a).sys.db;
      && db'.steps == s.db.steps && s.db.events <= db'.events
      && forall i :: |s.db.events| <= i < |db'.events| ==> !IsOutcome(db'.events[i], w, n)
  {
    if a.FireTimers? {
      FireAppendOnly(s.db, a.now, a.order);
      FiringIsNoOutcome(s.db, a.now, a.order, w, n);
    } else if IsSilent(a) {
      SilentCall(s, a);
    } else {
      CallsWriteNoSteps(s, a);
    }
  }

  lemma AcquireWritesNoStep(db: Db, k: Worker, secs: int, now: int, pick: Option<Id>)
    requires T.AcquireOffered(db, now, pick)
    ensures
      var db' := T.AcquireLease(db, k, secs, now, pick).db;
      && db'.steps == db.steps && db.events <= db'.events
      && (|db'.events| > |db.events| ==> |db'.events| == |db.events| + 1 && !IsStepOutcome(db'.events[|db.events|].kind))
  {
  }

  lemma CallsWriteNoSteps(s: Sys, a: Action)
    requires !WritesSteps(a) && !a.FireTimers? && !IsSilent(a)
    ensures
      var db' := Apply(s, a).sys.db;
      && db'.steps == s.db.steps && s.db.events <= db'.events
      && (|db'.events| > |s.db.events| ==> |db'.events| == |s.db.events| + 1 && !IsStepOutcome(db'.events[|s.db.events|].kind))
  {
    if a.Acquire? && T.AcquireOffered(s.db, a.now, a.pick) {
      AcquireWritesNoStep(s.db, a.k, a.secs, a.now, a.pick);
    }
  }

  lemma AgreementStep(s: Sys, a: Action, w: Id, n: int)
    requires Agrees(s.db, w, n)
    ensures Agrees(Apply(s, a).sys.db, w, n)
  {
    if !WritesSteps(a) {
      OthersWriteNoSteps(s, a, w, n);
      NoNewOutcome(s.db.events, Apply(s, a).sys.db.events, w, n);
    } else if a.FinishStep? {
      WritesAgree(s.db, w, n, a.w, a.n, a.k, a.input, a.output, "", a.now);
    } else if a.debt in s.owed {
      match a.debt
      case StartWrite(v, k, m, input) => WritesAgree(s.db, w, n, v, m, k, input, Null, "", a.now);
      case FailWrite(v, k, m, input, message) => WritesAgree(s.db, w, n, v, m, k, input, Null, message, a.now);
    }
  }

  /** In every run the checkpoint table can be rebuilt from the log: a step's
      status, output and completion time are those of its last STEP_COMPLETED or
      STEP_FAILED event, and with no such event it is absent or merely RUNNING. */
  lemma {:induction false} CheckpointsReplay(acts: seq<Action>, w: Id, n: int)
    ensures Agrees(Exec(INIT, acts).db, w, n)
  {
    if |acts| > 0 {
      CheckpointsReplay(acts[..|acts| - 1], w, n);
      AgreementStep(Exec(INIT, acts[..|acts| - 1]), acts[|acts| - 1], w, n);
    }
  }

  /** No step of any kind changes the input or the start time of a step row, or
      removes one. */
  lemma OriginKept(s: Sys, a: Action, w: Id, n: int)
    requires (w, n) in s.db.steps
    ensures
      var steps := Apply(s, a).sys.db.steps;
      (w, n) in steps && steps[(w, n)].input == s.db.steps[(w, n)].input && steps[(w, n)].startedAt == s.db.steps[(w, n)].startedAt
  {
    if a.FireTimers? {
      FireAppendOnly(s.db, a.now, a.order);
    } else if IsSilent(a) {
      SilentCall(s, a);
    } else if !WritesSteps(a) {
      CallsWriteNoSteps(s, a);
    }
  }

  // -------------------------------------------------- told from the calls alone

  /** The first call that wrote the row of step n of w. */
  function FirstWrite(acts: seq<Action>, w: Id, n: int): Option<Action> {
    if |acts| == 0 then None
    else
      var before, last := FirstWrite(acts[..|acts| - 1], w, n), acts[|acts| - 1];
      if before.Some? then before
      else if WritesStep(last, w, n) && ReplyAt(INIT, acts, |acts| - 1) == Done then Some(last)
      else None
  }

  /** The last CompleteStep or FailStep that wrote it. */
  function LastReport(acts: seq<Action>, w: Id, n: int): Option<Action> {
    if |acts| == 0 then None
    else
      var last := acts[|acts| - 1];
      if WritesStep(last, w, n) && !IsStart(last) && ReplyAt(INIT, acts, |acts| - 1) == Done then Some(last)
      else LastReport(acts[..|acts| - 1], w, n)
  }

  ghost predicate ToldBy(steps: map<(Id, int), StepRow>, w: Id, n: int, first: Option<Action>, report: Option<Action>) {
    var key := (w, n);
    && (key in steps <==> first.Some?)
    && (first.Some? ==>
          && WritesStep(first.value, w, n)
          && steps[key].input == InputOf(first.value) && steps[key].startedAt == first.value.now)
    && (report.Some? ==> key in steps && WritesStep(report.value, w, n) && !IsStart(report.value) && Reports(steps[key], report.value))
    && (report.None? && key in steps ==>
          steps[key].status == StepRunning && steps[key].output == Null && steps[key].completedAt == None)
  }

  /** In every run the step table is what the workers reported: a row is there iff
      some StartStep, CompleteStep or FailStep of it was committed, its input and
      start time are those of the first one, and its status, its output (or failure)
      and its completion time are those of the last CompleteStep or FailStep; with
      none of these it is RUNNING. */
  lemma {:induction false} StepsAsReported(acts: seq<Action>, w: Id, n: int)
    ensures ToldBy(Exec(INIT, acts).db.steps, w, n, FirstWrite(acts, w, n), LastReport(acts, w, n))
  {
    if |acts| > 0 {
      var before, last := acts[..|acts| - 1], acts[|acts| - 1];
      StepsAsReported(before, w, n);
      StepRowStep(Exec(INIT, before), last, w, n);
    }
  }
}
