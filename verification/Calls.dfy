/** What each call answers and what it leaves behind, in any state and on the
    columns themselves: none of the conditions or row functions that the
    transactions are built from is used to say it. */
module Calls {
  import opened Types
  import opened Runs
  import opened Preservation
  import opened Timers
  import T = Transactions

  // ------------------------------------------------------------ no work left

  /** Some timer of w is due and has not fired. */
  ghost predicate TimerIsDue(timers: seq<Timer>, now: int, w: Id) {
    exists t :: 0 <= t < |timers| && timers[t].wf == w && !timers[t].fired && timers[t].wakeAt <= now
  }

  /** The row offers nothing to a worker at this time: it is not queued, its lease,
      if any, has time left, and if it is waiting, so do all its timers. */
  ghost predicate IsBusy(db: Db, now: int, w: Id)
    requires w in db.workflows
  {
    var row := db.workflows[w];
    && row.status != Queued
    && (row.expires.Some? ==> row.expires.value > now)
    && (row.status == Waiting ==>
          forall t :: 0 <= t < |db.timers| && db.timers[t].wf == w && !db.timers[t].fired ==> db.timers[t].wakeAt > now)
  }

  lemma BusyIsNotEligible(db: Db, now: int, w: Id)
    requires w in db.workflows
    ensures IsBusy(db, now, w) <==> !T.Eligible(db, now, w)
  {
    assert T.HasDueTimer(db, now, w) <==> TimerIsDue(db.timers, now, w);
  }

  /** AcquireLease may answer "no work" exactly when every workflow is busy, and w
      exactly when w is not and everything older is. */
  lemma AcquireAnswers(s: Sys, k: Worker, secs: int, now: int, pick: Option<Id>, w: Id)
    ensures
      var db, reply := s.db, Apply(s, Acquire(k, secs, now, pick)).reply;
      && (reply == NoWork || reply.Leased? || reply == NotOffered)
      && (reply == NoWork <==> pick == None && forall v :: v in db.workflows ==> IsBusy(db, now, v))
      && (reply == Leased(w) <==>
            && pick == Some(w) && w in db.workflows && !IsBusy(db, now, w)
            && forall v :: v in db.workflows && db.workflows[v].createdAt < db.workflows[w].createdAt ==> IsBusy(db, now, v))
  {
    forall v | v in s.db.workflows ensures IsBusy(s.db, now, v) <==> !T.Eligible(s.db, now, v) {
      BusyIsNotEligible(s.db, now, v);
    }
  }

  // ------------------------------------------------------- rows of workflows

  datatype Effect =
    | Untouched
    | Taken(k: Worker, until: int)
    | Extended(until: int)
    | Requeued
    | Suspended
    | Finished(how: Status)
    | Advanced

  function Clock(a: Action): int {
    match a
    case VerifyStart(_, _, _, _) => 0
    case VerifyFail(_, _, _, _, _) => 0
    case SetRetryTimer(_, _, _) => 0
    case Consume(_, _) => 0
    case SetTimer(_, _) => 0
    case _ => a.now
  }

  /** What a call with this answer has done to the row of w. Of the scheduler's two
      statements the columns say whether they reach w. */
  ghost function EffectOn(db: Db, a: Action, reply: Reply, w: Id): Effect
    requires w in db.workflows
  {
    var row := db.workflows[w];
    match a
    case Acquire(k, secs, now, _) => if reply == Leased(w) then Taken(k, now + secs) else Untouched
    case Renew(v, _, secs, now) => if v == w && reply == Done then Extended(now + secs) else Untouched
    case Release(v, _, _) => if v == w && reply == Done then Requeued else Untouched
    case Complete(v, _, _) => if v == w && reply == Done then Finished(Completed) else Untouched
    case Fail(v, _, _) => if v == w && reply == Done then Finished(Failed) else Untouched
    case Wait(v, _, _) => if v == w && reply == Done then Suspended else Untouched
    case Pay(debt, _) => if debt.RetryMark? && debt.w == w && reply == Done then Suspended else Untouched
    case FinishStep(v, _, _, _, _, _) => if v == w && reply == Done then Advanced else Untouched
    case FireTimers(now, _) =>
      if reply.Affected? && row.status == Waiting && TimerIsDue(db.timers, now, w) then Requeued else Untouched
    case ExpireLeases(now) =>
      if row.status == Running && row.expires.Some? && row.expires.value <= now then Requeued else Untouched
    case _ => Untouched
  }

  function RowAfter(row: Workflow, effect: Effect, now: int): Workflow {
    var Workflow(wtype, status, step, owner, expires, created, updated, completed, version) := row;
    match effect
    case Untouched => row
    case Taken(k, until) => Workflow(wtype, Running, step, Some(k), Some(until), created, now, completed, version + 1)
    case Extended(until) => Workflow(wtype, status, step, owner, Some(until), created, now, completed, version)
    case Requeued => Workflow(wtype, Queued, step, None, None, created, now, completed, version)
    case Suspended => Workflow(wtype, Waiting, step, owner, expires, created, now, completed, version)
    case Finished(how) => Workflow(wtype, how, step, None, None, created, now, Some(now), version + 1)
    case Advanced => Workflow(wtype, status, step + 1, owner, expires, created, now, completed, version + 1)
  }

  /** Every change of any row is one of the six above, and happens on the answer
      that promises it. */
  lemma RowStep(s: Sys, a: Action, w: Id)
    requires w in s.db.workflows
    ensures
      var o := Apply(s, a);
      && w in o.sys.db.workflows
      && o.sys.db.workflows[w] == RowAfter(s.db.workflows[w], EffectOn(s.db, a, o.reply, w), Clock(a))
  {
    if a.FireTimers? {
      if T.FireOffered(s.db, a.now, a.order) {
        FireApplies(s, a.now, a.order);
        FireExactly(s.db, a.now, a.order);
        WokenMeansDue(s.db, a.now, w);
        assert T.HasDueTimer(s.db, a.now, w) <==> TimerIsDue(s.db.timers, a.now, w);
      }
    } else if a.Pay? {
      RowPaid(s.db, a.debt, a.now, w);
    } else if a.Acquire? {
      RowAcquired(s, a, w);
    } else if a.ExpireLeases? {
    } else {
      RowCalled(s, a, w);
    }
  }

  lemma RowPaid(db: Db, debt: Owed, now: int, w: Id)
    requires w in db.workflows
    ensures
      var tx := WriteOwed(db, debt, now);
      && w in tx.db.workflows
      && tx.db.workflows[w] == RowAfter(db.workflows[w], EffectOn(db, Pay(debt, now), tx.reply, w), now)
  {
  }

  lemma RowAcquired(s: Sys, a: Action, w: Id)
    requires w in s.db.workflows && a.Acquire?
    ensures
      var o := Apply(s, a);
      && w in o.sys.db.workflows
      && o.sys.db.workflows[w] == RowAfter(s.db.workflows[w], EffectOn(s.db, a, o.reply, w), a.now)
  {
  }

  lemma RowCalled(s: Sys, a: Action, w: Id)
    requires w in s.db.workflows && !a.FireTimers? && !a.Pay? && !a.Acquire? && !a.ExpireLeases?
    ensures
      var o := Apply(s, a);
      && w in o.sys.db.workflows
      && o.sys.db.workflows[w] == RowAfter(s.db.workflows[w], EffectOn(s.db, a, o.reply, w), Clock(a))
  {
  }

  /** A row appears only by a CreateWorkflow of that id that is answered Done, which
      it is iff the id is free. */
  lemma RowMade(s: Sys, a: Action, w: Id)
    requires w !in s.db.workflows
    ensures
      var db' := Apply(s, a).sys.db;
      && (w in db'.workflows <==> a.Create? && a.w == w)
      && (a.Create? && a.w == w ==>
            Apply(s, a).reply == Done && db'.workflows[w] == Workflow(a.wtype, Queued, 0, None, None, a.now, a.now, None, 1))
  {
    if a.FireTimers? {
      FireAppendOnly(s.db, a.now, a.order);
    } else if IsSilent(a) {
      SilentCall(s, a);
    }
  }

  // ---------------------------------------------------------------- refusals

  /** Five calls are answered Done exactly to the owner of a RUNNING workflow, and
      ReleaseLease to the owner of any; the rest are lease mismatches. */
  lemma LeaseAnswers(s: Sys, a: Action, w: Id, k: Worker)
    requires
      || (a.Renew? && a.w == w && a.k == k) || (a.Complete? && a.w == w && a.k == k) || (a.Fail? && a.w == w && a.k == k)
      || (a.Wait? && a.w == w && a.k == k) || (a.Release? && a.w == w && a.k == k)
      || (a.Pay? && a.debt == RetryMark(w, k) && a.debt in s.owed)
    ensures
      var reply := Apply(s, a).reply;
      && (reply == Done <==>
            w in s.db.workflows && s.db.workflows[w].owner == Some(k) && (a.Release? || s.db.workflows[w].status == Running))
      && (reply != Done ==> reply == Failure(LeaseMismatch) && Apply(s, a).sys.db == s.db)
  {
  }

  /** CompleteStep and the lease check of StartStep and FailStep ask only for the
      owner: they tell a missing workflow from a foreign one, and CompleteStep a
      step that is COMPLETED already. */
  lemma StepAnswers(s: Sys, w: Id, k: Worker, n: int, input: Payload, output: Payload, message: string, now: int)
    ensures
      var finish, start := Apply(s, FinishStep(w, k, n, input, output, now)), Apply(s, VerifyStart(w, k, n, input));
      var fail := Apply(s, VerifyFail(w, k, n, input, message));
      && (finish.reply == Failure(NoRows) <==> w !in s.db.workflows)
      && (finish.reply == Failure(LeaseMismatch) <==> w in s.db.workflows && s.db.workflows[w].owner != Some(k))
      && (finish.reply == Failure(StepAlreadyCompleted) <==>
            && w in s.db.workflows && s.db.workflows[w].owner == Some(k)
            && (w, n) in s.db.steps && s.db.steps[(w, n)].status == StepCompleted)
      && (finish.reply == Done || (finish.reply.Failure? && finish.sys == s))
      && start.reply == fail.reply && start.sys.db == fail.sys.db == s.db
      && (start.reply == Verified <==> w in s.db.workflows && s.db.workflows[w].owner == Some(k))
      && (start.reply == Failure(NoRows) <==> w !in s.db.workflows)
      && (start.reply == Verified || start.reply == Failure(NoRows) || start.reply == Failure(LeaseMismatch))
  {
  }

  /** The write halves of StartStep and FailStep, and SendSignal, ask only that the
      workflow is there. */
  lemma ForeignKeyAnswers(s: Sys, w: Id, debt: Owed, signalType: string, payload: Payload, now: int)
    requires debt in s.owed && !debt.RetryMark? && debt.w == w
    ensures
      var reply, sent := Apply(s, Pay(debt, now)).reply, Apply(s, Send(w, signalType, payload, now)).reply;
      && reply == (if w in s.db.workflows then Done else Failure(ForeignKeyViolation))
      && sent == (if w in s.db.workflows then SignalSent(|s.db.signals|) else Failure(ForeignKeyViolation))
  {
  }

  // --------------------------------------------------------------- step rows

  /** The committed part of a call writes the row of step n of w. */
  predicate WritesStep(a: Action, w: Id, n: int) {
    || (a.FinishStep? && a.w == w && a.n == n)
    || (a.Pay? && !a.debt.RetryMark? && a.debt.w == w && a.debt.n == n)
  }

  function InputOf(a: Action): Payload
    requires a.FinishStep? || (a.Pay? && !a.debt.RetryMark?)
  {
    if a.FinishStep? then a.input else a.debt.input
  }

  predicate IsStart(a: Action) {
    a.Pay? && a.debt.StartWrite?
  }

  /** The row says what the call reported: the output, or the failure. */
  predicate Reports(row: StepRow, a: Action)
    requires a.FinishStep? || (a.Pay? && a.debt.FailWrite?)
  {
    && row.completedAt == Some(a.now)
    && if a.FinishStep? then row.status == StepCompleted && row.output == a.output
       else row.status == StepFailed && row.output == FailureOf(a.debt.n, a.debt.message)
  }

  /** The row of step n of w before and after a call. */
  ghost predicate StepRowMoves(steps: map<(Id, int), StepRow>, a: Action, reply: Reply, steps': map<(Id, int), StepRow>, w: Id, n: int) {
    var key := (w, n);
    if WritesStep(a, w, n) && reply == Done then
      && key in steps'
      && steps'[key].input == (if key in steps then steps[key].input else InputOf(a))
      && steps'[key].startedAt == (if key in steps then steps[key].startedAt else a.now)
      && (if !IsStart(a) then Reports(steps'[key], a)
          else if key in steps then steps'[key] == steps[key]
          else steps'[key].status == StepRunning && steps'[key].output == Null && steps'[key].completedAt == None)
    else
      && (key in steps' <==> key in steps)
      && (key in steps ==> steps'[key] == steps[key])
  }

  /** A step row is written by the calls for that step that are answered Done and
      by nothing else. The first gives it its input and start time; each CompleteStep
      and FailStep its status, its output and its completion time. StartStep leaves a
      row that is there as it is. */
  lemma StepRowStep(s: Sys, a: Action, w: Id, n: int)
    ensures StepRowMoves(s.db.steps, a, Apply(s, a).reply, Apply(s, a).sys.db.steps, w, n)
  {
    if a.FireTimers? {
      FireAppendOnly(s.db, a.now, a.order);
    } else if IsSilent(a) {
      SilentCall(s, a);
    } else if a.Pay? {
      StepRowPaid(s, a, w, n);
    }
  }

  lemma StepRowPaid(s: Sys, a: Action, w: Id, n: int)
    requires a.Pay?
    ensures StepRowMoves(s.db.steps, a, Apply(s, a).reply, Apply(s, a).sys.db.steps, w, n)
  {
  }

  // ------------------------------------------------------------------ events

  /** The event that a call with this answer logs for w. Firing is told apart. */
  function KindLogged(a: Action, reply: Reply, w: Id): Option<Kind> {
    match a
    case Create(v, _, _) => if v == w && reply == Done then Some(EvCreated) else None
    case Acquire(_, _, _, _) => if reply == Leased(w) then Some(EvStarted) else None
    case Complete(v, _, _) => if v == w && reply == Done then Some(EvCompleted) else None
    case Fail(v, _, _) => if v == w && reply == Done then Some(EvFailed) else None
    case FinishStep(v, _, n, _, output, _) => if v == w && reply == Done then Some(EvStepCompleted(n, output)) else None
    case Pay(StartWrite(v, _, n, input), _) => if v == w && reply == Done then Some(EvStepStarted(input)) else None
    case Pay(FailWrite(v, _, n, _, message), _) => if v == w && reply == Done then Some(EvStepFailed(n, message)) else None
    case Send(v, signalType, _, _) =>
      if v == w && reply.SignalSent? then Some(EvSignal(reply.position + 1, signalType)) else None
    case _ => None
  }

  /** At most one row is added to the table; one for w is of this kind and time. */
  ghost predicate Logs(events: seq<Event>, events': seq<Event>, w: Id, kind: Option<Kind>, now: int) {
    && events <= events' && |events'| <= |events| + 1
    && if kind.Some? then |events'| > |events| && events'[|events|] == Event(w, kind.value, events'[|events|].seqNo, now)
       else |events'| > |events| ==> events'[|events|].wf != w
  }

  /** Every event is the one its call's answer promises, with what the caller
      passed and at the caller's time; nothing but firing logs anything else. */
  lemma EventStep(s: Sys, a: Action, w: Id)
    requires !a.FireTimers?
    ensures Logs(s.db.events, Apply(s, a).sys.db.events, w, KindLogged(a, Apply(s, a).reply, w), Clock(a))
  {
    if IsSilent(a) {
      SilentCall(s, a);
    } else if a.Pay? {
      EventPaid(s.db, a.debt, a.now, w);
    } else if a.Acquire? {
      EventAcquired(s, a, w);
    } else {
      EventCalled(s, a, w);
    }
  }

  lemma EventPaid(db: Db, debt: Owed, now: int, w: Id)
    ensures
      var tx := WriteOwed(db, debt, now);
      Logs(db.events, tx.db.events, w, KindLogged(Pay(debt, now), tx.reply, w), now)
  {
  }

  lemma EventAcquired(s: Sys, a: Action, w: Id)
    requires a.Acquire?
    ensures Logs(s.db.events, Apply(s, a).sys.db.events, w, KindLogged(a, Apply(s, a).reply, w), a.now)
  {
  }

  lemma EventCalled(s: Sys, a: Action, w: Id)
    requires !IsSilent(a) && !a.Pay? && !a.Acquire? && !a.FireTimers?
    ensures Logs(s.db.events, Apply(s, a).sys.db.events, w, KindLogged(a, Apply(s, a).reply, w), Clock(a))
  {
  }

  // ----------------------------------------------------------------- timers

  /** A scheduler pass fires exactly the unfired timers due by its clock whose
      workflow is WAITING when it begins, leaves every other timer alone, and
      answers with their number. */
  lemma FirePass(s: Sys, now: int, order: seq<nat>, t: nat)
    requires Apply(s, FireTimers(now, order)).reply.Affected? && t < |s.db.timers|
    ensures
      var db, o := s.db, Apply(s, FireTimers(now, order));
      var row := o.sys.db.timers;
      && |row| == |db.timers|
      && row[t] == db.timers[t].(fired := db.timers[t].fired || ShouldFire(db, now, t))
      && o.reply.count == |set u: nat | u < |db.timers| && ShouldFire(db, now, u)|
  {
    FireApplies(s, now, order);
    FireExactly(s.db, now, order);
    FireCount(s.db, now, order);
    assert (set u: nat | u < |s.db.timers| && T.Fires(s.db, now, u)) == (set u: nat | u < |s.db.timers| && ShouldFire(s.db, now, u));
  }

  ghost predicate ShouldFire(db: Db, now: int, t: nat)
    requires t < |db.timers|
  {
    var timer := db.timers[t];
    && !timer.fired && timer.wakeAt <= now
    && timer.wf in db.workflows && db.workflows[timer.wf].status == Waiting
  }

  /** Every timer row is either untouched, or fired by a pass, or the new one that
      SetTimer or the first half of RetryStep asked for. */
  lemma TimerMade(s: Sys, a: Action)
    requires !a.FireTimers?
    ensures
      var timers, o := s.db.timers, Apply(s, a);
      if (a.SetTimer? || a.SetRetryTimer?) && a.w in s.db.workflows
      then o.reply == TimerSet(|timers|) && o.sys.db.timers == timers + [Timer(a.w, a.wakeAt, false)]
      else o.sys.db.timers == timers && (a.SetTimer? || a.SetRetryTimer? ==> o.reply == Failure(ForeignKeyViolation))
  {
    if a.Pay? {
      PayKeepsTimers(s.db, a.debt, a.now);
    }
  }

  lemma PayKeepsTimers(db: Db, debt: Owed, now: int)
    ensures WriteOwed(db, debt, now).db.timers == db.timers
  {
  }

  // ----------------------------------------------------------- expired leases

  ghost predicate LeaseRanOut(row: Workflow, now: int) {
    row.status == Running && row.expires.Some? && row.expires.value <= now
  }

  /** ExpireLeases requeues exactly the RUNNING workflows whose expiry is at or
      before its clock, leaves every other row and table alone, and answers with
      their number. */
  lemma ExpirePass(db: Db, now: int)
    ensures
      var tx := T.ExpireLeases(db, now);
      var rows := tx.db.workflows;
      && rows.Keys == db.workflows.Keys
      && (forall w :: w in db.workflows ==>
            rows[w] == RowAfter(db.workflows[w], if LeaseRanOut(db.workflows[w], now) then Requeued else Untouched, now))
      && tx.reply == Affected(|set w | w in db.workflows && LeaseRanOut(db.workflows[w], now)|)
      && tx.db == db.(workflows := rows)
      && (forall w :: w in rows ==> !LeaseRanOut(rows[w], now))
  {
    assert (set w | w in db.workflows && LeaseRanOut(db.workflows[w], now))
        == (set w | w in db.workflows && T.Lapsed(db.workflows[w], now));
  }

  /** After a scheduler cycle every RUNNING workflow has lease time left, every
      unfired timer of a WAITING one is still to come, and the rows changed are the
      WAITING ones with a due timer and the RUNNING ones whose lease had run out. */
  lemma TickRows(db: Db, now: int, order: seq<nat>, w: Id)
    requires T.FireOffered(db, now, order) && w in db.workflows
    ensures
      var db', row := T.Tick(db, now, order), db.workflows[w];
      && w in db'.workflows
      && db'.workflows[w] ==
           RowAfter(row, if (row.status == Waiting && TimerIsDue(db.timers, now, w)) || LeaseRanOut(row, now) then Requeued else Untouched, now)
      && (db'.workflows[w].status == Running && db'.workflows[w].expires.Some? ==> db'.workflows[w].expires.value > now)
      && (db'.workflows[w].status == Waiting ==> !TimerIsDue(db'.timers, now, w))
  {
    var mid := T.FireAll(db, now, order);
    FireExactly(db, now, order);
    WokenMeansDue(db, now, w);
    assert T.HasDueTimer(db, now, w) <==> TimerIsDue(db.timers, now, w);
    ExpirePass(mid, now);
    WokenMeansDue(mid, now, w);
    assert T.HasDueTimer(mid, now, w) <==> TimerIsDue(mid.timers, now, w);
  }

  // ---------------------------------------------------------------- signals

  /** ConsumeSignal may answer "none" exactly when every signal of w is consumed,
      and i exactly when i is an unconsumed signal of w and all older ones of w are
      consumed; it then marks that one and leaves everything else alone. */
  lemma ConsumeAnswers(s: Sys, w: Id, pick: Option<nat>)
    ensures
      var signals, o := s.db.signals, Apply(s, Consume(w, pick));
      && (o.reply == NoSignal || o.reply.SignalTaken? || o.reply == NotOffered)
      && (o.reply == NoSignal <==> pick == None && forall j :: 0 <= j < |signals| && signals[j].wf == w ==> signals[j].consumed)
      && (forall i: nat :: o.reply == SignalTaken(i) <==>
            && pick == Some(i) && i < |signals| && signals[i].wf == w && !signals[i].consumed
            && forall j :: 0 <= j < |signals| && signals[j].wf == w && signals[j].createdAt < signals[i].createdAt ==> signals[j].consumed)
      && o.sys == if o.reply.SignalTaken?
                  then s.(db := s.db.(signals := signals[o.reply.position := signals[o.reply.position].(consumed := true)]))
                  else s
  {
    forall j | 0 <= j < |s.db.signals| ensures T.IsPending(s.db, w, j) <==> s.db.signals[j].wf == w && !s.db.signals[j].consumed {
    }
  }

  // ------------------------------------------------------------ two-part calls

  /** The two steps of a two-part call with nothing in between: the second is taken
      only if the first succeeds, and then nothing is owed any more. */
  ghost predicate IsBoth(s: Sys, tx: Tx, first: Action, debt: Owed, now: int) {
    var o := Apply(s, first);
    if o.reply.Failure? then tx == Tx(o.sys.db, o.reply) && o.sys.owed == s.owed
    else
      var p := Apply(o.sys, Pay(debt, now));
      tx == Tx(p.sys.db, p.reply) && p.sys.owed == s.owed
  }

  lemma PaidAtOnce(s: Sys, db: Db, debt: Owed, now: int)
    ensures
      var p, tx := Apply(Sys(db, s.owed + multiset{debt}), Pay(debt, now)), WriteOwed(db, debt, now);
      p.sys.db == tx.db && p.reply == tx.reply && p.sys.owed == s.owed
  {
  }

  lemma StartStepIsBoth(s: Sys, w: Id, k: Worker, n: int, input: Payload, now: int)
    ensures IsBoth(s, T.StartStep(s.db, w, k, n, input, now), VerifyStart(w, k, n, input), StartWrite(w, k, n, input), now)
  {
    PaidAtOnce(s, s.db, StartWrite(w, k, n, input), now);
  }

  lemma FailStepIsBoth(s: Sys, w: Id, k: Worker, n: int, input: Payload, message: string, now: int)
    ensures
      IsBoth(s, T.FailStep(s.db, w, k, n, input, message, now), VerifyFail(w, k, n, input, message),
             FailWrite(w, k, n, input, message), now)
  {
    PaidAtOnce(s, s.db, FailWrite(w, k, n, input, message), now);
  }

  lemma RetryStepIsBoth(s: Sys, w: Id, k: Worker, wakeAt: int, later: int)
    ensures IsBoth(s, T.RetryStep(s.db, w, k, wakeAt, later), SetRetryTimer(w, k, wakeAt), RetryMark(w, k), later)
  {
    PaidAtOnce(s, T.CreateTimer(s.db, w, wakeAt).db, RetryMark(w, k), later);
  }
}
