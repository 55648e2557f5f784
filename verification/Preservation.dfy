/** Every atomic step keeps the invariant, one lemma a transaction. */
module Preservation {
  import opened Types
  import opened EventLog
  import opened Runs
  import opened Invariant
  import T = Transactions

  // ------------------------------------------------------ log is append-only

  lemma {:induction false} FireAppendOnly(db: Db, now: int, order: seq<nat>)
    ensures
      var db' := T.FireAll(db, now, order);
      && db.events <= db'.events
      && db.workflows.Keys == db'.workflows.Keys
      && db.steps == db'.steps && db.signals == db'.signals
      && |db.timers| == |db'.timers|
      && forall t :: 0 <= t < |db.timers| ==>
           db'.timers[t] == if t in order then db.timers[t].(fired := true) else db.timers[t]
  {
    if |order| > 0 {
      var prefix := order[..|order| - 1];
      FireAppendOnly(db, now, prefix);
      assert order == prefix + [order[|order| - 1]];
    }
  }

  /** Rows of workflow_events are never changed or removed, and workflows are
      never deleted. */
  lemma AppendOnly(s: Sys, a: Action)
    ensures
      var s' := Apply(s, a).sys;
      s.db.events <= s'.db.events && s.db.workflows.Keys <= s'.db.workflows.Keys
  {
    if a.FireTimers? {
      FireAppendOnly(s.db, a.now, a.order);
    } else if a.Pay? {
      PayAppendOnly(s.db, a.debt, a.now);
    } else if IsSilent(a) {
      SilentCall(s, a);
    }
  }

  lemma PayAppendOnly(db: Db, debt: Owed, now: int)
    ensures db.events <= WriteOwed(db, debt, now).db.events
    ensures db.workflows.Keys == WriteOwed(db, debt, now).db.workflows.Keys
  {
  }

  lemma {:induction false} LogPrefix(events: seq<Event>, events': seq<Event>, w: Id)
    requires events <= events'
    ensures T.LogOf(events, w) <= T.LogOf(events', w)
    decreases |events'|
  {
    if |events'| > |events| {
      LogPrefix(events, events'[..|events'| - 1], w);
    } else {
      assert events == events';
    }
  }

  lemma {:induction false} PastNew(ls: seq<Letter>, more: seq<Letter>)
    requires Drive(ls).Live? && Drive(ls).phase != New
    requires ls <= more && Accepted(more)
    ensures Drive(more).phase != New
    decreases |more|
  {
    if |more| > |ls| {
      PastNew(ls, more[..|more| - 1]);
    } else {
      assert ls == more;
    }
  }

  lemma {:induction false} LettersPrefix(log: seq<Event>, log': seq<Event>)
    requires log <= log'
    ensures Letters(log) <= Letters(log')
    decreases |log'|
  {
    if |log'| > |log| {
      LettersPrefix(log, log'[..|log'| - 1]);
    } else {
      assert log == log';
    }
  }

  lemma DebtKept(db: Db, db': Db, debt: Owed)
    requires DebtOk(db, debt) && DbInv(db')
    requires db.events <= db'.events && db.workflows.Keys <= db'.workflows.Keys
    ensures DebtOk(db', debt)
  {
    if debt.StartWrite? || debt.FailWrite? {
      var w := debt.w;
      LogPrefix(db.events, db'.events, w);
      LettersPrefix(T.LogOf(db.events, w), T.LogOf(db'.events, w));
      assert CoherentAt(db', w);
      PastNew(Letters(T.LogOf(db.events, w)), Letters(T.LogOf(db'.events, w)));
    }
  }

  // ----------------------------------------------------------- transactions

  lemma KeepCreate(db: Db, w: Id, wtype: string, now: int)
    requires DbInv(db)
    ensures DbInv(T.CreateWorkflow(db, w, wtype, now).db)
  {
    if w !in db.workflows {
      var db' := T.CreateWorkflow(db, w, wtype, now).db;
      NewViewOk(db, w, wtype, now);
      ChangedOne(db, db', w);
    }
  }

  /** Keys and foreign keys make the explicit sequence number 1 safe: a workflow
      that is not there has no events, steps, timers or signals. */
  lemma NewViewOk(db: Db, w: Id, wtype: string, now: int)
    requires Foreign(db) && w !in db.workflows
    ensures
      var db' := T.CreateWorkflow(db, w, wtype, now).db;
      CoherentAt(db', w)
  {
    var db' := T.CreateWorkflow(db, w, wtype, now).db;
    NothingYet(db, w);
    FirstLog(db.events, w, now);
    assert ViewOf(db', w) == View(T.NewRow(wtype, now), [Event(w, EvCreated, 1, now)], {}, 0, 0);
  }

  lemma NothingYet(db: Db, w: Id)
    requires Foreign(db) && w !in db.workflows
    ensures forall e :: e in db.events ==> e.wf != w
    ensures CompletedSteps(db.steps, w) == {} && FiredTimers(db.timers, w) == {} && SignalsOf(db.signals, w) == {}
  {
    assert forall t :: 0 <= t < |db.timers| ==> db.timers[t].wf != w;
    assert forall i :: 0 <= i < |db.signals| ==> db.signals[i].wf != w;
  }

  lemma FirstLog(events: seq<Event>, w: Id, now: int)
    requires forall e :: e in events ==> e.wf != w
    ensures
      var e := Event(w, EvCreated, 1, now);
      var log := T.LogOf(events + [e], w);
      && log == [e] && EndOf(log) == None
      && Drive(Letters(log)) == Live(New, {}) && Count(Letters(log)) == Tally(0, 0, 0, 0, 0, 0)
  {
    var e := Event(w, EvCreated, 1, now);
    NoEventsNoLog(events, w);
    LogAppend(events, e, w);
    LettersAppend([], e);
    DriveAppend([], Created);
    CountAppend([], Created);
    EndAppend([], e);
    assert [] + [e] == [e];
    assert [] + [Created] == [Created];
  }

  /** A row update with an event that the automaton accepts. */
  lemma KeepRowAndEvent(db: Db, w: Id, row: Workflow, kind: Kind, now: int)
    requires DbInv(db) && w in db.workflows
    requires MovesWith(db, w, row, kind, now)
    ensures DbInv(T.Append(T.SetRow(db, w, row), w, kind, now))
  {
    assert CoherentAt(db, w);
    RowAndEventView(db, w, row, kind, now);
    ChangedOne(db, T.Append(T.SetRow(db, w, row), w, kind, now), w);
  }

  /** The new row is the one the automaton's next state asks for. */
  ghost predicate MovesWith(db: Db, w: Id, row: Workflow, kind: Kind, now: int)
    requires w in db.workflows
  {
    var was := db.workflows[w];
    var q' := Delta(Drive(Letters(T.LogOf(db.events, w))), LetterOf(kind));
    && (kind == EvStarted || kind == EvCompleted || kind == EvFailed)
    && LeaseColumnsOk(row)
    && q'.Live? && Simulates(q'.phase, row.status)
    && row.currentStep == was.currentStep && row.version == was.version + 1
    && row.createdAt == was.createdAt
    && row.completedAt == (if kind == EvStarted then was.completedAt else Some(now))
  }

  lemma RowAndEventView(db: Db, w: Id, row: Workflow, kind: Kind, now: int)
    requires w in db.workflows && CoherentAt(db, w)
    requires MovesWith(db, w, row, kind, now)
    ensures
      var db' := T.Append(T.SetRow(db, w, row), w, kind, now);
      CoherentAt(db', w)
  {
    var db' := T.Append(T.SetRow(db, w, row), w, kind, now);
    var e := db'.events[|db.events|];
    LogAppend(db.events, e, w);
    Grow(ViewOf(db, w), ViewOf(db', w), e);
  }

  /** A row update without an event. */
  lemma KeepRow(db: Db, w: Id, row: Workflow)
    requires DbInv(db) && w in db.workflows
    requires LeaseColumnsOk(row)
    requires
      var q := Drive(Letters(T.LogOf(db.events, w)));
      q.Live? && Simulates(q.phase, row.status)
    requires row.currentStep == db.workflows[w].currentStep && row.version == db.workflows[w].version
    requires row.createdAt == db.workflows[w].createdAt && row.completedAt == db.workflows[w].completedAt
    ensures DbInv(T.SetRow(db, w, row))
  {
    assert CoherentAt(db, w);
    ChangedOne(db, T.SetRow(db, w, row), w);
  }

  lemma KeepAcquire(db: Db, k: Worker, secs: int, now: int, pick: Option<Id>)
    requires DbInv(db) && T.AcquireOffered(db, now, pick)
    ensures DbInv(T.AcquireLease(db, k, secs, now, pick).db)
  {
    if pick.Some? {
      assert CoherentAt(db, pick.value);
      KeepRowAndEvent(db, pick.value, T.LeasedRow(db.workflows[pick.value], k, secs, now), EvStarted, now);
    }
  }

  lemma KeepRenew(db: Db, w: Id, k: Worker, secs: int, now: int)
    requires DbInv(db)
    ensures DbInv(T.RenewLease(db, w, k, secs, now).db)
  {
    if T.Runs(db, w, k) {
      assert CoherentAt(db, w);
      KeepRow(db, w, db.workflows[w].(expires := Some(now + secs), updatedAt := now));
    }
  }

  lemma KeepRelease(db: Db, w: Id, k: Worker, now: int)
    requires DbInv(db)
    ensures DbInv(T.ReleaseLease(db, w, k, now).db)
  {
    if T.Holds(db, w, k) {
      assert CoherentAt(db, w);
      KeepRow(db, w, T.RequeuedRow(db.workflows[w], now));
    }
  }

  lemma KeepMarkWaiting(db: Db, w: Id, k: Worker, now: int)
    requires DbInv(db)
    ensures DbInv(T.MarkWaiting(db, w, k, now).db)
  {
    if T.Runs(db, w, k) {
      assert CoherentAt(db, w);
      KeepRow(db, w, db.workflows[w].(status := Waiting, updatedAt := now));
    }
  }

  lemma EndMoves(db: Db, w: Id, k: Worker, now: int)
    requires T.Runs(db, w, k) && CoherentAt(db, w)
    ensures MovesWith(db, w, T.EndedRow(db.workflows[w], Completed, now), EvCompleted, now)
    ensures MovesWith(db, w, T.EndedRow(db.workflows[w], Failed, now), EvFailed, now)
  {
  }

  lemma KeepComplete(db: Db, w: Id, k: Worker, now: int)
    requires DbInv(db)
    ensures DbInv(T.CompleteWorkflow(db, w, k, now).db)
  {
    if T.Runs(db, w, k) {
      assert CoherentAt(db, w);
      EndMoves(db, w, k, now);
      KeepRowAndEvent(db, w, T.EndedRow(db.workflows[w], Completed, now), EvCompleted, now);
    }
  }

  lemma KeepFail(db: Db, w: Id, k: Worker, now: int)
    requires DbInv(db)
    ensures DbInv(T.FailWorkflow(db, w, k, now).db)
  {
    if T.Runs(db, w, k) {
      assert CoherentAt(db, w);
      EndMoves(db, w, k, now);
      KeepRowAndEvent(db, w, T.EndedRow(db.workflows[w], Failed, now), EvFailed, now);
    }
  }

  lemma KeepCompleteStep(db: Db, w: Id, k: Worker, n: int, input: Payload, output: Payload, now: int)
    requires DbInv(db)
    ensures DbInv(T.CompleteStep(db, w, k, n, input, output, now).db)
  {
    var tx := T.CompleteStep(db, w, k, n, input, output, now);
    if tx.reply.Done? {
      assert CoherentAt(db, w);
      CompleteStepView(db, w, k, n, input, output, now);
      ChangedOne(db, tx.db, w);
    }
  }

  lemma CompletedMeans(db: Db, w: Id, n: int)
    ensures T.StepIsCompleted(db, w, n) <==> n in CompletedSteps(db.steps, w)
  {
    if T.StepIsCompleted(db, w, n) {
      var key := (w, n);
      assert key in db.steps && key.0 == w && db.steps[key].status == StepCompleted;
    }
  }

  /** A step row written for (w, n) adds n to the completed steps of w or takes it
      away. */
  lemma StepWritten(steps: map<(Id, int), StepRow>, w: Id, n: int, row: StepRow)
    ensures CompletedSteps(steps[(w, n) := row], w)
      == if row.status == StepCompleted then CompletedSteps(steps, w) + {n} else CompletedSteps(steps, w) - {n}
  {
    var steps' := steps[(w, n) := row];
    assert (w, n) in steps' && steps'[(w, n)] == row;
  }

  lemma CompleteStepView(db: Db, w: Id, k: Worker, n: int, input: Payload, output: Payload, now: int)
    requires w in db.workflows && CoherentAt(db, w)
    requires T.CompleteStep(db, w, k, n, input, output, now).reply.Done?
    ensures CoherentAt(T.CompleteStep(db, w, k, n, input, output, now).db, w)
  {
    var db' := T.CompleteStep(db, w, k, n, input, output, now).db;
    var e := Event(w, EvStepCompleted(n, output), T.NextSeq(T.LogOf(db.events, w)), now);
    LogAppend(db.events, e, w);
    assert db'.events == db.events + [e];
    assert CompletedSteps(db'.steps, w) == CompletedSteps(db.steps, w) + {n} && n !in CompletedSteps(db.steps, w) by {
      StepWritten(db.steps, w, n, T.Upserted(db, w, n, StepCompleted, input, output, now));
      CompletedMeans(db, w, n);
    }
    Grow(ViewOf(db, w), ViewOf(db', w), e);
  }

  ghost predicate HasBeenLeased(db: Db, w: Id) {
    w in db.workflows ==>
      var q := Drive(Letters(T.LogOf(db.events, w)));
      q.Live? && q.phase != New
  }

  lemma KeepWriteStepFailure(db: Db, w: Id, n: int, input: Payload, message: string, now: int)
    requires DbInv(db) && HasBeenLeased(db, w)
    ensures DbInv(T.WriteStepFailure(db, w, n, input, message, now).db)
  {
    if w in db.workflows {
      assert CoherentAt(db, w);
      StepFailureView(db, w, n, input, message, now);
      ChangedOne(db, T.WriteStepFailure(db, w, n, input, message, now).db, w);
    }
  }

  lemma StepFailureView(db: Db, w: Id, n: int, input: Payload, message: string, now: int)
    requires w in db.workflows && CoherentAt(db, w) && HasBeenLeased(db, w)
    ensures CoherentAt(T.WriteStepFailure(db, w, n, input, message, now).db, w)
  {
    var db' := T.WriteStepFailure(db, w, n, input, message, now).db;
    var e := db'.events[|db.events|];
    LogAppend(db.events, e, w);
    StepWritten(db.steps, w, n, db'.steps[(w, n)]);
    Grow(ViewOf(db, w), ViewOf(db', w), e);
  }

  lemma KeepWriteStepStart(db: Db, w: Id, n: int, input: Payload, now: int)
    requires DbInv(db) && HasBeenLeased(db, w)
    ensures DbInv(T.WriteStepStart(db, w, n, input, now).db)
  {
    if w in db.workflows {
      assert CoherentAt(db, w);
      StepStartView(db, w, n, input, now);
      ChangedOne(db, T.WriteStepStart(db, w, n, input, now).db, w);
    }
  }

  lemma StepStartView(db: Db, w: Id, n: int, input: Payload, now: int)
    requires w in db.workflows && CoherentAt(db, w) && HasBeenLeased(db, w)
    ensures CoherentAt(T.WriteStepStart(db, w, n, input, now).db, w)
  {
    var db' := T.WriteStepStart(db, w, n, input, now).db;
    var e := db'.events[|db.events|];
    LogAppend(db.events, e, w);
    assert CompletedSteps(db'.steps, w) == CompletedSteps(db.steps, w);
    Grow(ViewOf(db, w), ViewOf(db', w), e);
  }

  lemma KeepSend(db: Db, w: Id, signalType: string, payload: Payload, now: int)
    requires DbInv(db)
    ensures DbInv(T.SendSignal(db, w, signalType, payload, now).db)
  {
    if w in db.workflows {
      assert CoherentAt(db, w);
      SendView(db, w, signalType, payload, now);
      ChangedOne(db, T.SendSignal(db, w, signalType, payload, now).db, w);
    }
  }

  lemma SignalAdded(signals: seq<Signal>, x: Signal, w: Id)
    requires x.wf == w
    ensures |SignalsOf(signals + [x], w)| == |SignalsOf(signals, w)| + 1
  {
    var was, now := SignalsOf(signals, w), SignalsOf(signals + [x], w);
    assert |signals| in now && |signals| !in was;
    assert now - {|signals|} == was;
  }

  lemma SendView(db: Db, w: Id, signalType: string, payload: Payload, now: int)
    requires w in db.workflows && CoherentAt(db, w)
    ensures CoherentAt(T.SendSignal(db, w, signalType, payload, now).db, w)
  {
    var db' := T.SendSignal(db, w, signalType, payload, now).db;
    var e := db'.events[|db.events|];
    LogAppend(db.events, e, w);
    SignalAdded(db.signals, db'.signals[|db.signals|], w);
    Grow(ViewOf(db, w), ViewOf(db', w), e);
  }

  lemma KeepConsume(db: Db, w: Id, pick: Option<nat>)
    requires DbInv(db) && T.ConsumeOffered(db, w, pick)
    ensures DbInv(T.ConsumeSignal(db, w, pick).db)
  {
    if pick.Some? {
      assert CoherentAt(db, w);
      ConsumeView(db, w, pick.value);
      ChangedOne(db, T.ConsumeSignal(db, w, pick).db, w);
    }
  }

  lemma ConsumeView(db: Db, w: Id, i: nat)
    requires Foreign(db) && T.IsOldestSignal(db, w, i)
    ensures
      var db' := T.ConsumeSignal(db, w, Some(i)).db;
      w in db.workflows && SignalsOf(db'.signals, w) == SignalsOf(db.signals, w)
  {
    assert db.signals[i] in db.signals;
  }

  lemma KeepCreateTimer(db: Db, w: Id, wakeAt: int)
    requires DbInv(db)
    ensures DbInv(T.CreateTimer(db, w, wakeAt).db)
  {
    if w in db.workflows {
      var db' := T.CreateTimer(db, w, wakeAt).db;
      assert CoherentAt(db, w);
      TimerSetView(db, w, wakeAt);
      ChangedOne(db, db', w);
    }
  }

  lemma TimerSetView(db: Db, w: Id, wakeAt: int)
    requires Foreign(db) && w in db.workflows
    ensures
      var db' := T.CreateTimer(db, w, wakeAt).db;
      FiredTimers(db'.timers, w) == FiredTimers(db.timers, w)
  {
  }

  ghost predicate Wakeable(db: Db, w: Id) {
    && w in db.workflows && db.workflows[w].status in {Queued, Waiting}
    && var q := Drive(Letters(T.LogOf(db.events, w)));
       q.Live? && q.phase in {Out, Fired}
  }

  lemma KeepFireOne(db: Db, now: int, t: nat)
    requires DbInv(db) && t < |db.timers| && !db.timers[t].fired
    requires Wakeable(db, db.timers[t].wf)
    ensures DbInv(T.FireOne(db, now, t))
    ensures forall v :: Wakeable(db, v) ==> Wakeable(T.FireOne(db, now, t), v)
  {
    var db', w := T.FireOne(db, now, t), db.timers[t].wf;
    assert CoherentAt(db, w);
    FireOneView(db, now, t);
    ChangedOne(db, db', w);
    forall v | Wakeable(db, v) && v != w ensures Wakeable(db', v) {
      OthersSame(db, db', w, v);
    }
  }

  lemma FireOneView(db: Db, now: int, t: nat)
    requires t < |db.timers| && !db.timers[t].fired
    requires Wakeable(db, db.timers[t].wf) && CoherentAt(db, db.timers[t].wf)
    ensures
      var db', w := T.FireOne(db, now, t), db.timers[t].wf;
      CoherentAt(db', w) && Wakeable(db', w)
  {
    var db', w := T.FireOne(db, now, t), db.timers[t].wf;
    var e := db'.events[|db.events|];
    LogAppend(db.events, e, w);
    LettersAppend(T.LogOf(db.events, w), e);
    DriveAppend(Letters(T.LogOf(db.events, w)), Woken);
    assert FiredTimers(db'.timers, w) == FiredTimers(db.timers, w) + {t};
    Grow(ViewOf(db, w), ViewOf(db', w), e);
  }

  /** Any part of the loop over due timers keeps the invariant, and leaves the
      workflows of the timers it has not reached ready to be woken. */
  lemma {:induction false} KeepFireAll(db: Db, now: int, order: seq<nat>)
    requires DbInv(db)
    requires Distinct(order)
    requires forall t :: t in order ==> T.Fires(db, now, t)
    ensures DbInv(T.FireAll(db, now, order))
    ensures forall v :: Wakeable(db, v) ==> Wakeable(T.FireAll(db, now, order), v)
  {
    if |order| > 0 {
      var prefix, last := order[..|order| - 1], order[|order| - 1];
      assert last in order && last !in prefix;
      KeepFireAll(db, now, prefix);
      FireAppendOnly(db, now, prefix);
      assert T.Fires(db, now, last);
      assert CoherentAt(db, db.timers[last].wf);
      assert Wakeable(db, db.timers[last].wf);
      KeepFireOne(T.FireAll(db, now, prefix), now, last);
    }
  }

  lemma KeepExpire(db: Db, now: int)
    requires DbInv(db)
    ensures DbInv(T.ExpireLeases(db, now).db)
  {
    var db' := T.ExpireLeases(db, now).db;
    forall w ensures CoherentAt(db', w) {
      assert CoherentAt(db, w);
    }
  }

  // ------------------------------------------------------------- every step

  lemma DebtMade(db: Db, w: Id, k: Worker)
    requires DbInv(db) && T.Holds(db, w, k)
    ensures HasBeenLeased(db, w)
  {
    assert CoherentAt(db, w);
  }

  lemma KeepPay(db: Db, debt: Owed, now: int)
    requires DbInv(db) && DebtOk(db, debt)
    ensures DbInv(WriteOwed(db, debt, now).db)
  {
    match debt
    case StartWrite(w, _, n, input) => KeepWriteStepStart(db, w, n, input, now);
    case FailWrite(w, _, n, input, message) => KeepWriteStepFailure(db, w, n, input, message, now);
    case RetryMark(w, k) => KeepMarkWaiting(db, w, k, now);
  }

  lemma KeepSilent(s: Sys, a: Action)
    requires Inv(s) && IsSilent(a)
    ensures DbInv(Apply(s, a).sys.db)
  {
    match a
    case Renew(w, k, secs, now) => KeepRenew(s.db, w, k, secs, now);
    case Release(w, k, now) => KeepRelease(s.db, w, k, now);
    case Wait(w, k, now) => KeepMarkWaiting(s.db, w, k, now);
    case VerifyStart(w, k, n, input) =>
    case VerifyFail(w, k, n, input, message) =>
    case SetRetryTimer(w, k, wakeAt) => KeepCreateTimer(s.db, w, wakeAt);
    case SetTimer(w, wakeAt) => KeepCreateTimer(s.db, w, wakeAt);
    case Consume(w, pick) => if T.ConsumeOffered(s.db, w, pick) { KeepConsume(s.db, w, pick); }
    case ExpireLeases(now) => KeepExpire(s.db, now);
  }

  lemma KeepLogging(s: Sys, a: Action)
    requires Inv(s) && !IsSilent(a)
    ensures DbInv(Apply(s, a).sys.db)
  {
    match a
    case Create(w, wtype, now) => KeepCreate(s.db, w, wtype, now);
    case Acquire(k, secs, now, pick) =>
      if T.AcquireOffered(s.db, now, pick) { KeepAcquire(s.db, k, secs, now, pick); }
    case Complete(w, k, now) => KeepComplete(s.db, w, k, now);
    case Fail(w, k, now) => KeepFail(s.db, w, k, now);
    case FinishStep(w, k, n, input, output, now) => KeepCompleteStep(s.db, w, k, n, input, output, now);
    case Pay(debt, now) => if debt in s.owed { KeepPay(s.db, debt, now); }
    case Send(w, signalType, payload, now) => KeepSend(s.db, w, signalType, payload, now);
    case FireTimers(now, order) => if T.FireOffered(s.db, now, order) { KeepFireAll(s.db, now, order); }
  }

  lemma KeepInv(s: Sys, a: Action)
    requires Inv(s)
    ensures Inv(Apply(s, a).sys)
  {
    var s' := Apply(s, a).sys;
    if IsSilent(a) { KeepSilent(s, a); } else { KeepLogging(s, a); }
    AppendOnly(s, a);
    forall debt | debt in s'.owed ensures DebtOk(s'.db, debt) {
      if debt in s.owed {
        DebtKept(s.db, s'.db, debt);
      } else if a.VerifyStart? || a.VerifyFail? {
        DebtMade(s.db, a.w, a.k);
      }
    }
  }

  /** The invariant holds in every state of every run. */
  lemma {:induction false} Reachable(acts: seq<Action>)
    ensures Inv(Exec(INIT, acts))
  {
    if |acts| > 0 {
      Reachable(acts[..|acts| - 1]);
      KeepInv(Exec(INIT, acts[..|acts| - 1]), acts[|acts| - 1]);
    }
  }
}
