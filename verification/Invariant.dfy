/** The invariant that ties a workflow's row to its log, its step rows, its
    timers and its signals, and what keeps one workflow's part of it. */
module Invariant {
  import opened Types
  import opened EventLog
  import opened Runs
  import T = Transactions

  // ------------------------------------------------------------ one workflow

  /** Everything the database holds about one workflow. */
  datatype View = View(row: Workflow, log: seq<Event>, done: set<int>, fired: nat, signals: nat)

  ghost function CompletedSteps(steps: map<(Id, int), StepRow>, w: Id): set<int> {
    set key | key in steps && key.0 == w && steps[key].status == StepCompleted :: key.1
  }

  ghost function FiredTimers(timers: seq<Timer>, w: Id): set<int> {
    set t | 0 <= t < |timers| && timers[t].wf == w && timers[t].fired
  }

  ghost function SignalsOf(signals: seq<Signal>, w: Id): set<int> {
    set i | 0 <= i < |signals| && signals[i].wf == w
  }

  ghost function ViewOf(db: Db, w: Id): View
    requires w in db.workflows
  {
    View(db.workflows[w], T.LogOf(db.events, w),
         CompletedSteps(db.steps, w), |FiredTimers(db.timers, w)|, |SignalsOf(db.signals, w)|)
  }

  ghost predicate Numbered(log: seq<Event>) {
    forall i :: 0 <= i < |log| ==> log[i].seqNo == i + 1
  }

  /** When the terminal event was logged, if there is one. */
  function EndOf(log: seq<Event>): Option<int> {
    if |log| == 0 then None
    else
      var last := log[|log| - 1];
      if last.kind == EvCompleted || last.kind == EvFailed then Some(last.createdAt)
      else EndOf(log[..|log| - 1])
  }

  predicate LeaseColumnsOk(row: Workflow) {
    && (row.owner.Some? <==> row.status == Running || row.status == Waiting)
    && (row.expires.Some? <==> row.status == Running || row.status == Waiting)
    && (row.completedAt.Some? <==> row.status == Completed || row.status == Failed)
  }

  predicate Simulates(phase: Phase, status: Status) {
    && (status == Running || status == Waiting ==> phase == Out)
    && (status == Completed <==> phase == Succeeded)
    && (status == Failed <==> phase == Broken)
  }

  ghost predicate Coherent(v: View) {
    var q, c := Drive(Letters(v.log)), Count(Letters(v.log));
    && LeaseColumnsOk(v.row)
    && Numbered(v.log)
    && q.Live?
    && Simulates(q.phase, v.row.status)
    && q.done == v.done
    && v.row.currentStep == c.completions
    && v.row.version == 1 + c.starts + c.completions + c.terminals
    && v.fired == c.fired
    && v.signals == c.signals
    && |v.log| > 0 && v.log[0].kind == EvCreated && v.log[0].createdAt == v.row.createdAt
    && v.row.completedAt == EndOf(v.log)
  }

  // -------------------------------------------------------------- the whole

  /** The foreign keys. */
  ghost predicate Foreign(db: Db) {
    && (forall e :: e in db.events ==> e.wf in db.workflows)
    && (forall key :: key in db.steps ==> key.0 in db.workflows)
    && (forall x :: x in db.signals ==> x.wf in db.workflows)
    && (forall x :: x in db.timers ==> x.wf in db.workflows)
  }

  ghost predicate CoherentAt(db: Db, w: Id) {
    w in db.workflows ==> Coherent(ViewOf(db, w))
  }

  ghost predicate DbInv(db: Db) {
    && Foreign(db)
    && forall w :: CoherentAt(db, w)
  }

  /** A half-done StartStep or FailStep passed its lease check once, so its
      workflow has been leased. */
  ghost predicate DebtOk(db: Db, debt: Owed) {
    debt.StartWrite? || debt.FailWrite? ==>
      && debt.w in db.workflows
      && var q := Drive(Letters(T.LogOf(db.events, debt.w)));
         q.Live? && q.phase != New
  }

  ghost predicate Inv(s: Sys) {
    DbInv(s.db) && forall debt :: debt in s.owed ==> DebtOk(s.db, debt)
  }

  // ---------------------------------------------------------- log bookkeeping

  lemma LogAppend(events: seq<Event>, e: Event, w: Id)
    ensures T.LogOf(events + [e], w) == T.LogOf(events, w) + (if e.wf == w then [e] else [])
  {
    assert (events + [e])[..|events|] == events;
  }

  lemma {:induction false} NoEventsNoLog(events: seq<Event>, w: Id)
    requires forall e :: e in events ==> e.wf != w
    ensures T.LogOf(events, w) == []
  {
    if |events| > 0 {
      NoEventsNoLog(events[..|events| - 1], w);
    }
  }

  /** On a log numbered 1..n the next number is n + 1. */
  lemma {:induction false} NextIsLength(log: seq<Event>)
    requires Numbered(log)
    ensures T.NextSeq(log) == |log| + 1
    ensures |log| > 0 ==> T.MaxSeq(log) == Some(|log|)
  {
    if |log| > 0 {
      NextIsLength(log[..|log| - 1]);
    }
  }

  lemma EndAppend(log: seq<Event>, e: Event)
    ensures EndOf(log + [e]) == if e.kind == EvCompleted || e.kind == EvFailed then Some(e.createdAt) else EndOf(log)
  {
    assert (log + [e])[..|log|] == log;
  }

  // ------------------------------------------------------- changing one view

  /** An event with the next number keeps a view coherent when the automaton
      accepts it and the row moves with it. */
  lemma Grow(v: View, v': View, e: Event)
    requires Coherent(v)
    requires v'.log == v.log + [e] && e.seqNo == T.NextSeq(v.log)
    requires LeaseColumnsOk(v'.row)
    requires
      var q' := Delta(Drive(Letters(v.log)), LetterOf(e.kind));
      q'.Live? && q'.done == v'.done && Simulates(q'.phase, v'.row.status)
    requires v'.row.currentStep == v.row.currentStep + (if e.kind.EvStepCompleted? then 1 else 0)
    requires v'.row.version == v.row.version +
      (if e.kind.EvStarted? || e.kind.EvStepCompleted? || e.kind.EvCompleted? || e.kind.EvFailed? then 1 else 0)
    requires v'.fired == v.fired + (if e.kind.EvTimerFired? then 1 else 0)
    requires v'.signals == v.signals + (if e.kind.EvSignal? then 1 else 0)
    requires v'.row.createdAt == v.row.createdAt
    requires v'.row.completedAt ==
      if e.kind == EvCompleted || e.kind == EvFailed then Some(e.createdAt) else v.row.completedAt
    ensures Coherent(v')
  {
    NextIsLength(v.log);
    LettersAppend(v.log, e);
    DriveAppend(Letters(v.log), LetterOf(e.kind));
    CountAppend(Letters(v.log), LetterOf(e.kind));
    EndAppend(v.log, e);
    assert v'.log[0] == v.log[0];
  }

  /** The two databases differ, if at all, in rows that belong to w; the log of
      w may have grown by one row. */
  ghost predicate DiffersOnlyOn(db: Db, db': Db, w: Id) {
    && WorkflowsDifferOn(db.workflows, db'.workflows, w)
    && EventsDifferOn(db.events, db'.events, w)
    && StepsDifferOn(db.steps, db'.steps, w)
    && TimersDifferOn(db.timers, db'.timers, w)
    && SignalsDifferOn(db.signals, db'.signals, w)
  }

  ghost predicate WorkflowsDifferOn(m: map<Id, Workflow>, m': map<Id, Workflow>, w: Id) {
    forall v :: v != w ==> (v in m <==> v in m') && (v in m ==> m[v] == m'[v])
  }

  ghost predicate EventsDifferOn(s: seq<Event>, s': seq<Event>, w: Id) {
    s' == s || (|s'| == |s| + 1 && s' == s + [s'[|s|]] && s'[|s|].wf == w)
  }

  ghost predicate StepsDifferOn(m: map<(Id, int), StepRow>, m': map<(Id, int), StepRow>, w: Id) {
    forall key: (Id, int) :: key.0 != w ==> (key in m <==> key in m') && (key in m ==> m[key] == m'[key])
  }

  ghost predicate TimersDifferOn(s: seq<Timer>, s': seq<Timer>, w: Id) {
    && |s| <= |s'|
    && (forall t :: 0 <= t < |s| ==> s'[t] == s[t] || s'[t].wf == s[t].wf == w)
    && (forall t :: |s| <= t < |s'| ==> s'[t].wf == w)
  }

  ghost predicate SignalsDifferOn(s: seq<Signal>, s': seq<Signal>, w: Id) {
    && |s| <= |s'|
    && (forall i :: 0 <= i < |s| ==> s'[i].wf == s[i].wf)
    && (forall i :: |s| <= i < |s'| ==> s'[i].wf == w)
  }

  lemma OthersSame(db: Db, db': Db, w: Id, v: Id)
    requires DiffersOnlyOn(db, db', w) && v != w
    ensures v in db.workflows <==> v in db'.workflows
    ensures v in db.workflows ==> ViewOf(db, v) == ViewOf(db', v)
    ensures T.LogOf(db.events, v) == T.LogOf(db'.events, v)
  {
    if db'.events != db.events {
      LogAppend(db.events, db'.events[|db.events|], v);
    }
    assert CompletedSteps(db.steps, v) == CompletedSteps(db'.steps, v);
    assert FiredTimers(db.timers, v) == FiredTimers(db'.timers, v);
    assert SignalsOf(db.signals, v) == SignalsOf(db'.signals, v);
  }

  /** Rows of a workflow that is there break no foreign key. */
  lemma ForeignKept(db: Db, db': Db, w: Id)
    requires Foreign(db) && DiffersOnlyOn(db, db', w) && w in db'.workflows
    ensures Foreign(db')
  {
    forall x | x in db'.timers ensures x.wf in db'.workflows {
      var t :| 0 <= t < |db'.timers| && db'.timers[t] == x;
      assert t < |db.timers| ==> db.timers[t] in db.timers;
    }
    forall x | x in db'.signals ensures x.wf in db'.workflows {
      var i :| 0 <= i < |db'.signals| && db'.signals[i] == x;
      assert i < |db.signals| ==> db.signals[i] in db.signals;
    }
  }

  lemma ChangedOne(db: Db, db': Db, w: Id)
    requires DbInv(db) && DiffersOnlyOn(db, db', w)
    requires w in db'.workflows && CoherentAt(db', w)
    ensures DbInv(db')
  {
    ForeignKept(db, db', w);
    forall v ensures CoherentAt(db', v) {
      if v != w {
        assert CoherentAt(db, v);
        OthersSame(db, db', w, v);
      }
    }
  }
}
