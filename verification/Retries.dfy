/** RetryStep commits its timer before it marks the workflow WAITING. What can
    happen to the timer in between, and what a refused call leaves behind. */
module Retries {
  import opened Types
  import opened Runs
  import opened Invariant
  import opened Preservation
  import opened Timers
  import opened Calls
  import opened History
  import T = Transactions

  // ------------------------------------------------------ the life of a timer

  /** A timer is marked fired only by the transaction that takes its workflow
      from WAITING to QUEUED, at or after its wake time. */
  lemma FiredOnlyOnWaking(s: Sys, a: Action, t: nat)
    requires t < |s.db.timers| && !s.db.timers[t].fired
    requires t < |Apply(s, a).sys.db.timers| && Apply(s, a).sys.db.timers[t].fired
    ensures
      var db, db', w := s.db, Apply(s, a).sys.db, s.db.timers[t].wf;
      && a.FireTimers? && db.timers[t].wakeAt <= a.now
      && w in db.workflows && w in db'.workflows
      && db.workflows[w].status == Waiting && db'.workflows[w].status == Queued
  {
    if !a.FireTimers? {
      TimerMade(s, a);
    } else if T.FireOffered(s.db, a.now, a.order) {
      FireApplies(s, a.now, a.order);
      FireExactly(s.db, a.now, a.order);
      assert T.Fires(s.db, a.now, t);
    }
  }

  lemma TimersKept(s: Sys, a: Action, t: nat)
    requires t < |s.db.timers|
    ensures
      var timers := Apply(s, a).sys.db.timers;
      && t < |timers| && timers[t].wf == s.db.timers[t].wf && timers[t].wakeAt == s.db.timers[t].wakeAt
      && (s.db.timers[t].fired ==> timers[t].fired)
  {
    if a.FireTimers? {
      FireAppendOnly(s.db, a.now, a.order);
    } else {
      TimerMade(s, a);
    }
  }

  ghost predicate IsOut(db: Db, w: Id) {
    w in db.workflows && (db.workflows[w].status == Running || db.workflows[w].status == Waiting)
  }

  /** Only AcquireLease makes a workflow RUNNING or WAITING that was neither. */
  lemma OnlyAcquireLeases(s: Sys, a: Action, w: Id)
    requires !IsOut(s.db, w) && Apply(s, a).reply != Leased(w)
    ensures !IsOut(Apply(s, a).sys.db, w)
  {
    if a.FireTimers? {
      FireAppendOnly(s.db, a.now, a.order);
      if w in s.db.workflows {
        FireRows(s.db, a.now, a.order, w);
      }
    } else if a.Pay? {
      PayLeasesNothing(s.db, a.debt, a.now, w);
    }
  }

  lemma PayLeasesNothing(db: Db, debt: Owed, now: int, w: Id)
    requires !IsOut(db, w)
    ensures !IsOut(WriteOwed(db, debt, now).db, w)
  {
  }

  /** The step is a scheduler pass at or after wakeAt that finds w WAITING. */
  ghost predicate WakesAt(s: Sys, a: Action, w: Id, wakeAt: int) {
    && a.FireTimers? && wakeAt <= a.now && T.FireOffered(s.db, a.now, a.order)
    && w in s.db.workflows && s.db.workflows[w].status == Waiting
  }

  ghost predicate WokenDuring(s: Sys, acts: seq<Action>, w: Id, wakeAt: int) {
    exists i :: 0 <= i < |acts| && WakesAt(Exec(s, acts[..i]), acts[i], w, wakeAt)
  }

  lemma TimerStep(s: Sys, a: Action, t: nat)
    requires t < |s.db.timers|
    ensures
      var timers, was := Apply(s, a).sys.db.timers, s.db.timers[t];
      t < |timers| && timers[t] == was.(fired := was.fired || WakesAt(s, a, was.wf, was.wakeAt))
  {
    TimersKept(s, a, t);
    if WakesAt(s, a, s.db.timers[t].wf, s.db.timers[t].wakeAt) {
      FireApplies(s, a.now, a.order);
      FireExactly(s.db, a.now, a.order);
      assert T.Fires(s.db, a.now, t) || s.db.timers[t].fired;
    } else if !s.db.timers[t].fired && Apply(s, a).sys.db.timers[t].fired {
      FiredOnlyOnWaking(s, a, t);
    }
  }

  lemma WokenGrows(s: Sys, acts: seq<Action>, a: Action, w: Id, wakeAt: int)
    ensures WokenDuring(s, acts + [a], w, wakeAt) <==> WokenDuring(s, acts, w, wakeAt) || WakesAt(Exec(s, acts), a, w, wakeAt)
  {
    var more := acts + [a];
    assert more[..|acts|] == acts && more[|acts|] == a;
    assert forall i :: 0 <= i < |acts| ==> more[..i] == acts[..i] && more[i] == acts[i];
    if WokenDuring(s, acts, w, wakeAt) {
      var i :| 0 <= i < |acts| && WakesAt(Exec(s, acts[..i]), acts[i], w, wakeAt);
      assert WakesAt(Exec(s, more[..i]), more[i], w, wakeAt);
    }
  }

  /** After any continuation a timer has fired exactly if some scheduler pass at
      or after its wake time found its workflow WAITING. */
  lemma {:induction false} TimerHistory(s: Sys, acts: seq<Action>, t: nat)
    requires t < |s.db.timers| && !s.db.timers[t].fired
    ensures
      var timers, was := Exec(s, acts).db.timers, s.db.timers[t];
      t < |timers| && timers[t] == was.(fired := WokenDuring(s, acts, was.wf, was.wakeAt))
  {
    if |acts| > 0 {
      var before, last := acts[..|acts| - 1], acts[|acts| - 1];
      assert acts == before + [last];
      TimerHistory(s, before, t);
      TimerStep(Exec(s, before), last, t);
      WokenGrows(s, before, last, s.db.timers[t].wf, s.db.timers[t].wakeAt);
    }
  }

  /** In every run a timer has the workflow and the wake time that its CreateTimer
      or RetryStep asked for, and has fired iff a pass at or after that time has
      found the workflow WAITING since. */
  lemma TimerAsSet(acts: seq<Action>, i: nat, p: nat)
    requires i < |acts| && (acts[i].SetTimer? || acts[i].SetRetryTimer?) && ReplyAt(INIT, acts, i) == TimerSet(p)
    ensures
      var timers, since := Exec(INIT, acts).db.timers, Exec(INIT, acts[..i + 1]);
      p < |timers| && timers[p] == Timer(acts[i].w, acts[i].wakeAt, WokenDuring(since, acts[i + 1..], acts[i].w, acts[i].wakeAt))
  {
    var before, rest := acts[..i], acts[i + 1..];
    assert acts[..i + 1] == before + [acts[i]];
    assert acts == acts[..i + 1] + rest;
    ExecOne(INIT, before, acts[i]);
    SetsTimer(Exec(INIT, before), acts[i], p);
    ExecConcat(INIT, acts[..i + 1], rest);
    TimerHistory(Exec(INIT, acts[..i + 1]), rest, p);
  }

  lemma SetsTimer(s: Sys, a: Action, p: nat)
    requires (a.SetTimer? || a.SetRetryTimer?) && Apply(s, a).reply == TimerSet(p)
    ensures p < |Apply(s, a).sys.db.timers| && Apply(s, a).sys.db.timers[p] == Timer(a.w, a.wakeAt, false)
  {
    TimerMade(s, a);
  }

  // ------------------------------------------------- between the two halves

  /** The retry timer is set and then, after any steps of anyone, the workflow is
      marked WAITING. */
  ghost predicate Retried(s: Sys, w: Id, k: Worker, wakeAt: int, acts: seq<Action>, now: int) {
    && w in s.db.workflows
    && Apply(Exec(TimerSetIn(s, w, k, wakeAt), acts), Pay(RetryMark(w, k), now)).reply == Done
  }

  ghost function TimerSetIn(s: Sys, w: Id, k: Worker, wakeAt: int): Sys {
    Apply(s, SetRetryTimer(w, k, wakeAt)).sys
  }

  ghost function MarkedIn(s: Sys, w: Id, k: Worker, now: int): Db {
    Apply(s, Pay(RetryMark(w, k), now)).sys.db
  }

  lemma MarkSucceeds(s: Sys, w: Id, k: Worker, now: int)
    requires Apply(s, Pay(RetryMark(w, k), now)).reply == Done
    ensures T.Runs(s.db, w, k)
    ensures MarkedIn(s, w, k, now) == T.SetRow(s.db, w, s.db.workflows[w].(status := Waiting, updatedAt := now))
  {
  }

  lemma TimerIsSet(s: Sys, w: Id, k: Worker, wakeAt: int)
    requires w in s.db.workflows
    ensures TimerSetIn(s, w, k, wakeAt).db.timers == s.db.timers + [Timer(w, wakeAt, false)]
  {
  }

  /** Exactly when RetryStep keeps its wake-up: the timer still stands when the
      call has succeeded iff no scheduler pass at or after the wake time found the
      workflow WAITING between the two halves. RetryStep could test this: it is so
      iff the timer is unfired when the workflow is marked. And a later pass at or
      after the wake time fires the timer iff it is so. */
  lemma RetrySurvives(s: Sys, w: Id, k: Worker, wakeAt: int, acts: seq<Action>, now: int)
    requires Retried(s, w, k, wakeAt, acts, now)
    ensures
      var s1, t := TimerSetIn(s, w, k, wakeAt), |s.db.timers|;
      var mid, db := Exec(s1, acts).db, MarkedIn(Exec(s1, acts), w, k, now);
      var survives := !WokenDuring(s1, acts, w, wakeAt);
      && w in db.workflows && db.workflows[w].status == Waiting
      && t < |mid.timers| && mid.timers == db.timers
      && (db.timers[t] == Timer(w, wakeAt, false) <==> survives)
      && (!mid.timers[t].fired <==> survives)
      && (forall later :: wakeAt <= later ==> (T.Fires(db, later, t) <==> survives))
  {
    var s1, t := TimerSetIn(s, w, k, wakeAt), |s.db.timers|;
    TimerIsSet(s, w, k, wakeAt);
    TimerHistory(s1, acts, t);
    MarkSucceeds(Exec(s1, acts), w, k, now);
  }

  lemma {:induction false} UnfiredOrIdle(s: Sys, acts: seq<Action>, w: Id, t: nat)
    requires t < |s.db.timers| && s.db.timers[t].wf == w && !s.db.timers[t].fired
    requires NotLeasedDuring(s, acts, w)
    ensures
      var db := Exec(s, acts).db;
      && t < |db.timers| && db.timers[t].wf == w && db.timers[t].wakeAt == s.db.timers[t].wakeAt
      && (db.timers[t].fired ==> !IsOut(db, w))
  {
    if |acts| > 0 {
      var before, last := acts[..|acts| - 1], acts[|acts| - 1];
      forall i | 0 <= i < |before| ensures ReplyAt(s, before, i) != Leased(w) {
        assert before[..i] == acts[..i] && before[i] == acts[i];
        assert ReplyAt(s, acts, i) != Leased(w);
      }
      UnfiredOrIdle(s, before, w, t);
      var mid := Exec(s, before);
      assert ReplyAt(s, acts, |acts| - 1) != Leased(w);
      TimersKept(mid, last, t);
      if mid.db.timers[t].fired {
        OnlyAcquireLeases(mid, last, w);
      } else if Apply(mid, last).sys.db.timers[t].fired {
        FiredOnlyOnWaking(mid, last, t);
      }
    }
  }

  /** In particular the wake-up is kept if nobody acquired the workflow between
      the two halves, whatever else happened. */
  lemma RetryNotLost(s: Sys, w: Id, k: Worker, wakeAt: int, acts: seq<Action>, now: int)
    requires Retried(s, w, k, wakeAt, acts, now)
    requires NotLeasedDuring(TimerSetIn(s, w, k, wakeAt), acts, w)
    ensures !WokenDuring(TimerSetIn(s, w, k, wakeAt), acts, w, wakeAt)
    ensures
      var db := MarkedIn(Exec(TimerSetIn(s, w, k, wakeAt), acts), w, k, now);
      |s.db.timers| < |db.timers| && db.timers[|s.db.timers|] == Timer(w, wakeAt, false)
  {
    var s1, t := TimerSetIn(s, w, k, wakeAt), |s.db.timers|;
    TimerIsSet(s, w, k, wakeAt);
    UnfiredOrIdle(s1, acts, w, t);
    MarkSucceeds(Exec(s1, acts), w, k, now);
    RetrySurvives(s, w, k, wakeAt, acts, now);
  }

  lemma DueTimerWakes(db: Db, w: Id, t: nat, now: int, order: seq<nat>)
    requires w in db.workflows && db.workflows[w].status == Waiting
    requires t < |db.timers| && db.timers[t].wf == w && T.Due(db.timers[t], now)
    requires T.FireOffered(db, now, order)
    ensures
      var db' := T.FireAll(db, now, order);
      && t < |db'.timers| && db'.timers[t].fired
      && w in db'.workflows && db'.workflows[w] == T.RequeuedRow(db.workflows[w], now)
  {
    FireExactly(db, now, order);
    assert T.Fires(db, now, t);
  }

  /** A timer that no pass has reached fires at the first pass at or after its
      wake time that finds its workflow WAITING, and requeues it. */
  lemma RetryWakesUp(s: Sys, w: Id, t: nat, acts: seq<Action>, now: int, order: seq<nat>)
    requires t < |s.db.timers| && s.db.timers[t].wf == w && !s.db.timers[t].fired
    requires !WokenDuring(s, acts, w, s.db.timers[t].wakeAt)
    requires WakesAt(Exec(s, acts), FireTimers(now, order), w, s.db.timers[t].wakeAt)
    ensures
      var db' := Apply(Exec(s, acts), FireTimers(now, order)).sys.db;
      && t < |db'.timers| && db'.timers[t].fired
      && w in db'.workflows && db'.workflows[w].status == Queued && db'.workflows[w].owner == None
      && T.Eligible(db', now, w)
  {
    TimerHistory(s, acts, t);
    FireApplies(Exec(s, acts), now, order);
    DueTimerWakes(Exec(s, acts).db, w, t, now, order);
  }

  ghost predicate HasOtherDueTimer(db: Db, t: nat, at: int, w: Id) {
    exists u :: 0 <= u < |db.timers| && u != t && db.timers[u].wf == w && T.Due(db.timers[u], at)
  }

  /** When RetryStep has succeeded, AcquireLease may take the workflow again at
      time `at` exactly when the retry timer is due and was not used up between
      the two halves, or another unfired timer of the workflow is due, or the
      lease has run out. */
  lemma RetryWaitEnds(s: Sys, w: Id, k: Worker, wakeAt: int, acts: seq<Action>, now: int, at: int)
    requires Retried(s, w, k, wakeAt, acts, now)
    ensures
      var s1, t := TimerSetIn(s, w, k, wakeAt), |s.db.timers|;
      var db := MarkedIn(Exec(s1, acts), w, k, now);
      && w in db.workflows
      && (T.Eligible(db, at, w) <==>
            || (wakeAt <= at && !WokenDuring(s1, acts, w, wakeAt))
            || HasOtherDueTimer(db, t, at, w)
            || T.Expired(db.workflows[w], at))
  {
    var s1, t := TimerSetIn(s, w, k, wakeAt), |s.db.timers|;
    var db := MarkedIn(Exec(s1, acts), w, k, now);
    RetrySurvives(s, w, k, wakeAt, acts, now);
    TimerIsSet(s, w, k, wakeAt);
    TimerHistory(s1, acts, t);
    OneOrOther(db, t, at, w);
  }

  lemma OneOrOther(db: Db, t: nat, at: int, w: Id)
    requires t < |db.timers| && db.timers[t].wf == w
    ensures T.HasDueTimer(db, at, w) <==> T.Due(db.timers[t], at) || HasOtherDueTimer(db, t, at, w)
  {
    if T.HasDueTimer(db, at, w) && !T.Due(db.timers[t], at) {
      var u :| 0 <= u < |db.timers| && db.timers[u].wf == w && T.Due(db.timers[u], at);
      assert u != t;
    }
  }

  // --------------------------------------------------------- back-to-back calls

  /** With its two halves back to back RetryStep is answered Done iff the caller
      runs the workflow; its timer is then set for the time asked, the workflow is
      WAITING with its lease as it was, and nothing else has changed. */
  lemma RetryStepDone(db: Db, w: Id, k: Worker, wakeAt: int, later: int)
    ensures
      var tx := T.RetryStep(db, w, k, wakeAt, later);
      && (tx.reply == Done <==> w in db.workflows && db.workflows[w].owner == Some(k) && db.workflows[w].status == Running)
      && (tx.reply == Done ==>
            && tx.db.timers == db.timers + [Timer(w, wakeAt, false)]
            && tx.db.workflows == db.workflows[w := RowAfter(db.workflows[w], Suspended, later)]
            && tx.db == db.(timers := tx.db.timers, workflows := tx.db.workflows))
  {
  }

  /** And it does wake up: whatever happens next, the first pass at or after that
      time that finds the workflow WAITING fires the timer and requeues it. */
  lemma RetryStepWakes(s: Sys, w: Id, k: Worker, wakeAt: int, later: int, acts: seq<Action>, now: int, order: seq<nat>)
    requires T.RetryStep(s.db, w, k, wakeAt, later).reply == Done
    requires
      var s1 := Sys(T.RetryStep(s.db, w, k, wakeAt, later).db, s.owed);
      !WokenDuring(s1, acts, w, wakeAt) && WakesAt(Exec(s1, acts), FireTimers(now, order), w, wakeAt)
    ensures
      var s1, t := Sys(T.RetryStep(s.db, w, k, wakeAt, later).db, s.owed), |s.db.timers|;
      var mid := Exec(s1, acts).db;
      var db' := Apply(Exec(s1, acts), FireTimers(now, order)).sys.db;
      && t < |mid.timers| && mid.timers[t] == Timer(w, wakeAt, false)
      && t < |db'.timers| && db'.timers[t] == Timer(w, wakeAt, true)
      && w in db'.workflows && db'.workflows[w].status == Queued && db'.workflows[w].owner == None
  {
    var s1, t := Sys(T.RetryStep(s.db, w, k, wakeAt, later).db, s.owed), |s.db.timers|;
    RetryStepDone(s.db, w, k, wakeAt, later);
    TimerHistory(s1, acts, t);
    RetryWakesUp(s1, w, t, acts, now, order);
    TimerStep(Exec(s1, acts), FireTimers(now, order), t);
  }

  // ------------------------------------------------------------ refused calls

  /** With its two halves back to back RetryStep is refused, on a workflow that is
      there, exactly when the caller does not run it, and then it has added its
      timer all the same. So a call that fails leaves the tables as they were
      exactly when there is no such workflow. */
  lemma RefusedRetryStep(db: Db, w: Id, k: Worker, wakeAt: int, later: int)
    ensures
      var tx := T.RetryStep(db, w, k, wakeAt, later);
      && (tx.reply == Failure(LeaseMismatch) <==> w in db.workflows && !T.Runs(db, w, k))
      && (tx.reply == Failure(ForeignKeyViolation) <==> w !in db.workflows)
      && (tx.reply.Failure? && w in db.workflows ==> tx.db == db.(timers := db.timers + [Timer(w, wakeAt, false)]))
      && (tx.reply.Failure? ==> (tx.db == db <==> w !in db.workflows))
  {
  }

  /** The same with anything in between: the second half is refused exactly when
      the caller does not run the workflow at that moment; the timer is there by
      then, and stays until a pass at or after its time finds w WAITING, in
      whatever acquisition that is. */
  lemma RefusedRetryLeavesTimer(s: Sys, w: Id, k: Worker, wakeAt: int, acts: seq<Action>, now: int, more: seq<Action>)
    requires w in s.db.workflows
    requires RetryMark(w, k) in Exec(TimerSetIn(s, w, k, wakeAt), acts).owed
    ensures
      var s1, t := TimerSetIn(s, w, k, wakeAt), |s.db.timers|;
      var mid, pay := Exec(s1, acts), Pay(RetryMark(w, k), now);
      var timers := Exec(s1, acts + [pay] + more).db.timers;
      && (Apply(mid, pay).reply.Failure? <==> !T.Runs(mid.db, w, k))
      && (Apply(mid, pay).reply.Failure? ==> Apply(mid, pay).sys.db == mid.db)
      && t < |timers| && timers[t] == Timer(w, wakeAt, WokenDuring(s1, acts + [pay] + more, w, wakeAt))
  {
    var s1, pay := TimerSetIn(s, w, k, wakeAt), Pay(RetryMark(w, k), now);
    TimerIsSet(s, w, k, wakeAt);
    TimerHistory(s1, acts + [pay] + more, |s.db.timers|);
    MarkAnswers(Exec(s1, acts), w, k, now);
  }

  lemma MarkAnswers(s: Sys, w: Id, k: Worker, now: int)
    requires RetryMark(w, k) in s.owed
    ensures
      var o := Apply(s, Pay(RetryMark(w, k), now));
      && (o.reply.Failure? <==> !T.Runs(s.db, w, k))
      && (o.reply.Failure? ==> o.sys.db == s.db && o.reply == Failure(LeaseMismatch))
      && o.sys.owed == s.owed - multiset{RetryMark(w, k)}
  {
  }

  // ------------------------------------------------------------------- runs

  /** One workflow, these timers, and what its clients still owe. */
  ghost predicate Stage(s: Sys, w: Id, k: Worker, status: Status, timers: seq<Timer>, owed: multiset<Owed>) {
    && s.db.workflows.Keys == {w}
    && s.db.workflows[w].status == status
    && (status == Running ==> s.db.workflows[w].owner == Some(k))
    && s.db.timers == timers
    && s.owed == owed
  }

  lemma StageCreates(w: Id, k: Worker)
    ensures Stage(Apply(INIT, Create(w, "", 0)).sys, w, k, Queued, [], multiset{})
  {
  }

  lemma StageAcquires(s: Sys, w: Id, k: Worker, timers: seq<Timer>, owed: multiset<Owed>)
    requires Stage(s, w, k, Queued, timers, owed)
    ensures Stage(Apply(s, Acquire(k, 9, 0, Some(w))).sys, w, k, Running, timers, owed)
  {
    assert T.IsPick(s.db, 0, w);
  }

  lemma StageSets(s: Sys, w: Id, k: Worker, j: Worker, timers: seq<Timer>, wakeAt: int)
    requires Stage(s, w, j, Running, timers, multiset{})
    ensures
      Stage(Apply(s, SetRetryTimer(w, k, wakeAt)).sys, w, j, Running, timers + [Timer(w, wakeAt, false)],
            multiset{RetryMark(w, k)})
  {
  }

  lemma StageWaits(s: Sys, w: Id, k: Worker)
    requires Stage(s, w, k, Running, [Timer(w, 0, false)], multiset{RetryMark(w, k)})
    ensures Stage(Apply(s, Wait(w, k, 0)).sys, w, k, Waiting, [Timer(w, 0, false)], multiset{RetryMark(w, k)})
  {
  }

  lemma StageFires(s: Sys, w: Id, k: Worker)
    requires Stage(s, w, k, Waiting, [Timer(w, 0, false)], multiset{RetryMark(w, k)})
    ensures Stage(Apply(s, FireTimers(0, [0])).sys, w, k, Queued, [Timer(w, 0, true)], multiset{RetryMark(w, k)})
  {
    assert T.Fires(s.db, 0, 0);
    assert T.FireOffered(s.db, 0, [0]);
    FireExactly(s.db, 0, [0]);
    assert IsWoken(s.db, 0, w);
  }

  /** The second half of a RetryStep is about to succeed with no timer left. */
  ghost predicate Lost(s: Sys, w: Id, k: Worker) {
    var pay := Apply(s, Pay(RetryMark(w, k), 0));
    && RetryMark(w, k) in s.owed && pay.reply == Done
    && w in pay.sys.db.workflows && pay.sys.db.workflows[w].status == Waiting
    && forall t :: 0 <= t < |pay.sys.db.timers| ==> pay.sys.db.timers[t].fired
  }

  /** The wake-up can indeed be lost: here the timer fires for an
      earlier wait of the same worker, which acquires again before the second
      half of its RetryStep. Then w is WAITING and no timer is left to wake it. */
  lemma RetryLostAcrossAcquire(w: Id, k: Worker) returns (acts: seq<Action>)
    ensures Lost(Exec(INIT, acts), w, k)
  {
    var timer, owed := Timer(w, 0, true), multiset{RetryMark(w, k)};
    acts := [];
    StageCreates(w, k);
    acts := Then(acts, Create(w, "", 0));
    StageAcquires(Exec(INIT, acts), w, k, [], multiset{});
    acts := Then(acts, Acquire(k, 9, 0, Some(w)));
    StageSets(Exec(INIT, acts), w, k, k, [], 0);
    acts := Then(acts, SetRetryTimer(w, k, 0));
    StageWaits(Exec(INIT, acts), w, k);
    acts := Then(acts, Wait(w, k, 0));
    StageFires(Exec(INIT, acts), w, k);
    acts := Then(acts, FireTimers(0, [0]));
    StageAcquires(Exec(INIT, acts), w, k, [timer], owed);
    acts := Then(acts, Acquire(k, 9, 0, Some(w)));
    StagePays(Exec(INIT, acts), w, k);
  }

  lemma Then(acts: seq<Action>, a: Action) returns (more: seq<Action>)
    ensures more == acts + [a] && Exec(INIT, more) == Apply(Exec(INIT, acts), a).sys
  {
    more := acts + [a];
    ExecOne(INIT, acts, a);
  }

  lemma StagePays(s: Sys, w: Id, k: Worker)
    requires Stage(s, w, k, Running, [Timer(w, 0, true)], multiset{RetryMark(w, k)})
    ensures Lost(s, w, k)
  {
  }

  lemma StageRefuses(s: Sys, w: Id, k: Worker, j: Worker, timers: seq<Timer>)
    requires j != k && Stage(s, w, j, Running, timers, multiset{RetryMark(w, k)})
    ensures Apply(s, Pay(RetryMark(w, k), 0)).reply == Failure(LeaseMismatch)
    ensures Stage(Apply(s, Pay(RetryMark(w, k), 0)).sys, w, j, Running, timers, multiset{})
  {
    MarkAnswers(s, w, k, 0);
  }

  lemma StageMarks(s: Sys, w: Id, j: Worker, timers: seq<Timer>)
    requires Stage(s, w, j, Running, timers, multiset{RetryMark(w, j)})
    ensures Apply(s, Pay(RetryMark(w, j), 0)).reply == Done
    ensures Stage(Apply(s, Pay(RetryMark(w, j), 0)).sys, w, j, Waiting, timers, multiset{})
  {
    MarkAnswers(s, w, j, 0);
  }

  lemma StageFiresFirst(s: Sys, w: Id, j: Worker)
    requires Stage(s, w, j, Waiting, [Timer(w, 0, false), Timer(w, 100, false)], multiset{})
    ensures Stage(Apply(s, FireTimers(1, [0])).sys, w, j, Queued, [Timer(w, 0, true), Timer(w, 100, false)], multiset{})
  {
    assert T.Fires(s.db, 1, 0);
    assert T.FireOffered(s.db, 1, [0]);
    FireExactly(s.db, 1, [0]);
    assert IsWoken(s.db, 1, w);
  }

  /** A run in which the timer of a refused RetryStep by k cuts short the wait of
      the worker j that does run the workflow: j asks for time 100 and its call
      succeeds, and the pass at time 1 requeues the workflow with j's own timer
      still to come. */
  lemma StrayTimerCutsWaitShort(w: Id, j: Worker, k: Worker) returns (refused: seq<Action>, waits: seq<Action>)
    requires j != k
    ensures Apply(Exec(INIT, refused), Pay(RetryMark(w, k), 0)).reply == Failure(LeaseMismatch)
    ensures waits == refused + [Pay(RetryMark(w, k), 0), SetRetryTimer(w, j, 100)]
    ensures Apply(Exec(INIT, waits), Pay(RetryMark(w, j), 0)).reply == Done
    ensures
      var s := Apply(Exec(INIT, waits), Pay(RetryMark(w, j), 0)).sys;
      Stage(Apply(s, FireTimers(1, [0])).sys, w, j, Queued, [Timer(w, 0, true), Timer(w, 100, false)], multiset{})
  {
    refused := RunWithDebt(w, j, k);
    StageRefuses(Exec(INIT, refused), w, k, j, [Timer(w, 0, false)]);
    waits := Then(refused, Pay(RetryMark(w, k), 0));
    StageSets(Exec(INIT, waits), w, j, j, [Timer(w, 0, false)], 100);
    waits := Then(waits, SetRetryTimer(w, j, 100));
    StageMarks(Exec(INIT, waits), w, j, [Timer(w, 0, false), Timer(w, 100, false)]);
    StageFiresFirst(Apply(Exec(INIT, waits), Pay(RetryMark(w, j), 0)).sys, w, j);
  }

  /** Worker j runs w, and k is in the middle of a RetryStep of it. */
  lemma RunWithDebt(w: Id, j: Worker, k: Worker) returns (acts: seq<Action>)
    ensures Stage(Exec(INIT, acts), w, j, Running, [Timer(w, 0, false)], multiset{RetryMark(w, k)})
  {
    StageCreates(w, j);
    acts := Then([], Create(w, "", 0));
    StageAcquires(Exec(INIT, acts), w, j, [], multiset{});
    acts := Then(acts, Acquire(j, 9, 0, Some(w)));
    StageSets(Exec(INIT, acts), w, k, j, [], 0);
    acts := Then(acts, SetRetryTimer(w, k, 0));
  }
}
