/** What holds in every state of every run. */
module Guarantees {
  import opened Types
  import opened EventLog
  import opened LogRules
  import opened Runs
  import opened Invariant
  import opened Preservation
  import opened Realizability
  import Timers
  import T = Transactions

  ghost predicate Occurs(ls: seq<Letter>, w: Id, acts: seq<Action>) {
    w in Exec(INIT, acts).db.workflows && Letters(T.LogOf(Exec(INIT, acts).db.events, w)) == ls
  }

  // ---------------------------------------------------------------- the log

  lemma LogIsLegal(acts: seq<Action>, w: Id)
    requires w in Exec(INIT, acts).db.workflows
    ensures
      var log := T.LogOf(Exec(INIT, acts).db.events, w);
      && LegalLog(Letters(log)) && Numbered(log)
      && |Letters(log)| == |log| && forall i :: 0 <= i < |log| ==> Letters(log)[i] == LetterOf(log[i].kind)
  {
    var log := T.LogOf(Exec(INIT, acts).db.events, w);
    Reachable(acts);
    assert CoherentAt(Exec(INIT, acts).db, w);
    AcceptedIffLegal(Letters(log));
    LettersLength(log);
  }

  /** The kinds of events a workflow can have logged at some moment of some run
      are exactly the sequences that keep the rules, for every workflow id. */
  lemma PossibleLogs(ls: seq<Letter>, w: Id)
    ensures (exists acts :: Occurs(ls, w, acts)) <==> LegalLog(ls)
  {
    AcceptedIffLegal(ls);
    if acts :| Occurs(ls, w, acts) {
      Reachable(acts);
      assert CoherentAt(Exec(INIT, acts).db, w);
    }
    if LegalLog(ls) {
      var acts := Realize(ls, w, "", []);
      assert Occurs(ls, w, acts);
    }
  }

  /** Sequence numbers are 1..n in insertion order, WORKFLOW_CREATED is number
      1, and whatever happens next only adds rows at the end. */
  lemma EventNumbering(acts: seq<Action>, more: seq<Action>, w: Id)
    requires w in Exec(INIT, acts).db.workflows
    ensures
      var log := T.LogOf(Exec(INIT, acts).db.events, w);
      && |log| > 0
      && (forall i :: 0 <= i < |log| ==> log[i].seqNo == i + 1 && (log[i].kind == EvCreated <==> i == 0))
      && log <= T.LogOf(Exec(INIT, acts + more).db.events, w)
  {
    var s := Exec(INIT, acts);
    var log := T.LogOf(s.db.events, w);
    LogIsLegal(acts, w);
    forall i | 0 < i < |log| ensures log[i].kind != EvCreated {
      assert MayFollow(Letters(log)[..i], Letters(log)[i]);
    }
    GrowsOnly(s, more);
    ExecConcat(INIT, acts, more);
    LogPrefix(s.db.events, Exec(s, more).db.events, w);
  }

  lemma {:induction false} GrowsOnly(s: Sys, more: seq<Action>)
    ensures s.db.events <= Exec(s, more).db.events
    ensures s.db.workflows.Keys <= Exec(s, more).db.workflows.Keys
  {
    if |more| > 0 {
      GrowsOnly(s, more[..|more| - 1]);
      AppendOnly(Exec(s, more[..|more| - 1]), more[|more| - 1]);
    }
  }

  /** Between two STEP_COMPLETED events for one step of one workflow there is a
      STEP_FAILED for that step. */
  lemma ExactlyOnceUpToFailure(acts: seq<Action>, w: Id, i: nat, j: nat)
    requires w in Exec(INIT, acts).db.workflows
    requires
      var log := T.LogOf(Exec(INIT, acts).db.events, w);
      i < j < |log| && log[i].kind.EvStepCompleted? && log[j].kind.EvStepCompleted? && log[i].kind.step == log[j].kind.step
    ensures
      var log := T.LogOf(Exec(INIT, acts).db.events, w);
      exists m :: i < m < j && log[m].kind.EvStepFailed? && log[m].kind.step == log[i].kind.step
  {
    LogIsLegal(acts, w);
    var _ := FailureLogged(T.LogOf(Exec(INIT, acts).db.events, w), i, j);
  }

  lemma FailureLogged(log: seq<Event>, i: nat, j: nat) returns (m: nat)
    requires LegalLog(Letters(log))
    requires |Letters(log)| == |log| && forall i :: 0 <= i < |log| ==> Letters(log)[i] == LetterOf(log[i].kind)
    requires i < j < |log| && log[i].kind.EvStepCompleted? && log[j].kind.EvStepCompleted? && log[i].kind.step == log[j].kind.step
    ensures i < m < j && log[m].kind.EvStepFailed? && log[m].kind.step == log[i].kind.step
  {
    m := FailureBetween(Letters(log), i, j, log[i].kind.step);
  }

  // -------------------------------------------------------------- the row

  /** Owner and expiry are set exactly while RUNNING or WAITING, completed_at
      exactly in the terminal states. */
  lemma LeaseColumns(acts: seq<Action>, w: Id)
    requires w in Exec(INIT, acts).db.workflows
    ensures LeaseColumnsOk(Exec(INIT, acts).db.workflows[w])
  {
    Reachable(acts);
    assert CoherentAt(Exec(INIT, acts).db, w);
  }

  /** Replaying a log gives back the cursor, the version, both timestamps, the
      terminal status, and the numbers of fired timers and of signals. */
  lemma Replay(acts: seq<Action>, w: Id)
    requires w in Exec(INIT, acts).db.workflows
    ensures
      var db := Exec(INIT, acts).db;
      var row, log := db.workflows[w], T.LogOf(db.events, w);
      var c := Count(Letters(log));
      && |log| > 0
      && row.createdAt == log[0].createdAt
      && row.completedAt == EndOf(log)
      && row.currentStep == c.completions
      && row.version == 1 + c.starts + c.completions + c.terminals
      && |FiredTimers(db.timers, w)| == c.fired
      && |SignalsOf(db.signals, w)| == c.signals
      && (row.status == Completed <==> Ended in Letters(log))
      && (row.status == Failed <==> Aborted in Letters(log))
  {
    var db := Exec(INIT, acts).db;
    var log := T.LogOf(db.events, w);
    Reachable(acts);
    assert CoherentAt(db, w);
    EndsAreSeen(Letters(log));
  }

  /** What a log of these kinds says about the status. */
  ghost predicate AllowsStatus(ls: seq<Letter>, status: Status) {
    match status
    case Queued => !IsOver(ls)
    case Running => LeasedOut(ls)
    case Waiting => LeasedOut(ls)
    case Completed => Ended in ls
    case Failed => Aborted in ls
  }

  ghost predicate OccursAs(ls: seq<Letter>, w: Id, status: Status, acts: seq<Action>) {
    Occurs(ls, w, acts) && Exec(INIT, acts).db.workflows[w].status == status
  }

  /** Releasing, waiting and lease expiry log nothing: while a workflow is leased
      out its log leaves QUEUED, RUNNING and WAITING open, and all three occur.
      In every other case the log determines the status. */
  lemma StatusesOfALog(ls: seq<Letter>, w: Id, status: Status)
    ensures (exists acts :: OccursAs(ls, w, status, acts)) <==> LegalLog(ls) && AllowsStatus(ls, status)
  {
    AcceptedIffLegal(ls);
    if acts :| OccursAs(ls, w, status, acts) {
      LogAllowsStatus(acts, w);
    }
    if LegalLog(ls) && AllowsStatus(ls, status) {
      var acts := RealizeStatus(ls, w, status);
      assert OccursAs(ls, w, status, acts);
    }
  }

  lemma LogAllowsStatus(acts: seq<Action>, w: Id)
    requires w in Exec(INIT, acts).db.workflows
    ensures
      var db := Exec(INIT, acts).db;
      var ls := Letters(T.LogOf(db.events, w));
      LegalLog(ls) && AllowsStatus(ls, db.workflows[w].status)
  {
    var ls := Letters(T.LogOf(Exec(INIT, acts).db.events, w));
    LogIsLegal(acts, w);
    Reachable(acts);
    assert CoherentAt(Exec(INIT, acts).db, w);
    AcceptedIffLegal(ls);
    StateMeans(ls);
    EndsAreSeen(ls);
  }

  lemma RealizeStatus(ls: seq<Letter>, w: Id, status: Status) returns (acts: seq<Action>)
    requires Accepted(ls) && AllowsStatus(ls, status)
    ensures OccursAs(ls, w, status, acts)
  {
    acts := Realize(ls, w, "", []);
    var s := Exec(INIT, acts);
    assert CoherentAt(s.db, w);
    StateMeans(ls);
    EndsAreSeen(ls);
    if s.db.workflows[w].status != status {
      var a := if status == Waiting then Wait(w, "", 0) else Release(w, "", 0);
      SilentCalls(s, w, "");
      ExecOne(INIT, acts, a);
      acts := acts + [a];
    }
  }

  /** Two calls that change the status and log nothing. */
  lemma SilentCalls(s: Sys, w: Id, k: Worker)
    requires T.Runs(s.db, w, k)
    ensures
      var waiting, released := Apply(s, Wait(w, k, 0)).sys.db, Apply(s, Release(w, k, 0)).sys.db;
      && waiting.events == s.db.events && w in waiting.workflows && waiting.workflows[w].status == Waiting
      && released.events == s.db.events && w in released.workflows && released.workflows[w].status == Queued
  {
  }

  lemma {:induction false} EndsAreSeen(ls: seq<Letter>)
    requires Accepted(ls)
    ensures Drive(ls).phase == Succeeded <==> Ended in ls
    ensures Drive(ls).phase == Broken <==> Aborted in ls
  {
    var shorter, l := ls[..|ls| - 1], ls[|ls| - 1];
    assert ls == shorter + [l];
    if |shorter| > 0 {
      EndsAreSeen(shorter);
    }
  }

  /** Step by step in every run: the completions of a step less the failures
      recorded on it while it was completed are 1 if its row is COMPLETED and 0
      if it is anything else or absent. */
  lemma StepLedger(acts: seq<Action>, w: Id, n: int)
    requires w in Exec(INIT, acts).db.workflows
    ensures
      var db := Exec(INIT, acts).db;
      var ls := Letters(T.LogOf(db.events, w));
      TimesCompleted(ls, n) == TimesDemoted(ls, n) + if T.StepIsCompleted(db, w, n) then 1 else 0
  {
    var db := Exec(INIT, acts).db;
    Reachable(acts);
    assert CoherentAt(db, w);
    CompletedMeans(db, w, n);
    StepAccounted(Letters(T.LogOf(db.events, w)), n);
  }

  /** The cursor counts the steps standing completed plus the demotions, so it is
      the number of completed steps exactly when no step was ever demoted. */
  lemma Cursor(acts: seq<Action>, w: Id)
    requires w in Exec(INIT, acts).db.workflows
    ensures
      var db := Exec(INIT, acts).db;
      var ls := Letters(T.LogOf(db.events, w));
      && db.workflows[w].currentStep == |CompletedSteps(db.steps, w)| + Count(ls).demotions
      && (db.workflows[w].currentStep == |CompletedSteps(db.steps, w)| <==> forall n :: TimesDemoted(ls, n) == 0)
  {
    Reachable(acts);
    assert CoherentAt(Exec(INIT, acts).db, w);
    CompletionsAccounted(Letters(T.LogOf(Exec(INIT, acts).db.events, w)));
    DemotionsPerStep(Letters(T.LogOf(Exec(INIT, acts).db.events, w)));
  }

  /** Recording a failure leaves the cursor right, and the set of completed
      steps as it is, exactly when the step is not completed at that moment: the
      test that the write half of FailStep does not make. */
  lemma DemotesIffCompleted(db: Db, w: Id, n: int, input: Payload, message: string, now: int)
    requires w in db.workflows
    ensures
      var db' := T.WriteStepFailure(db, w, n, input, message, now).db;
      && CompletedSteps(db'.steps, w) == CompletedSteps(db.steps, w) - {n}
      && (CompletedSteps(db'.steps, w) == CompletedSteps(db.steps, w) <==> !T.StepIsCompleted(db, w, n))
      && (db'.workflows[w].currentStep - |CompletedSteps(db'.steps, w)| == db.workflows[w].currentStep - |CompletedSteps(db.steps, w)|
          <==> !T.StepIsCompleted(db, w, n))
  {
    CompletedMeans(db, w, n);
    FailureUncompletes(db, w, n, input, message, now);
    var was := CompletedSteps(db.steps, w);
    assert n in was ==> |was - {n}| == |was| - 1;
    assert n !in was ==> was - {n} == was;
  }

  lemma FailureUncompletes(db: Db, w: Id, n: int, input: Payload, message: string, now: int)
    requires w in db.workflows
    ensures
      var db' := T.WriteStepFailure(db, w, n, input, message, now).db;
      CompletedSteps(db'.steps, w) == CompletedSteps(db.steps, w) - {n} && db'.workflows == db.workflows
  {
  }

  /** The stronger reading of "exactly once" is false: a failure recorded on a
      completed step lets it complete again, and the cursor counts it twice. */
  lemma CompletedTwice(w: Id) returns (acts: seq<Action>)
    ensures
      var db := Exec(INIT, acts).db;
      && w in db.workflows
      && CompletedSteps(db.steps, w) == {1}
      && db.workflows[w].currentStep == 2
  {
    var ls := [Created, Begun, StepDone(1), StepBroken(1), StepDone(1)];
    DemotionLog(ls);
    acts := Realize(ls, w, "", []);
    assert CoherentAt(Exec(INIT, acts).db, w);
  }

  lemma DemotionLog(ls: seq<Letter>)
    requires ls == [Created, Begun, StepDone(1), StepBroken(1), StepDone(1)]
    ensures Drive(ls) == Live(Out, {1}) && Count(ls).completions == 2
  {
    var a, b, c, d := [Created], [Created, Begun], [Created, Begun, StepDone(1)], [Created, Begun, StepDone(1), StepBroken(1)];
    assert ls[..4] == d && d[..3] == c && c[..2] == b && b[..1] == a && a[..0] == [];
    assert Drive(a) == Live(New, {}) && Count(a).completions == 0;
    assert Drive(b) == Live(Out, {}) && Count(b).completions == 0;
    assert Drive(c) == Live(Out, {1}) && Count(c).completions == 1;
    assert Drive(d) == Live(Out, {}) && Count(d).completions == 1;
  }

  // -------------------------------------------------------- terminal states

  predicate IsTerminal(row: Workflow) {
    row.status == Completed || row.status == Failed
  }

  /** No atomic step changes anything in the row of a finished workflow. */
  lemma TerminalStays(s: Sys, a: Action, w: Id)
    requires Inv(s) && w in s.db.workflows && IsTerminal(s.db.workflows[w])
    ensures w in Apply(s, a).sys.db.workflows && Apply(s, a).sys.db.workflows[w] == s.db.workflows[w]
  {
    assert CoherentAt(s.db, w);
    var row := s.db.workflows[w];
    assert row.owner == None && row.expires == None && row.status != Queued && row.status != Waiting;
    if a.FireTimers? {
      if T.FireOffered(s.db, a.now, a.order) {
        Timers.FireRows(s.db, a.now, a.order, w);
      }
    } else {
      FreeRowStays(s, a, w);
    }
  }

  /** Calls write a row only for its owner, for a row that AcquireLease may take
      or for one whose lease has expired. */
  lemma FreeRowStays(s: Sys, a: Action, w: Id)
    requires w in s.db.workflows && !a.FireTimers?
    requires
      var row := s.db.workflows[w];
      row.owner == None && row.expires == None && row.status != Queued && row.status != Waiting
    ensures w in Apply(s, a).sys.db.workflows && Apply(s, a).sys.db.workflows[w] == s.db.workflows[w]
  {
    if a.Pay? {
      FreeRowPay(s.db, a.debt, a.now, w);
    }
  }

  lemma FreeRowPay(db: Db, debt: Owed, now: int, w: Id)
    requires w in db.workflows && db.workflows[w].owner == None
    ensures w in WriteOwed(db, debt, now).db.workflows && WriteOwed(db, debt, now).db.workflows[w] == db.workflows[w]
  {
  }

  lemma {:induction false} TerminalForever(s: Sys, more: seq<Action>, w: Id)
    requires Inv(s) && w in s.db.workflows && IsTerminal(s.db.workflows[w])
    ensures Inv(Exec(s, more))
    ensures w in Exec(s, more).db.workflows && Exec(s, more).db.workflows[w] == s.db.workflows[w]
  {
    if |more| > 0 {
      var before := Exec(s, more[..|more| - 1]);
      TerminalForever(s, more[..|more| - 1], w);
      KeepInv(before, more[|more| - 1]);
      TerminalStays(before, more[|more| - 1], w);
    }
  }

  // --------------------------------------------------------- no one is stuck

  ghost predicate IsLatestExpiry(db: Db, ids: set<Id>, last: Option<int>)
    requires ids <= db.workflows.Keys
  {
    match last
    case None => forall w :: w in ids ==> db.workflows[w].expires == None
    case Some(t) =>
      && (exists w :: w in ids && db.workflows[w].expires == Some(t))
      && (forall w :: w in ids && db.workflows[w].expires.Some? ==> db.workflows[w].expires.value <= t)
  }

  lemma LatestExpiry(db: Db, ids: set<Id>) returns (last: Option<int>)
    requires ids <= db.workflows.Keys
    ensures IsLatestExpiry(db, ids, last)
  {
    last := None;
    if ids != {} {
      var w :| w in ids;
      last := LatestExpiry(db, ids - {w});
      var e := db.workflows[w].expires;
      if e.Some? && (last.None? || e.value > last.value) {
        last := e;
      }
    }
  }

  /** In every run an unfinished workflow with no lease, or with one that has run
      out, may be acquired, whatever clients died where and with no scheduler at
      all; a finished one never is. */
  lemma FreeOrExpired(acts: seq<Action>, now: int, w: Id)
    requires w in Exec(INIT, acts).db.workflows
    requires
      var row := Exec(INIT, acts).db.workflows[w];
      row.expires.Some? ==> row.expires.value <= now
    ensures T.Eligible(Exec(INIT, acts).db, now, w) <==> !IsTerminal(Exec(INIT, acts).db.workflows[w])
  {
    Reachable(acts);
    assert CoherentAt(Exec(INIT, acts).db, w);
  }

  /** From the latest lease expiry on (at any time, if nothing is leased)
      AcquireLease may take exactly the workflows that are not finished. */
  lemma NeverStuck(acts: seq<Action>) returns (last: Option<int>)
    ensures
      var db := Exec(INIT, acts).db;
      && IsLatestExpiry(db, db.workflows.Keys, last)
      && forall now, w :: (last.Some? ==> now >= last.value) && w in db.workflows ==>
           (T.Eligible(db, now, w) <==> !IsTerminal(db.workflows[w]))
  {
    var db := Exec(INIT, acts).db;
    last := LatestExpiry(db, db.workflows.Keys);
    forall now, w | (last.Some? ==> now >= last.value) && w in db.workflows
      ensures T.Eligible(db, now, w) <==> !IsTerminal(db.workflows[w])
    {
      FreeOrExpired(acts, now, w);
    }
  }
}
