/** What whole runs keep between two moments: who owned a workflow, what a lease
    protects, and what a late duplicate does. */
module History {
  import opened Types
  import opened Runs
  import opened Invariant
  import opened Preservation
  import opened Guarantees
  import opened Timers
  import opened Calls
  import T = Transactions

  // -------------------------------------------------------------- ownership

  /** The worker of the last successful AcquireLease of w in a run. */
  function LastLessee(s: Sys, acts: seq<Action>, w: Id): Option<Worker> {
    if |acts| == 0 then None
    else
      var last := acts[|acts| - 1];
      if last.Acquire? && ReplyAt(s, acts, |acts| - 1) == Leased(w) then Some(last.k)
      else LastLessee(s, acts[..|acts| - 1], w)
  }

  ghost function OwnerOf(db: Db, w: Id): Option<Worker> {
    if w in db.workflows then db.workflows[w].owner else None
  }

  /** A step leaves the owner, clears it, or is an AcquireLease of that workflow. */
  lemma OwnerStep(s: Sys, a: Action, w: Id)
    ensures
      var o := Apply(s, a);
      || OwnerOf(o.sys.db, w) == OwnerOf(s.db, w)
      || OwnerOf(o.sys.db, w) == None
      || (a.Acquire? && o.reply == Leased(w) && OwnerOf(o.sys.db, w) == Some(a.k))
    ensures
      var o := Apply(s, a);
      a.Acquire? && o.reply == Leased(w) ==> OwnerOf(o.sys.db, w) == Some(a.k)
  {
    if w in s.db.workflows {
      RowStep(s, a, w);
    } else {
      RowMade(s, a, w);
      if a.Acquire? {
        AcquiresOnlyRows(s, a, w);
      }
    }
  }

  lemma AcquiresOnlyRows(s: Sys, a: Action, w: Id)
    requires w !in s.db.workflows && a.Acquire?
    ensures Apply(s, a).reply != Leased(w)
  {
    AcquireAnswers(s, a.k, a.secs, a.now, a.pick, w);
  }

  /** Between two acquisitions the owner is the worker of the first one, or
      nobody. */
  lemma {:induction false} OwnerIsLastLessee(acts: seq<Action>, w: Id)
    ensures
      var owner := OwnerOf(Exec(INIT, acts).db, w);
      owner.Some? ==> LastLessee(INIT, acts, w) == owner
  {
    if |acts| > 0 {
      var before := acts[..|acts| - 1];
      OwnerIsLastLessee(before, w);
      OwnerStep(Exec(INIT, before), acts[|acts| - 1], w);
    }
  }

  /** The action is a call on w by worker k that needs the lease. */
  predicate NeedsLease(a: Action, w: Id, k: Worker) {
    match a
    case Renew(v, j, _, _) => v == w && j == k
    case Release(v, j, _) => v == w && j == k
    case Complete(v, j, _) => v == w && j == k
    case Fail(v, j, _) => v == w && j == k
    case Wait(v, j, _) => v == w && j == k
    case FinishStep(v, j, _, _, _, _) => v == w && j == k
    case VerifyStart(v, j, _, _) => v == w && j == k
    case VerifyFail(v, j, _, _, _) => v == w && j == k
    case Pay(debt, _) => debt == RetryMark(w, k)
    case _ => false
  }

  lemma SuccessMeansHolding(s: Sys, a: Action, w: Id, k: Worker)
    requires NeedsLease(a, w, k) && (Apply(s, a).reply == Done || Apply(s, a).reply == Verified)
    ensures T.Holds(s.db, w, k)
  {
  }

  /** Every call that succeeds on the strength of a lease comes after an
      acquisition of that workflow by the same worker with no other acquisition
      of it in between. For StartStep and FailStep this is their lease check. */
  lemma SuccessInOwnEpoch(acts: seq<Action>, i: nat, w: Id, k: Worker)
    requires i < |acts| && NeedsLease(acts[i], w, k)
    requires ReplyAt(INIT, acts, i) == Done || ReplyAt(INIT, acts, i) == Verified
    ensures LastLessee(INIT, acts[..i], w) == Some(k)
  {
    SuccessMeansHolding(Exec(INIT, acts[..i]), acts[i], w, k);
    OwnerIsLastLessee(acts[..i], w);
  }

  // ------------------------------------------------------- lease protection

  /** The action does not end, extend or suspend the lease of k on w itself, and
      the clock of an acquisition or a scheduler pass is before e. */
  predicate LeavesLease(a: Action, w: Id, k: Worker, e: int) {
    match a
    case Acquire(_, _, now, _) => now < e
    case ExpireLeases(now) => now < e
    case Renew(v, j, _, _) => v != w || j != k
    case Release(v, j, _) => v != w || j != k
    case Complete(v, j, _) => v != w || j != k
    case Fail(v, j, _) => v != w || j != k
    case Wait(v, j, _) => v != w || j != k
    case Pay(debt, _) => debt != RetryMark(w, k)
    case _ => true
  }

  ghost predicate RunsUntil(db: Db, w: Id, k: Worker, e: int) {
    T.Runs(db, w, k) && db.workflows[w].expires == Some(e)
  }

  lemma LeaseStep(s: Sys, a: Action, w: Id, k: Worker, e: int)
    requires RunsUntil(s.db, w, k, e) && LeavesLease(a, w, k, e)
    ensures RunsUntil(Apply(s, a).sys.db, w, k, e)
  {
    if !a.FireTimers? {
      LeaseCall(s, a, w, k, e);
    } else if T.FireOffered(s.db, a.now, a.order) {
      FireApplies(s, a.now, a.order);
      FireExactly(s.db, a.now, a.order);
    }
  }

  lemma LeaseCall(s: Sys, a: Action, w: Id, k: Worker, e: int)
    requires RunsUntil(s.db, w, k, e) && LeavesLease(a, w, k, e) && !a.FireTimers?
    ensures RunsUntil(Apply(s, a).sys.db, w, k, e)
  {
    if a.Pay? {
      LeasePay(s.db, a.debt, a.now, w, k, e);
    } else if a.Acquire? && T.AcquireOffered(s.db, a.now, a.pick) {
      LeaseAcquire(s.db, a.k, a.secs, a.now, a.pick, w, k, e);
    }
  }

  lemma LeasePay(db: Db, debt: Owed, now: int, w: Id, k: Worker, e: int)
    requires RunsUntil(db, w, k, e) && debt != RetryMark(w, k)
    ensures RunsUntil(WriteOwed(db, debt, now).db, w, k, e)
  {
  }

  lemma LeaseAcquire(db: Db, j: Worker, secs: int, now: int, pick: Option<Id>, w: Id, k: Worker, e: int)
    requires RunsUntil(db, w, k, e) && now < e && T.AcquireOffered(db, now, pick)
    ensures RunsUntil(T.AcquireLease(db, j, secs, now, pick).db, w, k, e)
  {
  }

  lemma NotTaken(s: Sys, a: Action, w: Id, k: Worker, e: int)
    requires RunsUntil(s.db, w, k, e) && LeavesLease(a, w, k, e)
    ensures Apply(s, a).reply != Leased(w)
  {
  }

  lemma {:induction false} LeaseLasts(s: Sys, acts: seq<Action>, w: Id, k: Worker, e: int)
    requires RunsUntil(s.db, w, k, e)
    requires forall i :: 0 <= i < |acts| ==> LeavesLease(acts[i], w, k, e)
    ensures RunsUntil(Exec(s, acts).db, w, k, e)
  {
    if |acts| > 0 {
      LeaseLasts(s, acts[..|acts| - 1], w, k, e);
      LeaseStep(Exec(s, acts[..|acts| - 1]), acts[|acts| - 1], w, k, e);
    }
  }

  lemma HolderCompletes(s: Sys, w: Id, k: Worker, now: int)
    requires T.Runs(s.db, w, k)
    ensures Apply(s, Complete(w, k, now)).reply == Done
  {
  }

  ghost predicate NotLeasedDuring(s: Sys, acts: seq<Action>, w: Id) {
    forall i :: 0 <= i < |acts| ==> ReplyAt(s, acts, i) != Leased(w)
  }

  /** A lease protects its holder: whatever everyone else does before it expires,
      the workflow stays RUNNING for k, no one else acquires it, and k can still
      complete it. */
  lemma LeaseProtects(s: Sys, acts: seq<Action>, w: Id, k: Worker, e: int, now: int)
    requires RunsUntil(s.db, w, k, e)
    requires forall i :: 0 <= i < |acts| ==> LeavesLease(acts[i], w, k, e)
    ensures RunsUntil(Exec(s, acts).db, w, k, e)
    ensures NotLeasedDuring(s, acts, w)
    ensures Apply(Exec(s, acts), Complete(w, k, now)).reply == Done
  {
    LeaseLasts(s, acts, w, k, e);
    HolderCompletes(Exec(s, acts), w, k, now);
    forall i | 0 <= i < |acts| ensures ReplyAt(s, acts, i) != Leased(w) {
      LeaseLasts(s, acts[..i], w, k, e);
      NotTaken(Exec(s, acts[..i]), acts[i], w, k, e);
    }
  }

  // ------------------------------------------------------ delayed duplicates

  predicate IsFailWrite(a: Action, w: Id, n: int) {
    a.Pay? && a.debt.FailWrite? && a.debt.w == w && a.debt.n == n
  }

  /** Only the write half of FailStep changes the row of a completed step. */
  lemma CompletedStays(s: Sys, a: Action, w: Id, n: int)
    requires T.StepIsCompleted(s.db, w, n)
    requires !(IsFailWrite(a, w, n) && Apply(s, a).reply == Done)
    ensures (w, n) in Apply(s, a).sys.db.steps && Apply(s, a).sys.db.steps[(w, n)] == s.db.steps[(w, n)]
  {
    if a.FireTimers? {
      FireAppendOnly(s.db, a.now, a.order);
    }
  }

  /** A checkpoint is durable: the row of a completed step, its output included,
      is the same after any continuation in which no FailStep of it is committed. */
  lemma {:induction false} CheckpointDurable(s: Sys, acts: seq<Action>, w: Id, n: int)
    requires T.StepIsCompleted(s.db, w, n)
    requires forall i :: 0 <= i < |acts| ==> !(IsFailWrite(acts[i], w, n) && ReplyAt(s, acts, i) == Done)
    ensures (w, n) in Exec(s, acts).db.steps && Exec(s, acts).db.steps[(w, n)] == s.db.steps[(w, n)]
  {
    if |acts| > 0 {
      var before := acts[..|acts| - 1];
      forall i | 0 <= i < |before|
        ensures !(IsFailWrite(before[i], w, n) && ReplyAt(s, before, i) == Done)
      {
        assert before[..i] == acts[..i] && before[i] == acts[i];
        assert !(IsFailWrite(acts[i], w, n) && ReplyAt(s, acts, i) == Done);
      }
      CheckpointDurable(s, before, w, n);
      assert !(IsFailWrite(acts[|acts| - 1], w, n) && ReplyAt(s, acts, |acts| - 1) == Done);
      CompletedStays(Exec(s, before), acts[|acts| - 1], w, n);
    }
  }

  /** What a worker checkpointed is what anyone reads later: after a successful
      CompleteStep and any continuation in which no FailStep of it is committed, the
      row is COMPLETED with the output and at the time the worker passed. */
  lemma CheckpointHolds(s: Sys, a: Action, acts: seq<Action>)
    requires a.FinishStep? && Apply(s, a).reply == Done
    requires
      var s1 := Apply(s, a).sys;
      forall i :: 0 <= i < |acts| ==> !(IsFailWrite(acts[i], a.w, a.n) && ReplyAt(s1, acts, i) == Done)
    ensures
      var steps := Exec(Apply(s, a).sys, acts).db.steps;
      && (a.w, a.n) in steps
      && steps[(a.w, a.n)].status == StepCompleted && steps[(a.w, a.n)].output == a.output
      && steps[(a.w, a.n)].completedAt == Some(a.now)
      && ((a.w, a.n) !in s.db.steps ==> steps[(a.w, a.n)].input == a.input && steps[(a.w, a.n)].startedAt == a.now)
  {
    StepRowStep(s, a, a.w, a.n);
    CheckpointDurable(Apply(s, a).sys, acts, a.w, a.n);
  }

  /** After a successful CompleteStep, any later CompleteStep of the same step by
      anyone fails and changes nothing, unless a FailStep of it was committed in
      between. */
  lemma DuplicateStepHarmless(s: Sys, first: Action, acts: seq<Action>, again: Action)
    requires first.FinishStep? && again.FinishStep? && first.w == again.w && first.n == again.n
    requires Apply(s, first).reply == Done
    requires
      var s1 := Apply(s, first).sys;
      forall i :: 0 <= i < |acts| ==> !(IsFailWrite(acts[i], first.w, first.n) && ReplyAt(s1, acts, i) == Done)
    ensures
      var s2 := Exec(Apply(s, first).sys, acts);
      Apply(s2, again).reply.Failure? && Apply(s2, again).sys == s2
  {
    var s1 := Apply(s, first).sys;
    StepRowStep(s, first, first.w, first.n);
    CheckpointDurable(s1, acts, first.w, first.n);
    CompletedRefuses(Exec(s1, acts), again);
  }

  lemma CompletedRefuses(s: Sys, a: Action)
    requires a.FinishStep? && T.StepIsCompleted(s.db, a.w, a.n)
    ensures Apply(s, a).reply.Failure? && Apply(s, a).sys == s
  {
  }

  /** After CompleteWorkflow or FailWorkflow has succeeded, either call on that
      workflow by anyone, at any later point of any run, is refused with a lease
      mismatch and changes nothing. */
  lemma DuplicateEndHarmless(acts: seq<Action>, first: Action, more: seq<Action>, again: Action)
    requires first.Complete? || first.Fail?
    requires again.Complete? || again.Fail?
    requires first.w == again.w && Apply(Exec(INIT, acts), first).reply == Done
    ensures
      var s2 := Exec(Apply(Exec(INIT, acts), first).sys, more);
      Apply(s2, again) == Outcome(s2, Failure(LeaseMismatch))
  {
    var s := Exec(INIT, acts);
    var s1 := Apply(s, first).sys;
    Reachable(acts);
    KeepInv(s, first);
    assert first.w in s1.db.workflows && IsTerminal(s1.db.workflows[first.w]);
    TerminalForever(s1, more, first.w);
    assert CoherentAt(Exec(s1, more).db, first.w);
  }
}
