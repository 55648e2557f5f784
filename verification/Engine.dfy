/** The engine as an object: one field a table, one method a call. Each method
    is proved against the transaction function of the same name, and to keep the
    invariant. The clock is a parameter: the Go code reads it before it begins. */
module Engines {
  import opened Types
  import opened Backoff
  import opened Invariant
  import opened Preservation
  import opened Timers
  import opened Calls
  import T = Transactions

  class Engine {
    var workflows: map<Id, Workflow>
    var events: seq<Event>
    var steps: map<(Id, int), StepRow>
    var signals: seq<Signal>
    var timers: seq<Timer>

    ghost function Snapshot(): Db
      reads this
    {
      Db(workflows, events, steps, signals, timers)
    }

    ghost predicate Valid()
      reads this
    {
      DbInv(Snapshot())
    }

    constructor ()
      ensures Snapshot() == EMPTY_DB && Valid()
    {
      workflows, events, steps, signals, timers := map[], [], map[], [], [];
    }

    // -------------------------------------------------------------- events

    method NextSequence(w: Id) returns (next: int)
      ensures next == T.NextSeq(T.LogOf(events, w))
    {
      var max: Option<int> := None;
      for i := 0 to |events|
        invariant max == T.MaxSeq(T.LogOf(events[..i], w))
      {
        assert events[..i + 1] == events[..i] + [events[i]];
        LogAppend(events[..i], events[i], w);
        if events[i].wf == w {
          MaxAppend(T.LogOf(events[..i], w), events[i]);
          if max.None? || max.value < events[i].seqNo {
            max := Some(events[i].seqNo);
          }
        }
      }
      assert events[..|events|] == events;
      next := if max.Some? then max.value + 1 else 1;
    }

    /** Sequence number 0 asks for the next free one. */
    method AppendEvent(w: Id, kind: Kind, sequenceNumber: int, now: int)
      modifies this`events
      ensures
        var seqNo := if sequenceNumber == 0 then T.NextSeq(T.LogOf(old(events), w)) else sequenceNumber;
        events == old(events) + [Event(w, kind, seqNo, now)]
    {
      var seqNo := sequenceNumber;
      if seqNo == 0 {
        seqNo := NextSequence(w);
      }
      events := events + [Event(w, kind, seqNo, now)];
    }

    // ----------------------------------------------------------- workflows

    method CreateWorkflow(w: Id, wtype: string, now: int) returns (reply: Reply)
      modifies this
      ensures Tx(Snapshot(), reply) == T.CreateWorkflow(old(Snapshot()), w, wtype, now)
      ensures old(Valid()) ==> Valid()
    {
      if Valid() { KeepCreate(Snapshot(), w, wtype, now); }
      if w in workflows {
        return Failure(UniqueViolation);
      }
      workflows := workflows[w := Workflow(wtype, Queued, 0, None, None, now, now, None, 1)];
      AppendEvent(w, EvCreated, 1, now);
      reply := Done;
    }

    /** SELECT ... ORDER BY created_at LIMIT 1. Callers may rely only on getting
        some oldest eligible row. */
    method SelectEligible(now: int) returns (pick: Option<Id>)
      ensures T.AcquireOffered(Snapshot(), now, pick)
      ensures pick.None? ==> forall v :: v in workflows ==> IsBusy(Snapshot(), now, v)
      ensures pick.Some? ==> pick.value in workflows && !IsBusy(Snapshot(), now, pick.value)
    {
      pick := None;
      var rest := workflows.Keys;
      while rest != {}
        invariant rest <= workflows.Keys
        invariant pick.Some? ==> T.Eligible(Snapshot(), now, pick.value)
        invariant forall v :: v in workflows.Keys - rest && T.Eligible(Snapshot(), now, v) ==>
          pick.Some? && workflows[pick.value].createdAt <= workflows[v].createdAt
        decreases rest
      {
        var v :| v in rest;
        rest := rest - {v};
        var due := HasDueTimer(v, now);
        if workflows[v].status == Queued || (workflows[v].status == Waiting && due) || T.Expired(workflows[v], now) {
          if pick.None? || workflows[v].createdAt < workflows[pick.value].createdAt {
            pick := Some(v);
          }
        }
      }
      forall v | v in workflows ensures IsBusy(Snapshot(), now, v) <==> !T.Eligible(Snapshot(), now, v) {
        BusyIsNotEligible(Snapshot(), now, v);
      }
    }

    method HasDueTimer(w: Id, now: int) returns (found: bool)
      ensures found <==> T.HasDueTimer(Snapshot(), now, w)
    {
      for t := 0 to |timers|
        invariant forall u :: 0 <= u < t ==> !(timers[u].wf == w && T.Due(timers[u], now))
      {
        if timers[t].wf == w && T.Due(timers[t], now) {
          return true;
        }
      }
      return false;
    }

    method AcquireLease(k: Worker, leaseSeconds: int, now: int) returns (reply: Reply)
      modifies this
      ensures reply == NoWork || reply.Leased?
      ensures
        var pick := if reply.Leased? then Some(reply.id) else None;
        && T.AcquireOffered(old(Snapshot()), now, pick)
        && Tx(Snapshot(), reply) == T.AcquireLease(old(Snapshot()), k, leaseSeconds, now, pick)
      ensures reply == NoWork ==> forall v :: v in old(workflows) ==> IsBusy(old(Snapshot()), now, v)
      ensures old(Valid()) ==> Valid()
    {
      var pick := SelectEligible(now);
      if Valid() { KeepAcquire(Snapshot(), k, leaseSeconds, now, pick); }
      if pick.None? {
        return NoWork;
      }
      var w := pick.value;
      workflows := workflows[w := workflows[w].(
        status := Running, owner := Some(k), expires := Some(now + leaseSeconds),
        updatedAt := now, version := workflows[w].version + 1)];
      AppendEvent(w, EvStarted, 0, now);
      reply := Leased(w);
    }

    method RenewLease(w: Id, k: Worker, leaseSeconds: int, now: int) returns (reply: Reply)
      modifies this
      ensures Tx(Snapshot(), reply) == T.RenewLease(old(Snapshot()), w, k, leaseSeconds, now)
      ensures old(Valid()) ==> Valid()
    {
      if Valid() { KeepRenew(Snapshot(), w, k, leaseSeconds, now); }
      if w !in workflows || workflows[w].owner != Some(k) || workflows[w].status != Running {
        return Failure(LeaseMismatch);
      }
      workflows := workflows[w := workflows[w].(expires := Some(now + leaseSeconds), updatedAt := now)];
      reply := Done;
    }

    method ReleaseLease(w: Id, k: Worker, now: int) returns (reply: Reply)
      modifies this
      ensures Tx(Snapshot(), reply) == T.ReleaseLease(old(Snapshot()), w, k, now)
      ensures old(Valid()) ==> Valid()
    {
      if Valid() { KeepRelease(Snapshot(), w, k, now); }
      if w !in workflows || workflows[w].owner != Some(k) {
        return Failure(LeaseMismatch);
      }
      workflows := workflows[w := workflows[w].(status := Queued, owner := None, expires := None, updatedAt := now)];
      reply := Done;
    }

    method CompleteWorkflow(w: Id, k: Worker, now: int) returns (reply: Reply)
      modifies this
      ensures Tx(Snapshot(), reply) == T.CompleteWorkflow(old(Snapshot()), w, k, now)
      ensures old(Valid()) ==> Valid()
    {
      if Valid() { KeepComplete(Snapshot(), w, k, now); }
      if w !in workflows || workflows[w].owner != Some(k) || workflows[w].status != Running {
        return Failure(LeaseMismatch);
      }
      workflows := workflows[w := workflows[w].(
        status := Completed, owner := None, expires := None,
        completedAt := Some(now), updatedAt := now, version := workflows[w].version + 1)];
      AppendEvent(w, EvCompleted, 0, now);
      reply := Done;
    }

    method FailWorkflow(w: Id, k: Worker, now: int) returns (reply: Reply)
      modifies this
      ensures Tx(Snapshot(), reply) == T.FailWorkflow(old(Snapshot()), w, k, now)
      ensures old(Valid()) ==> Valid()
    {
      if Valid() { KeepFail(Snapshot(), w, k, now); }
      if w !in workflows || workflows[w].owner != Some(k) || workflows[w].status != Running {
        return Failure(LeaseMismatch);
      }
      workflows := workflows[w := workflows[w].(
        status := Failed, owner := None, expires := None,
        completedAt := Some(now), updatedAt := now, version := workflows[w].version + 1)];
      AppendEvent(w, EvFailed, 0, now);
      reply := Done;
    }

    method MarkWaiting(w: Id, k: Worker, now: int) returns (reply: Reply)
      modifies this
      ensures Tx(Snapshot(), reply) == T.MarkWaiting(old(Snapshot()), w, k, now)
      ensures old(Valid()) ==> Valid()
    {
      if Valid() { KeepMarkWaiting(Snapshot(), w, k, now); }
      if w !in workflows || workflows[w].owner != Some(k) || workflows[w].status != Running {
        return Failure(LeaseMismatch);
      }
      workflows := workflows[w := workflows[w].(status := Waiting, updatedAt := now)];
      reply := Done;
    }

    method VerifyLease(w: Id, k: Worker) returns (reply: Reply)
      ensures reply == T.VerifyLease(Snapshot(), w, k)
    {
      if w !in workflows {
        return Failure(NoRows);
      }
      if workflows[w].owner != Some(k) {
        return Failure(LeaseMismatch);
      }
      reply := Verified;
    }

    // --------------------------------------------------------------- steps

    /** StartStep is VerifyLease, outside any transaction, and then this one, in
        whatever state it finds. */
    method WriteStepStart(w: Id, n: int, input: Payload, now: int) returns (reply: Reply)
      modifies this
      ensures Tx(Snapshot(), reply) == T.WriteStepStart(old(Snapshot()), w, n, input, now)
      ensures reply == Done ==>
        && (w, n) in steps
        && steps[(w, n)] == if (w, n) in old(steps) then old(steps)[(w, n)] else StepRow(StepRunning, input, Null, now, None)
      ensures old(Valid() && HasBeenLeased(Snapshot(), w)) ==> Valid()
    {
      if Valid() && HasBeenLeased(Snapshot(), w) { KeepWriteStepStart(Snapshot(), w, n, input, now); }
      if w !in workflows {
        return Failure(ForeignKeyViolation);
      }
      if (w, n) !in steps {
        steps := steps[(w, n) := StepRow(StepRunning, input, Null, now, None)];
      }
      AppendEvent(w, EvStepStarted(input), 0, now);
      reply := Done;
    }

    /** StartStep when nothing happens between its check and its write. */
    method StartStep(w: Id, k: Worker, n: int, input: Payload, now: int) returns (reply: Reply)
      modifies this
      ensures Tx(Snapshot(), reply) == T.StartStep(old(Snapshot()), w, k, n, input, now)
      ensures reply == Done ==>
        && (w, n) in steps
        && steps[(w, n)] == if (w, n) in old(steps) then old(steps)[(w, n)] else StepRow(StepRunning, input, Null, now, None)
      ensures old(Valid()) ==> Valid()
    {
      reply := VerifyLease(w, k);
      if reply.Failure? {
        return;
      }
      if Valid() { DebtMade(Snapshot(), w, k); }
      reply := WriteStepStart(w, n, input, now);
    }

    method CompleteStep(w: Id, k: Worker, n: int, input: Payload, output: Payload, now: int) returns (reply: Reply)
      modifies this
      ensures Tx(Snapshot(), reply) == T.CompleteStep(old(Snapshot()), w, k, n, input, output, now)
      ensures reply == Done ==>
        && (w, n) in steps && steps[(w, n)].status == StepCompleted
        && steps[(w, n)].output == output && steps[(w, n)].completedAt == Some(now)
      ensures old(Valid()) ==> Valid()
    {
      if Valid() { KeepCompleteStep(Snapshot(), w, k, n, input, output, now); }
      if w !in workflows {
        return Failure(NoRows);
      }
      if workflows[w].owner != Some(k) {
        return Failure(LeaseMismatch);
      }
      if (w, n) !in steps {
        steps := steps[(w, n) := StepRow(StepCompleted, input, output, now, Some(now))];
      } else if steps[(w, n)].status == StepRunning || steps[(w, n)].status == StepFailed {
        steps := steps[(w, n) := steps[(w, n)].(status := StepCompleted, output := output, completedAt := Some(now))];
      } else {
        return Failure(StepAlreadyCompleted);
      }
      workflows := workflows[w := workflows[w].(
        currentStep := workflows[w].currentStep + 1, updatedAt := now, version := workflows[w].version + 1)];
      AppendEvent(w, EvStepCompleted(n, output), 0, now);
      reply := Done;
    }

    /** FailStep is VerifyLease, outside any transaction, and then this one, in
        whatever state it finds. */
    method WriteStepFailure(w: Id, n: int, input: Payload, message: string, now: int) returns (reply: Reply)
      modifies this
      ensures Tx(Snapshot(), reply) == T.WriteStepFailure(old(Snapshot()), w, n, input, message, now)
      ensures old(Valid() && HasBeenLeased(Snapshot(), w)) ==> Valid()
    {
      if Valid() && HasBeenLeased(Snapshot(), w) { KeepWriteStepFailure(Snapshot(), w, n, input, message, now); }
      if w !in workflows {
        return Failure(ForeignKeyViolation);
      }
      var payload := FailureOf(n, message);
      if (w, n) in steps {
        steps := steps[(w, n) := steps[(w, n)].(status := StepFailed, output := payload, completedAt := Some(now))];
      } else {
        steps := steps[(w, n) := StepRow(StepFailed, input, payload, now, Some(now))];
      }
      AppendEvent(w, EvStepFailed(n, message), 0, now);
      reply := Done;
    }

    /** FailStep when nothing happens between its check and its write. */
    method FailStep(w: Id, k: Worker, n: int, input: Payload, message: string, now: int) returns (reply: Reply)
      modifies this
      ensures Tx(Snapshot(), reply) == T.FailStep(old(Snapshot()), w, k, n, input, message, now)
      ensures old(Valid()) ==> Valid()
    {
      reply := VerifyLease(w, k);
      if reply.Failure? {
        return;
      }
      if Valid() { DebtMade(Snapshot(), w, k); }
      reply := WriteStepFailure(w, n, input, message, now);
    }

    // ------------------------------------------------------------- signals

    method SendSignal(w: Id, signalType: string, payload: Payload, now: int) returns (reply: Reply)
      modifies this
      ensures Tx(Snapshot(), reply) == T.SendSignal(old(Snapshot()), w, signalType, payload, now)
      ensures old(Valid()) ==> Valid()
    {
      if Valid() { KeepSend(Snapshot(), w, signalType, payload, now); }
      if w !in workflows {
        return Failure(ForeignKeyViolation);
      }
      var position := |signals|;
      signals := signals + [Signal(w, signalType, payload, false, now)];
      AppendEvent(w, EvSignal(position + 1, signalType), 0, now);
      reply := SignalSent(position);
    }

    /** SELECT ... ORDER BY created_at LIMIT 1 over the pending signals. */
    method SelectSignal(w: Id) returns (pick: Option<nat>)
      ensures T.ConsumeOffered(Snapshot(), w, pick)
    {
      pick := None;
      for i := 0 to |signals|
        invariant pick.Some? ==> T.IsPending(Snapshot(), w, pick.value)
        invariant forall j :: 0 <= j < i && T.IsPending(Snapshot(), w, j) ==>
          pick.Some? && signals[pick.value].createdAt <= signals[j].createdAt
      {
        if signals[i].wf == w && !signals[i].consumed && (pick.None? || signals[i].createdAt < signals[pick.value].createdAt) {
          pick := Some(i);
        }
      }
    }

    method ConsumeSignal(w: Id) returns (reply: Reply)
      modifies this
      ensures reply == NoSignal || reply.SignalTaken?
      ensures
        var pick := if reply.SignalTaken? then Some(reply.position) else None;
        && T.ConsumeOffered(old(Snapshot()), w, pick)
        && Tx(Snapshot(), reply) == T.ConsumeSignal(old(Snapshot()), w, pick)
      ensures old(Valid()) ==> Valid()
    {
      var pick := SelectSignal(w);
      if Valid() { KeepConsume(Snapshot(), w, pick); }
      if pick.None? {
        return NoSignal;
      }
      var i := pick.value;
      signals := signals[i := signals[i].(consumed := true)];
      reply := SignalTaken(i);
    }

    // -------------------------------------------------------------- timers

    method CreateTimer(w: Id, wakeAt: int) returns (reply: Reply)
      modifies this
      ensures Tx(Snapshot(), reply) == T.CreateTimer(old(Snapshot()), w, wakeAt)
      ensures old(Valid()) ==> Valid()
    {
      if Valid() { KeepCreateTimer(Snapshot(), w, wakeAt); }
      if w !in workflows {
        return Failure(ForeignKeyViolation);
      }
      reply := TimerSet(|timers|);
      timers := timers + [Timer(w, wakeAt, false)];
    }

    /** The rows of the join. Callers may rely only on getting each once. */
    method SelectDue(now: int) returns (rows: seq<nat>)
      ensures T.FireOffered(Snapshot(), now, rows)
    {
      rows := [];
      for t := 0 to |timers|
        invariant forall i :: 0 <= i < |rows| ==> rows[i] < t
        invariant forall i, j :: 0 <= i < j < |rows| ==> rows[i] != rows[j]
        invariant forall u :: u in rows ==> T.Fires(Snapshot(), now, u)
        invariant forall u :: 0 <= u < t && T.Fires(Snapshot(), now, u) ==> u in rows
      {
        if T.Due(timers[t], now) && timers[t].wf in workflows && workflows[timers[t].wf].status == Waiting {
          rows := rows + [t];
        }
      }
    }

    method FireExpiredTimers(now: int) returns (reply: Reply, ghost order: seq<nat>)
      modifies this
      ensures T.FireOffered(old(Snapshot()), now, order)
      ensures Tx(Snapshot(), reply) == T.FireExpiredTimers(old(Snapshot()), now, order)
      ensures old(Valid()) ==> Valid()
    {
      var rows := SelectDue(now);
      order := rows;
      ghost var before := Snapshot();
      if Valid() { KeepFireAll(before, now, rows); }
      var count := 0;
      for i := 0 to |rows|
        invariant count == i
        invariant Snapshot() == T.FireAll(before, now, rows[..i])
      {
        FireAppendOnly(before, now, rows[..i]);
        assert rows[..i + 1][..i] == rows[..i] && rows[i] in rows;
        var t := rows[i];
        var w := timers[t].wf;
        timers := timers[t := timers[t].(fired := true)];
        workflows := workflows[w := workflows[w].(status := Queued, owner := None, expires := None, updatedAt := now)];
        AppendEvent(w, EvTimerFired, 0, now);
        count := count + 1;
      }
      assert rows[..|rows|] == rows;
      reply := Affected(count);
    }

    method ExpireLeases(now: int) returns (reply: Reply)
      modifies this
      ensures Tx(Snapshot(), reply) == T.ExpireLeases(old(Snapshot()), now)
      ensures reply == Affected(|set w | w in old(workflows) && LeaseRanOut(old(workflows)[w], now)|)
      ensures forall w :: w in workflows ==> !LeaseRanOut(workflows[w], now)
      ensures old(Valid()) ==> Valid()
    {
      if Valid() { KeepExpire(Snapshot(), now); }
      ExpirePass(Snapshot(), now);
      var lapsed := set w | w in workflows && T.Lapsed(workflows[w], now);
      workflows := map w | w in workflows ::
        if w in lapsed then workflows[w].(status := Queued, owner := None, expires := None, updatedAt := now) else workflows[w];
      reply := Affected(|lapsed|);
    }

    /** One scheduler cycle; afterwards nothing is left to fire or to expire. */
    method Tick(now: int) returns (ghost order: seq<nat>)
      modifies this
      ensures T.FireOffered(old(Snapshot()), now, order)
      ensures Snapshot() == T.Tick(old(Snapshot()), now, order)
      ensures forall t :: 0 <= t < |timers| && WaitsFor(Snapshot(), t) ==> timers[t].wakeAt > now
      ensures forall w :: w in workflows && workflows[w].status == Running && workflows[w].expires.Some? ==>
        workflows[w].expires.value > now
      ensures old(Valid()) ==> Valid()
    {
      ghost var before := Snapshot();
      var fired, expired;
      fired, order := FireExpiredTimers(now);
      expired := ExpireLeases(now);
      TickSettles(before, now, order);
    }

    // --------------------------------------------------------------- retry

    /** RetryStep when nothing happens between its two transactions. A caller that
        has lost the lease is refused only after its timer has been set. */
    method RetryStep(w: Id, k: Worker, n: int, retryCount: int, cfg: RetryConfig, now: int, later: int) returns (reply: Reply)
      requires cfg.policy.ExponentialBackoff? ==> IsInt64(cfg.policy.baseSeconds)
      modifies this
      ensures
        Tx(Snapshot(), reply) ==
          if retryCount > cfg.maxRetries then Tx(old(Snapshot()), RetriesExhausted)
          else T.RetryStep(old(Snapshot()), w, k, Wrap64(now + Delay(cfg.policy, retryCount)), later)
      ensures reply == Done ==>
        && w in workflows && workflows[w].status == Waiting
        && timers == old(timers) + [Timer(w, Wrap64(now + Delay(cfg.policy, retryCount)), false)]
      ensures old(Valid()) ==> Valid()
    {
      var wakeAt := ScheduleRetry(cfg, retryCount, now);
      if wakeAt.None? {
        return RetriesExhausted;
      }
      reply := CreateTimer(w, wakeAt.value);
      if reply.Failure? {
        return;
      }
      reply := MarkWaiting(w, k, later);
    }
  }

  lemma MaxAppend(log: seq<Event>, e: Event)
    ensures
      T.MaxSeq(log + [e]) == match T.MaxSeq(log)
        case None => Some(e.seqNo)
        case Some(m) => Some(if m < e.seqNo then e.seqNo else m)
  {
    assert (log + [e])[..|log|] == log;
  }
}
