/** Whole runs of the engine: any interleaving of atomic steps by any clients.
    StartStep, FailStep and RetryStep are two steps each, and a client may die
    in between. The scheduler's two statements are two steps as well. */
module Runs {
  import opened Types
  import T = Transactions

  /** The second half a client still owes. */
  datatype Owed =
    | StartWrite(w: Id, k: Worker, n: int, input: Payload)
    | FailWrite(w: Id, k: Worker, n: int, input: Payload, message: string)
    | RetryMark(w: Id, k: Worker)

  datatype Sys = Sys(db: Db, owed: multiset<Owed>)

  const INIT := Sys(EMPTY_DB, multiset{})

  datatype Action =
    | Create(w: Id, wtype: string, now: int)
    | Acquire(k: Worker, secs: int, now: int, pick: Option<Id>)
    | Renew(w: Id, k: Worker, secs: int, now: int)
    | Release(w: Id, k: Worker, now: int)
    | Complete(w: Id, k: Worker, now: int)
    | Fail(w: Id, k: Worker, now: int)
    | Wait(w: Id, k: Worker, now: int)
    | FinishStep(w: Id, k: Worker, n: int, input: Payload, output: Payload, now: int)
    | VerifyStart(w: Id, k: Worker, n: int, input: Payload)
    | VerifyFail(w: Id, k: Worker, n: int, input: Payload, message: string)
    | SetRetryTimer(w: Id, k: Worker, wakeAt: int)
    | Pay(debt: Owed, now: int)
    | Send(w: Id, signalType: string, payload: Payload, now: int)
    | Consume(w: Id, signal: Option<nat>)
    | SetTimer(w: Id, wakeAt: int)
    | FireTimers(now: int, order: seq<nat>)
    | ExpireLeases(now: int)

  datatype Outcome = Outcome(sys: Sys, reply: Reply)

  function Plain(s: Sys, tx: Tx): Outcome {
    Outcome(s.(db := tx.db), tx.reply)
  }

  /** The first half of a two-part call: on success the second half is owed. */
  function Owing(s: Sys, tx: Tx, debt: Owed): Outcome {
    if tx.reply.Failure? then Plain(s, tx)
    else Outcome(Sys(tx.db, s.owed + multiset{debt}), tx.reply)
  }

  function WriteOwed(db: Db, debt: Owed, now: int): Tx {
    match debt
    case StartWrite(w, _, n, input) => T.WriteStepStart(db, w, n, input, now)
    case FailWrite(w, _, n, input, message) => T.WriteStepFailure(db, w, n, input, message, now)
    case RetryMark(w, k) => T.MarkWaiting(db, w, k, now)
  }

  /** One atomic step. An action that the database or the client cannot take in
      this state (NotOffered) changes nothing, so every sequence of actions is a run. */
  function Apply(s: Sys, a: Action): Outcome {
    match a
    case Create(w, wtype, now) => Plain(s, T.CreateWorkflow(s.db, w, wtype, now))
    case Acquire(k, secs, now, pick) =>
      if T.AcquireOffered(s.db, now, pick) then Plain(s, T.AcquireLease(s.db, k, secs, now, pick))
      else Outcome(s, NotOffered)
    case Renew(w, k, secs, now) => Plain(s, T.RenewLease(s.db, w, k, secs, now))
    case Release(w, k, now) => Plain(s, T.ReleaseLease(s.db, w, k, now))
    case Complete(w, k, now) => Plain(s, T.CompleteWorkflow(s.db, w, k, now))
    case Fail(w, k, now) => Plain(s, T.FailWorkflow(s.db, w, k, now))
    case Wait(w, k, now) => Plain(s, T.MarkWaiting(s.db, w, k, now))
    case FinishStep(w, k, n, input, output, now) => Plain(s, T.CompleteStep(s.db, w, k, n, input, output, now))
    case VerifyStart(w, k, n, input) => Owing(s, Tx(s.db, T.VerifyLease(s.db, w, k)), StartWrite(w, k, n, input))
    case VerifyFail(w, k, n, input, message) =>
      Owing(s, Tx(s.db, T.VerifyLease(s.db, w, k)), FailWrite(w, k, n, input, message))
    case SetRetryTimer(w, k, wakeAt) => Owing(s, T.CreateTimer(s.db, w, wakeAt), RetryMark(w, k))
    case Pay(debt, now) =>
      if debt in s.owed then
        var tx := WriteOwed(s.db, debt, now);
        Outcome(Sys(tx.db, s.owed - multiset{debt}), tx.reply)
      else Outcome(s, NotOffered)
    case Send(w, signalType, payload, now) => Plain(s, T.SendSignal(s.db, w, signalType, payload, now))
    case Consume(w, pick) =>
      if T.ConsumeOffered(s.db, w, pick) then Plain(s, T.ConsumeSignal(s.db, w, pick))
      else Outcome(s, NotOffered)
    case SetTimer(w, wakeAt) => Plain(s, T.CreateTimer(s.db, w, wakeAt))
    case FireTimers(now, order) =>
      if T.FireOffered(s.db, now, order) then Plain(s, T.FireExpiredTimers(s.db, now, order))
      else Outcome(s, NotOffered)
    case ExpireLeases(now) => Plain(s, T.ExpireLeases(s.db, now))
  }

  /** The state after the actions, taken in order. */
  function Exec(s: Sys, acts: seq<Action>): Sys {
    if |acts| == 0 then s
    else Apply(Exec(s, acts[..|acts| - 1]), acts[|acts| - 1]).sys
  }

  /** What the i-th action of a run was answered. */
  function ReplyAt(s: Sys, acts: seq<Action>, i: nat): Reply
    requires i < |acts|
  {
    Apply(Exec(s, acts[..i]), acts[i]).reply
  }

  lemma {:induction false} ExecConcat(s: Sys, a: seq<Action>, b: seq<Action>)
    ensures Exec(s, a + b) == Exec(Exec(s, a), b)
  {
    if |b| == 0 {
      assert a + b == a;
    } else {
      var b' := b[..|b| - 1];
      assert (a + b)[..|a + b| - 1] == a + b';
      ExecConcat(s, a, b');
    }
  }

  lemma ExecOne(s: Sys, acts: seq<Action>, a: Action)
    ensures Exec(s, acts + [a]) == Apply(Exec(s, acts), a).sys
  {
    assert (acts + [a])[..|acts|] == acts;
  }

  lemma FireApplies(s: Sys, now: int, order: seq<nat>)
    requires T.FireOffered(s.db, now, order)
    ensures Apply(s, FireTimers(now, order)).sys == Sys(T.FireAll(s.db, now, order), s.owed)
  {
  }

  /** The calls that add no event, whatever they are answered. */
  predicate IsSilent(a: Action) {
    match a
    case Renew(_, _, _, _) => true
    case Release(_, _, _) => true
    case Wait(_, _, _) => true
    case VerifyStart(_, _, _, _) => true
    case VerifyFail(_, _, _, _, _) => true
    case SetRetryTimer(_, _, _) => true
    case SetTimer(_, _) => true
    case Consume(_, _) => true
    case ExpireLeases(_) => true
    case _ => false
  }

  lemma SilentCall(s: Sys, a: Action)
    requires IsSilent(a)
    ensures
      var db' := Apply(s, a).sys.db;
      db'.events == s.db.events && db'.steps == s.db.steps && db'.workflows.Keys == s.db.workflows.Keys
  {
  }

  /** The model rolls back: every transaction function that fails gives back the
      database it was given. */
  lemma FailureChangesNothing(s: Sys, a: Action)
    requires Apply(s, a).reply.Failure? || Apply(s, a).reply.NotOffered?
    ensures Apply(s, a).sys.db == s.db
  {
    if a.Pay? && a.debt in s.owed {
      match a.debt
      case StartWrite(w, _, n, input) =>
      case FailWrite(w, _, n, input, message) =>
      case RetryMark(w, k) =>
    }
  }
}
