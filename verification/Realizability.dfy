/** Every log the rules allow is the log of some run. */
module Realizability {
  import opened Types
  import opened EventLog
  import opened Runs
  import opened Invariant
  import opened Preservation
  import opened Timers
  import T = Transactions

  /** A state of a run over one workflow: its log so far, the writes its clients
      still owe, and `armed` timers that are due at time 0; every other timer has
      fired. While the automaton says Out, k holds the lease, expired at time 0. */
  ghost predicate Ready(s: Sys, w: Id, k: Worker, ls: seq<Letter>, future: seq<Owed>, armed: nat) {
    && Inv(s)
    && s.db.workflows.Keys == {w}
    && Letters(T.LogOf(s.db.events, w)) == ls
    && s.owed == multiset(future)
    && (Drive(ls).Live? && Drive(ls).phase == Out ==> T.Runs(s.db, w, k) && s.db.workflows[w].expires == Some(0))
    && TimersReady(s.db.timers, w, armed)
  }

  ghost predicate TimersReady(timers: seq<Timer>, w: Id, armed: nat) {
    && armed <= |timers|
    && forall t :: 0 <= t < |timers| ==>
         if t < |timers| - armed then timers[t].fired else timers[t] == Timer(w, 0, false)
  }

  ghost predicate Writes(debt: Owed, w: Id, k: Worker) {
    (debt.StartWrite? || debt.FailWrite?) && debt.w == w && debt.k == k
  }

  function WriteKind(debt: Owed): Kind
    requires debt.StartWrite? || debt.FailWrite?
  {
    if debt.StartWrite? then EvStepStarted(debt.input) else EvStepFailed(debt.n, debt.message)
  }

  function WriteLetter(debt: Owed): Letter
    requires debt.StartWrite? || debt.FailWrite?
  {
    LetterOf(WriteKind(debt))
  }

  // ------------------------------------------------------- one more letter

  lemma OneMore(s: Sys, a: Action, w: Id, kind: Kind)
    requires Inv(s) && w in s.db.workflows
    requires
      var s' := Apply(s, a).sys;
      |s'.db.events| == |s.db.events| + 1 && s'.db.events == s.db.events + [s'.db.events[|s.db.events|]]
      && s'.db.events[|s.db.events|].wf == w && s'.db.events[|s.db.events|].kind == kind
    ensures Inv(Apply(s, a).sys)
    ensures Letters(T.LogOf(Apply(s, a).sys.db.events, w)) == Letters(T.LogOf(s.db.events, w)) + [LetterOf(kind)]
  {
    KeepInv(s, a);
    var e := Apply(s, a).sys.db.events[|s.db.events|];
    LogAppend(s.db.events, e, w);
    LettersAppend(T.LogOf(s.db.events, w), e);
  }

  lemma DoCreate(w: Id, k: Worker)
    ensures Ready(Apply(INIT, Create(w, "", 0)).sys, w, k, [Created], [], 0)
  {
    Reachable([]);
    KeepInv(INIT, Create(w, "", 0));
    var s := Apply(INIT, Create(w, "", 0)).sys;
    var e := Event(w, EvCreated, 1, 0);
    LogAppend([], e, w);
    LettersAppend([], e);
    assert s.db.events == [] + [e];
    assert [] + [Created] == [Created];
    assert Drive([Created]) == Delta(Drive([]), Created) by { DriveAppend([], Created); }
  }

  lemma DoBegun(s: Sys, w: Id, k: Worker, ls: seq<Letter>, future: seq<Owed>)
    requires Ready(s, w, k, ls, future, 0) && Accepted(ls + [Begun])
    ensures Ready(Apply(s, Acquire(k, 0, 0, Some(w))).sys, w, k, ls + [Begun], future, 0)
  {
    DriveAppend(ls, Begun);
    assert CoherentAt(s.db, w);
    AcquireAppends(s, w, k);
    OneMore(s, Acquire(k, 0, 0, Some(w)), w, EvStarted);
  }

  lemma AcquireAppends(s: Sys, w: Id, k: Worker)
    requires s.db.workflows.Keys == {w} && T.Eligible(s.db, 0, w)
    ensures
      var s' := Apply(s, Acquire(k, 0, 0, Some(w))).sys;
      && s'.owed == s.owed && s'.db.timers == s.db.timers && s'.db.workflows.Keys == {w}
      && T.Runs(s'.db, w, k) && s'.db.workflows[w].expires == Some(0)
      && s'.db.events == s.db.events + [Event(w, EvStarted, T.NextSeq(T.LogOf(s.db.events, w)), 0)]
  {
    assert T.IsPick(s.db, 0, w);
  }

  /** Letters that only a lease holder can add find k holding the lease. */
  lemma LeasedHere(s: Sys, w: Id, k: Worker, ls: seq<Letter>, future: seq<Owed>, l: Letter)
    requires Ready(s, w, k, ls, future, 0) && Accepted(ls + [l])
    requires l == Ended || l == Aborted || l.StepDone?
    ensures T.Runs(s.db, w, k)
    ensures l.StepDone? ==> !T.StepIsCompleted(s.db, w, l.step)
  {
    DriveAppend(ls, l);
    assert CoherentAt(s.db, w);
    if l.StepDone? {
      CompletedMeans(s.db, w, l.step);
    }
  }

  lemma DoStepDone(s: Sys, w: Id, k: Worker, ls: seq<Letter>, future: seq<Owed>, n: int)
    requires Ready(s, w, k, ls, future, 0) && Accepted(ls + [StepDone(n)])
    ensures Ready(Apply(s, FinishStep(w, k, n, Null, Null, 0)).sys, w, k, ls + [StepDone(n)], future, 0)
  {
    LeasedHere(s, w, k, ls, future, StepDone(n));
    FinishAppends(s, w, k, n);
    OneMore(s, FinishStep(w, k, n, Null, Null, 0), w, EvStepCompleted(n, Null));
    StillReady(s, Apply(s, FinishStep(w, k, n, Null, Null, 0)).sys, w, k, ls, future, StepDone(n), future);
  }

  lemma FinishAppends(s: Sys, w: Id, k: Worker, n: int)
    requires T.Runs(s.db, w, k) && !T.StepIsCompleted(s.db, w, n)
    ensures
      var s', db := Apply(s, FinishStep(w, k, n, Null, Null, 0)).sys, s.db;
      var db' := s'.db;
      && s'.owed == s.owed
      && T.Runs(db', w, k) && db'.workflows.Keys == db.workflows.Keys
      && db'.workflows[w].expires == db.workflows[w].expires && db'.timers == db.timers
      && db'.events == db.events + [Event(w, EvStepCompleted(n, Null), T.NextSeq(T.LogOf(db.events, w)), 0)]
  {
  }

  lemma DoComplete(s: Sys, w: Id, k: Worker, ls: seq<Letter>, future: seq<Owed>)
    requires Ready(s, w, k, ls, future, 0) && Accepted(ls + [Ended])
    ensures Ready(Apply(s, Complete(w, k, 0)).sys, w, k, ls + [Ended], future, 0)
  {
    LeasedHere(s, w, k, ls, future, Ended);
    EndAppends(s, w, k, Ended, Complete(w, k, 0));
    OneMore(s, Complete(w, k, 0), w, EvCompleted);
    StillReady(s, Apply(s, Complete(w, k, 0)).sys, w, k, ls, future, Ended, future);
  }

  lemma DoFail(s: Sys, w: Id, k: Worker, ls: seq<Letter>, future: seq<Owed>)
    requires Ready(s, w, k, ls, future, 0) && Accepted(ls + [Aborted])
    ensures Ready(Apply(s, Fail(w, k, 0)).sys, w, k, ls + [Aborted], future, 0)
  {
    LeasedHere(s, w, k, ls, future, Aborted);
    EndAppends(s, w, k, Aborted, Fail(w, k, 0));
    OneMore(s, Fail(w, k, 0), w, EvFailed);
    StillReady(s, Apply(s, Fail(w, k, 0)).sys, w, k, ls, future, Aborted, future);
  }

  lemma EndAppends(s: Sys, w: Id, k: Worker, l: Letter, a: Action)
    requires (l == Ended && a == Complete(w, k, 0)) || (l == Aborted && a == Fail(w, k, 0))
    requires T.Runs(s.db, w, k)
    ensures
      var s' := Apply(s, a).sys;
      var kind := if l == Ended then EvCompleted else EvFailed;
      && s'.owed == s.owed && s'.db.timers == s.db.timers && s'.db.workflows.Keys == s.db.workflows.Keys
      && s'.db.events == s.db.events + [Event(w, kind, T.NextSeq(T.LogOf(s.db.events, w)), 0)]
  {
  }

  /** Steps that leave the timers alone, and the lease unless they end it. */
  lemma StillReady(s: Sys, s': Sys, w: Id, k: Worker, ls: seq<Letter>, future: seq<Owed>, l: Letter, future': seq<Owed>)
    requires Ready(s, w, k, ls, future, 0) && Inv(s')
    requires s'.db.workflows.Keys == {w} && s'.db.timers == s.db.timers
    requires l != Ended && l != Aborted && T.Runs(s.db, w, k) ==>
      T.Runs(s'.db, w, k) && s'.db.workflows[w].expires == s.db.workflows[w].expires
    requires Letters(T.LogOf(s'.db.events, w)) == ls + [l] && s'.owed == multiset(future')
    requires Accepted(ls + [l]) && l != Begun
    ensures Ready(s', w, k, ls + [l], future', 0)
  {
    DriveAppend(ls, l);
  }

  lemma DoSignal(s: Sys, w: Id, k: Worker, ls: seq<Letter>, future: seq<Owed>)
    requires Ready(s, w, k, ls, future, 0) && Accepted(ls + [Signalled])
    ensures Ready(Apply(s, Send(w, "", Null, 0)).sys, w, k, ls + [Signalled], future, 0)
  {
    SendAppends(s, w);
    OneMore(s, Send(w, "", Null, 0), w, EvSignal(|s.db.signals| + 1, ""));
    StillReady(s, Apply(s, Send(w, "", Null, 0)).sys, w, k, ls, future, Signalled, future);
  }

  lemma SendAppends(s: Sys, w: Id)
    requires w in s.db.workflows
    ensures
      var s', kind := Apply(s, Send(w, "", Null, 0)).sys, EvSignal(|s.db.signals| + 1, "");
      && s'.db.workflows == s.db.workflows && s'.db.timers == s.db.timers && s'.owed == s.owed
      && s'.db.events == s.db.events + [Event(w, kind, T.NextSeq(T.LogOf(s.db.events, w)), 0)]
  {
  }

  lemma DoWrite(s: Sys, w: Id, k: Worker, ls: seq<Letter>, future: seq<Owed>, debt: Owed)
    requires Writes(debt, w, k)
    requires Ready(s, w, k, ls, future + [debt], 0) && Accepted(ls + [WriteLetter(debt)])
    ensures Ready(Apply(s, Pay(debt, 0)).sys, w, k, ls + [WriteLetter(debt)], future, 0)
  {
    Owes(future, debt);
    PayAppends(s, w, debt);
    OneMore(s, Pay(debt, 0), w, WriteKind(debt));
    StillReady(s, Apply(s, Pay(debt, 0)).sys, w, k, ls, future + [debt], WriteLetter(debt), future);
  }

  lemma Owes(future: seq<Owed>, debt: Owed)
    ensures debt in multiset(future + [debt])
    ensures multiset(future + [debt]) - multiset{debt} == multiset(future)
  {
  }

  lemma PayAppends(s: Sys, w: Id, debt: Owed)
    requires debt in s.owed && (debt.StartWrite? || debt.FailWrite?) && debt.w == w && w in s.db.workflows
    ensures
      var s' := Apply(s, Pay(debt, 0)).sys;
      && s'.db.workflows == s.db.workflows && s'.db.timers == s.db.timers && s'.owed == s.owed - multiset{debt}
      && s'.db.events == s.db.events + [Event(w, WriteKind(debt), T.NextSeq(T.LogOf(s.db.events, w)), 0)]
  {
  }

  function VerifyOf(debt: Owed): Action
    requires debt.StartWrite? || debt.FailWrite?
  {
    match debt
    case StartWrite(w, k, n, input) => VerifyStart(w, k, n, input)
    case FailWrite(w, k, n, input, message) => VerifyFail(w, k, n, input, message)
  }

  lemma DoVerify(s: Sys, w: Id, k: Worker, ls: seq<Letter>, future: seq<Owed>, debt: Owed)
    requires Writes(debt, w, k)
    requires Ready(s, w, k, ls, future, 0) && Accepted(ls) && Drive(ls).phase == Out
    ensures Ready(Apply(s, VerifyOf(debt)).sys, w, k, ls, future + [debt], 0)
  {
    KeepInv(s, VerifyOf(debt));
    VerifyOwes(s, w, k, debt);
    assert multiset(future + [debt]) == multiset(future) + multiset{debt};
  }

  lemma VerifyOwes(s: Sys, w: Id, k: Worker, debt: Owed)
    requires Writes(debt, w, k) && T.Holds(s.db, w, k)
    ensures Apply(s, VerifyOf(debt)).sys == Sys(s.db, s.owed + multiset{debt})
  {
  }

  // --------------------------------------------------------- waking by timers

  lemma DoArm(s: Sys, w: Id, k: Worker, ls: seq<Letter>, future: seq<Owed>, armed: nat)
    requires Ready(s, w, k, ls, future, armed)
    ensures Ready(Apply(s, SetTimer(w, 0)).sys, w, k, ls, future, armed + 1)
  {
    KeepInv(s, SetTimer(w, 0));
  }

  function Wokens(m: nat): seq<Letter> {
    if m == 0 then [] else Wokens(m - 1) + [Woken]
  }

  lemma {:induction false} WakeLetters(log: seq<Event>, w: Id, from: nat, m: nat, now: int)
    ensures Letters(log + Wakes(w, from, m, now)) == Letters(log) + Wokens(m)
  {
    if m == 0 {
      assert log + [] == log && Letters(log) + [] == Letters(log);
    } else {
      WakeLetters(log, w, from, m - 1, now);
      var shorter := log + Wakes(w, from, m - 1, now);
      var e := Event(w, EvTimerFired, from + m, now);
      assert log + Wakes(w, from, m, now) == shorter + [e];
      LettersAppend(shorter, e);
      assert Letters(log) + Wokens(m) == (Letters(log) + Wokens(m - 1)) + [Woken];
    }
  }

  function Consecutive(lo: nat, hi: nat): (order: seq<nat>)
    requires lo <= hi
    ensures |order| == hi - lo && forall i :: 0 <= i < |order| ==> order[i] == lo + i
  {
    seq(hi - lo, i requires 0 <= i < hi - lo => lo + i)
  }

  lemma {:induction false} WokensKeepPhase(ls: seq<Letter>, m: nat)
    requires Accepted(ls) && Drive(ls).phase == Out && m > 0
    ensures Drive(ls + Wokens(m)) == Live(Fired, Drive(ls).done)
  {
    assert ls + Wokens(m) == (ls + Wokens(m - 1)) + [Woken];
    DriveAppend(ls + Wokens(m - 1), Woken);
    if m > 1 {
      WokensKeepPhase(ls, m - 1);
    } else {
      assert ls + Wokens(0) == ls;
    }
  }

  /** The same state with the workflow waiting. */
  ghost predicate Asleep(s: Sys, w: Id, ls: seq<Letter>, future: seq<Owed>, armed: nat) {
    && Inv(s)
    && s.db.workflows.Keys == {w} && s.db.workflows[w].status == Waiting
    && Letters(T.LogOf(s.db.events, w)) == ls
    && s.owed == multiset(future)
    && TimersReady(s.db.timers, w, armed)
  }

  lemma DoWait(acts: seq<Action>, w: Id, k: Worker, ls: seq<Letter>, future: seq<Owed>, armed: nat)
    requires Ready(Exec(INIT, acts), w, k, ls, future, armed) && Accepted(ls) && Drive(ls).phase == Out
    ensures Asleep(Exec(INIT, acts + [Wait(w, k, 0)]), w, ls, future, armed)
  {
    var s := Exec(INIT, acts);
    KeepInv(s, Wait(w, k, 0));
    assert Asleep(Apply(s, Wait(w, k, 0)).sys, w, ls, future, armed);
    ExecOne(INIT, acts, Wait(w, k, 0));
  }

  /** Of the armed timers, all are due and no other is. */
  lemma ArmedAreDue(db: Db, w: Id, armed: nat)
    requires w in db.workflows && db.workflows[w].status == Waiting && TimersReady(db.timers, w, armed)
    ensures T.FireOffered(db, 0, Consecutive(|db.timers| - armed, |db.timers|))
    ensures |DueTimers(db, 0, w)| == armed
  {
    var n := |db.timers|;
    var order := Consecutive(n - armed, n);
    forall t | 0 <= t < n && T.Fires(db, 0, t) ensures t in order {
      assert order[t - (n - armed)] == t;
    }
    CountIsSize(db.timers, order, w);
    AllCounted(db.timers, order, w);
    assert Picked(db.timers, order, w) == DueTimers(db, 0, w);
  }

  lemma {:induction false} AllCounted(timers: seq<Timer>, order: seq<nat>, w: Id)
    requires forall i :: 0 <= i < |order| ==> order[i] < |timers| && timers[order[i]].wf == w
    ensures CountFor(timers, order, w) == |order|
  {
    if |order| > 0 {
      AllCounted(timers, order[..|order| - 1], w);
    }
  }

  /** With `armed` due timers, waiting and one scheduler pass log that many
      TIMER_FIRED events. */
  lemma DoFire(s: Sys, w: Id, k: Worker, ls: seq<Letter>, future: seq<Owed>, armed: nat) returns (a: Action)
    requires armed > 0 && Asleep(s, w, ls, future, armed)
    ensures Ready(Apply(s, a).sys, w, k, ls + Wokens(armed), future, 0)
  {
    assert CoherentAt(s.db, w);
    ArmedAreDue(s.db, w, armed);
    var order := Consecutive(|s.db.timers| - armed, |s.db.timers|);
    AfterFire(s.db, w, order, armed);
    a := FireTimers(0, order);
    KeepInv(s, a);
    FireApplies(s, 0, order);
  }

  lemma AfterFire(db: Db, w: Id, order: seq<nat>, armed: nat)
    requires w in db.workflows && db.workflows[w].status == Waiting && CoherentAt(db, w)
    requires TimersReady(db.timers, w, armed) && armed > 0
    requires T.FireOffered(db, 0, order) && |DueTimers(db, 0, w)| == armed
    ensures
      var db', ls := T.FireAll(db, 0, order), Letters(T.LogOf(db.events, w));
      && db'.workflows.Keys == db.workflows.Keys
      && TimersReady(db'.timers, w, 0)
      && Letters(T.LogOf(db'.events, w)) == ls + Wokens(armed)
      && Drive(ls + Wokens(armed)).Live? && Drive(ls + Wokens(armed)).phase == Fired
  {
    FireExactly(db, 0, order);
    FireLog(db, 0, order, w);
    var log := T.LogOf(db.events, w);
    WakeLetters(log, w, |log|, armed, 0);
    WokensKeepPhase(Letters(log), armed);
  }

  // ------------------------------------------------------------ whole logs

  /** An accepted log ending in TIMER_FIRED ends in a block of them that began
      while the workflow was leased out. */
  lemma {:induction false} LastBlock(ls: seq<Letter>) returns (before: seq<Letter>, m: nat)
    requires Accepted(ls) && ls[|ls| - 1] == Woken
    ensures m > 0 && |before| < |ls| && ls == before + Wokens(m)
    ensures Accepted(before) && Drive(before).phase == Out
  {
    var shorter := ls[..|ls| - 1];
    assert ls == shorter + [Woken];
    if Drive(shorter).phase == Out {
      before, m := shorter, 1;
      assert Wokens(1) == [] + [Woken] == [Woken];
    } else {
      assert shorter[|shorter| - 1] == Woken;
      before, m := LastBlock(shorter);
      assert before + Wokens(m + 1) == (before + Wokens(m)) + [Woken];
      m := m + 1;
    }
  }

  lemma OneStep(acts: seq<Action>, a: Action, w: Id, k: Worker, ls: seq<Letter>, future: seq<Owed>, armed: nat)
    returns (more: seq<Action>)
    requires Ready(Apply(Exec(INIT, acts), a).sys, w, k, ls, future, armed)
    ensures more == acts + [a] && Ready(Exec(INIT, more), w, k, ls, future, armed)
  {
    more := acts + [a];
    ExecOne(INIT, acts, a);
  }

  lemma VerifyOne(acts: seq<Action>, w: Id, k: Worker, ls: seq<Letter>, future: seq<Owed>, debt: Owed)
    returns (more: seq<Action>)
    requires Ready(Exec(INIT, acts), w, k, ls, future, 0) && Accepted(ls) && Drive(ls).phase == Out
    requires Writes(debt, w, k)
    ensures Ready(Exec(INIT, more), w, k, ls, future + [debt], 0)
  {
    DoVerify(Exec(INIT, acts), w, k, ls, future, debt);
    more := OneStep(acts, VerifyOf(debt), w, k, ls, future + [debt], 0);
  }

  lemma {:induction false} VerifyAll(acts: seq<Action>, w: Id, k: Worker, ls: seq<Letter>, future: seq<Owed>)
    returns (more: seq<Action>)
    requires Ready(Exec(INIT, acts), w, k, ls, [], 0) && Accepted(ls) && Drive(ls).phase == Out
    requires forall i :: 0 <= i < |future| ==> Writes(future[i], w, k)
    ensures Ready(Exec(INIT, more), w, k, ls, future, 0)
  {
    if |future| == 0 {
      more := acts;
    } else {
      var fewer, debt := future[..|future| - 1], future[|future| - 1];
      assert fewer + [debt] == future;
      var soFar := VerifyAll(acts, w, k, ls, fewer);
      more := VerifyOne(soFar, w, k, ls, fewer, debt);
    }
  }

  lemma {:induction false} ArmAll(acts: seq<Action>, w: Id, k: Worker, ls: seq<Letter>, future: seq<Owed>, m: nat)
    returns (more: seq<Action>)
    requires Ready(Exec(INIT, acts), w, k, ls, future, 0)
    ensures Ready(Exec(INIT, more), w, k, ls, future, m)
  {
    if m == 0 {
      more := acts;
    } else {
      var soFar := ArmAll(acts, w, k, ls, future, m - 1);
      DoArm(Exec(INIT, soFar), w, k, ls, future, m - 1);
      more := OneStep(soFar, SetTimer(w, 0), w, k, ls, future, m);
    }
  }

  lemma WakeAll(acts: seq<Action>, w: Id, k: Worker, ls: seq<Letter>, future: seq<Owed>, m: nat)
    returns (more: seq<Action>)
    requires Ready(Exec(INIT, acts), w, k, ls, future, 0) && Accepted(ls) && Drive(ls).phase == Out && m > 0
    ensures Ready(Exec(INIT, more), w, k, ls + Wokens(m), future, 0)
  {
    var armed := ArmAll(acts, w, k, ls, future, m);
    DoWait(armed, w, k, ls, future, m);
    more := FireArmed(armed + [Wait(w, k, 0)], w, k, ls, future, m);
  }

  lemma FireArmed(acts: seq<Action>, w: Id, k: Worker, ls: seq<Letter>, future: seq<Owed>, m: nat)
    returns (more: seq<Action>)
    requires m > 0 && Asleep(Exec(INIT, acts), w, ls, future, m)
    ensures Ready(Exec(INIT, more), w, k, ls + Wokens(m), future, 0)
  {
    var a := DoFire(Exec(INIT, acts), w, k, ls, future, m);
    more := OneStep(acts, a, w, k, ls + Wokens(m), future, 0);
  }

  /** The run is built back to front: a write half that comes late in the log is
      promised to the part of the run before it, which must have verified it. */
  lemma {:induction false} Realize(ls: seq<Letter>, w: Id, k: Worker, future: seq<Owed>) returns (acts: seq<Action>)
    requires Accepted(ls)
    requires forall i :: 0 <= i < |future| ==> Writes(future[i], w, k)
    requires Drive(ls).phase == New ==> future == []
    ensures Ready(Exec(INIT, acts), w, k, ls, future, 0)
    decreases |ls|
  {
    var before, l := ls[..|ls| - 1], ls[|ls| - 1];
    assert ls == before + [l];
    match l
    case Created =>
      OnlyEmptyStarts(before);
      acts := [Create(w, "", 0)];
      ExecOne(INIT, [], Create(w, "", 0));
      assert [] + [Create(w, "", 0)] == acts;
      DoCreate(w, k);
    case Begun =>
      if Drive(before).phase == New {
        var soFar := Realize(before, w, k, []);
        DoBegun(Exec(INIT, soFar), w, k, before, []);
        acts := OneStep(soFar, Acquire(k, 0, 0, Some(w)), w, k, ls, [], 0);
        acts := VerifyAll(acts, w, k, ls, future);
      } else {
        var soFar := Realize(before, w, k, future);
        DoBegun(Exec(INIT, soFar), w, k, before, future);
        acts := OneStep(soFar, Acquire(k, 0, 0, Some(w)), w, k, ls, future, 0);
      }
    case StepDone(n) =>
      var soFar := Realize(before, w, k, future);
      DoStepDone(Exec(INIT, soFar), w, k, before, future, n);
      acts := OneStep(soFar, FinishStep(w, k, n, Null, Null, 0), w, k, ls, future, 0);
    case StepBegun => acts := RealizeWrite(ls, w, k, future, StartWrite(w, k, 0, Null));
    case StepBroken(n) => acts := RealizeWrite(ls, w, k, future, FailWrite(w, k, n, Null, ""));
    case Signalled =>
      var soFar := Realize(before, w, k, future);
      DoSignal(Exec(INIT, soFar), w, k, before, future);
      acts := OneStep(soFar, Send(w, "", Null, 0), w, k, ls, future, 0);
    case Woken =>
      var leased, m := LastBlock(ls);
      var soFar := Realize(leased, w, k, future);
      acts := WakeAll(soFar, w, k, leased, future, m);
    case Ended =>
      var soFar := Realize(before, w, k, future);
      DoComplete(Exec(INIT, soFar), w, k, before, future);
      acts := OneStep(soFar, Complete(w, k, 0), w, k, ls, future, 0);
    case Aborted =>
      var soFar := Realize(before, w, k, future);
      DoFail(Exec(INIT, soFar), w, k, before, future);
      acts := OneStep(soFar, Fail(w, k, 0), w, k, ls, future, 0);
  }

  lemma {:induction false} RealizeWrite(ls: seq<Letter>, w: Id, k: Worker, future: seq<Owed>, debt: Owed) returns (acts: seq<Action>)
    requires Accepted(ls) && Writes(debt, w, k) && ls[|ls| - 1] == WriteLetter(debt)
    requires forall i :: 0 <= i < |future| ==> Writes(future[i], w, k)
    ensures Ready(Exec(INIT, acts), w, k, ls, future, 0)
    decreases |ls|, 0
  {
    var before := ls[..|ls| - 1];
    assert ls == before + [WriteLetter(debt)];
    var soFar := Realize(before, w, k, future + [debt]);
    DoWrite(Exec(INIT, soFar), w, k, before, future, debt);
    acts := OneStep(soFar, Pay(debt, 0), w, k, ls, future, 0);
  }

  lemma OnlyEmptyStarts(ls: seq<Letter>)
    requires Drive(ls) == Start
    ensures ls == []
  {
  }
}
