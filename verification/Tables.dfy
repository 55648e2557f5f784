/** Rows and logs told from the calls of a run and their answers alone. */
module Tables {
  import opened Types
  import opened Runs
  import opened Invariant
  import opened Preservation
  import opened Guarantees
  import opened History
  import opened Timers
  import opened Calls
  import Drain
  import T = Transactions

  // ---------------------------------------------------------------- creation

  /** The CreateWorkflow of w that was answered Done. */
  function CreatedBy(acts: seq<Action>, w: Id): Option<Action> {
    if |acts| == 0 then None
    else
      var last := acts[|acts| - 1];
      if last.Create? && last.w == w && ReplyAt(INIT, acts, |acts| - 1) == Done then Some(last)
      else CreatedBy(acts[..|acts| - 1], w)
  }

  /** In every run a workflow is there iff a CreateWorkflow of it was answered Done,
      and its row has the type and creation time of that call. */
  lemma {:induction false} MadeAsAsked(acts: seq<Action>, w: Id)
    ensures
      var rows, made := Exec(INIT, acts).db.workflows, CreatedBy(acts, w);
      && (w in rows <==> made.Some?)
      && (made.Some? ==> made.value.Create? && rows[w].wtype == made.value.wtype && rows[w].createdAt == made.value.now)
  {
    if |acts| > 0 {
      MadeAsAsked(acts[..|acts| - 1], w);
      CreationStep(Exec(INIT, acts[..|acts| - 1]), acts[|acts| - 1], w);
    }
  }

  lemma CreationStep(s: Sys, a: Action, w: Id)
    ensures
      var o := Apply(s, a);
      var rows, rows', made := s.db.workflows, o.sys.db.workflows, a.Create? && a.w == w && o.reply == Done;
      && (w in rows' <==> w in rows || made)
      && (made ==> w !in rows && rows'[w].wtype == a.wtype && rows'[w].createdAt == a.now)
      && (w in rows ==> rows'[w].wtype == rows[w].wtype && rows'[w].createdAt == rows[w].createdAt)
  {
    if w !in s.db.workflows {
      RowMade(s, a, w);
    } else {
      RowStep(s, a, w);
      if a.Create? && a.w == w {
        NotMadeTwice(s, a, w);
      }
    }
  }

  lemma NotMadeTwice(s: Sys, a: Action, w: Id)
    requires w in s.db.workflows && a.Create? && a.w == w
    ensures Apply(s, a) == Outcome(s, Failure(UniqueViolation))
  {
  }

  /** Once a CreateWorkflow has succeeded, any later one of the same id, at any point
      of any continuation, is refused and changes nothing. */
  lemma DuplicateCreateHarmless(s: Sys, first: Action, more: seq<Action>, again: Action)
    requires first.Create? && again.Create? && first.w == again.w && Apply(s, first).reply == Done
    ensures
      var s2 := Exec(Apply(s, first).sys, more);
      Apply(s2, again) == Outcome(s2, Failure(UniqueViolation))
  {
    CreationStep(s, first, first.w);
    GrowsOnly(Apply(s, first).sys, more);
    NotMadeTwice(Exec(Apply(s, first).sys, more), again, first.w);
  }

  // ------------------------------------------------------------------ leases

  /** The time up to which the last successful acquisition or renewal asked for w. */
  function LeaseEnd(acts: seq<Action>, w: Id): Option<int> {
    if |acts| == 0 then None
    else
      var last, reply := acts[|acts| - 1], ReplyAt(INIT, acts, |acts| - 1);
      if last.Acquire? && reply == Leased(w) then Some(last.now + last.secs)
      else if last.Renew? && last.w == w && reply == Done then Some(last.now + last.secs)
      else LeaseEnd(acts[..|acts| - 1], w)
  }

  /** In every run a lease runs for as long as its holder last asked, from when it
      asked: nothing else ever moves an expiry, except to clear it. */
  lemma {:induction false} ExpiryAsAsked(acts: seq<Action>, w: Id)
    requires w in Exec(INIT, acts).db.workflows
    ensures
      var row := Exec(INIT, acts).db.workflows[w];
      row.expires.Some? ==> row.expires == LeaseEnd(acts, w)
  {
    if |acts| > 0 {
      var before, last := acts[..|acts| - 1], acts[|acts| - 1];
      if w in Exec(INIT, before).db.workflows {
        ExpiryAsAsked(before, w);
      }
      ExpiryStep(Exec(INIT, before), last, w);
    }
  }

  lemma ExpiryStep(s: Sys, a: Action, w: Id)
    ensures
      var o := Apply(s, a);
      var asked := (a.Acquire? && o.reply == Leased(w)) || (a.Renew? && a.w == w && o.reply == Done);
      w in o.sys.db.workflows && o.sys.db.workflows[w].expires.Some? ==>
        if asked then o.sys.db.workflows[w].expires == Some(a.now + a.secs)
        else w in s.db.workflows && o.sys.db.workflows[w].expires == s.db.workflows[w].expires
  {
    if w in s.db.workflows {
      RowStep(s, a, w);
    } else {
      RowMade(s, a, w);
      if a.Renew? || a.Acquire? {
        LeasesOnlyRows(s, a, w);
      }
    }
  }

  lemma LeasesOnlyRows(s: Sys, a: Action, w: Id)
    requires w !in s.db.workflows && (a.Renew? || a.Acquire?)
    ensures Apply(s, a).reply != Leased(w) && (a.Renew? && a.w == w ==> Apply(s, a).reply != Done)
  {
  }

  /** The clock of the last call that changed the row of w. */
  ghost function LastChange(acts: seq<Action>, w: Id): int {
    if |acts| == 0 then 0
    else
      var before, last := acts[..|acts| - 1], acts[|acts| - 1];
      var db, reply := Exec(INIT, before).db, ReplyAt(INIT, acts, |acts| - 1);
      if w !in db.workflows || EffectOn(db, last, reply, w) != Untouched then Clock(last) else LastChange(before, w)
  }

  /** In every run updated_at is the clock of the last call that changed the row. */
  lemma {:induction false} UpdatedWhenChanged(acts: seq<Action>, w: Id)
    requires w in Exec(INIT, acts).db.workflows
    ensures Exec(INIT, acts).db.workflows[w].updatedAt == LastChange(acts, w)
  {
    if |acts| > 0 {
      var before, last := acts[..|acts| - 1], acts[|acts| - 1];
      if w in Exec(INIT, before).db.workflows {
        UpdatedWhenChanged(before, w);
        RowStep(Exec(INIT, before), last, w);
      } else {
        RowMade(Exec(INIT, before), last, w);
      }
    }
  }

  lemma LeaseStarts(s: Sys, a: Action, w: Id)
    requires (a.Acquire? && Apply(s, a).reply == Leased(w)) || (a.Renew? && a.w == w && Apply(s, a).reply == Done)
    ensures RunsUntil(Apply(s, a).sys.db, w, a.k, a.now + a.secs)
  {
  }

  /** A lease of `secs` seconds is exactly that: whatever others do meanwhile, the
      workflow is out of everyone's reach before now + secs, RUNNING for its holder,
      and may be taken by anyone from then on. */
  lemma LeaseWindow(s: Sys, a: Action, w: Id, acts: seq<Action>, t: int)
    requires (a.Acquire? && Apply(s, a).reply == Leased(w)) || (a.Renew? && a.w == w && Apply(s, a).reply == Done)
    requires forall i :: 0 <= i < |acts| ==> LeavesLease(acts[i], w, a.k, a.now + a.secs)
    ensures
      var db := Exec(Apply(s, a).sys, acts).db;
      && w in db.workflows && db.workflows[w].owner == Some(a.k) && db.workflows[w].status == Running
      && (IsBusy(db, t, w) <==> t < a.now + a.secs)
  {
    LeaseStarts(s, a, w);
    LeaseLasts(Apply(s, a).sys, acts, w, a.k, a.now + a.secs);
  }

  // ----------------------------------------------------------------- no work

  /** In every run "no work" means that each workflow is finished or in the hands
      of a worker whose lease has time left, and if it waits, for a timer still to
      come. */
  lemma NoWorkMeansBusy(acts: seq<Action>, k: Worker, secs: int, now: int, pick: Option<Id>, w: Id)
    requires Apply(Exec(INIT, acts), Acquire(k, secs, now, pick)).reply == NoWork
    requires w in Exec(INIT, acts).db.workflows
    ensures
      var db := Exec(INIT, acts).db;
      var row := db.workflows[w];
      || IsTerminal(row)
      || (row.owner.Some? && row.expires.Some? && row.expires.value > now && (row.status == Waiting ==> !TimerIsDue(db.timers, now, w)))
  {
    Reachable(acts);
    assert CoherentAt(Exec(INIT, acts).db, w);
    AcquireAnswers(Exec(INIT, acts), k, secs, now, pick, w);
    assert IsBusy(Exec(INIT, acts).db, now, w);
  }

  /** Once every lease has run out, an acquisition finds no work iff every workflow
      is COMPLETED or FAILED. */
  lemma NoWorkMeansDone(acts: seq<Action>, k: Worker, secs: int, now: int, pick: Option<Id>)
    requires
      var rows := Exec(INIT, acts).db.workflows;
      forall w :: w in rows && rows[w].expires.Some? ==> rows[w].expires.value <= now
    requires Apply(Exec(INIT, acts), Acquire(k, secs, now, pick)).reply != NotOffered
    ensures
      var rows := Exec(INIT, acts).db.workflows;
      Apply(Exec(INIT, acts), Acquire(k, secs, now, pick)).reply == NoWork <==>
        forall w :: w in rows ==> rows[w].status == Completed || rows[w].status == Failed
  {
    var s := Exec(INIT, acts);
    var reply := Apply(s, Acquire(k, secs, now, pick)).reply;
    forall w | w in s.db.workflows ensures IsBusy(s.db, now, w) <==> IsTerminal(s.db.workflows[w]) {
      FreeOrExpired(acts, now, w);
      BusyIsNotEligible(s.db, now, w);
    }
    AcquireAnswers(s, k, secs, now, pick, if reply.Leased? then reply.id else "");
  }

  /** In every state some answer is on offer: the query never gets stuck. */
  lemma AcquireIsAnswered(s: Sys, k: Worker, secs: int, now: int) returns (pick: Option<Id>)
    ensures
      var reply := Apply(s, Acquire(k, secs, now, pick)).reply;
      reply == NoWork || reply.Leased?
  {
    forall v | v in s.db.workflows ensures IsBusy(s.db, now, v) <==> v !in Drain.EligibleSet(s.db, now) {
      BusyIsNotEligible(s.db, now, v);
    }
    if Drain.EligibleSet(s.db, now) == {} {
      pick := None;
      AcquireAnswers(s, k, secs, now, pick, "");
    } else {
      var w := Drain.OldestExists(s.db, now, Drain.EligibleSet(s.db, now));
      pick := Some(w);
      AcquireAnswers(s, k, secs, now, pick, w);
    }
  }

  // --------------------------------------------------------------- suspended

  /** In every run the holder of a WAITING workflow can neither renew nor complete
      nor fail nor suspend it; it can still release it, which requeues it, and
      work on its steps. */
  lemma HolderOfWaiting(acts: seq<Action>, w: Id, k: Worker, secs: int, now: int)
    requires
      var rows := Exec(INIT, acts).db.workflows;
      w in rows && rows[w].status == Waiting && rows[w].owner == Some(k)
    ensures
      var s := Exec(INIT, acts);
      && Apply(s, Renew(w, k, secs, now)) == Outcome(s, Failure(LeaseMismatch))
      && Apply(s, Complete(w, k, now)) == Outcome(s, Failure(LeaseMismatch))
      && Apply(s, Fail(w, k, now)) == Outcome(s, Failure(LeaseMismatch))
      && Apply(s, Wait(w, k, now)) == Outcome(s, Failure(LeaseMismatch))
      && Apply(s, Release(w, k, now)).reply == Done
      && Released(Apply(s, Release(w, k, now)).sys.db, w)
  {
    RowStep(Exec(INIT, acts), Release(w, k, now), w);
  }

  ghost predicate Released(db: Db, w: Id) {
    w in db.workflows && db.workflows[w].status == Queued && db.workflows[w].owner == None && db.workflows[w].expires == None
  }

  // ------------------------------------------------------------------ the log

  datatype Entry = Entry(kind: Kind, at: int)

  function Entries(log: seq<Event>): seq<Entry> {
    if |log| == 0 then []
    else Entries(log[..|log| - 1]) + [Entry(log[|log| - 1].kind, log[|log| - 1].createdAt)]
  }

  function Times(m: nat, e: Entry): seq<Entry> {
    if m == 0 then [] else Times(m - 1, e) + [e]
  }

  /** How many timers of w went from unfired to fired. */
  ghost function FiredBetween(timers: seq<Timer>, timers': seq<Timer>, w: Id): nat {
    |set t: nat | t < |timers| && t < |timers'| && timers[t].wf == w && !timers[t].fired && timers'[t].fired|
  }

  /** What the calls of a run and their answers say that w's log must hold. */
  ghost function Trace(acts: seq<Action>, w: Id): seq<Entry> {
    if |acts| == 0 then []
    else
      var before, last, reply := acts[..|acts| - 1], acts[|acts| - 1], ReplyAt(INIT, acts, |acts| - 1);
      Trace(before, w) +
        if last.FireTimers? then
          Times(FiredBetween(Exec(INIT, before).db.timers, Exec(INIT, acts).db.timers, w), Entry(EvTimerFired, last.now))
        else
          match KindLogged(last, reply, w)
          case None => []
          case Some(kind) => [Entry(kind, Clock(last))]
  }

  lemma EntriesAppend(log: seq<Event>, e: Event)
    ensures Entries(log + [e]) == Entries(log) + [Entry(e.kind, e.createdAt)]
  {
    assert (log + [e])[..|log|] == log;
  }

  lemma Regroup<X>(a: seq<X>, b: seq<X>, x: X)
    ensures a + (b + [x]) == (a + b) + [x]
  {
  }

  lemma {:induction false} EntriesOfWakes(log: seq<Event>, w: Id, from: nat, m: nat, now: int)
    ensures Entries(log + Wakes(w, from, m, now)) == Entries(log) + Times(m, Entry(EvTimerFired, now))
  {
    if m == 0 {
      assert log + [] == log && Entries(log) + [] == Entries(log);
    } else {
      EntriesOfWakes(log, w, from, m - 1, now);
      var shorter, e := log + Wakes(w, from, m - 1, now), Event(w, EvTimerFired, from + m, now);
      var last := Entry(EvTimerFired, now);
      Regroup(log, Wakes(w, from, m - 1, now), e);
      EntriesAppend(shorter, e);
      Regroup(Entries(log), Times(m - 1, last), last);
    }
  }

  lemma LoggedEntries(events: seq<Event>, events': seq<Event>, w: Id, kind: Option<Kind>, now: int)
    requires Logs(events, events', w, kind, now)
    ensures Entries(T.LogOf(events', w)) ==
      Entries(T.LogOf(events, w)) + if kind.Some? then [Entry(kind.value, now)] else []
  {
    if |events'| > |events| {
      var e := events'[|events|];
      assert events' == events + [e];
      LogAppend(events, e, w);
      EntriesAppend(T.LogOf(events, w), e);
    } else {
      assert events' == events;
    }
  }

  lemma FiredEntries(s: Sys, now: int, order: seq<nat>, w: Id)
    requires Inv(s)
    ensures
      var db' := Apply(s, FireTimers(now, order)).sys.db;
      Entries(T.LogOf(db'.events, w)) ==
        Entries(T.LogOf(s.db.events, w)) + Times(FiredBetween(s.db.timers, db'.timers, w), Entry(EvTimerFired, now))
  {
    if T.FireOffered(s.db, now, order) {
      LogIsNumbered(s.db, w);
      FireApplies(s, now, order);
      FireLog(s.db, now, order, w);
      FireExactly(s.db, now, order);
      var log, m := T.LogOf(s.db.events, w), |DueTimers(s.db, now, w)|;
      EntriesOfWakes(log, w, |log|, m, now);
      FiredAreDue(s.db, T.FireAll(s.db, now, order).timers, now, w);
    } else {
      var timers := s.db.timers;
      assert (set t: nat | t < |timers| && t < |timers| && timers[t].wf == w && !timers[t].fired && timers[t].fired) == {};
      assert Times(0, Entry(EvTimerFired, now)) == [];
    }
  }

  lemma FiredAreDue(db: Db, timers': seq<Timer>, now: int, w: Id)
    requires |timers'| == |db.timers|
    requires forall t :: 0 <= t < |db.timers| ==>
      timers'[t] == if T.Fires(db, now, t) then db.timers[t].(fired := true) else db.timers[t]
    ensures FiredBetween(db.timers, timers', w) == |DueTimers(db, now, w)|
  {
    assert (set t: nat | t < |db.timers| && t < |timers'| && db.timers[t].wf == w && !db.timers[t].fired && timers'[t].fired)
        == DueTimers(db, now, w);
  }

  lemma LogIsNumbered(db: Db, w: Id)
    requires DbInv(db)
    ensures Numbered(T.LogOf(db.events, w))
  {
    if w in db.workflows {
      assert CoherentAt(db, w);
    } else {
      NoEventsNoLog(db.events, w);
    }
  }

  /** In every run the log of a workflow is the story of the calls on it: one event
      for each call that succeeded, of the kind of the call, with the output, the
      failure or the signal that the caller passed and at the caller's time, one for
      each timer that fired, in order, and nothing else. */
  lemma {:induction false} LogIsTrace(acts: seq<Action>, w: Id)
    ensures Entries(T.LogOf(Exec(INIT, acts).db.events, w)) == Trace(acts, w)
  {
    if |acts| > 0 {
      var before, last := acts[..|acts| - 1], acts[|acts| - 1];
      var s := Exec(INIT, before);
      LogIsTrace(before, w);
      if last.FireTimers? {
        Reachable(before);
        FiredEntries(s, last.now, last.order, w);
      } else {
        EventStep(s, last, w);
        LoggedEntries(s.db.events, Apply(s, last).sys.db.events, w, KindLogged(last, Apply(s, last).reply, w), Clock(last));
      }
    }
  }
}
