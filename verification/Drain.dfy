/** Any number of workers that each loop over AcquireLease and CompleteWorkflow
    at one moment, with no new arrivals, in any interleaving. */
module Drain {
  import opened Types
  import opened Runs
  import opened Timers
  import Guarantees
  import T = Transactions

  /** The workflows leased in a run, in order. */
  function Leases(s: Sys, acts: seq<Action>): seq<Id> {
    if |acts| == 0 then []
    else
      var rest, reply := Leases(s, acts[..|acts| - 1]), ReplyAt(s, acts, |acts| - 1);
      if reply.Leased? then rest + [reply.id] else rest
  }

  /** The workflows completed in a run, in order. */
  function Completions(s: Sys, acts: seq<Action>): seq<Id> {
    if |acts| == 0 then []
    else
      var rest, last, reply := Completions(s, acts[..|acts| - 1]), acts[|acts| - 1], ReplyAt(s, acts, |acts| - 1);
      if last.Complete? && reply == Done then rest + [last.w] else rest
  }

  /** Leases last at least a second, and a worker completes only a workflow that
      was leased in this run. */
  predicate IsDrainStep(a: Action, now: int, leased: seq<Id>) {
    || (a.Acquire? && a.now == now && a.secs >= 1)
    || (a.Complete? && a.now == now && a.w in leased)
  }

  predicate Drains(s: Sys, acts: seq<Action>, now: int) {
    |acts| == 0 || (
      && Drains(s, acts[..|acts| - 1], now)
      && IsDrainStep(acts[|acts| - 1], now, Leases(s, acts[..|acts| - 1])))
  }

  function EligibleSet(db: Db, now: int): set<Id> {
    set w | w in db.workflows && T.Eligible(db, now, w)
  }

  // ------------------------------------------------------------- one step

  /** What an AcquireLease or CompleteWorkflow does to rows and timers. */
  ghost predicate Moved(db: Db, a: Action, reply: Reply, db': Db) {
    && db'.timers == db.timers
    && (a.Acquire? && reply.Leased? ==>
          && T.IsPick(db, a.now, reply.id)
          && db'.workflows == db.workflows[reply.id := T.LeasedRow(db.workflows[reply.id], a.k, a.secs, a.now)])
    && (a.Complete? && reply == Done ==>
          && T.Runs(db, a.w, a.k)
          && db'.workflows == db.workflows[a.w := T.EndedRow(db.workflows[a.w], Completed, a.now)])
    && (a.Complete? && reply != Done ==> !T.Runs(db, a.w, a.k))
    && (!(a.Acquire? && reply.Leased?) && !(a.Complete? && reply == Done) ==> db'.workflows == db.workflows)
    && (a.Complete? ==> !reply.Leased?)
  }

  lemma StepMoves(s: Sys, a: Action)
    requires a.Acquire? || a.Complete?
    ensures Moved(s.db, a, Apply(s, a).reply, Apply(s, a).sys.db)
  {
  }

  /** Where the workflows stand after a part of the drain that began at db0. */
  ghost predicate DrainState(db0: Db, db: Db, now: int, leased: seq<Id>, ended: seq<Id>) {
    && db.timers == db0.timers
    && db.workflows.Keys == db0.workflows.Keys
    && Distinct(leased) && Distinct(ended)
    && (forall w :: w in ended ==> w in leased)
    && (forall w :: w in leased ==> T.Eligible(db0, now, w))
    && (forall w :: w in db0.workflows && w !in leased ==> db.workflows[w] == db0.workflows[w])
    && (forall w :: w in leased ==> Served(db.workflows[w], now, w in ended))
  }

  predicate Served(row: Workflow, now: int, ended: bool) {
    if ended then row.status == Completed && row.owner == None && row.expires == None
    else row.status == Running && row.owner.Some? && row.expires.Some? && row.expires.value > now
  }

  lemma StillEligible(db0: Db, db: Db, now: int, leased: seq<Id>, ended: seq<Id>, v: Id)
    requires DrainState(db0, db, now, leased, ended)
    ensures T.Eligible(db, now, v) <==> T.Eligible(db0, now, v) && v !in leased
  {
    assert T.HasDueTimer(db, now, v) <==> T.HasDueTimer(db0, now, v);
    if v in leased {
      assert Served(db.workflows[v], now, v in ended);
    }
  }

  lemma DrainStateStep(db0: Db, db: Db, now: int, leased: seq<Id>, ended: seq<Id>, a: Action, reply: Reply, db': Db)
    requires DrainState(db0, db, now, leased, ended)
    requires Moved(db, a, reply, db') && IsDrainStep(a, now, leased)
    ensures
      DrainState(db0, db', now, if reply.Leased? then leased + [reply.id] else leased,
               if a.Complete? && reply == Done then ended + [a.w] else ended)
  {
    if a.Acquire? && reply.Leased? {
      StillEligible(db0, db, now, leased, ended, reply.id);
    } else if a.Complete? && reply == Done {
      assert Served(db.workflows[a.w], now, a.w in ended);
    }
  }

  // ------------------------------------------------------------ whole drains

  lemma {:induction false} DrainStateHolds(s: Sys, acts: seq<Action>, now: int)
    requires Drains(s, acts, now)
    ensures DrainState(s.db, Exec(s, acts).db, now, Leases(s, acts), Completions(s, acts))
  {
    if |acts| > 0 {
      var before, last := acts[..|acts| - 1], acts[|acts| - 1];
      DrainStateHolds(s, before, now);
      LastMoves(s, acts);
      DrainStateStep(s.db, Exec(s, before).db, now, Leases(s, before), Completions(s, before), last,
                   ReplyAt(s, acts, |acts| - 1), Exec(s, acts).db);
      PlainReplies(Exec(s, before), last);
    }
  }

  lemma PlainReplies(s: Sys, a: Action)
    ensures Apply(s, a).reply.Leased? ==> a.Acquire?
  {
  }

  lemma LastMoves(s: Sys, acts: seq<Action>)
    requires |acts| > 0 && (acts[|acts| - 1].Acquire? || acts[|acts| - 1].Complete?)
    ensures Moved(Exec(s, acts[..|acts| - 1]).db, acts[|acts| - 1], ReplyAt(s, acts, |acts| - 1), Exec(s, acts).db)
  {
    StepMoves(Exec(s, acts[..|acts| - 1]), acts[|acts| - 1]);
  }

  ghost predicate ByAge(db0: Db, leased: seq<Id>) {
    && (forall x :: 0 <= x < |leased| ==> leased[x] in db0.workflows)
    && (forall x, y :: 0 <= x < y < |leased| ==> db0.workflows[leased[x]].createdAt <= db0.workflows[leased[y]].createdAt)
  }

  ghost predicate NoneOlder(db0: Db, now: int, leased: seq<Id>) {
    && (forall x :: 0 <= x < |leased| ==> leased[x] in db0.workflows)
    && (forall x, v :: 0 <= x < |leased| && v in db0.workflows && T.Eligible(db0, now, v) && v !in leased ==>
          db0.workflows[leased[x]].createdAt <= db0.workflows[v].createdAt)
  }

  /** Workflows are leased in the order of their creation times, each before any
      younger one that was eligible at the start. */
  lemma {:induction false} OldestWorkFirst(s: Sys, acts: seq<Action>, now: int)
    requires Drains(s, acts, now)
    ensures ByAge(s.db, Leases(s, acts)) && NoneOlder(s.db, now, Leases(s, acts))
  {
    if |acts| > 0 {
      var before, last, reply := acts[..|acts| - 1], acts[|acts| - 1], ReplyAt(s, acts, |acts| - 1);
      OldestWorkFirst(s, before, now);
      DrainStateHolds(s, before, now);
      LastMoves(s, acts);
      PlainReplies(Exec(s, before), last);
      if reply.Leased? {
        PickIsNext(s.db, Exec(s, before).db, now, Leases(s, before), Completions(s, before), reply.id);
      }
    }
  }

  lemma PickIsNext(db0: Db, db: Db, now: int, leased: seq<Id>, ended: seq<Id>, w: Id)
    requires DrainState(db0, db, now, leased, ended) && T.IsPick(db, now, w)
    requires ByAge(db0, leased) && NoneOlder(db0, now, leased)
    ensures ByAge(db0, leased + [w]) && NoneOlder(db0, now, leased + [w])
  {
    StillEligible(db0, db, now, leased, ended, w);
    forall v | v in db0.workflows && T.Eligible(db0, now, v) && v !in leased
      ensures db0.workflows[w].createdAt <= db0.workflows[v].createdAt
    {
      StillEligible(db0, db, now, leased, ended, v);
    }
  }

  lemma {:induction false} DistinctFits(s: seq<Id>, all: set<Id>)
    requires Distinct(s) && forall i :: 0 <= i < |s| ==> s[i] in all
    ensures |s| <= |all|
    ensures |s| == |all| ==> forall w :: w in all ==> w in s
    decreases |s|
  {
    if |s| > 0 {
      var rest, last := s[..|s| - 1], s[|s| - 1];
      DistinctFits(rest, all - {last});
      assert s == rest + [last];
    }
  }

  /** No workflow is leased twice or completed twice, only workflows eligible at
      the start are leased, what is eligible at the end is what was and has not
      been leased, and at most two effective calls are made for each workflow. */
  lemma DrainOnce(s: Sys, acts: seq<Action>, now: int)
    requires Drains(s, acts, now)
    ensures
      var leased, ended, db := Leases(s, acts), Completions(s, acts), Exec(s, acts).db;
      && Distinct(leased) && Distinct(ended)
      && (forall w :: T.Eligible(db, now, w) <==> T.Eligible(s.db, now, w) && w !in leased)
      && (forall w :: w in leased ==> T.Eligible(s.db, now, w))
      && (forall w :: w in ended ==> w in leased && w in db.workflows && db.workflows[w].status == Completed)
      && (forall w :: w in leased && w !in ended ==> w in db.workflows && db.workflows[w].status == Running)
      && |leased| + |ended| <= 2 * |EligibleSet(s.db, now)|
  {
    DrainStateHolds(s, acts, now);
    DrainStateCounts(s.db, Exec(s, acts).db, now, Leases(s, acts), Completions(s, acts));
  }

  lemma DrainStateCounts(db0: Db, db: Db, now: int, leased: seq<Id>, ended: seq<Id>)
    requires DrainState(db0, db, now, leased, ended)
    ensures forall w :: T.Eligible(db, now, w) <==> T.Eligible(db0, now, w) && w !in leased
    ensures forall w :: w in leased ==> w in db.workflows && db.workflows[w].status == if w in ended then Completed else Running
    ensures |leased| + |ended| <= 2 * |EligibleSet(db0, now)|
  {
    forall w ensures T.Eligible(db, now, w) <==> T.Eligible(db0, now, w) && w !in leased {
      StillEligible(db0, db, now, leased, ended, w);
    }
    forall w | w in leased ensures Served(db.workflows[w], now, w in ended) {
    }
    assert forall i :: 0 <= i < |leased| ==> leased[i] in leased;
    assert forall i :: 0 <= i < |ended| ==> ended[i] in ended;
    DistinctFits(leased, EligibleSet(db0, now));
    DistinctFits(ended, EligibleSet(db0, now));
  }

  /** A drain that has come to rest has completed every workflow that was
      eligible at the start. */
  lemma DrainCompletes(s: Sys, acts: seq<Action>, now: int)
    requires Drains(s, acts, now)
    requires EligibleSet(Exec(s, acts).db, now) == {}
    requires forall w :: w in Leases(s, acts) && w in Exec(s, acts).db.workflows ==> Exec(s, acts).db.workflows[w].owner == None
    ensures
      var db := Exec(s, acts).db;
      forall w :: w in EligibleSet(s.db, now) ==>
        w in Completions(s, acts) && w in db.workflows && db.workflows[w].status == Completed
  {
    DrainStateHolds(s, acts, now);
    var db := Exec(s, acts).db;
    forall w | w in EligibleSet(s.db, now) ensures w in Completions(s, acts) && db.workflows[w].status == Completed {
      StillEligible(s.db, db, now, Leases(s, acts), Completions(s, acts), w);
      assert w !in EligibleSet(db, now);
      assert Served(db.workflows[w], now, w in Completions(s, acts));
    }
  }

  lemma OldestExists(db: Db, now: int, some: set<Id>) returns (w: Id)
    requires some != {} && some <= EligibleSet(db, now)
    ensures w in some && w in db.workflows
    ensures forall v :: v in some && v in db.workflows ==> db.workflows[w].createdAt <= db.workflows[v].createdAt
    decreases some
  {
    w :| w in some;
    if some != {w} {
      var v := OldestExists(db, now, some - {w});
      if db.workflows[v].createdAt < db.workflows[w].createdAt {
        w := v;
      }
    }
  }

  /** Until a drain has come to rest some worker can make an effective call. */
  lemma DrainProgress(s: Sys, acts: seq<Action>, now: int)
    returns (a: Action)
    requires Drains(s, acts, now)
    requires EligibleSet(Exec(s, acts).db, now) != {}
      || exists w :: w in Leases(s, acts) && w !in Completions(s, acts)
    ensures IsDrainStep(a, now, Leases(s, acts))
    ensures Apply(Exec(s, acts), a).reply.Leased? || (a.Complete? && Apply(Exec(s, acts), a).reply == Done)
  {
    var db := Exec(s, acts).db;
    if EligibleSet(db, now) != {} {
      var w := OldestExists(db, now, EligibleSet(db, now));
      a := Acquire("", 1, now, Some(w));
      OldestIsOffered(Exec(s, acts), now, w);
    } else {
      DrainStateHolds(s, acts, now);
      var w :| w in Leases(s, acts) && w !in Completions(s, acts);
      assert Served(db.workflows[w], now, false);
      a := Complete(w, db.workflows[w].owner.value, now);
    }
  }

  lemma OldestIsOffered(s: Sys, now: int, w: Id)
    requires w in EligibleSet(s.db, now)
    requires forall v :: v in EligibleSet(s.db, now) && v in s.db.workflows ==>
      s.db.workflows[w].createdAt <= s.db.workflows[v].createdAt
    ensures Apply(s, Acquire("", 1, now, Some(w))).reply == Leased(w)
  {
    forall v | v in s.db.workflows && T.Eligible(s.db, now, v)
      ensures s.db.workflows[w].createdAt <= s.db.workflows[v].createdAt
    {
      assert v in EligibleSet(s.db, now);
    }
  }

  /** Any drain can be carried on until it rests. */
  lemma {:induction false} DrainToRest(s: Sys, acts: seq<Action>, now: int) returns (more: seq<Action>)
    requires Drains(s, acts, now) && |acts| == |Leases(s, acts)| + |Completions(s, acts)|
    ensures Drains(s, more, now) && |more| == |Leases(s, more)| + |Completions(s, more)|
    ensures EligibleSet(Exec(s, more).db, now) == {}
    ensures forall w :: w in Leases(s, more) ==> w in Completions(s, more)
    decreases 2 * |EligibleSet(s.db, now)| - |acts|
  {
    DrainOnce(s, acts, now);
    if EligibleSet(Exec(s, acts).db, now) != {} || exists w :: w in Leases(s, acts) && w !in Completions(s, acts) {
      var a := DrainProgress(s, acts, now);
      OneMoreCall(s, acts, now, a);
      DrainOnce(s, acts + [a], now);
      more := DrainToRest(s, acts + [a], now);
    } else {
      more := acts;
    }
  }

  lemma OneMoreCall(s: Sys, acts: seq<Action>, now: int, a: Action)
    requires Drains(s, acts, now) && IsDrainStep(a, now, Leases(s, acts))
    requires Apply(Exec(s, acts), a).reply.Leased? || (a.Complete? && Apply(Exec(s, acts), a).reply == Done)
    ensures Drains(s, acts + [a], now)
    ensures |Leases(s, acts + [a])| + |Completions(s, acts + [a])| == |Leases(s, acts)| + |Completions(s, acts)| + 1
  {
    var longer := acts + [a];
    assert longer[..|longer| - 1] == acts && longer[|longer| - 1] == a;
    PlainReplies(Exec(s, acts), a);
  }

  /** Every state of every run can be brought to an end at any one moment at which
      all its leases have run out (NeverStuck gives the first such moment), by
      acquisitions and completions alone, at most two for each unfinished workflow:
      all of those are then COMPLETED, and the others keep their rows. */
  lemma EverythingCanFinish(acts: seq<Action>, now: int) returns (more: seq<Action>)
    requires
      var db := Exec(INIT, acts).db;
      forall w :: w in db.workflows && db.workflows[w].expires.Some? ==> db.workflows[w].expires.value <= now
    ensures forall i :: 0 <= i < |more| ==> (more[i].Acquire? || more[i].Complete?) && more[i].now == now
    ensures
      var db, db' := Exec(INIT, acts).db, Exec(INIT, acts + more).db;
      && db'.workflows.Keys == db.workflows.Keys
      && (forall w :: w in db.workflows ==>
            if Guarantees.IsTerminal(db.workflows[w]) then db'.workflows[w] == db.workflows[w]
            else db'.workflows[w].status == Completed)
      && |more| <= 2 * |set w | w in db.workflows && !Guarantees.IsTerminal(db.workflows[w])|
  {
    var s := Exec(INIT, acts);
    forall w | w in s.db.workflows
      ensures T.Eligible(s.db, now, w) <==> !Guarantees.IsTerminal(s.db.workflows[w])
    {
      Guarantees.FreeOrExpired(acts, now, w);
    }
    more := DrainToRest(s, [], now);
    DrainStateHolds(s, more, now);
    DrainOnce(s, more, now);
    DrainCalls(s, more, now);
    ExecConcat(INIT, acts, more);
    AtRest(s.db, Exec(s, more).db, now, Leases(s, more), Completions(s, more));
    assert EligibleSet(s.db, now) == set w | w in s.db.workflows && !Guarantees.IsTerminal(s.db.workflows[w]);
  }

  /** Where a drain that rests has left each workflow. */
  lemma AtRest(db0: Db, db: Db, now: int, leased: seq<Id>, ended: seq<Id>)
    requires DrainState(db0, db, now, leased, ended) && EligibleSet(db, now) == {}
    requires forall w :: w in leased ==> w in ended
    ensures db.workflows.Keys == db0.workflows.Keys
    ensures forall w :: w in db0.workflows ==>
      if T.Eligible(db0, now, w) then db.workflows[w].status == Completed else db.workflows[w] == db0.workflows[w]
  {
    forall w | w in db0.workflows
      ensures if T.Eligible(db0, now, w) then db.workflows[w].status == Completed else db.workflows[w] == db0.workflows[w]
    {
      StillEligible(db0, db, now, leased, ended, w);
      assert w !in EligibleSet(db, now);
      if w in leased {
        assert Served(db.workflows[w], now, w in ended);
      }
    }
  }

  lemma {:induction false} DrainCalls(s: Sys, acts: seq<Action>, now: int)
    requires Drains(s, acts, now)
    ensures forall i :: 0 <= i < |acts| ==> (acts[i].Acquire? || acts[i].Complete?) && acts[i].now == now
  {
    if |acts| > 0 {
      DrainCalls(s, acts[..|acts| - 1], now);
    }
  }

  // -------------------------------------------------- drains after a scheduler

  /** Rows AcquireLease would turn into the same row. */
  predicate SameUnderLease(a: Workflow, b: Workflow) {
    a.wtype == b.wtype && a.currentStep == b.currentStep && a.createdAt == b.createdAt
    && a.completedAt == b.completedAt && a.version == b.version
  }

  ghost predicate Alike(a: Db, b: Db, now: int) {
    && a.workflows.Keys == b.workflows.Keys
    && (forall w :: T.Eligible(a, now, w) <==> T.Eligible(b, now, w))
    && (forall w :: w in a.workflows && w in b.workflows ==> SameUnderLease(a.workflows[w], b.workflows[w]))
    && (forall w :: w in a.workflows && w in b.workflows && !T.Eligible(a, now, w) ==> a.workflows[w] == b.workflows[w])
  }

  /** Either half of a scheduler cycle leaves a database like it was. */
  lemma FiredAlike(db: Db, now: int, order: seq<nat>)
    requires T.FireOffered(db, now, order)
    ensures Alike(db, T.FireAll(db, now, order), now)
  {
    FireExactly(db, now, order);
    forall w ensures T.Eligible(db, now, w) <==> T.Eligible(T.FireAll(db, now, order), now, w) {
      FireTransparent(db, now, order, w);
    }
    forall w | w in db.workflows && !T.Eligible(db, now, w) ensures T.FireAll(db, now, order).workflows[w] == db.workflows[w] {
      WokenMeansDue(db, now, w);
    }
  }

  lemma ExpiredAlike(db: Db, now: int)
    ensures Alike(db, T.ExpireLeases(db, now).db, now)
  {
    forall w ensures T.Eligible(db, now, w) <==> T.Eligible(T.ExpireLeases(db, now).db, now, w) {
      ExpireTransparent(db, now, w);
    }
  }

  lemma AlikeTrans(a: Db, b: Db, c: Db, now: int)
    requires Alike(a, b, now) && Alike(b, c, now)
    ensures Alike(a, c, now)
  {
  }

  lemma AlikeOffers(a: Db, b: Db, now: int, pick: Option<Id>)
    requires Alike(a, b, now)
    ensures T.AcquireOffered(a, now, pick) <==> T.AcquireOffered(b, now, pick)
  {
  }

  lemma AlikeReplies(s: Sys, s': Sys, now: int, a: Action)
    requires Alike(s.db, s'.db, now)
    requires (a.Acquire? && a.now == now) || (a.Complete? && a.w in s.db.workflows && !T.Eligible(s.db, now, a.w))
    ensures Apply(s, a).reply == Apply(s', a).reply
  {
    if a.Acquire? {
      AlikeOffers(s.db, s'.db, now, a.pick);
    }
  }

  lemma EligibleAfter(db: Db, a: Action, reply: Reply, db': Db, now: int, v: Id)
    requires Moved(db, a, reply, db') && ((a.Acquire? && a.secs >= 1) || a.Complete?) && a.now == now
    ensures
      T.Eligible(db', now, v) <==>
        T.Eligible(db, now, v) && !(a.Acquire? && reply == Leased(v)) && !(a.Complete? && reply == Done && a.w == v)
  {
    assert T.HasDueTimer(db', now, v) <==> T.HasDueTimer(db, now, v);
  }

  lemma AlikeStep(a: Db, b: Db, now: int, act: Action, reply: Reply, a': Db, b': Db)
    requires Alike(a, b, now) && Moved(a, act, reply, a') && Moved(b, act, reply, b')
    requires ((act.Acquire? && act.secs >= 1) || (act.Complete? && !T.Eligible(a, now, act.w))) && act.now == now
    ensures Alike(a', b', now)
  {
    forall w ensures T.Eligible(a', now, w) <==> T.Eligible(b', now, w)
      ensures w in a'.workflows && w in b'.workflows && !T.Eligible(a', now, w) ==> a'.workflows[w] == b'.workflows[w]
    {
      EligibleAfter(a, act, reply, a', now, w);
      EligibleAfter(b, act, reply, b', now, w);
    }
  }

  predicate IsScheduler(a: Action) {
    a.FireTimers? || a.ExpireLeases?
  }

  /** The run without its scheduler steps. */
  function Erased(acts: seq<Action>): seq<Action> {
    if |acts| == 0 then []
    else if IsScheduler(acts[|acts| - 1]) then Erased(acts[..|acts| - 1])
    else Erased(acts[..|acts| - 1]) + [acts[|acts| - 1]]
  }

  lemma SchedulerAlike(s: Sys, a: Action, now: int)
    requires IsScheduler(a) && a.now == now
    ensures Alike(s.db, Apply(s, a).sys.db, now)
  {
    if a.ExpireLeases? {
      ExpiredAlike(s.db, now);
    } else if T.FireOffered(s.db, now, a.order) {
      FiredAlike(s.db, now, a.order);
    }
  }

  /** Scheduler transparency: scheduler steps at the time of a drain, any number
      of them anywhere in it, change no answer that a drain call gets, nor which
      workflows are leased and completed in which order, nor any row of a leased
      workflow. */
  lemma {:induction false} SchedulerInvisible(s: Sys, acts: seq<Action>, now: int)
    requires Drains(s, Erased(acts), now)
    requires forall i :: 0 <= i < |acts| && IsScheduler(acts[i]) ==> acts[i].now == now
    ensures
      && Leases(s, Erased(acts)) == Leases(s, acts)
      && Completions(s, Erased(acts)) == Completions(s, acts)
      && Alike(Exec(s, Erased(acts)).db, Exec(s, acts).db, now)
    ensures |acts| > 0 && !IsScheduler(acts[|acts| - 1]) ==>
      ReplyAt(s, acts, |acts| - 1) == ReplyAt(s, Erased(acts), |Erased(acts)| - 1)
  {
    if |acts| > 0 {
      var before, last, erased := acts[..|acts| - 1], acts[|acts| - 1], Erased(acts);
      if IsScheduler(last) {
        SchedulerInvisible(s, before, now);
        SchedulerAlike(Exec(s, before), last, now);
        AlikeTrans(Exec(s, erased).db, Exec(s, before).db, Exec(s, acts).db, now);
        QuietReplies(Exec(s, before), last);
      } else {
        assert erased[..|erased| - 1] == Erased(before) && erased[|erased| - 1] == last;
        SchedulerInvisible(s, before, now);
        SameAnswer(s, Erased(before), Exec(s, before), last, now);
        LastMoves(s, erased);
        LastMoves(s, acts);
        AlikeStep(Exec(s, Erased(before)).db, Exec(s, before).db, now, last, ReplyAt(s, acts, |acts| - 1),
                  Exec(s, erased).db, Exec(s, acts).db);
      }
    }
  }

  lemma QuietReplies(s: Sys, a: Action)
    requires IsScheduler(a)
    ensures !Apply(s, a).reply.Leased?
  {
  }

  lemma SameAnswer(s: Sys, drain: seq<Action>, other: Sys, a: Action, now: int)
    requires Drains(s, drain, now) && IsDrainStep(a, now, Leases(s, drain))
    requires Alike(Exec(s, drain).db, other.db, now)
    ensures Apply(Exec(s, drain), a).reply == Apply(other, a).reply
    ensures a.Complete? ==> !T.Eligible(Exec(s, drain).db, now, a.w)
  {
    DrainStateHolds(s, drain, now);
    if a.Complete? {
      StillEligible(s.db, Exec(s, drain).db, now, Leases(s, drain), Completions(s, drain), a.w);
    }
    AlikeReplies(Exec(s, drain), other, now, a);
  }
}
