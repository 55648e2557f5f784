/** What fireExpiredTimers, expireLeases and a whole scheduler cycle do, in
    closed form and on any tables. */
module Timers {
  import opened Types
  import opened Invariant
  import opened Preservation
  import T = Transactions

  // ------------------------------------------------------------ firing timers

  /** Some timer of v is about to fire. */
  ghost predicate IsWoken(db: Db, now: int, v: Id) {
    exists t :: T.Fires(db, now, t) && db.timers[t].wf == v
  }

  ghost function DueTimers(db: Db, now: int, v: Id): set<nat> {
    set t: nat | t < |db.timers| && T.Fires(db, now, t) && db.timers[t].wf == v
  }

  ghost predicate InOrder(db: Db, order: seq<nat>, v: Id) {
    exists t :: t in order && t < |db.timers| && db.timers[t].wf == v
  }

  /** The loop requeues each workflow it meets and touches no other row. */
  lemma {:induction false} FireRows(db: Db, now: int, order: seq<nat>, v: Id)
    requires v in db.workflows
    ensures
      var db' := T.FireAll(db, now, order);
      && v in db'.workflows
      && db'.workflows[v] == if InOrder(db, order, v) then T.RequeuedRow(db.workflows[v], now) else db.workflows[v]
  {
    if |order| > 0 {
      var prefix, last := order[..|order| - 1], order[|order| - 1];
      assert order == prefix + [last];
      FireRows(db, now, prefix, v);
      FireAppendOnly(db, now, prefix);
      if last < |db.timers| && db.timers[last].wf == v {
        assert last in order;
        assert InOrder(db, order, v);
      } else if InOrder(db, order, v) {
        var t :| t in order && t < |db.timers| && db.timers[t].wf == v;
        assert t in prefix;
      }
    }
  }

  /** m TIMER_FIRED rows numbered upwards from after `from`. */
  function Wakes(v: Id, from: nat, m: nat, now: int): seq<Event> {
    if m == 0 then [] else Wakes(v, from, m - 1, now) + [Event(v, EvTimerFired, from + m, now)]
  }

  function CountFor(timers: seq<Timer>, order: seq<nat>, v: Id): nat {
    if |order| == 0 then 0
    else
      var last := order[|order| - 1];
      CountFor(timers, order[..|order| - 1], v) + (if last < |timers| && timers[last].wf == v then 1 else 0)
  }

  lemma {:induction false} WakesNumbered(log: seq<Event>, v: Id, m: nat, now: int)
    requires Numbered(log)
    ensures Numbered(log + Wakes(v, |log|, m, now)) && |Wakes(v, |log|, m, now)| == m
  {
    if m > 0 {
      WakesNumbered(log, v, m - 1, now);
      var longer := log + Wakes(v, |log|, m - 1, now);
      assert log + Wakes(v, |log|, m, now) == longer + [Event(v, EvTimerFired, |log| + m, now)];
    }
  }

  lemma WakesGrow(log: seq<Event>, v: Id, m: nat, now: int)
    requires Numbered(log)
    ensures
      var longer := log + Wakes(v, |log|, m, now);
      log + Wakes(v, |log|, m + 1, now) == longer + [Event(v, EvTimerFired, T.NextSeq(longer), now)]
  {
    WakesNumbered(log, v, m, now);
    NextIsLength(log + Wakes(v, |log|, m, now));
  }

  lemma {:induction false} FireLogCounted(db: Db, now: int, order: seq<nat>, v: Id)
    requires Numbered(T.LogOf(db.events, v))
    requires forall i :: 0 <= i < |order| ==> order[i] < |db.timers| && db.timers[order[i]].wf in db.workflows
    ensures
      var log := T.LogOf(db.events, v);
      T.LogOf(T.FireAll(db, now, order).events, v) == log + Wakes(v, |log|, CountFor(db.timers, order, v), now)
  {
    var log := T.LogOf(db.events, v);
    if |order| == 0 {
      assert log + [] == log;
    } else {
      var prefix, last := order[..|order| - 1], order[|order| - 1];
      FireLogCounted(db, now, prefix, v);
      FireKeepsPlaces(db, now, prefix, last);
      OneMoreWake(T.FireAll(db, now, prefix), now, last, v, log, CountFor(db.timers, prefix, v));
    }
  }

  lemma FireKeepsPlaces(db: Db, now: int, order: seq<nat>, t: nat)
    requires t < |db.timers|
    ensures
      var db' := T.FireAll(db, now, order);
      t < |db'.timers| && db'.timers[t].wf == db.timers[t].wf && db'.workflows.Keys == db.workflows.Keys
  {
    FireAppendOnly(db, now, order);
  }

  lemma OneMoreWake(db: Db, now: int, t: nat, v: Id, log: seq<Event>, m: nat)
    requires t < |db.timers| && db.timers[t].wf in db.workflows && Numbered(log)
    requires T.LogOf(db.events, v) == log + Wakes(v, |log|, m, now)
    ensures
      T.LogOf(T.FireOne(db, now, t).events, v) == log + Wakes(v, |log|, m + if db.timers[t].wf == v then 1 else 0, now)
  {
    FireOneLog(db, now, t, v);
    WakesGrow(log, v, m, now);
  }

  lemma FireOneLog(db: Db, now: int, t: nat, v: Id)
    requires t < |db.timers| && db.timers[t].wf in db.workflows
    ensures
      var log := T.LogOf(db.events, v);
      T.LogOf(T.FireOne(db, now, t).events, v)
      == if db.timers[t].wf == v then log + [Event(v, EvTimerFired, T.NextSeq(log), now)] else log
  {
    var w := db.timers[t].wf;
    LogAppend(db.events, Event(w, EvTimerFired, T.NextSeq(T.LogOf(db.events, w)), now), v);
  }

  ghost function Picked(timers: seq<Timer>, order: seq<nat>, v: Id): set<nat> {
    set t | t in order && t < |timers| && timers[t].wf == v
  }

  lemma {:induction false} CountIsSize(timers: seq<Timer>, order: seq<nat>, v: Id)
    requires Distinct(order)
    ensures CountFor(timers, order, v) == |Picked(timers, order, v)|
  {
    if |order| > 0 {
      var prefix, last := order[..|order| - 1], order[|order| - 1];
      CountIsSize(timers, prefix, v);
      assert order == prefix + [last] && last !in prefix;
      if last < |timers| && timers[last].wf == v {
        assert Picked(timers, order, v) == Picked(timers, prefix, v) + {last};
      } else {
        assert Picked(timers, order, v) == Picked(timers, prefix, v);
      }
    }
  }

  /** Each workflow's log gains one TIMER_FIRED row for each of its due timers,
      consecutively numbered, whatever order the join delivers them in. */
  lemma FireLog(db: Db, now: int, order: seq<nat>, v: Id)
    requires T.FireOffered(db, now, order) && Numbered(T.LogOf(db.events, v))
    ensures
      var log := T.LogOf(db.events, v);
      T.LogOf(T.FireAll(db, now, order).events, v) == log + Wakes(v, |log|, |DueTimers(db, now, v)|, now)
  {
    assert forall i :: 0 <= i < |order| ==> order[i] in order;
    FireLogCounted(db, now, order, v);
    CountIsSize(db.timers, order, v);
    assert Picked(db.timers, order, v) == DueTimers(db, now, v);
  }

  lemma {:induction false} FireGrowth(db: Db, now: int, order: seq<nat>)
    requires forall t :: t in order ==> t < |db.timers| && db.timers[t].wf in db.workflows
    ensures
      var db' := T.FireAll(db, now, order);
      && |db'.events| == |db.events| + |order|
      && forall i :: |db.events| <= i < |db'.events| ==> db'.events[i].kind == EvTimerFired && db'.events[i].createdAt == now
  {
    if |order| > 0 {
      var prefix := order[..|order| - 1];
      assert order[|order| - 1] in order && forall t :: t in prefix ==> t in order;
      FireGrowth(db, now, prefix);
      FireAppendOnly(db, now, prefix);
    }
  }

  /** The transaction fires exactly the due timers of workflows that were
      WAITING, requeues exactly those workflows, and appends one TIMER_FIRED row of
      that moment for each timer; its count is that number, and nothing is left to fire. */
  lemma FireExactly(db: Db, now: int, order: seq<nat>)
    requires T.FireOffered(db, now, order)
    ensures
      var tx := T.FireExpiredTimers(db, now, order);
      var db' := tx.db;
      && |db'.timers| == |db.timers|
      && (forall t :: 0 <= t < |db.timers| ==>
            db'.timers[t] == if T.Fires(db, now, t) then db.timers[t].(fired := true) else db.timers[t])
      && db'.workflows.Keys == db.workflows.Keys
      && (forall v :: v in db.workflows ==>
            db'.workflows[v] == if IsWoken(db, now, v) then T.RequeuedRow(db.workflows[v], now) else db.workflows[v])
      && db'.steps == db.steps && db'.signals == db.signals
      && tx.reply == Affected(|order|)
      && db.events <= db'.events && |db'.events| == |db.events| + |order|
      && (forall i :: |db.events| <= i < |db'.events| ==> db'.events[i].kind == EvTimerFired && db'.events[i].createdAt == now)
      && (forall t :: !T.Fires(db', now, t))
  {
    FireAppendOnly(db, now, order);
    FireGrowth(db, now, order);
    var db' := T.FireAll(db, now, order);
    forall v | v in db.workflows
      ensures db'.workflows[v] == if IsWoken(db, now, v) then T.RequeuedRow(db.workflows[v], now) else db.workflows[v]
    {
      FireRows(db, now, order, v);
      if IsWoken(db, now, v) {
        var t :| T.Fires(db, now, t) && db.timers[t].wf == v;
        assert t in order;
      }
    }
    forall t ensures !T.Fires(db', now, t) {
      if T.Fires(db', now, t) {
        assert T.Fires(db, now, t);
      }
    }
  }

  /** The number the transaction reports is the number of timers that were due. */
  lemma FireCount(db: Db, now: int, order: seq<nat>)
    requires T.FireOffered(db, now, order)
    ensures |order| == |set t: nat | t < |db.timers| && T.Fires(db, now, t)|
  {
    DistinctSize(order);
    assert Elements(order) == (set t: nat | t < |db.timers| && T.Fires(db, now, t));
  }

  ghost function Elements(order: seq<nat>): set<nat> {
    set t | t in order
  }

  lemma {:induction false} DistinctSize(order: seq<nat>)
    requires Distinct(order)
    ensures |Elements(order)| == |order|
  {
    if |order| > 0 {
      var prefix, last := order[..|order| - 1], order[|order| - 1];
      DistinctSize(prefix);
      assert order == prefix + [last] && last !in prefix;
      assert Elements(order) == Elements(prefix) + {last};
    }
  }

  /** Two deliveries of the same join leave the same rows, the same timers and
      the same log of every workflow. */
  lemma OrderIrrelevant(db: Db, now: int, order: seq<nat>, other: seq<nat>, v: Id)
    requires T.FireOffered(db, now, order) && T.FireOffered(db, now, other)
    requires Numbered(T.LogOf(db.events, v))
    ensures
      var a, b := T.FireAll(db, now, order), T.FireAll(db, now, other);
      && a.workflows == b.workflows && a.timers == b.timers && a.steps == b.steps && a.signals == b.signals
      && T.LogOf(a.events, v) == T.LogOf(b.events, v)
  {
    FireExactly(db, now, order);
    FireExactly(db, now, other);
    FireLog(db, now, order, v);
    FireLog(db, now, other, v);
  }

  // --------------------------------------------------------- scheduler cycles

  lemma FireOffersNothing(db: Db, now: int, order: seq<nat>)
    requires forall t :: !T.Fires(db, now, t)
    ensures T.FireOffered(db, now, order) <==> order == []
  {
    if |order| > 0 {
      assert order[0] in order;
    }
  }

  /** Timer t is unfired and its workflow is WAITING. */
  predicate WaitsFor(db: Db, t: nat)
    requires t < |db.timers|
  {
    !db.timers[t].fired && db.timers[t].wf in db.workflows && db.workflows[db.timers[t].wf].status == Waiting
  }

  /** After a cycle no WAITING workflow has a due unfired timer and no RUNNING
      workflow has an expired lease; a second cycle at the same time finds
      nothing to do. */
  lemma TickSettles(db: Db, now: int, order: seq<nat>)
    requires T.FireOffered(db, now, order)
    ensures
      var db' := T.Tick(db, now, order);
      && (forall t :: 0 <= t < |db'.timers| && WaitsFor(db', t) ==> db'.timers[t].wakeAt > now)
      && (forall v :: v in db'.workflows && db'.workflows[v].status == Running && db'.workflows[v].expires.Some? ==>
            db'.workflows[v].expires.value > now)
      && (forall again :: T.FireOffered(db', now, again) ==> T.Tick(db', now, again) == db')
  {
    FireExactly(db, now, order);
    var mid, db' := T.FireAll(db, now, order), T.Tick(db, now, order);
    forall t ensures !T.Fires(db', now, t) {
      assert !T.Fires(mid, now, t);
    }
    assert forall v :: v in db'.workflows ==> !T.Lapsed(db'.workflows[v], now);
    forall again | T.FireOffered(db', now, again) ensures T.Tick(db', now, again) == db' {
      FireOffersNothing(db', now, again);
      assert T.FireAll(db', now, again) == db';
      assert T.ExpireLeases(db', now).db.workflows == db'.workflows;
    }
  }

  lemma ExpireKeepsFires(db: Db, now: int, t: int)
    ensures T.Fires(T.ExpireLeases(db, now).db, now, t) <==> T.Fires(db, now, t)
  {
  }

  lemma FireOneCommutes(db: Db, now: int, t: nat)
    ensures T.FireOne(T.ExpireLeases(db, now).db, now, t) == T.ExpireLeases(T.FireOne(db, now, t), now).db
  {
    var a := T.FireOne(T.ExpireLeases(db, now).db, now, t);
    var b := T.ExpireLeases(T.FireOne(db, now, t), now).db;
    assert a.workflows == b.workflows;
  }

  lemma {:induction false} FireAllCommutes(db: Db, now: int, order: seq<nat>)
    ensures T.FireAll(T.ExpireLeases(db, now).db, now, order) == T.ExpireLeases(T.FireAll(db, now, order), now).db
  {
    if |order| > 0 {
      FireAllCommutes(db, now, order[..|order| - 1]);
      FireOneCommutes(T.FireAll(db, now, order[..|order| - 1]), now, order[|order| - 1]);
    }
  }

  /** The two halves of a cycle may run in either order, on any tables. */
  lemma HalvesCommute(db: Db, now: int, order: seq<nat>)
    ensures T.FireOffered(T.ExpireLeases(db, now).db, now, order) <==> T.FireOffered(db, now, order)
    ensures T.FireAll(T.ExpireLeases(db, now).db, now, order) == T.ExpireLeases(T.FireAll(db, now, order), now).db
  {
    forall t ensures T.Fires(T.ExpireLeases(db, now).db, now, t) <==> T.Fires(db, now, t) {
      ExpireKeepsFires(db, now, t);
    }
    FireAllCommutes(db, now, order);
  }

  // ------------------------------------------------------------- transparency

  lemma FireTransparent(db: Db, now: int, order: seq<nat>, v: Id)
    requires T.FireOffered(db, now, order)
    ensures T.Eligible(T.FireAll(db, now, order), now, v) <==> T.Eligible(db, now, v)
  {
    FireExactly(db, now, order);
    WokenMeansDue(db, now, v);
    WokenMeansDue(T.FireAll(db, now, order), now, v);
  }

  lemma WokenMeansDue(db: Db, now: int, v: Id)
    ensures IsWoken(db, now, v) <==> v in db.workflows && db.workflows[v].status == Waiting && T.HasDueTimer(db, now, v)
  {
    if v in db.workflows && db.workflows[v].status == Waiting && T.HasDueTimer(db, now, v) {
      var t :| 0 <= t < |db.timers| && db.timers[t].wf == v && T.Due(db.timers[t], now);
      assert T.Fires(db, now, t);
    }
  }

  lemma ExpireTransparent(db: Db, now: int, v: Id)
    ensures T.Eligible(T.ExpireLeases(db, now).db, now, v) <==> T.Eligible(db, now, v)
  {
    assert T.HasDueTimer(T.ExpireLeases(db, now).db, now, v) <==> T.HasDueTimer(db, now, v);
  }

  /** A scheduler cycle, on any tables, does not change which workflows
      AcquireLease may take at that time, nor the row it then writes. */
  lemma TickTransparent(db: Db, now: int, order: seq<nat>, v: Id)
    requires T.FireOffered(db, now, order)
    ensures
      var db' := T.Tick(db, now, order);
      && (T.Eligible(db', now, v) <==> T.Eligible(db, now, v))
      && (v in db.workflows <==> v in db'.workflows)
      && (v in db.workflows ==> db.workflows[v].createdAt == db'.workflows[v].createdAt)
      && (v in db.workflows && !T.Eligible(db, now, v) ==> db'.workflows[v] == db.workflows[v])
      && (v in db.workflows ==> forall k, secs ::
            T.LeasedRow(db'.workflows[v], k, secs, now) == T.LeasedRow(db.workflows[v], k, secs, now))
  {
    FireTransparent(db, now, order, v);
    ExpireTransparent(T.FireAll(db, now, order), now, v);
    FireExactly(db, now, order);
    WokenMeansDue(db, now, v);
  }

  lemma TickKeepsPicks(db: Db, now: int, order: seq<nat>, pick: Option<Id>)
    requires T.FireOffered(db, now, order)
    ensures T.AcquireOffered(T.Tick(db, now, order), now, pick) <==> T.AcquireOffered(db, now, pick)
  {
    forall v
      ensures
        var db' := T.Tick(db, now, order);
        && (T.Eligible(db', now, v) <==> T.Eligible(db, now, v))
        && (v in db.workflows <==> v in db'.workflows)
        && (v in db.workflows ==> db.workflows[v].createdAt == db'.workflows[v].createdAt)
    {
      TickTransparent(db, now, order, v);
    }
  }
}
