/** The signals table, used as a queue for each workflow. */
module Signals {
  import opened Types
  import opened Runs
  import opened Preservation
  import opened Calls
  import T = Transactions

  /** The positions ConsumeSignal handed out for w in a run, in order. */
  function Taken(acts: seq<Action>, w: Id): seq<nat> {
    if |acts| == 0 then []
    else
      var rest, last, reply := Taken(acts[..|acts| - 1], w), acts[|acts| - 1], ReplyAt(INIT, acts, |acts| - 1);
      if last.Consume? && last.w == w && reply.SignalTaken? then rest + [reply.position] else rest
  }

  /** The positions SendSignal gave out for w in a run, in order. */
  function Sent(acts: seq<Action>, w: Id): seq<nat> {
    if |acts| == 0 then []
    else
      var rest, last, reply := Sent(acts[..|acts| - 1], w), acts[|acts| - 1], ReplyAt(INIT, acts, |acts| - 1);
      if last.Send? && last.w == w && reply.SignalSent? then rest + [reply.position] else rest
  }

  ghost predicate Increasing(s: seq<nat>) {
    forall i, j :: 0 <= i < j < |s| ==> s[i] < s[j]
  }

  predicate IsSignalOf(db: Db, w: Id, i: int) {
    0 <= i < |db.signals| && db.signals[i].wf == w
  }

  predicate IsConsumed(db: Db, w: Id, i: int) {
    IsSignalOf(db, w, i) && db.signals[i].consumed
  }

  /** Signals are only added at the end; a consumed flag is only ever set, and
      only by ConsumeSignal for the signal it returns, an oldest pending one. */
  ghost predicate Moves(db: Db, a: Action, reply: Reply, db': Db) {
    && |db.signals| <= |db'.signals|
    && (forall i :: 0 <= i < |db.signals| ==>
          db'.signals[i] == if a.Consume? && reply == SignalTaken(i) then db.signals[i].(consumed := true) else db.signals[i])
    && (if a.Send? && reply.SignalSent?
        then reply.position == |db.signals| && |db'.signals| == |db.signals| + 1
             && db'.signals[|db.signals|] == Signal(a.w, a.signalType, a.payload, false, a.now)
        else |db'.signals| == |db.signals|)
    && (a.Consume? && reply.SignalTaken? ==> T.IsOldestSignal(db, a.w, reply.position))
  }

  lemma SignalsStep(s: Sys, a: Action)
    ensures Moves(s.db, a, Apply(s, a).reply, Apply(s, a).sys.db)
  {
    if !a.Send? && !a.Consume? {
      OthersSendNothing(s, a);
    }
  }

  lemma OthersSendNothing(s: Sys, a: Action)
    requires !a.Send? && !a.Consume?
    ensures Apply(s, a).sys.db.signals == s.db.signals
  {
    if a.FireTimers? {
      FireAppendOnly(s.db, a.now, a.order);
    }
  }

  lemma LastStep(acts: seq<Action>)
    requires |acts| > 0
    ensures Moves(Exec(INIT, acts[..|acts| - 1]).db, acts[|acts| - 1], ReplyAt(INIT, acts, |acts| - 1), Exec(INIT, acts).db)
  {
    SignalsStep(Exec(INIT, acts[..|acts| - 1]), acts[|acts| - 1]);
  }

  ghost predicate ListsSent(db: Db, w: Id, sent: seq<nat>) {
    Increasing(sent) && forall i: nat :: i in sent <==> IsSignalOf(db, w, i)
  }

  lemma SentStep(db: Db, a: Action, reply: Reply, db': Db, w: Id, sent: seq<nat>)
    requires Moves(db, a, reply, db') && ListsSent(db, w, sent)
    ensures ListsSent(db', w, if a.Send? && a.w == w && reply.SignalSent? then sent + [reply.position] else sent)
  {
    forall i: nat ensures IsSignalOf(db', w, i) <==> IsSignalOf(db, w, i) || (a.Send? && a.w == w && reply == SignalSent(i)) {
    }
    if a.Send? && a.w == w && reply.SignalSent? {
      forall x | 0 <= x < |sent| ensures sent[x] < reply.position {
        assert sent[x] in sent;
      }
    }
  }

  /** What was sent to w is, in order, exactly what the table holds for w. */
  lemma {:induction false} SentIsTable(acts: seq<Action>, w: Id)
    ensures ListsSent(Exec(INIT, acts).db, w, Sent(acts, w))
  {
    if |acts| > 0 {
      var before := acts[..|acts| - 1];
      SentIsTable(before, w);
      LastStep(acts);
      SentStep(Exec(INIT, before).db, acts[|acts| - 1], ReplyAt(INIT, acts, |acts| - 1), Exec(INIT, acts).db, w, Sent(before, w));
    }
  }

  ghost predicate ListsTaken(db: Db, w: Id, taken: seq<nat>) {
    Distinct(taken) && forall i: nat :: i in taken <==> IsConsumed(db, w, i)
  }

  lemma TakenStep(db: Db, a: Action, reply: Reply, db': Db, w: Id, taken: seq<nat>)
    requires Moves(db, a, reply, db') && ListsTaken(db, w, taken)
    ensures ListsTaken(db', w, if a.Consume? && a.w == w && reply.SignalTaken? then taken + [reply.position] else taken)
  {
    forall i: nat ensures IsConsumed(db', w, i) <==> IsConsumed(db, w, i) || (a.Consume? && a.w == w && reply == SignalTaken(i)) {
    }
    if a.Consume? && a.w == w && reply.SignalTaken? {
      forall x | 0 <= x < |taken| ensures taken[x] != reply.position {
        assert taken[x] in taken;
      }
    }
  }

  /** No signal is handed out twice, and what was handed out is exactly what is
      marked consumed. */
  lemma {:induction false} TakenOnce(acts: seq<Action>, w: Id)
    ensures ListsTaken(Exec(INIT, acts).db, w, Taken(acts, w))
  {
    if |acts| > 0 {
      var before := acts[..|acts| - 1];
      TakenOnce(before, w);
      LastStep(acts);
      TakenStep(Exec(INIT, before).db, acts[|acts| - 1], ReplyAt(INIT, acts, |acts| - 1), Exec(INIT, acts).db, w, Taken(before, w));
    }
  }

  /** Every signal sent to w is either handed out or pending, never both, and no
      other signal is. */
  lemma Conservation(acts: seq<Action>, w: Id)
    ensures
      var db := Exec(INIT, acts).db;
      forall i: nat :: i in Sent(acts, w) <==> ((i in Taken(acts, w)) != T.IsPending(db, w, i))
  {
    SentIsTable(acts, w);
    TakenOnce(acts, w);
  }

  ghost predicate AllIn(sent: seq<nat>, taken: seq<nat>) {
    forall i :: i in sent ==> i in taken
  }

  ghost predicate AllConsumed(db: Db, w: Id) {
    forall j :: 0 <= j < |db.signals| && db.signals[j].wf == w ==> db.signals[j].consumed
  }

  /** In every run "no signal" is an answer for w iff everything sent to it has been
      handed out. */
  lemma NoneLeft(acts: seq<Action>, w: Id, pick: Option<nat>)
    requires Apply(Exec(INIT, acts), Consume(w, pick)).reply != NotOffered
    ensures
      Apply(Exec(INIT, acts), Consume(w, pick)).reply == NoSignal <==> AllIn(Sent(acts, w), Taken(acts, w))
  {
    SentIsTable(acts, w);
    TakenOnce(acts, w);
    AllTaken(Exec(INIT, acts).db, w, Sent(acts, w), Taken(acts, w));
    NoneConsumable(Exec(INIT, acts), w, pick);
  }

  lemma NoneConsumable(s: Sys, w: Id, pick: Option<nat>)
    requires Apply(s, Consume(w, pick)).reply != NotOffered
    ensures Apply(s, Consume(w, pick)).reply == NoSignal <==> AllConsumed(s.db, w)
  {
    ConsumeAnswers(s, w, pick);
  }

  lemma AllTaken(db: Db, w: Id, sent: seq<nat>, taken: seq<nat>)
    requires ListsSent(db, w, sent) && ListsTaken(db, w, taken)
    ensures AllIn(sent, taken) <==> AllConsumed(db, w)
  {
    if AllIn(sent, taken) {
      forall j | 0 <= j < |db.signals| && db.signals[j].wf == w ensures db.signals[j].consumed {
        assert IsSignalOf(db, w, j) && j in sent;
        assert IsConsumed(db, w, j);
      }
    } else {
      var i :| i in sent && i !in taken;
      assert IsSignalOf(db, w, i) && !IsConsumed(db, w, i);
    }
  }

  /** In every run a signal row is what its sender passed, and marked consumed iff it
      has been handed out. */
  lemma {:induction false} AsSent(acts: seq<Action>, i: nat, p: nat)
    requires i < |acts| && acts[i].Send? && ReplyAt(INIT, acts, i) == SignalSent(p)
    ensures
      var signals, a := Exec(INIT, acts).db.signals, acts[i];
      p < |signals| && signals[p] == Signal(a.w, a.signalType, a.payload, p in Taken(acts, a.w), a.now)
  {
    StaysAsSent(acts, i, p);
    TakenOnce(acts, acts[i].w);
    assert p in Taken(acts, acts[i].w) <==> IsConsumed(Exec(INIT, acts).db, acts[i].w, p);
  }

  lemma {:induction false} StaysAsSent(acts: seq<Action>, i: nat, p: nat)
    requires i < |acts| && acts[i].Send? && ReplyAt(INIT, acts, i) == SignalSent(p)
    ensures
      var signals, a := Exec(INIT, acts).db.signals, acts[i];
      && p < |signals| && signals[p].wf == a.w && signals[p].signalType == a.signalType
      && signals[p].payload == a.payload && signals[p].createdAt == a.now
    decreases |acts|
  {
    LastStep(acts);
    if i < |acts| - 1 {
      var before := acts[..|acts| - 1];
      assert before[..i] == acts[..i] && before[i] == acts[i];
      StaysAsSent(before, i, p);
    }
  }

  // ------------------------------------------------------------------ order

  /** The clock did not run backwards between two signals sent to w. */
  ghost predicate SentInTime(db: Db, w: Id) {
    forall i, j :: 0 <= i < j < |db.signals| && IsSignalOf(db, w, i) && IsSignalOf(db, w, j) ==>
      db.signals[i].createdAt <= db.signals[j].createdAt
  }

  /** Among equally old signals the database delivers the one with the lowest id. */
  ghost predicate LowestId(db: Db, a: Action) {
    a.Consume? && a.signal.Some? && T.IsOldestSignal(db, a.w, a.signal.value) ==>
      forall j :: a.signal.value > j >= 0 && T.IsPending(db, a.w, j) ==>
        db.signals[j].createdAt != db.signals[a.signal.value].createdAt
  }

  ghost predicate TiesById(acts: seq<Action>) {
    forall n :: 0 <= n < |acts| ==> LowestId(Exec(INIT, acts[..n]).db, acts[n])
  }

  lemma EarlierInTime(db: Db, a: Action, reply: Reply, db': Db, w: Id)
    requires Moves(db, a, reply, db') && SentInTime(db', w)
    ensures SentInTime(db, w)
  {
    forall i, j | 0 <= i < j < |db.signals| && IsSignalOf(db, w, i) && IsSignalOf(db, w, j)
      ensures db.signals[i].createdAt <= db.signals[j].createdAt
    {
      assert IsSignalOf(db', w, i) && IsSignalOf(db', w, j);
    }
  }

  /** With signals sent in time order and ties broken by id, the signals handed
      out are a prefix of the signals sent: first in, first out. */
  lemma {:induction false} FirstInFirstOut(acts: seq<Action>, w: Id)
    requires SentInTime(Exec(INIT, acts).db, w) && TiesById(acts)
    ensures Taken(acts, w) <= Sent(acts, w)
  {
    if |acts| > 0 {
      var before, last, reply := acts[..|acts| - 1], acts[|acts| - 1], ReplyAt(INIT, acts, |acts| - 1);
      LastStep(acts);
      EarlierInTime(Exec(INIT, before).db, last, reply, Exec(INIT, acts).db, w);
      TiesBefore(acts);
      FirstInFirstOut(before, w);
      SentIsTable(before, w);
      TakenOnce(before, w);
      ConsumesItsPick(Exec(INIT, before), last);
      LineMoves(Exec(INIT, before).db, last, reply, w, Taken(before, w), Sent(before, w));
    }
  }

  lemma TiesBefore(acts: seq<Action>)
    requires TiesById(acts) && |acts| > 0
    ensures TiesById(acts[..|acts| - 1])
    ensures LowestId(Exec(INIT, acts[..|acts| - 1]).db, acts[|acts| - 1])
  {
    var before := acts[..|acts| - 1];
    forall n | 0 <= n < |before| ensures LowestId(Exec(INIT, before[..n]).db, before[n]) {
      assert before[..n] == acts[..n] && before[n] == acts[n];
    }
  }

  lemma LineMoves(db: Db, a: Action, reply: Reply, w: Id, taken: seq<nat>, sent: seq<nat>)
    requires ListsSent(db, w, sent) && ListsTaken(db, w, taken) && taken <= sent
    requires SentInTime(db, w) && LowestId(db, a)
    requires a.Consume? && reply.SignalTaken? ==> a.signal == Some(reply.position) && T.IsOldestSignal(db, a.w, reply.position)
    ensures a.Consume? && a.w == w && reply.SignalTaken? ==> taken + [reply.position] <= sent
  {
    if a.Consume? && a.w == w && reply.SignalTaken? {
      NextInLine(db, w, reply.position, taken, sent);
    }
  }

  lemma ConsumesItsPick(s: Sys, a: Action)
    ensures a.Consume? && Apply(s, a).reply.SignalTaken? ==> a.signal == Some(Apply(s, a).reply.position)
  {
  }

  /** The signal taken is the first of those not yet taken. */
  lemma NextInLine(db: Db, w: Id, i: nat, taken: seq<nat>, sent: seq<nat>)
    requires ListsSent(db, w, sent) && ListsTaken(db, w, taken) && taken <= sent
    requires SentInTime(db, w) && T.IsOldestSignal(db, w, i)
    requires forall j :: i > j >= 0 && T.IsPending(db, w, j) ==> db.signals[j].createdAt != db.signals[i].createdAt
    ensures |taken| < |sent| && sent[|taken|] == i
  {
    assert IsSignalOf(db, w, i) && i in sent && i !in taken;
    var at :| 0 <= at < |sent| && sent[at] == i;
    NotAmongFirst(taken, sent, at);
    var next := sent[|taken|];
    assert next in sent && IsSignalOf(db, w, next);
    NotInPrefix(taken, sent);
    assert T.IsPending(db, w, next);
  }

  lemma NotAmongFirst(p: seq<nat>, s: seq<nat>, at: nat)
    requires p <= s && at < |s| && s[at] !in p
    ensures at >= |p|
  {
  }

  lemma NotInPrefix(p: seq<nat>, s: seq<nat>)
    requires p <= s && Increasing(s) && |p| < |s|
    ensures s[|p|] !in p
  {
  }

  /** Handed out in time order, and never a younger one before an older one that
      is still pending. */
  ghost predicate InTimeOrder(db: Db, w: Id, taken: seq<nat>) {
    && (forall x :: 0 <= x < |taken| ==> IsSignalOf(db, w, taken[x]))
    && (forall x, y :: 0 <= x < y < |taken| ==> db.signals[taken[x]].createdAt <= db.signals[taken[y]].createdAt)
    && (forall x, j :: 0 <= x < |taken| && 0 <= j < |db.signals| && T.IsPending(db, w, j) ==>
          db.signals[taken[x]].createdAt <= db.signals[j].createdAt)
  }

  /** Whatever way ties are broken, signals sent in time order are handed out in
      time order. */
  lemma {:induction false} OldestFirst(acts: seq<Action>, w: Id)
    requires SentInTime(Exec(INIT, acts).db, w)
    ensures InTimeOrder(Exec(INIT, acts).db, w, Taken(acts, w))
  {
    if |acts| > 0 {
      var before, last, reply := acts[..|acts| - 1], acts[|acts| - 1], ReplyAt(INIT, acts, |acts| - 1);
      LastStep(acts);
      EarlierInTime(Exec(INIT, before).db, last, reply, Exec(INIT, acts).db, w);
      OldestFirst(before, w);
      OldestFirstStep(Exec(INIT, before).db, last, reply, Exec(INIT, acts).db, w, Taken(before, w));
    }
  }

  lemma OldestFirstStep(db: Db, a: Action, reply: Reply, db': Db, w: Id, taken: seq<nat>)
    requires Moves(db, a, reply, db') && InTimeOrder(db, w, taken) && SentInTime(db', w)
    ensures InTimeOrder(db', w, if a.Consume? && a.w == w && reply.SignalTaken? then taken + [reply.position] else taken)
  {
    StillInTimeOrder(db, a, reply, db', w, taken);
    if a.Consume? && a.w == w && reply.SignalTaken? {
      OneMoreInTimeOrder(db, reply.position, db', w, taken);
    }
  }

  lemma StillInTimeOrder(db: Db, a: Action, reply: Reply, db': Db, w: Id, taken: seq<nat>)
    requires Moves(db, a, reply, db') && InTimeOrder(db, w, taken) && SentInTime(db', w)
    ensures InTimeOrder(db', w, taken)
  {
    forall x, j | 0 <= x < |taken| && 0 <= j < |db'.signals| && T.IsPending(db', w, j)
      ensures db'.signals[taken[x]].createdAt <= db'.signals[j].createdAt
    {
      assert IsSignalOf(db, w, taken[x]);
      if j < |db.signals| {
        assert T.IsPending(db, w, j);
      } else {
        assert IsSignalOf(db', w, taken[x]) && IsSignalOf(db', w, j);
      }
    }
  }

  lemma OneMoreInTimeOrder(db: Db, i: nat, db': Db, w: Id, taken: seq<nat>)
    requires T.IsOldestSignal(db, w, i) && InTimeOrder(db, w, taken) && InTimeOrder(db', w, taken)
    requires db'.signals == db.signals[i := db.signals[i].(consumed := true)]
    ensures InTimeOrder(db', w, taken + [i])
  {
    forall j | 0 <= j < |db'.signals| && T.IsPending(db', w, j)
      ensures db'.signals[i].createdAt <= db'.signals[j].createdAt
    {
      assert T.IsPending(db, w, j);
    }
    forall x | 0 <= x < |taken| ensures db'.signals[taken[x]].createdAt <= db'.signals[i].createdAt {
      assert T.IsPending(db, w, i);
    }
  }
}
