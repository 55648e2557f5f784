/** The rules a reader of workflow_events may rely on, stated without the
    automaton, and their equivalence to it. */
module LogRules {
  import opened EventLog

  ghost predicate EverLeased(p: seq<Letter>) {
    exists j :: 0 <= j < |p| && p[j] == Begun
  }

  predicate Terminal(l: Letter) {
    l == Ended || l == Aborted
  }

  ghost predicate IsOver(p: seq<Letter>) {
    exists j :: 0 <= j < |p| && Terminal(p[j])
  }

  predicate EndsLease(l: Letter) {
    l == Woken || Terminal(l)
  }

  /** A WORKFLOW_STARTED that no timer and no terminal event has answered yet. */
  ghost predicate LeasedOut(p: seq<Letter>) {
    exists j :: 0 <= j < |p| && p[j] == Begun && forall m :: j < m < |p| ==> !EndsLease(p[m])
  }

  /** A STEP_COMPLETED for step n that no STEP_FAILED for n has followed. */
  ghost predicate Standing(p: seq<Letter>, n: int) {
    exists j :: 0 <= j < |p| && p[j] == StepDone(n) && forall m :: j < m < |p| ==> p[m] != StepBroken(n)
  }

  /** May an event of this kind come next after the events p? */
  ghost predicate MayFollow(p: seq<Letter>, l: Letter) {
    match l
    case Created => false
    case Begun => !IsOver(p)
    case StepBegun => EverLeased(p)
    case StepDone(n) => LeasedOut(p) && !Standing(p, n)
    case StepBroken(_) => EverLeased(p)
    case Signalled => true
    case Woken => LeasedOut(p) || (|p| > 0 && p[|p| - 1] == Woken)
    case Ended => LeasedOut(p)
    case Aborted => LeasedOut(p)
  }

  ghost predicate LegalLog(ls: seq<Letter>) {
    && |ls| > 0
    && ls[0] == Created
    && forall i :: 0 < i < |ls| ==> MayFollow(ls[..i], ls[i])
  }

  // ----------------------------------------------------- one more event

  lemma LeasedOutGrows(p: seq<Letter>, l: Letter)
    ensures LeasedOut(p + [l]) <==> l == Begun || (LeasedOut(p) && !EndsLease(l))
  {
    var q := p + [l];
    if l == Begun {
      assert q[|p|] == Begun;
    }
    if LeasedOut(p) && !EndsLease(l) {
      var j :| 0 <= j < |p| && p[j] == Begun && forall m :: j < m < |p| ==> !EndsLease(p[m]);
      assert q[j] == Begun;
    }
    if LeasedOut(q) && l != Begun {
      var j :| 0 <= j < |q| && q[j] == Begun && forall m :: j < m < |q| ==> !EndsLease(q[m]);
      assert !EndsLease(q[|p|]);
      assert forall m :: j < m < |p| ==> p[m] == q[m];
      assert p[j] == Begun;
    }
  }

  lemma StandingGrows(p: seq<Letter>, l: Letter, n: int)
    ensures Standing(p + [l], n) <==> l == StepDone(n) || (Standing(p, n) && l != StepBroken(n))
  {
    var q := p + [l];
    if l == StepDone(n) {
      assert q[|p|] == StepDone(n);
    }
    if Standing(p, n) && l != StepBroken(n) {
      var j :| 0 <= j < |p| && p[j] == StepDone(n) && forall m :: j < m < |p| ==> p[m] != StepBroken(n);
      assert q[j] == StepDone(n);
    }
    if Standing(q, n) && l != StepDone(n) {
      var j :| 0 <= j < |q| && q[j] == StepDone(n) && forall m :: j < m < |q| ==> q[m] != StepBroken(n);
      assert q[|p|] != StepBroken(n);
      assert forall m :: j < m < |p| ==> p[m] == q[m];
      assert p[j] == StepDone(n);
    }
  }

  lemma OthersGrow(p: seq<Letter>, l: Letter)
    ensures EverLeased(p + [l]) <==> EverLeased(p) || l == Begun
    ensures IsOver(p + [l]) <==> IsOver(p) || Terminal(l)
  {
    var q := p + [l];
    assert q[|p|] == l && forall j :: 0 <= j < |p| ==> q[j] == p[j];
  }

  /** The automaton's state says of an accepted log what the rules look for. */
  lemma {:induction false} StateMeans(p: seq<Letter>)
    requires Accepted(p)
    ensures
      var q := Drive(p);
      && (q.phase == Out <==> LeasedOut(p))
      && (q.phase == New <==> !EverLeased(p))
      && (q.phase == Succeeded || q.phase == Broken <==> IsOver(p))
      && (q.phase == Fired <==> |p| > 0 && p[|p| - 1] == Woken)
      && (forall n :: n in q.done <==> Standing(p, n))
  {
    if |p| > 0 {
      var before, l := p[..|p| - 1], p[|p| - 1];
      assert p == before + [l];
      LeasedOutGrows(before, l);
      OthersGrow(before, l);
      forall n ensures Standing(p, n) <==> l == StepDone(n) || (Standing(before, n) && l != StepBroken(n)) {
        StandingGrows(before, l, n);
      }
      if |before| > 0 {
        StateMeans(before);
      }
    }
  }

  lemma LegalGrows(before: seq<Letter>, l: Letter)
    ensures LegalLog(before + [l]) <==> if |before| == 0 then l == Created else LegalLog(before) && MayFollow(before, l)
  {
    var ls := before + [l];
    assert ls[..|before|] == before && ls[|before|] == l;
    assert forall i :: 0 < i < |before| ==> ls[..i] == before[..i] && ls[i] == before[i];
  }

  /** The automaton accepts exactly the logs that keep the rules. */
  lemma {:induction false} AcceptedIffLegal(ls: seq<Letter>)
    ensures Accepted(ls) <==> LegalLog(ls)
  {
    if |ls| > 0 {
      var before, l := ls[..|ls| - 1], ls[|ls| - 1];
      assert ls == before + [l];
      AcceptedIffLegal(before);
      LegalGrows(before, l);
      if Accepted(before) {
        NextAllowed(before, l);
      }
    }
  }

  lemma NextAllowed(p: seq<Letter>, l: Letter)
    requires Accepted(p)
    ensures Delta(Drive(p), l).Live? <==> MayFollow(p, l)
  {
    StateMeans(p);
  }

  /** In a legal log two completions of one step have a failure of it between. */
  lemma FailureBetween(ls: seq<Letter>, i: nat, j: nat, n: int) returns (m: nat)
    requires LegalLog(ls) && i < j < |ls| && ls[i] == StepDone(n) && ls[j] == StepDone(n)
    ensures i < m < j && ls[m] == StepBroken(n)
  {
    var p := ls[..j];
    assert MayFollow(p, ls[j]);
    assert p[i] == StepDone(n);
    m :| i < m < |p| && p[m] == StepBroken(n);
  }
}
