/** Which event logs are possible, stated as an automaton over the kinds of a
    workflow's events. Payloads other than the step number play no part. */
module EventLog {
  import opened Types

  datatype Letter =
    | Created
    | Begun
    | StepBegun
    | StepDone(step: int)
    | StepBroken(step: int)
    | Signalled
    | Woken
    | Ended
    | Aborted

  function LetterOf(kind: Kind): Letter {
    match kind
    case EvCreated => Created
    case EvStarted => Begun
    case EvStepStarted(_) => StepBegun
    case EvStepCompleted(n, _) => StepDone(n)
    case EvStepFailed(n, _) => StepBroken(n)
    case EvSignal(_, _) => Signalled
    case EvTimerFired => Woken
    case EvCompleted => Ended
    case EvFailed => Aborted
  }

  function Letters(log: seq<Event>): seq<Letter> {
    if |log| == 0 then []
    else Letters(log[..|log| - 1]) + [LetterOf(log[|log| - 1].kind)]
  }

  /** New: never leased. Out: leased since the last timer fired. Fired: the last
      event is TIMER_FIRED. Back: requeued by a timer, other events since. */
  datatype Phase = New | Out | Fired | Back | Succeeded | Broken

  datatype Scan = Start | Live(phase: Phase, done: set<int>) | Reject

  function Settle(p: Phase): Phase {
    if p == Fired then Back else p
  }

  function Delta(q: Scan, l: Letter): Scan {
    match q
    case Reject => Reject
    case Start => if l == Created then Live(New, {}) else Reject
    case Live(p, done) =>
      match l
      case Created => Reject
      case Begun => if p == Succeeded || p == Broken then Reject else Live(Out, done)
      case StepBegun => if p == New then Reject else Live(Settle(p), done)
      case StepDone(n) => if p == Out && n !in done then Live(Out, done + {n}) else Reject
      case StepBroken(n) => if p == New then Reject else Live(Settle(p), done - {n})
      case Signalled => Live(Settle(p), done)
      case Woken => if p == Out || p == Fired then Live(Fired, done) else Reject
      case Ended => if p == Out then Live(Succeeded, done) else Reject
      case Aborted => if p == Out then Live(Broken, done) else Reject
  }

  function Drive(ls: seq<Letter>): Scan {
    if |ls| == 0 then Start
    else Delta(Drive(ls[..|ls| - 1]), ls[|ls| - 1])
  }

  ghost predicate Accepted(ls: seq<Letter>) {
    Drive(ls).Live?
  }

  /** What a fold over a log counts. */
  datatype Tally = Tally(
    starts: nat,
    completions: nat,
    terminals: nat,
    fired: nat,
    signals: nat,
    demotions: nat)    // failures of a step that was completed at that moment

  function Count(ls: seq<Letter>): Tally {
    if |ls| == 0 then Tally(0, 0, 0, 0, 0, 0)
    else
      var c := Count(ls[..|ls| - 1]);
      match ls[|ls| - 1]
      case Begun => c.(starts := c.starts + 1)
      case StepDone(_) => c.(completions := c.completions + 1)
      case StepBroken(n) =>
        var q := Drive(ls[..|ls| - 1]);
        if q.Live? && n in q.done then c.(demotions := c.demotions + 1) else c
      case Signalled => c.(signals := c.signals + 1)
      case Woken => c.(fired := c.fired + 1)
      case Ended => c.(terminals := c.terminals + 1)
      case Aborted => c.(terminals := c.terminals + 1)
      case _ => c
  }

  lemma LettersAppend(log: seq<Event>, e: Event)
    ensures Letters(log + [e]) == Letters(log) + [LetterOf(e.kind)]
  {
    assert (log + [e])[..|log|] == log;
  }

  lemma DriveAppend(ls: seq<Letter>, l: Letter)
    ensures Drive(ls + [l]) == Delta(Drive(ls), l)
  {
    assert (ls + [l])[..|ls|] == ls;
  }

  lemma CountAppend(ls: seq<Letter>, l: Letter)
    ensures
      var c, d, q := Count(ls), Count(ls + [l]), Drive(ls);
      && d.starts == c.starts + (if l == Begun then 1 else 0)
      && d.completions == c.completions + (if l.StepDone? then 1 else 0)
      && d.terminals == c.terminals + (if l == Ended || l == Aborted then 1 else 0)
      && d.fired == c.fired + (if l == Woken then 1 else 0)
      && d.signals == c.signals + (if l == Signalled then 1 else 0)
      && d.demotions == c.demotions + (if l.StepBroken? && q.Live? && l.step in q.done then 1 else 0)
  {
    assert (ls + [l])[..|ls|] == ls;
  }

  lemma {:induction false} LettersLength(log: seq<Event>)
    ensures |Letters(log)| == |log|
    ensures forall i :: 0 <= i < |log| ==> Letters(log)[i] == LetterOf(log[i].kind)
  {
    if |log| > 0 {
      LettersLength(log[..|log| - 1]);
    }
  }

  /** How often step n was completed. */
  function TimesCompleted(ls: seq<Letter>, n: int): nat {
    if |ls| == 0 then 0
    else TimesCompleted(ls[..|ls| - 1], n) + if ls[|ls| - 1] == StepDone(n) then 1 else 0
  }

  /** How often a failure of step n was recorded while it stood completed. */
  function TimesDemoted(ls: seq<Letter>, n: int): nat {
    if |ls| == 0 then 0
    else
      var q := Drive(ls[..|ls| - 1]);
      TimesDemoted(ls[..|ls| - 1], n) + if ls[|ls| - 1] == StepBroken(n) && q.Live? && n in q.done then 1 else 0
  }

  /** In any accepted log, step by step: completions less demotions are 1 if the
      step stands completed and 0 if not. */
  lemma {:induction false} StepAccounted(ls: seq<Letter>, n: int)
    requires Accepted(ls)
    ensures TimesCompleted(ls, n) == TimesDemoted(ls, n) + if n in Drive(ls).done then 1 else 0
  {
    if |ls| > 1 {
      StepAccounted(ls[..|ls| - 1], n);
    }
  }

  /** In any accepted log the number of completions is the number of steps
      standing completed plus the number of demotions of all steps. */
  lemma {:induction false} CompletionsAccounted(ls: seq<Letter>)
    requires Accepted(ls)
    ensures Count(ls).completions == |Drive(ls).done| + Count(ls).demotions
  {
    if |ls| > 1 {
      CompletionsAccounted(ls[..|ls| - 1]);
    }
  }

  lemma {:induction false} DemotionsAdd(ls: seq<Letter>, n: int)
    ensures TimesDemoted(ls, n) <= Count(ls).demotions
  {
    if |ls| > 0 {
      DemotionsAdd(ls[..|ls| - 1], n);
    }
  }

  lemma {:induction false} SomeDemoted(ls: seq<Letter>) returns (n: int)
    requires Count(ls).demotions > 0
    ensures TimesDemoted(ls, n) > 0
  {
    var q := Drive(ls[..|ls| - 1]);
    match ls[|ls| - 1]
    case StepBroken(m) => if q.Live? && m in q.done { n := m; } else { n := SomeDemoted(ls[..|ls| - 1]); }
    case _ => n := SomeDemoted(ls[..|ls| - 1]);
  }

  lemma DemotionsPerStep(ls: seq<Letter>)
    ensures Count(ls).demotions == 0 <==> forall n :: TimesDemoted(ls, n) == 0
  {
    if Count(ls).demotions == 0 {
      forall n ensures TimesDemoted(ls, n) == 0 {
        DemotionsAdd(ls, n);
      }
    } else {
      var n := SomeDemoted(ls);
    }
  }
}
