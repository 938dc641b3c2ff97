/** What every run of overlapping close requests keeps. */
module LifecycleSafety {
  import opened Options
  import opened Lifecycle

  // ----- evidence in the log -----

  ghost predicate Happened(log: seq<Event>, upto: nat, e: Event) {
    exists p :: 0 <= p < upto && p < |log| && log[p] == e
  }

  ghost predicate AllProceeded(log: seq<Event>, upto: nat, id: string, vetoes: nat) {
    forall i :: 0 <= i < vetoes ==> Happened(log, upto, Answered(id, i, Proceed))
  }

  /** The listeners were asked before `upto`, and each one that registered a veto said to go on; a
      final veto was then asked after all of them, and said the same. */
  ghost predicate ClearedAs(log: seq<Event>, upto: nat, id: string, vetoes: nat, final: bool) {
    && Happened(log, upto, Asked(id, vetoes, final))
    && AllProceeded(log, upto, id, vetoes)
    && (final ==> exists q :: 0 <= q < upto && q < |log| && log[q] == LastAnswered(id, Proceed) && AllProceeded(log, q, id, vetoes))
  }

  ghost predicate Cleared(log: seq<Event>, upto: nat, id: string) {
    exists vetoes, final :: ClearedAs(log, upto, id, vetoes, final)
  }

  predicate WasFlushed(e: Event, id: string) {
    e.Flushed? && e.id == id && e.ok
  }

  /** And after that, storage was flushed. */
  ghost predicate FlushedClear(log: seq<Event>, upto: nat, id: string) {
    exists q :: 0 <= q < upto && q < |log| && WasFlushed(log[q], id) && Cleared(log, q, id)
  }

  lemma HappenedStays(log: seq<Event>, more: seq<Event>, upto: nat, later: nat, e: Event)
    requires Happened(log, upto, e) && upto <= later
    ensures Happened(log + more, later, e)
  {
    var p :| 0 <= p < upto && p < |log| && log[p] == e;
    assert (log + more)[p] == e;
  }

  lemma AllProceededStays(log: seq<Event>, more: seq<Event>, upto: nat, later: nat, id: string, vetoes: nat)
    requires AllProceeded(log, upto, id, vetoes) && upto <= later
    ensures AllProceeded(log + more, later, id, vetoes)
  {
    forall i | 0 <= i < vetoes ensures Happened(log + more, later, Answered(id, i, Proceed)) {
      HappenedStays(log, more, upto, later, Answered(id, i, Proceed));
    }
  }

  lemma ClearedAsStays(log: seq<Event>, more: seq<Event>, upto: nat, later: nat, id: string, vetoes: nat, final: bool)
    requires ClearedAs(log, upto, id, vetoes, final) && upto <= later
    ensures ClearedAs(log + more, later, id, vetoes, final)
  {
    HappenedStays(log, more, upto, later, Asked(id, vetoes, final));
    AllProceededStays(log, more, upto, later, id, vetoes);
    if final {
      var q :| 0 <= q < upto && q < |log| && log[q] == LastAnswered(id, Proceed) && AllProceeded(log, q, id, vetoes);
      AllProceededStays(log, more, q, q, id, vetoes);
      assert (log + more)[q] == LastAnswered(id, Proceed);
    }
  }

  lemma ClearedStays(log: seq<Event>, more: seq<Event>, upto: nat, later: nat, id: string)
    requires Cleared(log, upto, id) && upto <= later
    ensures Cleared(log + more, later, id)
  {
    var vetoes, final :| ClearedAs(log, upto, id, vetoes, final);
    ClearedAsStays(log, more, upto, later, id, vetoes, final);
  }

  lemma FlushedClearStays(log: seq<Event>, more: seq<Event>, upto: nat, later: nat, id: string)
    requires FlushedClear(log, upto, id) && upto <= later
    ensures FlushedClear(log + more, later, id)
  {
    var q :| 0 <= q < upto && q < |log| && WasFlushed(log[q], id) && Cleared(log, q, id);
    ClearedStays(log, more, q, q, id);
    assert WasFlushed((log + more)[q], id);
  }

  // ----- each phase has its evidence -----

  ghost predicate Evidence(log: seq<Event>, a: Active) {
    match a.phase
    case Asking(answers, final) =>
      && Happened(log, |log|, Asked(a.id, |answers|, final))
      && forall i :: 0 <= i < |answers| && answers[i].Some? ==> Happened(log, |log|, Answered(a.id, i, answers[i].value))
    case AskingLast => exists vetoes :: Happened(log, |log|, Asked(a.id, vetoes, true)) && AllProceeded(log, |log|, a.id, vetoes)
    case Flushing => Cleared(log, |log|, a.id)
    case JoiningRegular(_) => FlushedClear(log, |log|, a.id)
    case JoiningLast(_, _) => FlushedClear(log, |log|, a.id)
    case _ => true
  }

  lemma EvidenceStays(log: seq<Event>, more: seq<Event>, a: Active)
    requires Evidence(log, a)
    ensures Evidence(log + more, a)
  {
    var n, m := |log|, |log + more|;
    match a.phase
    case Asking(answers, final) =>
      HappenedStays(log, more, n, m, Asked(a.id, |answers|, final));
      forall i | 0 <= i < |answers| && answers[i].Some? ensures Happened(log + more, m, Answered(a.id, i, answers[i].value)) {
        HappenedStays(log, more, n, m, Answered(a.id, i, answers[i].value));
      }
    case AskingLast =>
      var vetoes :| Happened(log, n, Asked(a.id, vetoes, true)) && AllProceeded(log, n, a.id, vetoes);
      HappenedStays(log, more, n, m, Asked(a.id, vetoes, true));
      AllProceededStays(log, more, n, m, a.id, vetoes);
    case Flushing => ClearedStays(log, more, n, m, a.id);
    case JoiningRegular(_) => FlushedClearStays(log, more, n, m, a.id);
    case JoiningLast(_, _) => FlushedClearStays(log, more, n, m, a.id);
    case _ =>
  }

  /** Every `allow` has its evidence before it. */
  ghost predicate AllowsCleared(log: seq<Event>) {
    forall p :: 0 <= p < |log| && log[p].Sent? && log[p].decision == Allow ==> FlushedClear(log, p, log[p].id)
  }

  ghost predicate Proved(c: Closing) {
    AllowsCleared(c.log) && (c.active.Some? ==> Evidence(c.log, c.active.value))
  }

  predicate IsAllow(e: Event) {
    e.Sent? && e.decision == Allow
  }

  lemma OneMoreEvent(log: seq<Event>, e: Event)
    requires AllowsCleared(log) && (IsAllow(e) ==> FlushedClear(log, |log|, e.id))
    ensures AllowsCleared(log + [e])
  {
    forall p | 0 <= p < |log + [e]| && IsAllow((log + [e])[p]) ensures FlushedClear(log + [e], p, (log + [e])[p].id) {
      if p < |log| {
        FlushedClearStays(log, [e], p, p, log[p].id);
      } else {
        FlushedClearStays(log, [e], |log|, |log|, e.id);
      }
    }
  }

  // ----- the steps -----

  lemma SendIsProved(c: Closing, decision: Decision, again: bool)
    requires Proved(c) && c.active.Some?
    requires decision == Allow ==> FlushedClear(c.log, |c.log|, c.active.value.id)
    ensures Proved(Send(c, decision, again))
  {
    OneMoreEvent(c.log, Sent(c.active.value.id, decision, c.now));
  }

  lemma LogIsProved(c: Closing, e: Event)
    requires Proved(c) && !IsAllow(e)
    ensures Proved(Logged(c, e))
  {
    OneMoreEvent(c.log, e);
    if c.active.Some? {
      EvidenceStays(c.log, [e], c.active.value);
    }
  }

  lemma JustHappened(log: seq<Event>, e: Event)
    ensures Happened(log + [e], |log + [e]|, e)
  {
    assert (log + [e])[|log|] == e;
  }

  lemma RequestedIsProved(c: Closing, id: string, timeout: real)
    requires Proved(c)
    ensures Proved(Requested(c, id, timeout))
  {
    LogIsProved(c, Arrived(id, timeout, c.now));
    LogIsProved(Logged(c, Arrived(id, timeout, c.now)), Sent(id, Veto, c.now));
  }

  lemma AskedIsProved(c: Closing, vetoes: nat, final: bool)
    requires Proved(c) && c.active.Some?
    ensures Proved(InPhase(Logged(c, Asked(c.active.value.id, vetoes, final)), Asking(Unanswered(vetoes), final)))
  {
    LogIsProved(c, Asked(c.active.value.id, vetoes, final));
    JustHappened(c.log, Asked(c.active.value.id, vetoes, final));
  }

  lemma AnswerIsProved(c: Closing, i: nat, answer: Answer)
    requires Proved(c) && c.active.Some? && c.active.value.phase.Asking?
    requires i < |c.active.value.phase.answers| && c.active.value.phase.answers[i].None?
    ensures Proved(Continued(c, AnswerComes(i, answer)))
  {
    var a := c.active.value;
    var e := Answered(a.id, i, answer);
    LogIsProved(c, e);
    JustHappened(c.log, e);
    var answers := a.phase.answers[i := Some(answer)];
    assert Evidence(c.log + [e], a);
    assert Evidence(c.log + [e], a.(phase := Asking(answers, a.phase.final)));
  }

  lemma AnswersReadIsProved(c: Closing)
    requires Proved(c) && c.active.Some? && c.active.value.phase.Asking?
    ensures Proved(AnswersReadIn(c))
  {
    var a := c.active.value;
    var answers, final := a.phase.answers, a.phase.final;
    if AllIn(answers) {
      if !AllProceed(answers) {
        SendIsProved(c, Veto, true);
      } else {
        ProceededIsProved(c.log, a.id, answers, final);
      }
    }
  }

  lemma ProceededIsProved(log: seq<Event>, id: string, answers: seq<Option<Answer>>, final: bool)
    requires Happened(log, |log|, Asked(id, |answers|, final)) && AllProceed(answers)
    requires forall i :: 0 <= i < |answers| && answers[i].Some? ==> Happened(log, |log|, Answered(id, i, answers[i].value))
    ensures AllProceeded(log, |log|, id, |answers|)
    ensures !final ==> Cleared(log, |log|, id)
  {
    forall i | 0 <= i < |answers| ensures Happened(log, |log|, Answered(id, i, Proceed)) {
      assert answers[i] == Some(Proceed);
    }
    if !final {
      assert ClearedAs(log, |log|, id, |answers|, false);
    }
  }

  lemma LastAnswerIsProved(c: Closing, answer: Answer)
    requires Proved(c) && c.active.Some? && c.active.value.phase == AskingLast
    ensures Proved(Continued(c, LastAnswerComes(answer)))
  {
    var a, e := c.active.value, LastAnswered(c.active.value.id, answer);
    LogIsProved(c, e);
    if answer != Proceed {
      SendIsProved(Logged(c, e), Veto, true);
    } else {
      var vetoes :| Happened(c.log, |c.log|, Asked(a.id, vetoes, true)) && AllProceeded(c.log, |c.log|, a.id, vetoes);
      LastProceedClears(c.log, a.id, vetoes);
    }
  }

  lemma LastProceedClears(log: seq<Event>, id: string, vetoes: nat)
    requires Happened(log, |log|, Asked(id, vetoes, true)) && AllProceeded(log, |log|, id, vetoes)
    ensures var after := log + [LastAnswered(id, Proceed)]; Cleared(after, |after|, id)
  {
    var more := [LastAnswered(id, Proceed)];
    var after := log + more;
    HappenedStays(log, more, |log|, |after|, Asked(id, vetoes, true));
    AllProceededStays(log, more, |log|, |after|, id, vetoes);
    AllProceededStays(log, more, |log|, |log|, id, vetoes);
    assert after[|log|] == LastAnswered(id, Proceed);
    assert ClearedAs(after, |after|, id, vetoes, true);
  }

  lemma FlushIsProved(c: Closing, ok: bool)
    requires Proved(c) && c.active.Some? && c.active.value.phase == Flushing
    ensures Proved(Continued(c, FlushEnds(ok)))
  {
    var id, e := c.active.value.id, Flushed(c.active.value.id, ok, c.now);
    LogIsProved(c, e);
    if ok {
      ClearedStays(c.log, [e], |c.log|, |c.log|, id);
      assert (c.log + [e])[|c.log|] == e;
      assert FlushedClear(c.log + [e], |c.log + [e]|, id);
    } else {
      SendIsProved(Logged(c, e), Veto, false);
    }
  }

  lemma TimerIsProved(c: Closing)
    requires Proved(c) && c.active.Some?
    ensures Proved(TimerFired(c))
  {
    match c.active.value.phase
    case JoiningRegular(_) => SendIsProved(c, Allow, true);
    case JoiningLast(_, _) => SendIsProved(c, Allow, true);
    case Sending(_, _) =>
    case _ => SendIsProved(c, Veto, false);
  }

  lemma SendEndIsProved(c: Closing, ok: bool)
    requires Proved(c) && c.active.Some? && c.active.value.phase.Sending?
    ensures Proved(CallEnded(c, ok))
  {
    var e := SendEnded(c.active.value.id, c.active.value.phase.decision, ok);
    LogIsProved(c, e);
    if !ok && c.active.value.phase.again {
      SendIsProved(Logged(c, e), Veto, false);
    }
  }

  lemma ContinuedIsProved(c: Closing, a: Action)
    requires Proved(c) && c.active.Some?
    ensures Proved(Continued(c, a))
  {
    match (a, c.active.value.phase)
    case (SettleEnds(vetoes, final), Settling) => AskedIsProved(c, vetoes, final);
    case (AnswerComes(i, answer), Asking(answers, _)) =>
      if i < |answers| && answers[i].None? { AnswerIsProved(c, i, answer); }
    case (AnswersRead, Asking(_, _)) => AnswersReadIsProved(c);
    case (LastAnswerComes(answer), AskingLast) => LastAnswerIsProved(c, answer);
    case (FlushEnds(ok), Flushing) => FlushIsProved(c, ok);
    case (RegularSettle, JoiningRegular(_)) => LogIsProved(c, Joined(c.active.value.id, false));
    case (LastSettle, JoiningLast(_, _)) =>
      LogIsProved(c, Joined(c.active.value.id, true));
      SendIsProved(Logged(c, Joined(c.active.value.id, true)), Allow, true);
    case (TimerFires, _) => TimerIsProved(c);
    case (SendEnds(ok), Sending(_, _)) => SendEndIsProved(c, ok);
    case _ =>
  }

  lemma {:induction false} RunIsProved(actions: seq<Action>)
    ensures Proved(Run(actions))
  {
    if actions != [] {
      var c, a := Run(actions[..|actions| - 1]), actions[|actions| - 1];
      RunIsProved(actions[..|actions| - 1]);
      match a
      case Request(id, timeout) => RequestedIsProved(c, id, timeout);
      case Wait(_) =>
      case _ => if c.active.Some? { ContinuedIsProved(c, a); }
    }
  }

  /** In every run: an `allow` is sent only after every veto, then the final veto, came back as
      "go on", and then storage was flushed. */
  lemma AllowOnlyWhenCleared(actions: seq<Action>, p: nat)
    requires p < |Run(actions).log| && IsAllow(Run(actions).log[p])
    ensures FlushedClear(Run(actions).log, p, Run(actions).log[p].id)
  {
    RunIsProved(actions);
  }
}
