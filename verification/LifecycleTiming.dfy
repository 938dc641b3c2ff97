/** How often and how soon a close request is answered. */
module LifecycleTiming {
  import opened Options
  import opened Lifecycle
  import opened LifecycleSafety

  ghost predicate Unsent(log: seq<Event>, upto: nat, id: string) {
    forall p :: 0 <= p < upto && p < |log| && log[p].id == id ==> !log[p].Sent?
  }

  ghost predicate NoAllow(log: seq<Event>, id: string) {
    forall p :: 0 <= p < |log| && log[p].id == id ==> !IsAllow(log[p])
  }

  // ----- decisions -----

  ghost predicate FailedBetween(log: seq<Event>, p: nat, q: nat, id: string) {
    exists r :: p < r < q && r < |log| && log[r] == SendEnded(id, Allow, false)
  }

  /** After an `allow` only a veto is sent, and only when the `allow` itself could not be delivered. */
  ghost predicate AllowsFinal(log: seq<Event>) {
    forall p, q :: 0 <= p < q < |log| && IsAllow(log[p]) && log[q].Sent? && log[q].id == log[p].id ==>
      log[q].decision == Veto && FailedBetween(log, p, q, log[p].id)
  }

  ghost predicate SendState(log: seq<Event>, a: Active) {
    match a.phase
    case Sending(Allow, again) => again
    case Sending(Veto, true) => NoAllow(log, a.id)
    case Sending(Veto, false) => true
    case _ => Unsent(log, |log|, a.id)
  }

  lemma OneMoreFinal(log: seq<Event>, e: Event)
    requires AllowsFinal(log)
    requires e.Sent? ==> NoAllow(log, e.id) || (e.decision == Veto && log != [] && log[|log| - 1] == SendEnded(e.id, Allow, false))
    ensures AllowsFinal(log + [e])
  {
    var after := log + [e];
    forall p, q | 0 <= p < q < |after| && IsAllow(after[p]) && after[q].Sent? && after[q].id == after[p].id
      ensures after[q].decision == Veto && FailedBetween(after, p, q, after[p].id)
    {
      if q < |log| {
        assert FailedBetween(log, p, q, log[p].id);
        var r :| p < r < q && r < |log| && log[r] == SendEnded(log[p].id, Allow, false);
        assert after[r] == log[r];
      } else {
        assert after[|log| - 1] == SendEnded(e.id, Allow, false);
      }
    }
  }

  // ----- time -----

  const JoinLimit: real := WillShutdownBudget + 1.0

  /** The first answer to a request comes within its preparing budget and the joining budget. */
  ghost predicate InTime(log: seq<Event>) {
    forall p, q :: 0 <= p < q < |log| && log[p].Arrived? && log[q].Sent? && log[q].id == log[p].id && Unsent(log, q, log[p].id) ==>
      log[q].at - log[p].at <= PrepareBudget(log[p].timeout) + JoinLimit
  }

  ghost predicate ArrivedOnce(log: seq<Event>, a: Active) {
    forall p :: 0 <= p < |log| && log[p].Arrived? && log[p].id == a.id ==> log[p] == Arrived(a.id, a.timeout, a.since)
  }

  /** Where the clock can be in each phase. */
  ghost predicate OnTime(now: real, a: Active) {
    var prepared := a.since + PrepareBudget(a.timeout);
    match a.phase
    case Sending(_, _) => true
    case JoiningRegular(start) => start <= prepared && start <= now <= start + WillShutdownBudget
    case JoiningLast(start, end) => start <= prepared && now <= end <= start + JoinLimit
    case _ => now <= prepared
  }

  lemma OneMoreInTime(log: seq<Event>, e: Event)
    requires InTime(log)
    requires e.Sent? && Unsent(log, |log|, e.id) ==>
      forall p :: 0 <= p < |log| && log[p].Arrived? && log[p].id == e.id ==> e.at - log[p].at <= PrepareBudget(log[p].timeout) + JoinLimit
    ensures InTime(log + [e])
  {
    var after := log + [e];
    forall p, q | 0 <= p < q < |after| && after[p].Arrived? && after[q].Sent? && after[q].id == after[p].id && Unsent(after, q, after[p].id)
      ensures after[q].at - after[p].at <= PrepareBudget(after[p].timeout) + JoinLimit
    {
      UnsentBefore(log, e, q, after[p].id);
    }
  }

  lemma UnsentBefore(log: seq<Event>, e: Event, q: nat, id: string)
    requires Unsent(log + [e], q, id) && q <= |log|
    ensures Unsent(log, q, id)
  {
    forall p | 0 <= p < q && p < |log| && log[p].id == id ensures !log[p].Sent? {
      assert (log + [e])[p] == log[p];
    }
  }

  // ----- every request is answered -----

  ghost predicate Replied(log: seq<Event>, id: string) {
    exists q :: 0 <= q < |log| && log[q].Sent? && log[q].id == id
  }

  ghost predicate Attended(c: Closing) {
    && (forall p :: 0 <= p < |c.log| && c.log[p].Arrived? ==>
          Replied(c.log, c.log[p].id) || (c.active.Some? && c.active.value.id == c.log[p].id))
    && (c.active.Some? && c.active.value.phase.Sending? ==> Replied(c.log, c.active.value.id))
  }

  lemma RepliedStays(log: seq<Event>, more: seq<Event>, id: string)
    requires Replied(log, id)
    ensures Replied(log + more, id)
  {
    var q :| 0 <= q < |log| && log[q].Sent? && log[q].id == id;
    assert (log + more)[q] == log[q];
  }

  lemma OneMoreAttended(c: Closing, e: Event)
    requires Attended(c) && !e.Arrived?
    ensures Attended(Logged(c, e))
  {
    forall p | 0 <= p < |c.log| && c.log[p].Arrived?
      ensures Replied(c.log + [e], c.log[p].id) || (c.active.Some? && c.active.value.id == c.log[p].id)
    {
      if Replied(c.log, c.log[p].id) {
        RepliedStays(c.log, [e], c.log[p].id);
      }
    }
    if c.active.Some? && c.active.value.phase.Sending? {
      RepliedStays(c.log, [e], c.active.value.id);
    }
  }

  // ----- the steps -----

  ghost predicate Regular(c: Closing) {
    && AllowsFinal(c.log) && InTime(c.log)
    && (c.active.Some? ==> SendState(c.log, c.active.value) && ArrivedOnce(c.log, c.active.value) && OnTime(c.now, c.active.value))
  }

  /** An event that is neither an arrival nor an answer. */
  predicate Neutral(e: Event) {
    !e.Arrived? && !e.Sent?
  }

  lemma NeutralIsRegular(c: Closing, e: Event)
    requires Regular(c) && Neutral(e)
    ensures Regular(Logged(c, e))
  {
    OneMoreFinal(c.log, e);
    OneMoreInTime(c.log, e);
    if c.active.Some? {
      NeutralKeepsSendState(c.log, e, c.active.value);
    }
  }

  lemma NeutralKeepsSendState(log: seq<Event>, e: Event, a: Active)
    requires SendState(log, a) && Neutral(e)
    ensures SendState(log + [e], a)
  {
  }

  /** The first answer to the active request. */
  lemma FirstSendIsRegular(c: Closing, decision: Decision, again: bool)
    requires Regular(c) && c.active.Some? && !c.active.value.phase.Sending? && (decision == Allow ==> again)
    ensures Regular(Send(c, decision, again))
  {
    var a, e := c.active.value, Sent(c.active.value.id, decision, c.now);
    OneMoreFinal(c.log, e);
    FirstSendInTime(c.now, a);
    OneMoreInTime(c.log, e);
    if decision == Veto {
      NoAllowAfterVeto(c.log, e);
    }
  }

  lemma NoAllowAfterVeto(log: seq<Event>, e: Event)
    requires Unsent(log, |log|, e.id) && !IsAllow(e)
    ensures NoAllow(log + [e], e.id)
  {
  }

  lemma FirstSendInTime(now: real, a: Active)
    requires OnTime(now, a) && !a.phase.Sending?
    ensures now - a.since <= PrepareBudget(a.timeout) + JoinLimit
  {
  }

  /** The veto after a call that failed. */
  lemma SecondSendIsRegular(c: Closing, decision: Decision)
    requires Regular(c) && c.active.Some? && c.active.value.phase == Sending(decision, true)
    requires Replied(c.log, c.active.value.id)
    ensures Regular(Send(Logged(c, SendEnded(c.active.value.id, decision, false)), Veto, false))
  {
    var ended := SendEnded(c.active.value.id, decision, false);
    var e := Sent(c.active.value.id, Veto, c.now);
    NeutralIsRegular(c, ended);
    RepliedStays(c.log, [ended], e.id);
    OneMoreFinal(c.log + [ended], e);
    OneMoreInTime(c.log + [ended], e);
  }

  lemma RequestIsRegular(c: Closing, id: string, timeout: real)
    requires Regular(c) && Fresh(c, Request(id, timeout))
    requires c.active.Some? ==> exists p :: 0 <= p < |c.log| && c.log[p].id == c.active.value.id
    ensures Regular(Requested(c, id, timeout))
  {
    var arrived := Arrived(id, timeout, c.now);
    OneMoreFinal(c.log, arrived);
    OneMoreInTime(c.log, arrived);
    if c.active.Some? {
      var busy := Sent(id, Veto, c.now);
      OneMoreFinal(c.log + [arrived], busy);
      OneMoreInTime(c.log + [arrived], busy);
      OthersKeepSendState(c.log, [arrived, busy], c.active.value);
      assert c.log + [arrived] + [busy] == c.log + [arrived, busy];
    }
  }

  lemma OthersKeepSendState(log: seq<Event>, more: seq<Event>, a: Active)
    requires SendState(log, a) && ArrivedOnce(log, a) && forall i :: 0 <= i < |more| ==> more[i].id != a.id
    ensures SendState(log + more, a) && ArrivedOnce(log + more, a)
  {
  }

  lemma PhaseIsRegular(c: Closing, phase: Phase)
    requires Regular(c) && c.active.Some? && !c.active.value.phase.Sending? && !phase.Sending?
    requires OnTime(c.now, c.active.value.(phase := phase))
    ensures Regular(InPhase(c, phase))
  {
  }

  lemma LoggedPhaseIsRegular(c: Closing, e: Event, phase: Phase)
    requires Regular(c) && c.active.Some? && !c.active.value.phase.Sending? && !phase.Sending? && Neutral(e)
    requires OnTime(c.now, c.active.value.(phase := phase))
    ensures Regular(InPhase(Logged(c, e), phase))
  {
    NeutralIsRegular(c, e);
    PhaseIsRegular(Logged(c, e), phase);
  }

  lemma LoggedSendIsRegular(c: Closing, e: Event, decision: Decision, again: bool)
    requires Regular(c) && c.active.Some? && !c.active.value.phase.Sending? && Neutral(e) && (decision == Allow ==> again)
    ensures Regular(Send(Logged(c, e), decision, again))
  {
    NeutralIsRegular(c, e);
    FirstSendIsRegular(Logged(c, e), decision, again);
  }

  lemma CallEndIsRegular(c: Closing, ok: bool)
    requires Regular(c) && Attended(c) && c.active.Some? && c.active.value.phase.Sending?
    ensures Regular(CallEnded(c, ok))
  {
    var a := c.active.value;
    if !ok && a.phase.again {
      SecondSendIsRegular(c, a.phase.decision);
    } else {
      NeutralIsRegular(c, SendEnded(a.id, a.phase.decision, ok));
    }
  }

  lemma AnswersReadIsRegular(c: Closing)
    requires Regular(c) && c.active.Some? && c.active.value.phase.Asking?
    ensures Regular(AnswersReadIn(c))
  {
    FirstSendIsRegular(c, Veto, true);
    PhaseIsRegular(c, AskingLast);
    PhaseIsRegular(c, Flushing);
  }

  lemma TimerIsRegular(c: Closing)
    requires Regular(c) && c.active.Some?
    ensures Regular(TimerFired(c))
  {
    if !c.active.value.phase.Sending? {
      FirstSendIsRegular(c, Allow, true);
      FirstSendIsRegular(c, Veto, false);
    }
  }

  lemma ContinuedIsRegular(c: Closing, a: Action)
    requires Regular(c) && Attended(c) && c.active.Some?
    ensures Regular(Continued(c, a))
  {
    var id := c.active.value.id;
    match (a, c.active.value.phase)
    case (SettleEnds(vetoes, final), Settling) =>
      LoggedPhaseIsRegular(c, Asked(id, vetoes, final), Asking(Unanswered(vetoes), final));
    case (AnswerComes(i, answer), Asking(answers, final)) =>
      if i < |answers| { LoggedPhaseIsRegular(c, Answered(id, i, answer), Asking(answers[i := Some(answer)], final)); }
    case (AnswersRead, Asking(_, _)) => AnswersReadIsRegular(c);
    case (LastAnswerComes(answer), AskingLast) =>
      LoggedPhaseIsRegular(c, LastAnswered(id, answer), Flushing);
      LoggedSendIsRegular(c, LastAnswered(id, answer), Veto, true);
    case (FlushEnds(ok), Flushing) =>
      LoggedPhaseIsRegular(c, Flushed(id, ok, c.now), JoiningRegular(c.now));
      LoggedSendIsRegular(c, Flushed(id, ok, c.now), Veto, false);
    case (RegularSettle, JoiningRegular(start)) =>
      LoggedPhaseIsRegular(c, Joined(id, false), JoiningLast(start, c.now + RemainingJoin(c, start)));
    case (LastSettle, JoiningLast(_, _)) => LoggedSendIsRegular(c, Joined(id, true), Allow, true);
    case (TimerFires, _) => TimerIsRegular(c);
    case (SendEnds(ok), Sending(_, _)) => CallEndIsRegular(c, ok);
    case _ =>
  }

  lemma WaitIsRegular(c: Closing, time: real)
    requires Regular(c) && MayWait(c, time)
    ensures Regular(c.(now := c.now + time))
  {
  }

  // Every request is attended to.

  lemma SendIsAttended(c: Closing, decision: Decision, again: bool)
    requires Attended(c) && c.active.Some?
    ensures Attended(Send(c, decision, again))
  {
    var e := Sent(c.active.value.id, decision, c.now);
    OneMoreAttended(c, e);
    assert (c.log + [e])[|c.log|] == e;
  }

  lemma LoggedPhaseIsAttended(c: Closing, e: Event, phase: Phase)
    requires Attended(c) && c.active.Some? && Neutral(e) && !phase.Sending?
    ensures Attended(InPhase(Logged(c, e), phase))
  {
    OneMoreAttended(c, e);
  }

  lemma LoggedSendIsAttended(c: Closing, e: Event, decision: Decision, again: bool)
    requires Attended(c) && c.active.Some? && Neutral(e)
    ensures Attended(Send(Logged(c, e), decision, again))
  {
    OneMoreAttended(c, e);
    SendIsAttended(Logged(c, e), decision, again);
  }

  lemma CallEndIsAttended(c: Closing, ok: bool)
    requires Attended(c) && c.active.Some? && c.active.value.phase.Sending?
    ensures Attended(CallEnded(c, ok))
  {
    var a := c.active.value;
    var e := SendEnded(a.id, a.phase.decision, ok);
    OneMoreAttended(c, e);
    LoggedSendIsAttended(c, e, Veto, false);
    if ok || !a.phase.again {
      forall p | 0 <= p < |c.log + [e]| && (c.log + [e])[p].Arrived? ensures Replied(c.log + [e], (c.log + [e])[p].id) {
        RepliedStays(c.log, [e], a.id);
      }
    }
  }

  lemma RequestIsAttended(c: Closing, id: string, timeout: real)
    requires Attended(c)
    ensures Attended(Requested(c, id, timeout))
  {
    var arrived, busy := Arrived(id, timeout, c.now), Sent(id, Veto, c.now);
    forall p | 0 <= p < |c.log| && c.log[p].Arrived? && Replied(c.log, c.log[p].id)
      ensures Replied(c.log + [arrived], c.log[p].id) && Replied(c.log + [arrived] + [busy], c.log[p].id)
    {
      RepliedStays(c.log, [arrived], c.log[p].id);
      RepliedStays(c.log + [arrived], [busy], c.log[p].id);
    }
    if c.active.Some? {
      assert (c.log + [arrived] + [busy])[|c.log| + 1] == busy;
      if c.active.value.phase.Sending? {
        RepliedStays(c.log, [arrived], c.active.value.id);
        RepliedStays(c.log + [arrived], [busy], c.active.value.id);
      }
    }
  }

  lemma ContinuedIsAttended(c: Closing, a: Action)
    requires Attended(c) && c.active.Some?
    ensures Attended(Continued(c, a))
  {
    var id := c.active.value.id;
    match (a, c.active.value.phase)
    case (SettleEnds(vetoes, final), Settling) =>
      LoggedPhaseIsAttended(c, Asked(id, vetoes, final), Asking(Unanswered(vetoes), final));
    case (AnswerComes(i, answer), Asking(answers, final)) =>
      if i < |answers| { LoggedPhaseIsAttended(c, Answered(id, i, answer), Asking(answers[i := Some(answer)], final)); }
    case (AnswersRead, Asking(_, _)) => SendIsAttended(c, Veto, true);
    case (LastAnswerComes(answer), AskingLast) =>
      LoggedPhaseIsAttended(c, LastAnswered(id, answer), Flushing);
      LoggedSendIsAttended(c, LastAnswered(id, answer), Veto, true);
    case (FlushEnds(ok), Flushing) =>
      LoggedPhaseIsAttended(c, Flushed(id, ok, c.now), JoiningRegular(c.now));
      LoggedSendIsAttended(c, Flushed(id, ok, c.now), Veto, false);
    case (RegularSettle, JoiningRegular(start)) =>
      LoggedPhaseIsAttended(c, Joined(id, false), JoiningLast(start, c.now + RemainingJoin(c, start)));
    case (LastSettle, JoiningLast(_, _)) => LoggedSendIsAttended(c, Joined(id, true), Allow, true);
    case (TimerFires, _) =>
      SendIsAttended(c, Allow, true);
      SendIsAttended(c, Veto, false);
    case (SendEnds(ok), Sending(_, _)) => CallEndIsAttended(c, ok);
    case _ =>
  }

  // ----- whole runs -----

  ghost predicate Known(c: Closing) {
    c.active.Some? ==> exists p :: 0 <= p < |c.log| && c.log[p].id == c.active.value.id
  }

  lemma NextIsKnown(c: Closing, a: Action)
    requires Known(c)
    ensures Known(Next(c, a))
  {
    var after := Next(c, a);
    LogGrows(c, a);
    if c.active.Some? {
      var p :| 0 <= p < |c.log| && c.log[p].id == c.active.value.id;
      assert after.log[p] == c.log[p];
    } else if a.Request? {
      assert after.log[|c.log|] == Arrived(a.id, a.timeout, c.now);
    }
  }

  lemma LogGrows(c: Closing, a: Action)
    ensures c.log <= Next(c, a).log
    ensures c.active.Some? && Next(c, a).active.Some? ==> Next(c, a).active.value.id == c.active.value.id
    ensures c.active.None? && !a.Request? ==> Next(c, a).active.None?
  {
  }

  lemma {:induction false} RunIsRegular(actions: seq<Action>)
    ensures Regular(Run(actions)) && Attended(Run(actions)) && Known(Run(actions))
  {
    if actions != [] {
      var c, a := Run(actions[..|actions| - 1]), actions[|actions| - 1];
      RunIsRegular(actions[..|actions| - 1]);
      if Fresh(c, a) {
        NextIsKnown(c, a);
        NextIsRegular(c, a);
      }
    }
  }

  lemma NextIsRegular(c: Closing, a: Action)
    requires Regular(c) && Attended(c) && Known(c) && Fresh(c, a)
    ensures Regular(Next(c, a)) && Attended(Next(c, a))
  {
    match a
    case Request(id, timeout) =>
      RequestIsRegular(c, id, timeout);
      RequestIsAttended(c, id, timeout);
    case Wait(time) => if MayWait(c, time) { WaitIsRegular(c, time); }
    case _ =>
      if c.active.Some? {
        ContinuedIsRegular(c, a);
        ContinuedIsAttended(c, a);
      }
  }

  /** Of all requests, however they overlap, at most one is under way; every other one that has arrived
      has been given an answer. */
  lemma OneActiveTheRestAnswered(actions: seq<Action>, p: nat)
    requires p < |Run(actions).log| && Run(actions).log[p].Arrived?
    requires Run(actions).active.None? || Run(actions).active.value.id != Run(actions).log[p].id
    ensures Replied(Run(actions).log, Run(actions).log[p].id)
  {
    RunIsRegular(actions);
  }

  // ----- requests that arrive while another is under way -----

  /** The request holds no slot and everything about it is in the first `upto` events. */
  ghost predicate Over(c: Closing, id: string, upto: nat) {
    && (c.active.Some? ==> c.active.value.id != id)
    && upto <= |c.log|
    && (exists p :: 0 <= p < upto && c.log[p].id == id)
    && forall p :: upto <= p < |c.log| ==> c.log[p].id != id
  }

  ghost predicate AddsOnly(c: Closing, after: Closing, id: string) {
    && c.log <= after.log
    && (forall p :: |c.log| <= p < |after.log| ==> after.log[p].id == id)
    && (after.active.Some? ==> after.active.value.id == id)
  }

  lemma ContinuedAddsOnlyItsOwn(c: Closing, a: Action)
    requires c.active.Some?
    ensures AddsOnly(c, Continued(c, a), c.active.value.id)
  {
  }

  lemma NextKeepsOver(c: Closing, a: Action, id: string, upto: nat)
    requires Over(c, id, upto) && Fresh(c, a)
    ensures Over(Next(c, a), id, upto)
  {
    LogGrows(c, a);
    var q :| 0 <= q < upto && c.log[q].id == id;
    assert Next(c, a).log[q] == c.log[q];
    if c.active.Some? && !a.Request? && !a.Wait? {
      ContinuedAddsOnlyItsOwn(c, a);
    }
  }

  lemma {:induction false} RunKeepsOver(actions: seq<Action>, n: nat, id: string, upto: nat)
    requires n <= |actions| && Over(Run(actions[..n]), id, upto)
    ensures Over(Run(actions), id, upto) && Run(actions[..n]).log <= Run(actions).log
    decreases |actions|
  {
    if n == |actions| {
      assert actions[..n] == actions;
    } else {
      var most, a := actions[..|actions| - 1], actions[|actions| - 1];
      assert most[..n] == actions[..n];
      RunKeepsOver(most, n, id, upto);
      if Fresh(Run(most), a) {
        NextKeepsOver(Run(most), a, id, upto);
        LogGrows(Run(most), a);
      }
    }
  }

  lemma BusyRequestIsOver(c: Closing, id: string, timeout: real)
    requires Known(c) && c.active.Some? && Fresh(c, Request(id, timeout))
    ensures Over(Requested(c, id, timeout), id, |c.log| + 2)
  {
    assert Requested(c, id, timeout).log[|c.log|].id == id;
  }

  /** In every run, a request that arrives while another is under way is vetoed at once, and nothing
      is ever sent or logged about it again: it is never allowed. */
  lemma BusyRequestIsVetoed(actions: seq<Action>, n: nat)
    requires n < |actions| && actions[n].Request?
    requires Run(actions[..n]).active.Some? && Fresh(Run(actions[..n]), actions[n])
    ensures var c, log, id := Run(actions[..n]), Run(actions).log, actions[n].id;
      && |log| >= |c.log| + 2
      && log[|c.log|] == Arrived(id, actions[n].timeout, c.now) && log[|c.log| + 1] == Sent(id, Veto, c.now)
      && forall q :: 0 <= q < |log| && log[q].id == id ==> q == |c.log| || q == |c.log| + 1
  {
    var c, a := Run(actions[..n]), actions[n];
    RunIsRegular(actions[..n]);
    BusyRequestIsOver(c, a.id, a.timeout);
    assert actions[..n + 1][..n] == actions[..n];
    assert Run(actions[..n + 1]) == Requested(c, a.id, a.timeout);
    RunKeepsOver(actions, n + 1, a.id, |c.log| + 2);
    assert Run(actions).log[..|c.log| + 2] == Requested(c, a.id, a.timeout).log;
    BusyLog(c, a.id, a.timeout, Run(actions).log);
  }

  lemma BusyLog(c: Closing, id: string, timeout: real, log: seq<Event>)
    requires c.active.Some? && Fresh(c, Request(id, timeout)) && Requested(c, id, timeout).log <= log
    ensures |log| >= |c.log| + 2
    ensures log[|c.log|] == Arrived(id, timeout, c.now) && log[|c.log| + 1] == Sent(id, Veto, c.now)
    ensures forall q :: 0 <= q < |c.log| ==> log[q].id != id
  {
    forall q | 0 <= q < |c.log| ensures log[q].id != id {
      assert log[q] == Requested(c, id, timeout).log[q] == c.log[q];
    }
  }

  /** A request that was sent `allow` is sent nothing else, except a veto after that call failed. */
  lemma VetoAfterAllowOnlyIfAllowFailed(actions: seq<Action>, p: nat, q: nat)
    requires p < q < |Run(actions).log| && IsAllow(Run(actions).log[p])
    requires Run(actions).log[q].Sent? && Run(actions).log[q].id == Run(actions).log[p].id
    ensures Run(actions).log[q].decision == Veto
    ensures FailedBetween(Run(actions).log, p, q, Run(actions).log[p].id)
  {
    RunIsRegular(actions);
  }

  /** The first answer to a request comes at most min(4000, t - 750) + 501 ms after it, and so at least
      249 ms before the native side gives up at t, for every t of at least 750 ms. */
  lemma AnsweredBeforeTimeout(actions: seq<Action>, p: nat, q: nat)
    requires p < q < |Run(actions).log| && Run(actions).log[p].Arrived? && Run(actions).log[p].timeout >= 750.0
    requires Run(actions).log[q].Sent? && Run(actions).log[q].id == Run(actions).log[p].id
    requires Unsent(Run(actions).log, q, Run(actions).log[p].id)
    ensures var log := Run(actions).log; var waited := log[q].at - log[p].at;
      waited <= Min(4000.0, log[p].timeout - 750.0) + 501.0 && waited <= log[p].timeout - 249.0
  {
    RunIsRegular(actions);
  }

  /** A request that has not been answered has not waited longer than that either: within it, an answer
      is sent. */
  lemma UnansweredWithinBudget(actions: seq<Action>, p: nat)
    requires p < |Run(actions).log| && Run(actions).log[p].Arrived?
    requires Unsent(Run(actions).log, |Run(actions).log|, Run(actions).log[p].id)
    ensures Run(actions).now - Run(actions).log[p].at <= PrepareBudget(Run(actions).log[p].timeout) + JoinLimit
  {
    RunIsRegular(actions);
    var c := Run(actions);
    assert !Replied(c.log, c.log[p].id);
    FirstSendInTime(c.now, c.active.value);
  }
}
