/** What every answer rests on: a veto has a reason, and an `allow` has waited for the joiners. */
module LifecycleReasons {
  import opened Options
  import opened Lifecycle
  import opened LifecycleSafety
  import opened LifecycleTiming

  // ----- reasons in the log -----

  /** A listener objected or failed, or the final veto did. */
  predicate IsObjection(e: Event, id: string) {
    e.id == id && ((e.Answered? && e.answer != Proceed) || (e.LastAnswered? && e.answer != Proceed))
  }

  predicate IsFailure(e: Event, id: string) {
    e.id == id && ((e.Flushed? && !e.ok) || (e.SendEnded? && !e.ok))
  }

  /** By then the request had waited for 4000 ms, or for all but 750 ms of its time. */
  predicate IsLate(e: Event, id: string, at: real) {
    e.Arrived? && e.id == id && at >= e.at && (at - e.at >= 4000.0 || at - e.at >= e.timeout - 750.0)
  }

  ghost predicate FlushedBefore(log: seq<Event>, upto: nat, id: string) {
    exists p :: 0 <= p < upto && p < |log| && WasFlushed(log[p], id)
  }

  /** Once storage has been flushed only an `allow` that could not be delivered is a reason to veto. */
  ghost predicate Reason(log: seq<Event>, upto: nat, at: real, id: string) {
    if FlushedBefore(log, upto, id) then Happened(log, upto, SendEnded(id, Allow, false))
    else exists p :: 0 <= p < upto && p < |log| && (IsObjection(log[p], id) || IsFailure(log[p], id) || IsLate(log[p], id, at))
  }

  /** Every veto has a reason before it, but for those of requests that found another under way. */
  ghost predicate VetoesReasoned(log: seq<Event>, busy: set<string>) {
    forall q :: 0 <= q < |log| && log[q].Sent? && log[q].decision == Veto && log[q].id !in busy ==> Reason(log, q, log[q].at, log[q].id)
  }

  lemma ReasonStays(log: seq<Event>, more: seq<Event>, upto: nat, at: real, id: string)
    requires Reason(log, upto, at, id) && upto <= |log|
    ensures Reason(log + more, upto, at, id)
  {
    if FlushedBefore(log, upto, id) {
      var p :| 0 <= p < upto && p < |log| && WasFlushed(log[p], id);
      assert WasFlushed((log + more)[p], id);
      HappenedStays(log, more, upto, upto, SendEnded(id, Allow, false));
    } else {
      var p :| 0 <= p < upto && p < |log| && (IsObjection(log[p], id) || IsFailure(log[p], id) || IsLate(log[p], id, at));
      assert (log + more)[p] == log[p];
      assert forall k :: 0 <= k < upto ==> (log + more)[k] == log[k];
    }
  }

  lemma OneMoreReasoned(log: seq<Event>, e: Event, busy: set<string>)
    requires VetoesReasoned(log, busy)
    requires e.Sent? && e.decision == Veto && e.id !in busy ==> Reason(log, |log|, e.at, e.id)
    ensures VetoesReasoned(log + [e], busy)
  {
    forall q | 0 <= q < |log + [e]| && (log + [e])[q].Sent? && (log + [e])[q].decision == Veto && (log + [e])[q].id !in busy
      ensures Reason(log + [e], q, (log + [e])[q].at, (log + [e])[q].id)
    {
      ReasonStays(log, [e], q, (log + [e])[q].at, (log + [e])[q].id);
    }
  }

  // ----- what each phase knows -----

  /** Storage has not been flushed for this request. */
  predicate BeforeFlush(phase: Phase) {
    match phase
    case JoiningRegular(_) => false
    case JoiningLast(_, _) => false
    case Sending(decision, again) => decision == Veto && again
    case _ => true
  }

  ghost predicate FlushedAt(log: seq<Event>, q: nat, id: string, at: real) {
    q < |log| && WasFlushed(log[q], id) && log[q].at == at
  }

  /** The regular joiners have settled after event `q`. */
  ghost predicate RegularJoined(log: seq<Event>, q: nat, id: string) {
    exists j :: q < j < |log| && log[j] == Joined(id, false)
  }

  ghost predicate Grounds(log: seq<Event>, now: real, a: Active) {
    && a.since <= now && Happened(log, |log|, Arrived(a.id, a.timeout, a.since))
    && (BeforeFlush(a.phase) ==> !FlushedBefore(log, |log|, a.id))
    && (a.phase.JoiningRegular? ==> exists q: nat :: FlushedAt(log, q, a.id, a.phase.start))
    && (a.phase.JoiningLast? ==>
          && a.phase.end >= a.phase.start + 500.0
          && exists q: nat :: FlushedAt(log, q, a.id, a.phase.start) && RegularJoined(log, q, a.id))
  }

  lemma RegularJoinedStays(log: seq<Event>, more: seq<Event>, q: nat, id: string)
    requires RegularJoined(log, q, id)
    ensures RegularJoined(log + more, q, id)
  {
    var j :| q < j < |log| && log[j] == Joined(id, false);
    assert (log + more)[j] == Joined(id, false);
  }

  lemma GroundsStay(log: seq<Event>, e: Event, now: real, a: Active)
    requires Grounds(log, now, a) && !(WasFlushed(e, a.id) && BeforeFlush(a.phase))
    ensures Grounds(log + [e], now, a)
  {
    HappenedStays(log, [e], |log|, |log| + 1, Arrived(a.id, a.timeout, a.since));
    if a.phase.JoiningRegular? {
      var q: nat :| FlushedAt(log, q, a.id, a.phase.start);
      assert FlushedAt(log + [e], q, a.id, a.phase.start);
    }
    if a.phase.JoiningLast? {
      var q: nat :| FlushedAt(log, q, a.id, a.phase.start) && RegularJoined(log, q, a.id);
      RegularJoinedStays(log, [e], q, a.id);
      assert FlushedAt(log + [e], q, a.id, a.phase.start);
    }
  }

  // ----- allowing -----

  /** The `allow` at `p` came after storage was flushed, and then after both kinds of joiners had settled,
      or 500 ms later. */
  ghost predicate Waited(log: seq<Event>, p: nat, at: real, id: string) {
    exists q: nat :: q < p && q < |log| && WasFlushed(log[q], id) && (at - log[q].at >= 500.0 || BothJoined(log, q, p, id))
  }

  ghost predicate BothJoined(log: seq<Event>, q: nat, p: nat, id: string) {
    exists j, k :: q < j < k < p && k < |log| && log[j] == Joined(id, false) && log[k] == Joined(id, true)
  }

  ghost predicate AllowsWaited(log: seq<Event>) {
    forall p :: 0 <= p < |log| && IsAllow(log[p]) ==> Waited(log, p, log[p].at, log[p].id)
  }

  lemma WaitedStays(log: seq<Event>, more: seq<Event>, p: nat, at: real, id: string)
    requires Waited(log, p, at, id)
    ensures Waited(log + more, p, at, id)
  {
    var q: nat :| q < p && q < |log| && WasFlushed(log[q], id) && (at - log[q].at >= 500.0 || BothJoined(log, q, p, id));
    assert (log + more)[q] == log[q];
    if BothJoined(log, q, p, id) {
      var j, k :| q < j < k < p && k < |log| && log[j] == Joined(id, false) && log[k] == Joined(id, true);
      assert (log + more)[j] == log[j] && (log + more)[k] == log[k];
    }
  }

  lemma OneMoreWaited(log: seq<Event>, e: Event)
    requires AllowsWaited(log) && (IsAllow(e) ==> Waited(log, |log|, e.at, e.id))
    ensures AllowsWaited(log + [e])
  {
    forall p | 0 <= p < |log + [e]| && IsAllow((log + [e])[p]) ensures Waited(log + [e], p, (log + [e])[p].at, (log + [e])[p].id) {
      WaitedStays(log, [e], p, (log + [e])[p].at, (log + [e])[p].id);
    }
  }

  // ----- the steps -----

  ghost predicate Reasoned(c: Closing, busy: set<string>) {
    && VetoesReasoned(c.log, busy) && AllowsWaited(c.log)
    && (c.active.Some? ==> Grounds(c.log, c.now, c.active.value))
  }

  lemma LogIsReasoned(c: Closing, e: Event, busy: set<string>)
    requires Reasoned(c, busy) && !e.Sent?
    requires c.active.Some? ==> !(WasFlushed(e, c.active.value.id) && BeforeFlush(c.active.value.phase))
    ensures Reasoned(Logged(c, e), busy)
  {
    OneMoreReasoned(c.log, e, busy);
    OneMoreWaited(c.log, e);
    if c.active.Some? {
      GroundsStay(c.log, e, c.now, c.active.value);
    }
  }

  lemma SendIsReasoned(c: Closing, decision: Decision, again: bool, busy: set<string>)
    requires Reasoned(c, busy) && c.active.Some?
    requires decision == Veto ==> Reason(c.log, |c.log|, c.now, c.active.value.id)
    requires decision == Veto && again ==> BeforeFlush(c.active.value.phase)
    requires decision == Allow ==> Waited(c.log, |c.log|, c.now, c.active.value.id)
    ensures Reasoned(Send(c, decision, again), busy)
  {
    var a, e := c.active.value, Sent(c.active.value.id, decision, c.now);
    OneMoreReasoned(c.log, e, busy);
    OneMoreWaited(c.log, e);
    HappenedStays(c.log, [e], |c.log|, |c.log| + 1, Arrived(a.id, a.timeout, a.since));
  }

  lemma PhaseIsReasoned(c: Closing, phase: Phase, busy: set<string>)
    requires Reasoned(c, busy) && c.active.Some? && BeforeFlush(c.active.value.phase)
    requires BeforeFlush(phase)
    ensures Reasoned(InPhase(c, phase), busy)
  {
  }

  lemma ObjectionIsReason(log: seq<Event>, p: nat, at: real, id: string)
    requires p < |log| && IsObjection(log[p], id) && !FlushedBefore(log, |log|, id)
    ensures Reason(log, |log|, at, id)
  {
  }

  lemma AnswersReadIsReasoned(c: Closing, busy: set<string>)
    requires Reasoned(c, busy) && Proved(c) && c.active.Some? && c.active.value.phase.Asking?
    ensures Reasoned(AnswersReadIn(c), busy)
  {
    var a := c.active.value;
    var answers := a.phase.answers;
    if AllIn(answers) {
      if !AllProceed(answers) {
        var i :| 0 <= i < |answers| && answers[i] != Some(Proceed);
        assert Happened(c.log, |c.log|, Answered(a.id, i, answers[i].value));
        var p :| 0 <= p < |c.log| && c.log[p] == Answered(a.id, i, answers[i].value);
        ObjectionIsReason(c.log, p, c.now, a.id);
        SendIsReasoned(c, Veto, true, busy);
      } else {
        PhaseIsReasoned(c, AskingLast, busy);
        PhaseIsReasoned(c, Flushing, busy);
      }
    }
  }

  lemma LastAnswerIsReasoned(c: Closing, answer: Answer, busy: set<string>)
    requires Reasoned(c, busy) && c.active.Some? && c.active.value.phase == AskingLast
    ensures Reasoned(Continued(c, LastAnswerComes(answer)), busy)
  {
    var id, e := c.active.value.id, LastAnswered(c.active.value.id, answer);
    LogIsReasoned(c, e, busy);
    if answer == Proceed {
      PhaseIsReasoned(Logged(c, e), Flushing, busy);
    } else {
      ObjectionIsReason(c.log + [e], |c.log|, c.now, id);
      SendIsReasoned(Logged(c, e), Veto, true, busy);
    }
  }

  lemma FailedFlushIsReasoned(c: Closing, busy: set<string>)
    requires Reasoned(c, busy) && c.active.Some? && c.active.value.phase == Flushing
    ensures Reasoned(Continued(c, FlushEnds(false)), busy)
  {
    var e := Flushed(c.active.value.id, false, c.now);
    LogIsReasoned(c, e, busy);
    assert IsFailure((c.log + [e])[|c.log|], c.active.value.id);
    SendIsReasoned(Logged(c, e), Veto, false, busy);
  }

  lemma FlushIsReasoned(c: Closing, busy: set<string>)
    requires Reasoned(c, busy) && c.active.Some? && c.active.value.phase == Flushing
    ensures Reasoned(Continued(c, FlushEnds(true)), busy)
  {
    var a, e := c.active.value, Flushed(c.active.value.id, true, c.now);
    OneMoreReasoned(c.log, e, busy);
    OneMoreWaited(c.log, e);
    HappenedStays(c.log, [e], |c.log|, |c.log| + 1, Arrived(a.id, a.timeout, a.since));
    assert FlushedAt(c.log + [e], |c.log|, a.id, c.now);
  }

  lemma RegularSettleIsReasoned(c: Closing, busy: set<string>)
    requires Reasoned(c, busy) && c.active.Some? && c.active.value.phase.JoiningRegular?
    ensures Reasoned(Continued(c, RegularSettle), busy)
  {
    var a, e := c.active.value, Joined(c.active.value.id, false);
    LogIsReasoned(c, e, busy);
    var q: nat :| FlushedAt(c.log, q, a.id, a.phase.start);
    assert FlushedAt(c.log + [e], q, a.id, a.phase.start);
    assert (c.log + [e])[|c.log|] == e;
    assert RegularJoined(c.log + [e], q, a.id);
  }

  lemma LastSettleIsReasoned(c: Closing, busy: set<string>)
    requires Reasoned(c, busy) && c.active.Some? && c.active.value.phase.JoiningLast?
    ensures Reasoned(Continued(c, LastSettle), busy)
  {
    var a, e := c.active.value, Joined(c.active.value.id, true);
    LogIsReasoned(c, e, busy);
    var q: nat :| FlushedAt(c.log, q, a.id, a.phase.start) && RegularJoined(c.log, q, a.id);
    var j :| q < j < |c.log| && c.log[j] == Joined(a.id, false);
    var after := c.log + [e];
    assert after[q] == c.log[q] && after[j] == c.log[j] && after[|c.log|] == e;
    assert BothJoined(after, q, |after|, a.id);
    SendIsReasoned(Logged(c, e), Allow, true, busy);
  }

  lemma TimerIsReasoned(c: Closing, busy: set<string>)
    requires Reasoned(c, busy) && c.active.Some?
    requires Deadline(c.active.value).Some? && c.now >= Deadline(c.active.value).value
    ensures Reasoned(TimerFired(c), busy)
  {
    var a := c.active.value;
    match a.phase
    case JoiningRegular(start) =>
      var q: nat :| FlushedAt(c.log, q, a.id, start);
      SendIsReasoned(c, Allow, true, busy);
    case JoiningLast(start, _) =>
      var q: nat :| FlushedAt(c.log, q, a.id, start) && RegularJoined(c.log, q, a.id);
      SendIsReasoned(c, Allow, true, busy);
    case Sending(_, _) =>
    case _ => LateIsReasoned(c, busy);
  }

  lemma LateIsReasoned(c: Closing, busy: set<string>)
    requires Reasoned(c, busy) && c.active.Some? && BeforeFlush(c.active.value.phase)
    requires Deadline(c.active.value).Some? && c.now >= Deadline(c.active.value).value
    ensures Reasoned(Send(c, Veto, false), busy)
  {
    var a := c.active.value;
    var p :| 0 <= p < |c.log| && c.log[p] == Arrived(a.id, a.timeout, a.since);
    assert IsLate(c.log[p], a.id, c.now);
    SendIsReasoned(c, Veto, false, busy);
  }

  lemma CallEndIsReasoned(c: Closing, ok: bool, busy: set<string>)
    requires Reasoned(c, busy) && c.active.Some? && c.active.value.phase.Sending?
    ensures Reasoned(CallEnded(c, ok), busy)
  {
    var a := c.active.value;
    var e := SendEnded(a.id, a.phase.decision, ok);
    LogIsReasoned(c, e, busy);
    if !ok && a.phase.again {
      JustHappened(c.log, e);
      assert IsFailure((c.log + [e])[|c.log|], a.id);
      SendIsReasoned(Logged(c, e), Veto, false, busy);
    }
  }

  lemma ContinuedIsReasoned(c: Closing, a: Action, busy: set<string>)
    requires Reasoned(c, busy) && Proved(c) && c.active.Some?
    ensures Reasoned(Continued(c, a), busy)
  {
    var id := c.active.value.id;
    match (a, c.active.value.phase)
    case (SettleEnds(vetoes, final), Settling) =>
      LogIsReasoned(c, Asked(id, vetoes, final), busy);
      PhaseIsReasoned(Logged(c, Asked(id, vetoes, final)), Asking(Unanswered(vetoes), final), busy);
    case (AnswerComes(i, answer), Asking(answers, final)) =>
      if i < |answers| {
        LogIsReasoned(c, Answered(id, i, answer), busy);
        PhaseIsReasoned(Logged(c, Answered(id, i, answer)), Asking(answers[i := Some(answer)], final), busy);
      }
    case (AnswersRead, Asking(_, _)) => AnswersReadIsReasoned(c, busy);
    case (LastAnswerComes(answer), AskingLast) => LastAnswerIsReasoned(c, answer, busy);
    case (FlushEnds(true), Flushing) => FlushIsReasoned(c, busy);
    case (FlushEnds(false), Flushing) => FailedFlushIsReasoned(c, busy);
    case (RegularSettle, JoiningRegular(_)) => RegularSettleIsReasoned(c, busy);
    case (LastSettle, JoiningLast(_, _)) => LastSettleIsReasoned(c, busy);
    case (TimerFires, _) =>
      if Deadline(c.active.value).Some? && c.now >= Deadline(c.active.value).value { TimerIsReasoned(c, busy); }
    case (SendEnds(ok), Sending(_, _)) => CallEndIsReasoned(c, ok, busy);
    case _ =>
  }

  // ----- requests that find another under way -----

  /** The requests that arrived while another was under way. */
  ghost function Busy(actions: seq<Action>): set<string> {
    if actions == [] then {}
    else
      var most, a := actions[..|actions| - 1], actions[|actions| - 1];
      Busy(most) + if a.Request? && Fresh(Run(most), a) && Run(most).active.Some? then {a.id} else {}
  }

  lemma RequestedIsReasoned(c: Closing, id: string, timeout: real, busy: set<string>)
    requires Reasoned(c, busy) && Fresh(c, Request(id, timeout))
    ensures Reasoned(Requested(c, id, timeout), busy + if c.active.Some? then {id} else {})
  {
    var all := busy + if c.active.Some? then {id} else {};
    var arrived := Arrived(id, timeout, c.now);
    assert Reasoned(c, all);
    LogIsReasoned(c, arrived, all);
    if c.active.Some? {
      var veto := Sent(id, Veto, c.now);
      OneMoreReasoned(c.log + [arrived], veto, all);
      OneMoreWaited(c.log + [arrived], veto);
      GroundsStay(c.log + [arrived], veto, c.now, c.active.value);
    } else {
      JustHappened(c.log, arrived);
    }
  }

  lemma {:induction false} RunIsReasoned(actions: seq<Action>)
    ensures Reasoned(Run(actions), Busy(actions))
  {
    if actions != [] {
      var most, a := actions[..|actions| - 1], actions[|actions| - 1];
      RunIsReasoned(most);
      RunIsProved(most);
      assert Reasoned(Run(most), Busy(most));
      if Fresh(Run(most), a) {
        match a
        case Request(id, timeout) => RequestedIsReasoned(Run(most), id, timeout, Busy(most));
        case Wait(time) =>
        case _ => if Run(most).active.Some? { ContinuedIsReasoned(Run(most), a, Busy(most)); }
      }
    }
  }

  /** In every run a veto is sent only to a request that found another under way, or after an objection,
      a failed flush or call, or when min(4000, t - 750) ms had passed since it came; and once storage
      had been flushed for it, only after an `allow` that could not be delivered. */
  lemma VetoHasReason(actions: seq<Action>, q: nat)
    requires q < |Run(actions).log| && Run(actions).log[q].Sent? && Run(actions).log[q].decision == Veto
    requires Run(actions).log[q].id !in Busy(actions)
    ensures var log := Run(actions).log; var id, at := log[q].id, log[q].at;
      if exists p :: 0 <= p < q && log[p].Flushed? && log[p].id == id && log[p].ok then
        exists p :: 0 <= p < q && log[p] == SendEnded(id, Allow, false)
      else exists p :: 0 <= p < q && (IsObjection(log[p], id) || IsFailure(log[p], id) || IsLate(log[p], id, at))
  {
    RunIsReasoned(actions);
  }

  /** In every run an `allow` comes after storage was flushed, and then after the regular and the last
      joiners had settled, one after the other, or at least 500 ms later. */
  lemma AllowWaitsForJoiners(actions: seq<Action>, p: nat)
    requires p < |Run(actions).log| && IsAllow(Run(actions).log[p])
    ensures var log := Run(actions).log; var id, at := log[p].id, log[p].at;
      exists q :: 0 <= q < p && log[q].Flushed? && log[q].id == id && log[q].ok
        && (at - log[q].at >= 500.0 || exists j, k :: q < j < k < p && log[j] == Joined(id, false) && log[k] == Joined(id, true))
  {
    RunIsReasoned(actions);
    var log := Run(actions).log;
    var q: nat :| q < p && WasFlushed(log[q], log[p].id) && (log[p].at - log[q].at >= 500.0 || BothJoined(log, q, p, log[p].id));
  }

  // ----- the listeners are asked late enough -----

  /** A request that holds the slot asks the listeners exactly if it has not done so yet and 100 ms have
      passed since it came. */
  lemma AskedAfterSettling(actions: seq<Action>, vetoes: nat, final: bool)
    requires Run(actions).active.Some?
    ensures var c := Run(actions); var a := c.active.value;
      && Happened(c.log, |c.log|, Arrived(a.id, a.timeout, a.since))
      && (Next(c, SettleEnds(vetoes, final)).log == c.log + [Asked(a.id, vetoes, final)] <==> a.phase == Settling && c.now - a.since >= 100.0)
  {
    RunIsReasoned(actions);
  }

  // ----- the shutdown reason -----

  ghost predicate LastDelivered(log: seq<Event>) {
    exists p :: 0 <= p < |log| && log[p].SendEnded? && log[p].decision == Allow && log[p].ok && forall j :: p < j < |log| ==> !log[j].SendEnded?
  }

  /** The reason for shutting down is set while a request is under way and has not been vetoed, and after
      the last call was an `allow` that was delivered. */
  ghost predicate ReasonKept(c: Closing) {
    if c.active.Some? then c.shuttingDown <==> !c.active.value.phase.Sending? || c.active.value.phase.decision == Allow
    else c.shuttingDown <==> LastDelivered(c.log)
  }

  lemma CallEndKeepsReason(c: Closing, ok: bool)
    requires ReasonKept(c) && c.active.Some? && c.active.value.phase.Sending?
    requires c.active.value.phase.decision == Allow ==> c.active.value.phase.again
    ensures ReasonKept(CallEnded(c, ok))
  {
    var a := c.active.value;
    var e := SendEnded(a.id, a.phase.decision, ok);
    assert (c.log + [e])[|c.log|] == e;
    assert LastDelivered(c.log + [e]) <==> a.phase.decision == Allow && ok;
  }

  lemma OtherwiseKeepsReason(c: Closing, a: Action)
    requires ReasonKept(c) && !a.SendEnds?
    ensures ReasonKept(Next(c, a))
  {
  }

  lemma {:induction false} ReasonInEveryRun(actions: seq<Action>)
    ensures ReasonKept(Run(actions))
  {
    if actions != [] {
      var most, a := actions[..|actions| - 1], actions[|actions| - 1];
      ReasonInEveryRun(most);
      RunIsRegular(most);
      if a.SendEnds? {
        if Run(most).active.Some? && Run(most).active.value.phase.Sending? {
          CallEndKeepsReason(Run(most), a.ok);
        }
      } else if Fresh(Run(most), a) {
        OtherwiseKeepsReason(Run(most), a);
      }
    }
  }

  // ----- an `allow` that cannot be delivered -----

  ghost predicate VetoFollows(log: seq<Event>, p: nat) {
    p + 1 < |log| && log[p + 1].Sent? && log[p + 1].decision == Veto && log[p + 1].id == log[p].id
  }

  ghost predicate FailedAllowsVetoed(log: seq<Event>) {
    forall p: nat :: p < |log| && log[p].SendEnded? && log[p].decision == Allow && !log[p].ok ==> VetoFollows(log, p)
  }

  lemma LongerLogVetoed(log: seq<Event>, after: seq<Event>)
    requires FailedAllowsVetoed(log) && log <= after
    requires forall p: nat :: |log| <= p < |after| && after[p].SendEnded? && after[p].decision == Allow && !after[p].ok ==> VetoFollows(after, p)
    ensures FailedAllowsVetoed(after)
  {
    forall p: nat | p < |log| && log[p].SendEnded? && log[p].decision == Allow && !log[p].ok ensures VetoFollows(after, p) {
      assert VetoFollows(log, p);
    }
  }

  lemma OtherwiseNoCallEnds(c: Closing, a: Action)
    requires !a.SendEnds?
    ensures c.log <= Next(c, a).log && forall p :: |c.log| <= p < |Next(c, a).log| ==> !Next(c, a).log[p].SendEnded?
  {
  }

  /** In every run it is followed at once by a veto. */
  lemma {:induction false} FailedAllowIsVetoed(actions: seq<Action>)
    ensures FailedAllowsVetoed(Run(actions).log)
  {
    if actions != [] {
      var most, a := actions[..|actions| - 1], actions[|actions| - 1];
      FailedAllowIsVetoed(most);
      RunIsRegular(most);
      if !a.SendEnds? && Fresh(Run(most), a) {
        OtherwiseNoCallEnds(Run(most), a);
      }
      LongerLogVetoed(Run(most).log, Run(actions).log);
    }
  }

  /** A decision that is delivered frees the slot for the next request; one that is not does so too, or is
      followed by a veto, whose end frees it however it ends. */
  lemma SlotIsFreed(c: Closing, ok: bool)
    requires c.active.Some? && c.active.value.phase.Sending?
    ensures Next(c, SendEnds(true)).active.None?
    ensures Next(c, SendEnds(false)).active.None? || Next(Next(c, SendEnds(false)), SendEnds(ok)).active.None?
  {
  }

  // ----- a close to which nobody objects -----

  ghost function After(c: Closing, actions: seq<Action>): Closing {
    if actions == [] then c else Next(After(c, actions[..|actions| - 1]), actions[|actions| - 1])
  }

  lemma AfterSnoc(c: Closing, actions: seq<Action>, a: Action)
    ensures After(c, actions + [a]) == Next(After(c, actions), a)
  {
    assert (actions + [a])[..|actions|] == actions;
  }

  /** Everybody is asked after 100 ms, and the first `n` have said to go on. */
  function AskedAndAnswered(id: string, timeout: real, vetoes: nat, final: bool, n: nat): seq<Action> {
    if n == 0 then [Request(id, timeout)] + [Wait(100.0)] + [SettleEnds(vetoes, final)]
    else AskedAndAnswered(id, timeout, vetoes, final, n - 1) + [AnswerComes(n - 1, Proceed)]
  }

  function Unopposed(id: string, timeout: real, vetoes: nat, final: bool): seq<Action> {
    AskedAndAnswered(id, timeout, vetoes, final, vetoes) + [AnswersRead] + (if final then [LastAnswerComes(Proceed)] else [])
    + [FlushEnds(true)] + [RegularSettle] + [LastSettle]
  }

  function FirstIn(vetoes: nat, n: nat): seq<Option<Answer>> {
    seq(vetoes, i requires 0 <= i < vetoes => if i < n then Some(Proceed) else None)
  }

  lemma AskedFirst(c: Closing, id: string, timeout: real, vetoes: nat, final: bool)
    requires c.active.None? && timeout >= 850.0
    ensures var after := After(c, AskedAndAnswered(id, timeout, vetoes, final, 0));
      after.active == Some(Active(id, timeout, c.now, Asking(Unanswered(vetoes), final))) && after.now == c.now + 100.0
  {
    var ask := [Request(id, timeout)];
    assert [] + ask == ask;
    AfterSnoc(c, [], Request(id, timeout));
    AfterSnoc(c, ask, Wait(100.0));
    AfterSnoc(c, ask + [Wait(100.0)], SettleEnds(vetoes, final));
  }

  lemma {:induction false} AnswersComeIn(c: Closing, id: string, timeout: real, vetoes: nat, final: bool, n: nat)
    requires c.active.None? && timeout >= 850.0 && n <= vetoes
    ensures var after := After(c, AskedAndAnswered(id, timeout, vetoes, final, n));
      after.active == Some(Active(id, timeout, c.now, Asking(FirstIn(vetoes, n), final))) && after.now == c.now + 100.0
  {
    if n == 0 {
      AskedFirst(c, id, timeout, vetoes, final);
      assert FirstIn(vetoes, 0) == Unanswered(vetoes);
    } else {
      AnswersComeIn(c, id, timeout, vetoes, final, n - 1);
      AfterSnoc(c, AskedAndAnswered(id, timeout, vetoes, final, n - 1), AnswerComes(n - 1, Proceed));
      OneComesIn(After(c, AskedAndAnswered(id, timeout, vetoes, final, n - 1)), vetoes, final, n);
    }
  }

  lemma OneComesIn(c: Closing, vetoes: nat, final: bool, n: nat)
    requires 0 < n <= vetoes && c.active.Some? && c.active.value.phase == Asking(FirstIn(vetoes, n - 1), final)
    ensures var after := Next(c, AnswerComes(n - 1, Proceed));
      after.active == Some(c.active.value.(phase := Asking(FirstIn(vetoes, n), final))) && after.now == c.now
  {
    assert FirstIn(vetoes, n - 1)[n - 1 := Some(Proceed)] == FirstIn(vetoes, n);
  }

  lemma GoesOnToFlush(c: Closing, id: string, timeout: real, vetoes: nat, final: bool)
    requires c.active.None? && timeout >= 850.0
    ensures var after := After(c, AskedAndAnswered(id, timeout, vetoes, final, vetoes) + [AnswersRead] + if final then [LastAnswerComes(Proceed)] else []);
      after.active == Some(Active(id, timeout, c.now, Flushing)) && after.now == c.now + 100.0
  {
    var answered := AskedAndAnswered(id, timeout, vetoes, final, vetoes);
    AnswersComeIn(c, id, timeout, vetoes, final, vetoes);
    AfterSnoc(c, answered, AnswersRead);
    assert AllProceed(FirstIn(vetoes, vetoes)) && AllIn(FirstIn(vetoes, vetoes));
    if final {
      AfterSnoc(c, answered + [AnswersRead], LastAnswerComes(Proceed));
    } else {
      assert answered + [AnswersRead] + [] == answered + [AnswersRead];
    }
  }

  /** However many listeners there are, and with or without a final veto: if all of them say to go on, the
      flush succeeds and the joiners settle, the request is sent an `allow`. */
  lemma UnopposedIsAllowed(c: Closing, id: string, timeout: real, vetoes: nat, final: bool)
    requires c.active.None? && timeout >= 850.0
    ensures var after := After(c, Unopposed(id, timeout, vetoes, final));
      after.log != [] && after.log[|after.log| - 1] == Sent(id, Allow, c.now + 100.0)
  {
    var ready := AskedAndAnswered(id, timeout, vetoes, final, vetoes) + [AnswersRead] + if final then [LastAnswerComes(Proceed)] else [];
    GoesOnToFlush(c, id, timeout, vetoes, final);
    AfterSnoc(c, ready, FlushEnds(true));
    AfterSnoc(c, ready + [FlushEnds(true)], RegularSettle);
    AfterSnoc(c, ready + [FlushEnds(true)] + [RegularSettle], LastSettle);
    JoinsAndAllows(After(c, ready));
  }

  lemma JoinsAndAllows(c: Closing)
    requires c.active.Some? && c.active.value.phase == Flushing
    ensures var after := Next(Next(Next(c, FlushEnds(true)), RegularSettle), LastSettle);
      after.log != [] && after.log[|after.log| - 1] == Sent(c.active.value.id, Allow, c.now)
  {
    var joining := Next(c, FlushEnds(true));
    assert joining.active == Some(c.active.value.(phase := JoiningRegular(c.now))) && joining.now == c.now;
    var last := Next(joining, RegularSettle);
    assert last.active.Some? && last.active.value.id == c.active.value.id && last.active.value.phase.JoiningLast? && last.now == c.now;
  }
}
