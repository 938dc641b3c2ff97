/** Closing the window: listeners may veto, storage is flushed, joiners get a moment, and the native
    side, which waits only so long, is told to go on or not. */
module Lifecycle {
  import opened Options

  const BeforeAndStorageBudget: real := 4000.0
  const WillShutdownBudget: real := 500.0
  const InputSettle: real := 100.0

  datatype Decision = Allow | Veto

  /** A listener's answer: go on, object, or a failure, which counts as an objection. */
  datatype Answer = Proceed | Object | Fail

  datatype Phase =
    | Settling
    | Asking(answers: seq<Option<Answer>>, final: bool)
    | AskingLast
    | Flushing
    | JoiningRegular(start: real)
    | JoiningLast(start: real, end: real)
    | Sending(decision: Decision, again: bool)   // `again`: if this call fails, a veto is sent

  datatype Active = Active(id: string, timeout: real, since: real, phase: Phase)

  /** What has happened, in order. */
  datatype Event =
    | Arrived(id: string, timeout: real, at: real)
    | Asked(id: string, vetoes: nat, final: bool)
    | Answered(id: string, index: nat, answer: Answer)
    | LastAnswered(id: string, answer: Answer)
    | Flushed(id: string, ok: bool, at: real)
    | Joined(id: string, last: bool)
    | Sent(id: string, decision: Decision, at: real)
    | SendEnded(id: string, decision: Decision, ok: bool)

  datatype Closing = Closing(now: real, active: Option<Active>, shuttingDown: bool, log: seq<Event>)

  function Min(a: real, b: real): real {
    if a <= b then a else b
  }

  function Max(a: real, b: real): real {
    if a <= b then b else a
  }

  /** A timer never fires before it is set. */
  function PrepareBudget(timeout: real): real {
    Max(0.0, Min(BeforeAndStorageBudget, timeout - 750.0))
  }

  /** When the timer of the current phase fires; sending has none. */
  function Deadline(a: Active): Option<real> {
    match a.phase
    case JoiningRegular(start) => Some(start + WillShutdownBudget)
    case JoiningLast(_, end) => Some(end)
    case Sending(_, _) => None
    case _ => Some(a.since + PrepareBudget(a.timeout))
  }

  // ----- the steps -----

  function Logged(c: Closing, e: Event): Closing {
    c.(log := c.log + [e])
  }

  function InPhase(c: Closing, phase: Phase): Closing
    requires c.active.Some?
  {
    c.(active := Some(c.active.value.(phase := phase)))
  }

  function Send(c: Closing, decision: Decision, again: bool): Closing
    requires c.active.Some?
  {
    InPhase(Logged(c, Sent(c.active.value.id, decision, c.now)), Sending(decision, again)).(
      shuttingDown := c.shuttingDown && decision == Allow)
  }

  predicate AllIn(answers: seq<Option<Answer>>) {
    forall i :: 0 <= i < |answers| ==> answers[i].Some?
  }

  predicate AllProceed(answers: seq<Option<Answer>>) {
    forall i :: 0 <= i < |answers| ==> answers[i] == Some(Proceed)
  }

  datatype Action =
    | Request(id: string, timeout: real)
    | Wait(time: real)
    | SettleEnds(vetoes: nat, final: bool)
    | AnswerComes(index: nat, answer: Answer)
    | AnswersRead
    | LastAnswerComes(answer: Answer)
    | FlushEnds(ok: bool)
    | RegularSettle
    | LastSettle
    | TimerFires
    | SendEnds(ok: bool)

  /** Nothing waits past its timer. */
  predicate MayWait(c: Closing, time: real) {
    && time >= 0.0
    && (c.active.Some? && Deadline(c.active.value).Some? ==> c.now + time <= Deadline(c.active.value).value)
  }

  function RemainingJoin(c: Closing, start: real): real {
    Max(1.0, WillShutdownBudget - (c.now - start))
  }

  function Unanswered(vetoes: nat): seq<Option<Answer>> {
    seq(vetoes, i requires 0 <= i < vetoes => None)
  }

  function Requested(c: Closing, id: string, timeout: real): Closing {
    var c := Logged(c, Arrived(id, timeout, c.now));
    if c.active.Some? then Logged(c, Sent(id, Veto, c.now))
    else c.(active := Some(Active(id, timeout, c.now, Settling)), shuttingDown := true)
  }

  /** The answers are looked at once all are in, then the final veto is asked, if there is one. */
  function AnswersReadIn(c: Closing): Closing
    requires c.active.Some? && c.active.value.phase.Asking?
  {
    var phase := c.active.value.phase;
    if !AllIn(phase.answers) then c
    else if !AllProceed(phase.answers) then Send(c, Veto, true)
    else if phase.final then InPhase(c, AskingLast)
    else InPhase(c, Flushing)
  }

  /** A timer that fires while preparing sends a veto; while joining it only ends the waiting. */
  function TimerFired(c: Closing): Closing
    requires c.active.Some?
  {
    match c.active.value.phase
    case JoiningRegular(_) => Send(c, Allow, true)
    case JoiningLast(_, _) => Send(c, Allow, true)
    case Sending(_, _) => c
    case _ => Send(c, Veto, false)
  }

  function CallEnded(c: Closing, ok: bool): Closing
    requires c.active.Some? && c.active.value.phase.Sending?
  {
    var phase := c.active.value.phase;
    var c := Logged(c, SendEnded(c.active.value.id, phase.decision, ok));
    if !ok && phase.again then Send(c, Veto, false) else c.(active := None)
  }

  function Next(c: Closing, a: Action): Closing {
    match a
    case Request(id, timeout) => Requested(c, id, timeout)
    case Wait(time) => if MayWait(c, time) then c.(now := c.now + time) else c
    case _ => if c.active.None? then c else Continued(c, a)
  }

  function Continued(c: Closing, a: Action): Closing
    requires c.active.Some?
  {
    var active := c.active.value;
    match (a, active.phase)
    case (SettleEnds(vetoes, final), Settling) =>
      if c.now < active.since + InputSettle then c
      else InPhase(Logged(c, Asked(active.id, vetoes, final)), Asking(Unanswered(vetoes), final))
    case (AnswerComes(i, answer), Asking(answers, final)) =>
      if i < |answers| && answers[i].None? then
        InPhase(Logged(c, Answered(active.id, i, answer)), Asking(answers[i := Some(answer)], final))
      else c
    case (AnswersRead, Asking(_, _)) => AnswersReadIn(c)
    case (LastAnswerComes(answer), AskingLast) =>
      var c := Logged(c, LastAnswered(active.id, answer));
      if answer == Proceed then InPhase(c, Flushing) else Send(c, Veto, true)
    case (FlushEnds(ok), Flushing) =>
      var c := Logged(c, Flushed(active.id, ok, c.now));
      if ok then InPhase(c, JoiningRegular(c.now)) else Send(c, Veto, false)
    case (RegularSettle, JoiningRegular(start)) =>
      InPhase(Logged(c, Joined(active.id, false)), JoiningLast(start, c.now + RemainingJoin(c, start)))
    case (LastSettle, JoiningLast(_, _)) => Send(Logged(c, Joined(active.id, true)), Allow, true)
    case (TimerFires, _) =>
      if Deadline(active).Some? && c.now >= Deadline(active).value then TimerFired(c) else c
    case (SendEnds(ok), Sending(_, _)) => CallEnded(c, ok)
    case _ => c
  }

  const Initial := Closing(0.0, None, false, [])

  /** No request id comes twice. */
  predicate Fresh(c: Closing, a: Action) {
    a.Request? ==> forall p :: 0 <= p < |c.log| ==> c.log[p].id != a.id
  }

  function Run(actions: seq<Action>): Closing {
    if actions == [] then Initial
    else
      var c, a := Run(actions[..|actions| - 1]), actions[|actions| - 1];
      if Fresh(c, a) then Next(c, a) else c
  }

  // ----- the service -----

  class PlainLifecycleService {
    var active: Option<Active>
    var shuttingDown: bool
    ghost var now: real
    ghost var log: seq<Event>

    ghost function State(): Closing
      reads this
    {
      Closing(now, active, shuttingDown, log)
    }

    constructor ()
      ensures State() == Initial
    {
      active, shuttingDown, now, log := None, false, 0.0, [];
    }

    method OnNativeCloseRequest(id: string, timeout: real, time: real)
      requires time == now
      modifies this
      ensures State() == Requested(old(State()), id, timeout)
      ensures active == if old(active).Some? then old(active) else Some(Active(id, timeout, time, Settling))
    {
      log := log + [Arrived(id, timeout, now)];
      if active.Some? {
        log := log + [Sent(id, Veto, now)];
        return;
      }
      active := Some(Active(id, timeout, time, Settling));
      shuttingDown := true;
    }

    /** Tells the native side; the call's end comes later. */
    method Complete(decision: Decision, again: bool)
      requires active.Some?
      modifies this
      ensures State() == Send(old(State()), decision, again)
    {
      if decision == Veto {
        shuttingDown := false;
      }
      log := log + [Sent(active.value.id, decision, now)];
      active := Some(active.value.(phase := Sending(decision, again)));
    }

    /** All the veto answers are in. */
    method OnVetoesSettled()
      requires active.Some? && active.value.phase.Asking? && AllIn(active.value.phase.answers)
      modifies this
      ensures State() == AnswersReadIn(old(State()))
    {
      var answers := active.value.phase.answers;
      var results := seq(|answers|, i requires 0 <= i < |answers| => answers[i].value);
      var veto := AnyVeto(results);
      assert veto <==> exists i :: 0 <= i < |answers| && answers[i] != Some(Proceed) by {
        assert forall i :: 0 <= i < |answers| ==> (results[i] != Proceed <==> answers[i] != Some(Proceed));
      }
      if veto {
        Complete(Veto, true);
      } else if active.value.phase.final {
        active := Some(active.value.(phase := AskingLast));
      } else {
        active := Some(active.value.(phase := Flushing));
      }
    }

    method OnFinalVeto(answer: Answer)
      requires active.Some? && active.value.phase == AskingLast
      modifies this
      ensures State() == Next(old(State()), LastAnswerComes(answer))
    {
      log := log + [LastAnswered(active.value.id, answer)];
      if answer == Proceed {
        active := Some(active.value.(phase := Flushing));
      } else {
        Complete(Veto, true);
      }
    }

    method OnFlushed(ok: bool, time: real)
      requires active.Some? && active.value.phase == Flushing && time == now
      modifies this
      ensures State() == Next(old(State()), FlushEnds(ok))
      ensures active.Some? && active.value.phase == if ok then JoiningRegular(time) else Sending(Veto, false)
      ensures log == old(log) + [Flushed(active.value.id, ok, now)] + if ok then [] else [Sent(active.value.id, Veto, now)]
    {
      log := log + [Flushed(active.value.id, ok, now)];
      if ok {
        active := Some(active.value.(phase := JoiningRegular(time)));
      } else {
        Complete(Veto, false);
      }
    }

    method OnRegularJoined(time: real)
      requires active.Some? && active.value.phase.JoiningRegular? && time == now
      modifies this
      ensures State() == Next(old(State()), RegularSettle)
    {
      log := log + [Joined(active.value.id, false)];
      var start := active.value.phase.start;
      var left := WillShutdownBudget - (time - start);
      var remaining := if left > 1.0 then left else 1.0;
      active := Some(active.value.(phase := JoiningLast(start, time + remaining)));
    }

    method OnLastJoined()
      requires active.Some? && active.value.phase.JoiningLast?
      modifies this
      ensures State() == Next(old(State()), LastSettle)
    {
      log := log + [Joined(active.value.id, true)];
      Complete(Allow, true);
    }

    method OnTimer()
      requires active.Some?
      modifies this
      ensures State() == TimerFired(old(State()))
    {
      match active.value.phase {
        case JoiningRegular(_) => Complete(Allow, true);
        case JoiningLast(_, _) => Complete(Allow, true);
        case Sending(_, _) =>
        case _ => Complete(Veto, false);
      }
    }

    method OnCompleted(ok: bool)
      requires active.Some? && active.value.phase.Sending?
      modifies this
      ensures State() == CallEnded(old(State()), ok)
      ensures active.None? <==> ok || !old(active).value.phase.again
    {
      var phase := active.value.phase;
      log := log + [SendEnded(active.value.id, phase.decision, ok)];
      if !ok && phase.again {
        Complete(Veto, false);
        return;
      }
      active := None;
    }
  }

  /** Every failure counts as an objection. */
  method AnyVeto(results: seq<Answer>) returns (veto: bool)
    ensures veto <==> exists i :: 0 <= i < |results| && results[i] != Proceed
  {
    for i := 0 to |results|
      invariant forall j :: 0 <= j < i ==> results[j] == Proceed
    {
      if results[i] == Fail {
        return true;
      }
      if results[i] == Object {
        return true;
      }
    }
    return false;
  }
}
