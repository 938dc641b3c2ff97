/** What the start-up window keeps, and what replaying it amounts to. */
module DebugReplay {
  import opened Options
  import opened Breakpoints
  import opened DebugSession
  import opened DebugRuns

  /** The last events of a list, as many as the window holds. */
  function Latest(events: seq<Event>): seq<Event> {
    if |events| <= 256 then events else events[|events| - 256..]
  }

  /** While no session is live, arriving events change the window only, and it keeps the latest. */
  lemma {:induction false} WindowKeepsLatest(c: Controller, events: seq<Event>)
    requires c.live == None && c.pending == Some([])
    ensures HandledAll(c, events) == c.(pending := Some(Latest(events)))
  {
    if events != [] {
      var most := events[..|events| - 1];
      WindowKeepsLatest(c, most);
      KeptIsLatest(most, events[|events| - 1]);
      assert most + [events[|events| - 1]] == events;
    }
  }

  /** The events of one session, in order, up to and including the first that ends it. */
  function OwnUpToEnd(sessionId: string, events: seq<Event>): seq<Event> {
    if events == [] then []
    else
      var before, last := OwnUpToEnd(sessionId, events[..|events| - 1]), events[|events| - 1];
      if Over(before) || last.sessionId != sessionId then before else before + [last]
  }

  predicate Over(own: seq<Event>) {
    own != [] && Ends(own[|own| - 1].content)
  }

  /** The thread fields after some events. */
  function MovedAll(l: Live, own: seq<Event>): Live {
    if own == [] then l else Moved(MovedAll(l, own[..|own| - 1]), own[|own| - 1].content)
  }

  /** What a live session's events do, stated without reference to the order of any other event:
      the listeners hear the session's own events up to its end; they move the thread fields; the
      end clears the session and its verdicts, and asks the adapter to disconnect only if it was a
      `terminated` event. */
  function Outcome(c: Controller, l: Live, own: seq<Event>): Controller {
    if !Over(own) then c.(live := Some(MovedAll(l, own)), heard := c.heard + own)
    else
      c.(live := None, heard := c.heard + own, store := Unverified(c.store),
         calls := if own[|own| - 1].content.Terminated? then c.calls + [Disconnect(l.sessionId)] else c.calls)
  }

  lemma {:induction false} MovedAllSameSession(l: Live, own: seq<Event>)
    ensures MovedAll(l, own).sessionId == l.sessionId && MovedAll(l, own).rootId == l.rootId
  {
    if own != [] {
      MovedAllSameSession(l, own[..|own| - 1]);
    }
  }

  lemma OutcomeStep(c: Controller, l: Live, own: seq<Event>, e: Event)
    requires c.live == Some(l) && c.pending == None && !Over(own) && e.sessionId == l.sessionId
    ensures Handled(Outcome(c, l, own), e) == Outcome(c, l, own + [e])
  {
    MovedAllSameSession(l, own);
    assert (own + [e])[..|own|] == own;
    assert c.heard + own + [e] == c.heard + (own + [e]);
  }

  lemma OutcomeStays(c: Controller, l: Live, own: seq<Event>, e: Event)
    requires c.live == Some(l) && c.pending == None && (Over(own) || e.sessionId != l.sessionId)
    ensures Handled(Outcome(c, l, own), e) == Outcome(c, l, own)
  {
    MovedAllSameSession(l, own);
  }

  /** However events of other sessions are mixed in, and whatever follows the end. */
  lemma {:induction false} OnlyOwnEventsMatter(c: Controller, l: Live, events: seq<Event>)
    requires c.live == Some(l) && c.pending == None
    ensures HandledAll(c, events) == Outcome(c, l, OwnUpToEnd(l.sessionId, events))
  {
    if events == [] {
      assert c.heard + [] == c.heard;
    } else {
      var most, last := events[..|events| - 1], events[|events| - 1];
      OnlyOwnEventsMatter(c, l, most);
      var own := OwnUpToEnd(l.sessionId, most);
      if Over(own) || last.sessionId != l.sessionId {
        OutcomeStays(c, l, own, last);
      } else {
        OutcomeStep(c, l, own, last);
      }
    }
  }

  /** A whole start from no live session: the window's events are treated as if they had reached the
      new session live, and breakpoints are pushed only if none of them ended it. */
  lemma StartReplaysWindow(c: Controller, events: seq<Event>, sessionId: string, rootId: string, paths: seq<Location>)
    requires c.live == None && c.pending == Some([])
    ensures Launched(HandledAll(c, events), sessionId, rootId, paths)
         == PushedAll(Outcome(Opened(c, sessionId, rootId), Live(sessionId, rootId, None, None),
                              OwnUpToEnd(sessionId, Latest(events))), rootId, paths)
  {
    WindowKeepsLatest(c, events);
    var before := Opened(HandledAll(c, events), sessionId, rootId);
    assert before == Opened(c, sessionId, rootId);
    OnlyOwnEventsMatter(before, Live(sessionId, rootId, None, None), Latest(events));
  }

  // ----- the two thread fields -----

  /** The session stops, in thread `t` if that is said, at event `i`, and is not stopped anew or continued since. */
  ghost predicate StoppedSince(own: seq<Event>, i: nat, thread: Option<int>) {
    && i < |own| && own[i].content == Stopped(thread)
    && forall j :: i < j < |own| ==> !own[j].content.Stopped? && !own[j].content.Continued?
  }

  ghost predicate NeverMoved(own: seq<Event>) {
    forall j :: 0 <= j < |own| ==> !own[j].content.Stopped? && !own[j].content.Continued?
  }

  /** A thread is taken for stopped exactly if the latest of the stops and continuations names it. */
  lemma {:induction false} StoppedThreadExactly(l: Live, own: seq<Event>, t: int)
    ensures MovedAll(l, own).stopped == Some(t) <==>
      (exists i: nat :: StoppedSince(own, i, Some(t))) || (l.stopped == Some(t) && NeverMoved(own))
  {
    if own != [] {
      var n := |own| - 1;
      StoppedThreadExactly(l, own[..n], t);
      forall i: nat ensures i < n ==> (StoppedSince(own, i, Some(t)) <==>
        StoppedSince(own[..n], i, Some(t)) && !own[n].content.Stopped? && !own[n].content.Continued?)
      {
        if i < n && StoppedSince(own, i, Some(t)) {
          assert forall j :: i < j < n ==> own[..n][j] == own[j];
        }
      }
      LastMoves(l, own, t);
    }
  }

  lemma LastMoves(l: Live, own: seq<Event>, t: int)
    requires own != []
    ensures var n, last := |own| - 1, own[|own| - 1].content;
      && (last == Stopped(Some(t)) <==> StoppedSince(own, n, Some(t)))
      && (NeverMoved(own) <==> NeverMoved(own[..n]) && !last.Stopped? && !last.Continued?)
      && MovedAll(l, own).stopped
         == if last.Stopped? then last.thread else if last.Continued? then None else MovedAll(l, own[..n]).stopped
  {
  }

  /** The event names a thread that is there: one that stopped, or one that started. */
  predicate Shows(content: Content, t: int) {
    content == Stopped(Some(t)) || content == Thread(Started, Some(t))
  }

  /** Event `i` shows thread `t`, no later one shows any other, and none says that it exited. */
  ghost predicate KnownSince(own: seq<Event>, i: nat, t: int) {
    && i < |own| && Shows(own[i].content, t)
    && forall j :: i < j < |own| ==> Keeps(own[j].content, t)
  }

  /** It shows no other thread and does not say that `t` exited. */
  predicate Keeps(content: Content, t: int) {
    match content
    case Stopped(Some(u)) => u == t
    case Thread(Started, Some(u)) => u == t
    case Thread(Exited, Some(u)) => u != t
    case _ => true
  }

  ghost predicate AllKeep(own: seq<Event>, t: int) {
    forall j :: 0 <= j < |own| ==> Keeps(own[j].content, t)
  }

  /** The last thread known is `t` exactly if it was the last to be shown and has not exited since. */
  lemma {:induction false} KnownThreadExactly(l: Live, own: seq<Event>, t: int)
    ensures MovedAll(l, own).lastKnown == Some(t) <==>
      (exists i: nat :: KnownSince(own, i, t)) || (l.lastKnown == Some(t) && AllKeep(own, t))
  {
    if own != [] {
      var n := |own| - 1;
      KnownThreadExactly(l, own[..n], t);
      forall i: nat ensures i < n ==> (KnownSince(own, i, t) <==> KnownSince(own[..n], i, t) && Keeps(own[n].content, t)) {
        if i < n && KnownSince(own, i, t) {
          assert forall j :: i < j < n ==> own[..n][j] == own[j];
        }
      }
      LastIsKnown(l, own, t);
    }
  }

  lemma LastIsKnown(l: Live, own: seq<Event>, t: int)
    requires own != []
    ensures var n, last := |own| - 1, own[|own| - 1].content;
      && (Shows(last, t) <==> KnownSince(own, n, t))
      && (AllKeep(own, t) <==> AllKeep(own[..n], t) && Keeps(last, t))
      && (MovedAll(l, own).lastKnown == Some(t) <==> Shows(last, t) || (MovedAll(l, own[..n]).lastKnown == Some(t) && Keeps(last, t)))
  {
    var n, last := |own| - 1, own[|own| - 1].content;
    ShownIsKnown(MovedAll(l, own[..n]), last, t);
  }

  lemma ShownIsKnown(l: Live, content: Content, t: int)
    ensures Moved(l, content).lastKnown == Some(t) <==> Shows(content, t) || (l.lastKnown == Some(t) && Keeps(content, t))
  {
  }

  // ----- the end of a session -----

  /** A live session ends exactly if the user disconnects it or its own adapter says that it is over. The
      adapter is then asked to disconnect, unless it said that the session had ended; every verdict goes
      and every mark stays. */
  lemma SessionEndsExactly(s: System, a: Action)
    requires Sessions(s) && s.ctl.live.Some?
    ensures var id, after := s.ctl.live.value.sessionId, Step(s, a).ctl;
      && (after.live.None? <==>
            a.CallDisconnect? || (a.Arrive? && a.event.sessionId == id && (a.event.content.Terminated? || a.event.content.SessionEnded?)))
      && (after.live.None? ==>
            && after.calls == s.ctl.calls + (if a.Arrive? && a.event.content.SessionEnded? then [] else [Disconnect(id)])
            && after.store.verification == map[] && after.store.descriptors == s.ctl.store.descriptors)
  {
  }

  // ----- starts within a run -----

  /** The events that have arrived since a start was last called. */
  ghost function SinceStart(actions: seq<Action>): seq<Event> {
    if actions == [] then []
    else
      var most, a := actions[..|actions| - 1], actions[|actions| - 1];
      match a
      case CallStart(_) => if Enabled(Run(most), a) then [] else SinceStart(most)
      case Arrive(e) => SinceStart(most) + [e]
      case _ => SinceStart(most)
  }

  lemma KeptIsLatest(events: seq<Event>, e: Event)
    ensures Kept(Latest(events), e) == Latest(events + [e])
  {
  }

  lemma StepKeepsWindow(s: System, a: Action, events: seq<Event>)
    requires Sessions(s) && s.ctl.pending == Some(Latest(events)) && !a.CallStart? && Step(s, a).ctl.pending.Some?
    ensures Step(s, a).ctl.pending == Some(Latest(if a.Arrive? then events + [a.event] else events))
  {
    match a
    case Arrive(e) => KeptIsLatest(events, e);
    case ReturnStart(id, paths) => if Enabled(s, a) { ReplayEndsWindow(Opened(s.ctl, id, s.starting.value), Window(s.ctl)); }
    case _ =>
  }

  lemma {:induction false} ReplayEndsWindow(c: Controller, events: seq<Event>)
    requires c.pending.None?
    ensures HandledAll(c, events).pending.None?
  {
    if events != [] {
      ReplayEndsWindow(c, events[..|events| - 1]);
    }
  }

  lemma OnlyStartOpensWindow(s: System, a: Action)
    requires s.ctl.pending.None? && Step(s, a).ctl.pending.Some?
    ensures a.CallStart? && Enabled(s, a)
  {
    if a.ReturnStart? && Enabled(s, a) {
      ReplayEndsWindow(Opened(s.ctl, a.sessionId, s.starting.value), Window(s.ctl));
    }
  }

  /** In every run, whatever edits and answers come in between: the window of a start under way is the
      latest of the events that have arrived since it was called. */
  lemma {:induction false} WindowInEveryRun(actions: seq<Action>)
    requires Run(actions).ctl.pending.Some?
    ensures Run(actions).ctl.pending == Some(Latest(SinceStart(actions)))
  {
    if actions != [] {
      var most, a := actions[..|actions| - 1], actions[|actions| - 1];
      RunKeeps(most);
      if Run(most).ctl.pending.None? {
        OnlyStartOpensWindow(Run(most), a);
      } else {
        WindowInEveryRun(most);
        if !a.CallStart? {
          StepKeepsWindow(Run(most), a, SinceStart(most));
        }
      }
    }
  }

  /** So in every run a start that returns has the outcome of those events, and then pushes. */
  lemma StartInEveryRun(actions: seq<Action>, sessionId: string, paths: seq<Location>)
    requires Enabled(Run(actions), ReturnStart(sessionId, paths))
    ensures var s := Run(actions); var rootId := s.starting.value;
      Step(s, ReturnStart(sessionId, paths)).ctl
      == PushedAll(Outcome(Opened(s.ctl, sessionId, rootId), Live(sessionId, rootId, None, None),
                           OwnUpToEnd(sessionId, Latest(SinceStart(actions)))), rootId, paths)
  {
    RunKeeps(actions);
    WindowInEveryRun(actions);
    var s := Run(actions);
    OnlyOwnEventsMatter(Opened(s.ctl, sessionId, s.starting.value), Live(sessionId, s.starting.value, None, None), Window(s.ctl));
  }

  /** Events of another session are dropped before the replay, but they do take room in the window:
      enough of them push out an event of the session being started. */
  lemma ForeignEventsPushOutOwn(c: Controller, noise: seq<Event>, foreign: string, sessionId: string, rootId: string)
    requires c.live == None && c.pending == Some([]) && foreign != sessionId
    requires |noise| == 256 && forall e :: e in noise ==> e.sessionId == foreign
    ensures var stop := [Event(sessionId, Stopped(Some(1)))];
            && Launched(HandledAll(c, stop), sessionId, rootId, []).live == Some(Live(sessionId, rootId, Some(1), Some(1)))
            && Launched(HandledAll(c, stop + noise), sessionId, rootId, []).live == Some(Live(sessionId, rootId, None, None))
  {
    var stop := [Event(sessionId, Stopped(Some(1)))];
    StartReplaysWindow(c, stop, sessionId, rootId, []);
    StartReplaysWindow(c, stop + noise, sessionId, rootId, []);
    StopIsOwn(sessionId);
    assert Latest(stop + noise) == noise;
    NoneOwn(sessionId, noise);
  }

  lemma StopIsOwn(sessionId: string)
    ensures var stop := [Event(sessionId, Stopped(Some(1)))]; OwnUpToEnd(sessionId, stop) == stop
  {
    assert OwnUpToEnd(sessionId, []) == [];
  }

  lemma {:induction false} NoneOwn(sessionId: string, events: seq<Event>)
    requires forall e :: e in events ==> e.sessionId != sessionId
    ensures OwnUpToEnd(sessionId, events) == []
  {
    if events != [] {
      assert events[|events| - 1] in events;
      NoneOwn(sessionId, events[..|events| - 1]);
    }
  }
}
