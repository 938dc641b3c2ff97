/** The debug session controller: one client of a debug adapter, whose requests, answers and events
    interleave with the user's breakpoint edits. Every function here is one step that the program
    takes without suspending. */
module DebugSession {
  import opened Options
  import opened Breakpoints

  datatype Reason = Started | Exited | OtherReason

  /** What an adapter event says, with the thread its body names, if it names one. */
  datatype Content =
    | Stopped(thread: Option<int>)
    | Continued
    | Thread(reason: Reason, thread: Option<int>)
    | Terminated
    | SessionEnded
    | Other(name: string)

  datatype Event = Event(sessionId: string, content: Content)

  datatype Live = Live(sessionId: string, rootId: string, stopped: Option<int>, lastKnown: Option<int>)

  /** What has been asked of the adapter. */
  datatype Call =
    | SetBreakpoints(sessionId: string, at: Location, entries: seq<Descriptor>)
    | Disconnect(sessionId: string)

  datatype Reply = Failed | Replied(results: seq<Verdict>)

  /** `pending` holds the events of a start that has not returned; `calls` and `heard` are the
      requests sent and the events passed on to the listeners so far. */
  datatype Controller = Controller(live: Option<Live>, pending: Option<seq<Event>>, store: Store,
                                   calls: seq<Call>, heard: seq<Event>)

  const PendingLimit := 256

  // ----- the steps -----

  function Kept(pending: seq<Event>, e: Event): seq<Event> {
    (if |pending| == PendingLimit then pending[1..] else pending) + [e]
  }

  predicate Ends(content: Content) {
    content.Terminated? || content.SessionEnded?
  }

  /** How an event that does not end the session moves the two thread fields. */
  function Moved(l: Live, content: Content): Live {
    match content
    case Stopped(thread) => l.(stopped := thread, lastKnown := if thread.Some? then thread else l.lastKnown)
    case Continued => l.(stopped := None)
    case Thread(Started, Some(thread)) => l.(lastKnown := Some(thread))
    case Thread(Exited, Some(thread)) => l.(lastKnown := if l.lastKnown == Some(thread) then None else l.lastKnown)
    case _ => l
  }

  function Closed(c: Controller): Controller {
    c.(live := None, store := Unverified(c.store))
  }

  function Disconnected(c: Controller): Controller {
    match c.live
    case None => c
    case Some(l) => Closed(c).(calls := c.calls + [Disconnect(l.sessionId)])
  }

  function Handled(c: Controller, e: Event): Controller {
    match c.live
    case None => if c.pending.Some? then c.(pending := Some(Kept(c.pending.value, e))) else c
    case Some(l) =>
      if e.sessionId != l.sessionId then c
      else
        var c := c.(heard := c.heard + [e]);
        match e.content
        case Terminated => Disconnected(c)
        case SessionEnded => Closed(c)
        case _ => c.(live := Some(Moved(l, e.content)))
  }

  function HandledAll(c: Controller, events: seq<Event>): Controller {
    if events == [] then c
    else Handled(HandledAll(c, events[..|events| - 1]), events[|events| - 1])
  }

  function Request(c: Controller, sessionId: string, at: Location): Call {
    SetBreakpoints(sessionId, at, Listed(c.store.Placed(at)))
  }

  function Pushed(c: Controller, at: Location): Controller {
    if c.live.Some? && c.live.value.rootId == at.rootId then
      c.(calls := c.calls + [Request(c, c.live.value.sessionId, at)])
    else c
  }

  function Requests(c: Controller, sessionId: string, paths: seq<Location>): seq<Call> {
    seq(|paths|, i requires 0 <= i < |paths| => Request(c, sessionId, paths[i]))
  }

  function PushedAll(c: Controller, rootId: string, paths: seq<Location>): Controller {
    if c.live.Some? && c.live.value.rootId == rootId then
      c.(calls := c.calls + Requests(c, c.live.value.sessionId, paths))
    else c
  }

  /** An edit of the store, and the push it causes. */
  function Changed(c: Controller, at: Location, e: Edit): Controller {
    var changed := c.(store := Edited(c.store, at, e));
    if Announced(c.store, at, e) then Pushed(changed, at) else changed
  }

  function Opened(c: Controller, sessionId: string, rootId: string): Controller {
    c.(live := Some(Live(sessionId, rootId, None, None)), pending := None)
  }

  function Window(c: Controller): seq<Event> {
    if c.pending.Some? then c.pending.value else []
  }

  /** The launch has returned: replay the window, then push the breakpoints of every file. */
  function Launched(c: Controller, sessionId: string, rootId: string, paths: seq<Location>): Controller {
    PushedAll(HandledAll(Opened(c, sessionId, rootId), Window(c)), rootId, paths)
  }

  /** The answer to a request; it counts only while the request's session is the live one. */
  function Answered(c: Controller, call: Call, reply: Reply): Controller
    requires call.SetBreakpoints?
  {
    if reply.Replied? && c.live.Some? && c.live.value.sessionId == call.sessionId && c.live.value.rootId == call.at.rootId
    then c.(store := Verified(c.store, call.at, reply.results))
    else c
  }

  // ----- the controller -----

  class DebugSessionController {
    const breakpoints: DebugBreakpointStore
    var live: Option<Live>
    var pending: Option<seq<Event>>
    ghost var calls: seq<Call>
    ghost var heard: seq<Event>

    ghost function State(): Controller
      reads this, breakpoints
    {
      Controller(live, pending, breakpoints.State(), calls, heard)
    }

    constructor (breakpoints: DebugBreakpointStore)
      ensures this.breakpoints == breakpoints
      ensures State() == Controller(None, None, breakpoints.State(), [], [])
    {
      this.breakpoints := breakpoints;
      live, pending, calls, heard := None, None, [], [];
    }

    method HandleEvent(event: Event)
      modifies this, breakpoints
      ensures State() == Handled(old(State()), event)
    {
      if live == None {
        if pending.Some? {
          var events := pending.value;
          if |events| == PendingLimit {
            events := events[1..];
          }
          pending := Some(events + [event]);
        }
        return;
      }
      if event.sessionId != live.value.sessionId {
        return;
      }
      heard := heard + [event];
      match event.content {
        case Stopped(thread) =>
          live := Some(live.value.(stopped := thread, lastKnown := if thread.Some? then thread else live.value.lastKnown));
        case Continued =>
          live := Some(live.value.(stopped := None));
        case Thread(reason, thread) =>
          if reason == Started && thread.Some? {
            live := Some(live.value.(lastKnown := thread));
          } else if reason == Exited && thread.Some? {
            live := Some(live.value.(lastKnown := if thread == live.value.lastKnown then None else live.value.lastKnown));
          }
        case Terminated =>
          DisconnectSession();
        case SessionEnded =>
          live := None;
          var _ := breakpoints.ClearAllVerification();
        case Other(_) =>
      }
    }

    method DisconnectSession()
      modifies this, breakpoints
      ensures State() == Disconnected(old(State()))
    {
      if live == None {
        return;
      }
      var sessionId := live.value.sessionId;
      live := None;
      var _ := breakpoints.ClearAllVerification();
      calls := calls + [Disconnect(sessionId)];
    }

    /** Up to the request; `PushAnswered` is the rest. */
    method PushBreakpointsForPath(at: Location)
      modifies this
      ensures State() == Pushed(old(State()), at)
    {
      if live == None || live.value.rootId != at.rootId {
        return;
      }
      calls := calls + [SetBreakpoints(live.value.sessionId, at, Listed(breakpoints.State().Placed(at)))];
    }

    method PushAnswered(sessionId: string, at: Location, ghost entries: seq<Descriptor>, reply: Reply)
      modifies breakpoints
      ensures State() == Answered(old(State()), SetBreakpoints(sessionId, at, entries), reply)
    {
      if reply.Failed? || live == None || live.value.sessionId != sessionId || live.value.rootId != at.rootId {
        return;
      }
      var _ := breakpoints.SetVerification(at, reply.results);
    }

    method PushEveryPath(rootId: string) returns (paths: seq<Location>)
      modifies this
      ensures Enumerates(paths, old(State()).store, rootId)
      ensures State() == PushedAll(old(State()), rootId, paths)
    {
      paths := breakpoints.PathsWithBreakpoints(rootId);
      ghost var before := State();
      for i := 0 to |paths|
        invariant State() == PushedAll(before, rootId, paths[..i])
      {
        assert paths[i] in paths;
        PushedOneMore(before, rootId, paths, i);
        PushBreakpointsForPath(paths[i]);
      }
      assert paths[..|paths|] == paths;
    }

    /** The store's change notice. */
    method OnDidChange(notice: Notice)
      modifies this
      ensures State() == if notice.kind == BreakpointsChanged then Pushed(old(State()), notice.at) else old(State())
    {
      if notice.kind == BreakpointsChanged && live.Some? && live.value.rootId == notice.at.rootId {
        PushBreakpointsForPath(notice.at);
      }
    }

    method EditBreakpoint(at: Location, edit: Edit)
      modifies this, breakpoints
      ensures State() == Changed(old(State()), at, edit)
    {
      var notices;
      match edit {
        case Toggle(line) => notices := breakpoints.Toggle(at, line);
        case Remove(line) => notices := breakpoints.Remove(at, line);
        case Redescribe(d) => notices := breakpoints.SetDetails(at, d.line, d.condition, d.logMessage, d.hitCondition);
      }
      if notices != [] {
        OnDidChange(notices[0]);
      }
    }

    method StartCalled()
      modifies this
      ensures State() == old(State()).(pending := Some([]))
    {
      pending := Some([]);
    }

    method StartFailed()
      modifies this
      ensures State() == old(State()).(pending := None)
    {
      pending := None;
    }

    method StartReturned(sessionId: string, rootId: string) returns (paths: seq<Location>)
      modifies this, breakpoints
      ensures Enumerates(paths, old(State()).store, rootId)
      ensures State() == Launched(old(State()), sessionId, rootId, paths)
    {
      ghost var before := State();
      var events := if pending.Some? then pending.value else [];
      pending := None;
      live := Some(Live(sessionId, rootId, None, None));
      for i := 0 to |events|
        invariant State() == HandledAll(Opened(before, sessionId, rootId), events[..i])
      {
        assert events[..i + 1][..i] == events[..i];
        HandleEvent(events[i]);
      }
      assert events[..|events|] == events;
      ReplayKeepsMarks(Opened(before, sessionId, rootId), events);
      SameMarksEnumerate(State().store, before.store, rootId);
      paths := PushEveryPath(rootId);
    }
  }

  lemma PushedOneMore(c: Controller, rootId: string, paths: seq<Location>, i: nat)
    requires i < |paths| && paths[i].rootId == rootId
    ensures Pushed(PushedAll(c, rootId, paths[..i]), paths[i]) == PushedAll(c, rootId, paths[..i + 1])
  {
    if c.live.Some? && c.live.value.rootId == rootId {
      var id := c.live.value.sessionId;
      RequestsOneMore(c, id, paths, i);
      assert c.calls + (Requests(c, id, paths[..i]) + [Request(c, id, paths[i])])
          == c.calls + Requests(c, id, paths[..i]) + [Request(c, id, paths[i])];
    }
  }

  lemma RequestsOneMore(c: Controller, sessionId: string, paths: seq<Location>, i: nat)
    requires i < |paths|
    ensures Requests(c, sessionId, paths[..i + 1]) == Requests(c, sessionId, paths[..i]) + [Request(c, sessionId, paths[i])]
  {
  }

  lemma {:induction false} ReplayKeepsMarks(c: Controller, events: seq<Event>)
    ensures HandledAll(c, events).store.descriptors == c.store.descriptors
  {
    if events != [] {
      ReplayKeepsMarks(c, events[..|events| - 1]);
    }
  }

  lemma SameMarksEnumerate(s: Store, t: Store, rootId: string)
    requires s.descriptors == t.descriptors
    ensures forall paths :: Enumerates(paths, s, rootId) ==> Enumerates(paths, t, rootId)
  {
    forall at ensures s.Placed(at) == t.Placed(at) {
    }
  }
}
