/** Every interleaving of edits, starts, events, requests and answers, and what holds throughout. */
module DebugRuns {
  import opened Options
  import opened Breakpoints
  import opened DebugSession

  /** The controller together with what is under way outside it: the root of a start that has not
      returned, the session ids handed out so far, and the answers that have arrived, by request. */
  datatype System = System(ctl: Controller, starting: Option<string>, used: set<string>, replies: map<nat, Reply>)

  datatype Action =
    | EditAction(at: Location, edit: Edit)
    | CallStart(rootId: string)
    | FailStart
    | ReturnStart(sessionId: string, paths: seq<Location>)
    | Arrive(event: Event)
    | Answer(index: nat, reply: Reply)
    | CallDisconnect

  /** A start is made only with no session live or starting; it returns an id not seen before; a
      request is answered once. Anything else can happen at any time. */
  ghost predicate Enabled(s: System, a: Action) {
    match a
    case CallStart(_) => s.ctl.live == None && s.starting == None
    case FailStart => s.starting.Some?
    case ReturnStart(id, paths) => s.starting.Some? && id !in s.used && Enumerates(paths, s.ctl.store, s.starting.value)
    case Answer(i, _) => i < |s.ctl.calls| && s.ctl.calls[i].SetBreakpoints? && i !in s.replies
    case _ => true
  }

  /** An action that is not enabled does nothing. */
  ghost function Step(s: System, a: Action): System {
    if !Enabled(s, a) then s
    else
      match a
      case EditAction(at, e) => s.(ctl := Changed(s.ctl, at, e))
      case CallStart(rootId) => s.(ctl := s.ctl.(pending := Some([])), starting := Some(rootId))
      case FailStart => s.(ctl := s.ctl.(pending := None), starting := None)
      case ReturnStart(id, paths) =>
        System(Launched(s.ctl, id, s.starting.value, paths), None, s.used + {id}, s.replies)
      case Arrive(e) => s.(ctl := Handled(s.ctl, e))
      case Answer(i, reply) => s.(ctl := Answered(s.ctl, s.ctl.calls[i], reply), replies := s.replies[i := reply])
      case CallDisconnect => s.(ctl := Disconnected(s.ctl))
  }

  const Initial := System(Controller(None, None, Store(map[], map[]), [], []), None, {}, map[])

  ghost function Run(actions: seq<Action>): System {
    if actions == [] then Initial else Step(Run(actions[..|actions| - 1]), actions[|actions| - 1])
  }

  // ----- sessions -----

  predicate IsFor(calls: seq<Call>, k: nat, sessionId: string, at: Location) {
    k < |calls| && calls[k].SetBreakpoints? && calls[k].sessionId == sessionId && calls[k].at == at
  }

  ghost predicate KnownCalls(calls: seq<Call>, used: set<string>) {
    forall k :: 0 <= k < |calls| ==> calls[k].sessionId in used
  }

  /** No call to a session follows the request to disconnect it. */
  ghost predicate NothingAfterDisconnect(calls: seq<Call>) {
    forall j, k :: 0 <= j < k < |calls| && calls[j].Disconnect? ==> calls[k].sessionId != calls[j].sessionId
  }

  /** The live session has not been asked to disconnect, and was only asked about files of its root. */
  ghost predicate CallsOfLive(calls: seq<Call>, l: Live) {
    forall k :: 0 <= k < |calls| && calls[k].sessionId == l.sessionId ==>
      calls[k].SetBreakpoints? && calls[k].at.rootId == l.rootId
  }

  ghost predicate Sessions(s: System) {
    && (s.ctl.live.Some? ==> s.starting == None && s.ctl.live.value.sessionId in s.used)
    && (s.ctl.pending.Some? <==> s.starting.Some?)
    && (forall k :: k in s.replies ==> k < |s.ctl.calls|)
    && KnownCalls(s.ctl.calls, s.used)
    && NothingAfterDisconnect(s.ctl.calls)
    && (s.ctl.live.Some? ==> CallsOfLive(s.ctl.calls, s.ctl.live.value))
  }

  // Appending calls of the live session.

  ghost predicate OfLive(more: seq<Call>, l: Live) {
    forall k :: 0 <= k < |more| ==> more[k].SetBreakpoints? && more[k].sessionId == l.sessionId && more[k].at.rootId == l.rootId
  }

  lemma MoreCalls(calls: seq<Call>, more: seq<Call>, l: Live, used: set<string>)
    requires KnownCalls(calls, used) && l.sessionId in used && OfLive(more, l) && CallsOfLive(calls, l)
    ensures KnownCalls(calls + more, used)
    ensures CallsOfLive(calls + more, l)
  {
  }

  lemma MoreCallsAfterDisconnect(calls: seq<Call>, more: seq<Call>, l: Live)
    requires NothingAfterDisconnect(calls) && OfLive(more, l) && CallsOfLive(calls, l)
    ensures NothingAfterDisconnect(calls + more)
  {
  }

  lemma DisconnectCall(calls: seq<Call>, l: Live, used: set<string>)
    requires KnownCalls(calls, used) && l.sessionId in used && NothingAfterDisconnect(calls) && CallsOfLive(calls, l)
    ensures KnownCalls(calls + [Disconnect(l.sessionId)], used)
    ensures NothingAfterDisconnect(calls + [Disconnect(l.sessionId)])
  {
  }

  lemma ChangedKeepsSessions(s: System, at: Location, e: Edit)
    requires Sessions(s)
    ensures Sessions(s.(ctl := Changed(s.ctl, at, e)))
  {
    var c := s.ctl.(store := Edited(s.ctl.store, at, e));
    if Announced(s.ctl.store, at, e) && c.live.Some? && c.live.value.rootId == at.rootId {
      var more := [Request(c, c.live.value.sessionId, at)];
      MoreCalls(s.ctl.calls, more, c.live.value, s.used);
      MoreCallsAfterDisconnect(s.ctl.calls, more, c.live.value);
    }
  }

  lemma HandledKeepsSessions(s: System, e: Event)
    requires Sessions(s)
    ensures Sessions(s.(ctl := Handled(s.ctl, e)))
  {
    if s.ctl.live.Some? {
      DisconnectCall(s.ctl.calls, s.ctl.live.value, s.used);
    }
  }

  lemma {:induction false} HandledAllKeepsSessions(s: System, events: seq<Event>)
    requires Sessions(s)
    ensures Sessions(s.(ctl := HandledAll(s.ctl, events)))
  {
    if events != [] {
      var most := events[..|events| - 1];
      HandledAllKeepsSessions(s, most);
      HandledKeepsSessions(s.(ctl := HandledAll(s.ctl, most)), events[|events| - 1]);
    }
  }

  lemma PushedAllKeepsSessions(s: System, rootId: string, paths: seq<Location>)
    requires Sessions(s) && forall i :: 0 <= i < |paths| ==> paths[i].rootId == rootId
    ensures Sessions(s.(ctl := PushedAll(s.ctl, rootId, paths)))
  {
    if s.ctl.live.Some? && s.ctl.live.value.rootId == rootId {
      var more := Requests(s.ctl, s.ctl.live.value.sessionId, paths);
      MoreCalls(s.ctl.calls, more, s.ctl.live.value, s.used);
      MoreCallsAfterDisconnect(s.ctl.calls, more, s.ctl.live.value);
    }
  }

  lemma OpenedKeepsSessions(s: System, id: string)
    requires Sessions(s) && s.starting.Some? && id !in s.used
    ensures Sessions(System(Opened(s.ctl, id, s.starting.value), None, s.used + {id}, s.replies))
  {
  }

  lemma LaunchedKeepsSessions(s: System, id: string, paths: seq<Location>)
    requires Sessions(s) && s.starting.Some? && id !in s.used
    requires Enumerates(paths, s.ctl.store, s.starting.value)
    ensures Sessions(System(Launched(s.ctl, id, s.starting.value, paths), None, s.used + {id}, s.replies))
  {
    var started := System(Opened(s.ctl, id, s.starting.value), None, s.used + {id}, s.replies);
    OpenedKeepsSessions(s, id);
    HandledAllKeepsSessions(started, Window(s.ctl));
    forall i | 0 <= i < |paths| ensures paths[i].rootId == s.starting.value {
      assert paths[i] in paths;
    }
    PushedAllKeepsSessions(started.(ctl := HandledAll(started.ctl, Window(s.ctl))), s.starting.value, paths);
  }

  lemma StepKeepsSessions(s: System, a: Action)
    requires Sessions(s)
    ensures Sessions(Step(s, a))
  {
    match a
    case EditAction(at, e) => ChangedKeepsSessions(s, at, e);
    case Arrive(e) => HandledKeepsSessions(s, e);
    case ReturnStart(id, paths) => if Enabled(s, a) { LaunchedKeepsSessions(s, id, paths); }
    case CallDisconnect => if s.ctl.live.Some? { DisconnectCall(s.ctl.calls, s.ctl.live.value, s.used); }
    case _ =>
  }

  // ----- verdicts -----

  ghost predicate Gave(calls: seq<Call>, replies: map<nat, Reply>, k: nat, sessionId: string, at: Location, v: Verdict) {
    IsFor(calls, k, sessionId, at) && k in replies && replies[k].Replied? && v in replies[k].results
  }

  /** Some answer to a request of this session about this file contained the verdict. */
  ghost predicate Given(calls: seq<Call>, replies: map<nat, Reply>, sessionId: string, at: Location, v: Verdict) {
    exists k :: Gave(calls, replies, k, sessionId, at, v)
  }

  ghost predicate AllGiven(calls: seq<Call>, replies: map<nat, Reply>, sessionId: string, store: Store) {
    forall at, line :: line in store.Verdicts(at) ==> Given(calls, replies, sessionId, at, store.Verdicts(at)[line])
  }

  ghost predicate Verdicts(s: System) {
    && s.ctl.store.Consistent()
    && (s.ctl.live == None ==> s.ctl.store.verification == map[])
    && (s.ctl.live.Some? ==> AllGiven(s.ctl.calls, s.replies, s.ctl.live.value.sessionId, s.ctl.store))
  }

  lemma GivenStays(calls: seq<Call>, more: seq<Call>, replies: map<nat, Reply>, sessionId: string, at: Location, v: Verdict)
    requires Given(calls, replies, sessionId, at, v)
    ensures Given(calls + more, replies, sessionId, at, v)
  {
    var k :| Gave(calls, replies, k, sessionId, at, v);
    assert Gave(calls + more, replies, k, sessionId, at, v);
  }

  lemma AllGivenStays(calls: seq<Call>, more: seq<Call>, replies: map<nat, Reply>, sessionId: string, store: Store)
    requires AllGiven(calls, replies, sessionId, store)
    ensures AllGiven(calls + more, replies, sessionId, store)
  {
    forall at, line | line in store.Verdicts(at)
      ensures Given(calls + more, replies, sessionId, at, store.Verdicts(at)[line])
    {
      GivenStays(calls, more, replies, sessionId, at, store.Verdicts(at)[line]);
    }
  }

  lemma AllGivenAfterEdit(calls: seq<Call>, replies: map<nat, Reply>, sessionId: string, store: Store, at: Location, e: Edit)
    requires AllGiven(calls, replies, sessionId, store)
    ensures AllGiven(calls, replies, sessionId, Edited(store, at, e))
  {
    forall other, line | line in Edited(store, at, e).Verdicts(other)
      ensures Given(calls, replies, sessionId, other, Edited(store, at, e).Verdicts(other)[line])
    {
      EditGivesNoVerdict(store, at, e, other);
      assert (line, Edited(store, at, e).Verdicts(other)[line]) in Edited(store, at, e).Verdicts(other).Items;
    }
  }

  lemma GivenAfterAnswer(calls: seq<Call>, replies: map<nat, Reply>, i: nat, reply: Reply, sessionId: string, at: Location, v: Verdict)
    requires Given(calls, replies, sessionId, at, v) && i !in replies
    ensures Given(calls, replies[i := reply], sessionId, at, v)
  {
    var k :| Gave(calls, replies, k, sessionId, at, v);
    assert Gave(calls, replies[i := reply], k, sessionId, at, v);
  }

  lemma AllGivenAfterAnswer(calls: seq<Call>, replies: map<nat, Reply>, i: nat, reply: Reply, sessionId: string, store: Store)
    requires AllGiven(calls, replies, sessionId, store) && i !in replies
    ensures AllGiven(calls, replies[i := reply], sessionId, store)
  {
    forall at, line | line in store.Verdicts(at)
      ensures Given(calls, replies[i := reply], sessionId, at, store.Verdicts(at)[line])
    {
      GivenAfterAnswer(calls, replies, i, reply, sessionId, at, store.Verdicts(at)[line]);
    }
  }

  lemma {:induction false} RecordedFrom(verdicts: map<int, Verdict>, list: seq<Descriptor>, results: seq<Verdict>, n: nat, line: int)
    requires n <= |list| == |results| && line in Recorded(verdicts, list, results, n)
    ensures (line in verdicts && Recorded(verdicts, list, results, n)[line] == verdicts[line])
         || Recorded(verdicts, list, results, n)[line] in results
  {
    if n > 0 && line != list[n - 1].line {
      RecordedFrom(verdicts, list, results, n - 1, line);
    }
  }

  lemma AllGivenAfterReport(calls: seq<Call>, replies: map<nat, Reply>, i: nat, sessionId: string, store: Store, at: Location)
    requires AllGiven(calls, replies, sessionId, store)
    requires IsFor(calls, i, sessionId, at) && i in replies && replies[i].Replied?
    ensures AllGiven(calls, replies, sessionId, Verified(store, at, replies[i].results))
  {
    var results, list := replies[i].results, Listed(store.Placed(at));
    var after := Verified(store, at, results);
    forall other, line | line in after.Verdicts(other)
      ensures Given(calls, replies, sessionId, other, after.Verdicts(other)[line])
    {
      if other != at || |results| != |list| {
        VerifiedLeavesOthers(store, at, results, other);
      } else {
        RecordedFrom(store.Verdicts(at), list, results, |list|, line);
        if after.Verdicts(at)[line] in results {
          assert Gave(calls, replies, i, sessionId, at, after.Verdicts(at)[line]);
        }
      }
    }
  }

  lemma ChangedKeepsVerdicts(s: System, at: Location, e: Edit)
    requires Verdicts(s)
    ensures Verdicts(s.(ctl := Changed(s.ctl, at, e)))
  {
    EditsKeepConsistency(s.ctl.store, at, e);
    if s.ctl.live.Some? {
      AllGivenAfterEdit(s.ctl.calls, s.replies, s.ctl.live.value.sessionId, s.ctl.store, at, e);
      AllGivenStays(s.ctl.calls, Changed(s.ctl, at, e).calls[|s.ctl.calls|..], s.replies, s.ctl.live.value.sessionId,
                    Edited(s.ctl.store, at, e));
    } else {
      EditOfUnverified(s.ctl.store, at, e);
    }
  }

  lemma EditOfUnverified(store: Store, at: Location, e: Edit)
    requires store.verification == map[]
    ensures Edited(store, at, e).verification == map[]
  {
  }

  lemma HandledKeepsVerdicts(s: System, e: Event)
    requires Verdicts(s)
    ensures Verdicts(s.(ctl := Handled(s.ctl, e)))
  {
    UnverifiedKeepsConsistency(s.ctl.store);
  }

  lemma {:induction false} HandledAllKeepsVerdicts(s: System, events: seq<Event>)
    requires Verdicts(s)
    ensures Verdicts(s.(ctl := HandledAll(s.ctl, events)))
  {
    if events != [] {
      var most := events[..|events| - 1];
      HandledAllKeepsVerdicts(s, most);
      HandledKeepsVerdicts(s.(ctl := HandledAll(s.ctl, most)), events[|events| - 1]);
    }
  }

  lemma LaunchedKeepsVerdicts(s: System, id: string, paths: seq<Location>)
    requires Verdicts(s) && s.starting.Some? && s.ctl.live == None
    ensures Verdicts(System(Launched(s.ctl, id, s.starting.value, paths), None, s.used + {id}, s.replies))
  {
    var started := System(Opened(s.ctl, id, s.starting.value), None, s.used + {id}, s.replies);
    HandledAllKeepsVerdicts(started, Window(s.ctl));
    var c := HandledAll(started.ctl, Window(s.ctl));
    if c.live.Some? {
      AllGivenStays(c.calls, Requests(c, c.live.value.sessionId, paths), s.replies, c.live.value.sessionId, c.store);
    }
  }

  lemma AnsweredKeepsVerdicts(s: System, i: nat, reply: Reply)
    requires Verdicts(s) && Enabled(s, Answer(i, reply))
    ensures Verdicts(Step(s, Answer(i, reply)))
  {
    if s.ctl.live.Some? {
      var id, call := s.ctl.live.value.sessionId, s.ctl.calls[i];
      AllGivenAfterAnswer(s.ctl.calls, s.replies, i, reply, id, s.ctl.store);
      if reply.Replied? && id == call.sessionId {
        ReportsKeepConsistency(s.ctl.store, call.at, reply.results);
        AllGivenAfterReport(s.ctl.calls, s.replies[i := reply], i, id, s.ctl.store, call.at);
      }
    }
  }

  lemma StepKeepsVerdicts(s: System, a: Action)
    requires Sessions(s) && Verdicts(s)
    ensures Verdicts(Step(s, a))
  {
    match a
    case EditAction(at, e) => ChangedKeepsVerdicts(s, at, e);
    case Arrive(e) => HandledKeepsVerdicts(s, e);
    case ReturnStart(id, paths) => if Enabled(s, a) { LaunchedKeepsVerdicts(s, id, paths); }
    case CallDisconnect => UnverifiedKeepsConsistency(s.ctl.store);
    case Answer(i, reply) => if Enabled(s, a) { AnsweredKeepsVerdicts(s, i, reply); }
    case _ =>
  }

  lemma {:induction false} RunKeeps(actions: seq<Action>)
    ensures Sessions(Run(actions)) && Verdicts(Run(actions))
  {
    if actions == [] {
      assert Initial.ctl.store.Consistent();
    } else {
      RunKeeps(actions[..|actions| - 1]);
      StepKeepsSessions(Run(actions[..|actions| - 1]), actions[|actions| - 1]);
      StepKeepsVerdicts(Run(actions[..|actions| - 1]), actions[|actions| - 1]);
    }
  }

  /** In every run: with no session live there are no verdicts; with one live, every verdict is about
      a line that has a breakpoint, in a file of the session's root, and is one that an answer to a
      request of that session about that file gave. */
  lemma VerdictsBelongToTheLiveSession(actions: seq<Action>, at: Location, line: int)
    requires line in Run(actions).ctl.store.Verdicts(at)
    ensures line in Run(actions).ctl.store.Placed(at)
    ensures Run(actions).ctl.live.Some?
    ensures Run(actions).ctl.live.value.rootId == at.rootId
    ensures var s := Run(actions); Given(s.ctl.calls, s.replies, s.ctl.live.value.sessionId, at, s.ctl.store.Verdicts(at)[line])
  {
    RunKeeps(actions);
    var s := Run(actions);
    assert s.ctl.store.ConsistentAt(at);
    var k :| Gave(s.ctl.calls, s.replies, k, s.ctl.live.value.sessionId, at, s.ctl.store.Verdicts(at)[line]);
    assert CallsOfLive(s.ctl.calls, s.ctl.live.value);
  }

  /** A session is asked to disconnect at most once, and is sent nothing afterwards. */
  lemma DisconnectIsTheLastCall(actions: seq<Action>, j: nat, k: nat)
    requires j < k < |Run(actions).ctl.calls| && Run(actions).ctl.calls[j].Disconnect?
    ensures Run(actions).ctl.calls[k].sessionId != Run(actions).ctl.calls[j].sessionId
  {
    RunKeeps(actions);
  }
}
