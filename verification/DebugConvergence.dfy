/** Which answer each file shows. Answers are matched by position alone, and every edit asks again: so
    the last request for a file lists its breakpoints as they now are, and what the file shows is the
    latest answer of the right length, whichever request it was for. */
module DebugConvergence {
  import opened Options
  import opened Breakpoints
  import opened DebugSession
  import opened DebugRuns

  // ----- the last request for a file -----

  ghost predicate LastFor(calls: seq<Call>, k: nat, sessionId: string, at: Location) {
    IsFor(calls, k, sessionId, at) && forall j :: k < j < |calls| ==> !IsFor(calls, j, sessionId, at)
  }

  lemma LastForOthers(calls: seq<Call>, more: seq<Call>, sessionId: string, at: Location, k: nat)
    requires forall j :: 0 <= j < |more| ==> !IsFor(more, j, sessionId, at)
    ensures LastFor(calls + more, k, sessionId, at) <==> LastFor(calls, k, sessionId, at)
  {
    if k < |calls| {
      if LastFor(calls, k, sessionId, at) {
        forall j | k < j < |calls + more| ensures !IsFor(calls + more, j, sessionId, at) {
          if j < |calls| {
            assert !IsFor(calls, j, sessionId, at);
          } else {
            assert !IsFor(more, j - |calls|, sessionId, at);
          }
        }
      }
      if LastFor(calls + more, k, sessionId, at) {
        forall j | k < j < |calls| ensures !IsFor(calls, j, sessionId, at) {
          assert !IsFor(calls + more, j, sessionId, at);
        }
      }
    } else if k < |calls| + |more| {
      assert !IsFor(more, k - |calls|, sessionId, at);
    }
  }

  lemma LastForOwn(calls: seq<Call>, more: seq<Call>, i: nat, sessionId: string, at: Location, k: nat)
    requires IsFor(more, i, sessionId, at)
    requires forall j :: 0 <= j < |more| && j != i ==> !IsFor(more, j, sessionId, at)
    ensures LastFor(calls + more, k, sessionId, at) <==> k == |calls| + i
  {
    var m := |calls| + i;
    assert IsFor(calls + more, m, sessionId, at);
    forall j | m < j < |calls + more| ensures !IsFor(calls + more, j, sessionId, at) {
      assert !IsFor(more, j - |calls|, sessionId, at);
    }
    if k < |calls + more| && k > m {
      assert !IsFor(more, k - |calls|, sessionId, at);
    }
  }

  // ----- the latest answer -----

  /** The action is an answer to a request of this session about this file, of the length of the
      file's list at that moment. */
  ghost predicate Gives(s: System, a: Action, sessionId: string, at: Location) {
    && a.Answer? && Enabled(s, a) && IsFor(s.ctl.calls, a.index, sessionId, at)
    && a.reply.Replied? && |a.reply.results| == |s.ctl.store.Placed(at)|
  }

  ghost predicate ChangesList(s: System, a: Action, at: Location) {
    a.EditAction? && a.at == at && Announced(s.ctl.store, at, a.edit)
  }

  /** The latest results that arrived for the file since it was last edited. */
  ghost function Latest(actions: seq<Action>, sessionId: string, at: Location): Option<seq<Verdict>> {
    if actions == [] then None
    else
      var most, a := actions[..|actions| - 1], actions[|actions| - 1];
      if Gives(Run(most), a, sessionId, at) then Some(a.reply.results)
      else if ChangesList(Run(most), a, at) then None
      else Latest(most, sessionId, at)
  }

  // ----- what a file shows -----

  /** Request `k` has been answered at its own length. */
  ghost predicate WellAnswered(calls: seq<Call>, replies: map<nat, Reply>, k: nat) {
    && k < |calls| && calls[k].SetBreakpoints?
    && k in replies && replies[k].Replied? && |replies[k].results| == |calls[k].entries|
  }

  /** A last request lists the breakpoints as they now are, and if it was well answered, some answer
      is the latest. */
  ghost predicate Asked(store: Store, calls: seq<Call>, replies: map<nat, Reply>, latest: bool, sessionId: string, at: Location) {
    && (forall k: nat :: LastFor(calls, k, sessionId, at) ==>
          calls[k].entries == Listed(store.Placed(at)) && (WellAnswered(calls, replies, k) ==> latest))
    && (store.Placed(at) != map[] ==> exists k: nat :: LastFor(calls, k, sessionId, at))
  }

  /** The file shows the latest results, position by position. */
  ghost predicate Shows(store: Store, latest: Option<seq<Verdict>>, at: Location) {
    latest.Some? ==>
      |latest.value| == |store.Placed(at)| && Views(store, at) == Shown(Listed(store.Placed(at)), latest.value)
  }

  ghost predicate Settled(c: Controller, replies: map<nat, Reply>, latest: Option<seq<Verdict>>, sessionId: string, at: Location) {
    Asked(c.store, c.calls, replies, latest.Some?, sessionId, at) && Shows(c.store, latest, at)
  }

  // ----- each step keeps it -----

  lemma AskedByOwn(store: Store, calls: seq<Call>, more: seq<Call>, i: nat, replies: map<nat, Reply>, latest: bool, sessionId: string, at: Location)
    requires IsFor(more, i, sessionId, at) && more[i].entries == Listed(store.Placed(at))
    requires forall j :: 0 <= j < |more| && j != i ==> !IsFor(more, j, sessionId, at)
    requires |calls| + i !in replies
    ensures Asked(store, calls + more, replies, latest, sessionId, at)
  {
    forall k: nat ensures LastFor(calls + more, k, sessionId, at) <==> k == |calls| + i {
      LastForOwn(calls, more, i, sessionId, at, k);
    }
    OnlyLastAsked(store, calls + more, replies, |calls| + i, latest, sessionId, at);
  }

  lemma OnlyLastAsked(store: Store, calls: seq<Call>, replies: map<nat, Reply>, m: nat, latest: bool, sessionId: string, at: Location)
    requires forall k: nat :: LastFor(calls, k, sessionId, at) <==> k == m
    requires m < |calls| && calls[m].SetBreakpoints? && calls[m].entries == Listed(store.Placed(at)) && m !in replies
    ensures Asked(store, calls, replies, latest, sessionId, at)
  {
    assert LastFor(calls, m, sessionId, at);
  }

  lemma AskedStays(store: Store, after: Store, calls: seq<Call>, more: seq<Call>, replies: map<nat, Reply>, latest: bool, sessionId: string, at: Location)
    requires Asked(store, calls, replies, latest, sessionId, at)
    requires forall j :: 0 <= j < |more| ==> !IsFor(more, j, sessionId, at)
    requires after.Placed(at) == store.Placed(at)
    ensures Asked(after, calls + more, replies, latest, sessionId, at)
  {
    forall k: nat | LastFor(calls + more, k, sessionId, at)
      ensures (calls + more)[k].entries == Listed(after.Placed(at)) && (WellAnswered(calls + more, replies, k) ==> latest)
    {
      LastForOthers(calls, more, sessionId, at, k);
    }
    if store.Placed(at) != map[] {
      var k: nat :| LastFor(calls, k, sessionId, at);
      LastForOthers(calls, more, sessionId, at, k);
    }
  }

  lemma ShowsStays(store: Store, after: Store, latest: Option<seq<Verdict>>, at: Location)
    requires Shows(store, latest, at)
    requires after.Placed(at) == store.Placed(at) && after.Verdicts(at) == store.Verdicts(at)
    ensures Shows(after, latest, at)
  {
    assert Views(after, at) == Views(store, at);
  }

  lemma ElsewhereSettles(c: Controller, after: Controller, more: seq<Call>, replies: map<nat, Reply>, latest: Option<seq<Verdict>>, sessionId: string, at: Location)
    requires Settled(c, replies, latest, sessionId, at)
    requires after.calls == c.calls + more && forall j :: 0 <= j < |more| ==> !IsFor(more, j, sessionId, at)
    requires after.store.Placed(at) == c.store.Placed(at) && after.store.Verdicts(at) == c.store.Verdicts(at)
    ensures Settled(after, replies, latest, sessionId, at)
  {
    AskedStays(c.store, after.store, c.calls, more, replies, latest.Some?, sessionId, at);
    ShowsStays(c.store, after.store, latest, at);
  }

  lemma ListEditSettles(s: System, at: Location, e: Edit)
    requires Sessions(s) && s.ctl.live.Some? && s.ctl.live.value.rootId == at.rootId && Announced(s.ctl.store, at, e)
    ensures Settled(Changed(s.ctl, at, e), s.replies, None, s.ctl.live.value.sessionId, at)
  {
    var l, store := s.ctl.live.value, Edited(s.ctl.store, at, e);
    AskedByOwn(store, s.ctl.calls, [SetBreakpoints(l.sessionId, at, Listed(store.Placed(at)))], 0, s.replies, false, l.sessionId, at);
  }

  lemma OtherEditSettles(s: System, at: Location, e: Edit, other: Location, latest: Option<seq<Verdict>>)
    requires s.ctl.live.Some? && other != at && Announced(s.ctl.store, at, e)
    requires Settled(s.ctl, s.replies, latest, s.ctl.live.value.sessionId, other)
    ensures Settled(Changed(s.ctl, at, e), s.replies, latest, s.ctl.live.value.sessionId, other)
  {
    var l, after := s.ctl.live.value, Changed(s.ctl, at, e);
    EditLeavesOthers(s.ctl.store, at, e, other);
    var more := if l.rootId == at.rootId then [Request(after, l.sessionId, at)] else [];
    assert after.calls == s.ctl.calls + more;
    ElsewhereSettles(s.ctl, after, more, s.replies, latest, l.sessionId, other);
  }

  lemma ChangedSettles(s: System, at: Location, e: Edit, other: Location, latest: Option<seq<Verdict>>)
    requires Sessions(s) && s.ctl.live.Some? && s.ctl.live.value.rootId == other.rootId
    requires Settled(s.ctl, s.replies, latest, s.ctl.live.value.sessionId, other)
    ensures Settled(Changed(s.ctl, at, e), s.replies, if ChangesList(s, EditAction(at, e), other) then None else latest,
                    s.ctl.live.value.sessionId, other)
  {
    if !Announced(s.ctl.store, at, e) {
      UnannouncedChangesNothing(s.ctl.store, at, e);
    } else if other == at {
      ListEditSettles(s, at, e);
    } else {
      OtherEditSettles(s, at, e, other, latest);
    }
  }

  lemma AnswerKeepsMarks(s: System, i: nat, reply: Reply)
    requires Enabled(s, Answer(i, reply))
    ensures Answered(s.ctl, s.ctl.calls[i], reply).store.descriptors == s.ctl.store.descriptors
  {
  }

  lemma GivingAnswerShows(s: System, i: nat, reply: Reply, at: Location)
    requires Sessions(s) && Verdicts(s) && s.ctl.live.Some?
    requires Gives(s, Answer(i, reply), s.ctl.live.value.sessionId, at)
    ensures Shows(Answered(s.ctl, s.ctl.calls[i], reply).store, Some(reply.results), at)
  {
    assert CallsOfLive(s.ctl.calls, s.ctl.live.value);
    assert s.ctl.store.ConsistentAt(at);
    AnswerKeepsMarks(s, i, reply);
    VerifiedShowsResults(s.ctl.store, at, reply.results);
  }

  lemma OtherAnswerKeepsVerdicts(s: System, i: nat, reply: Reply, at: Location)
    requires s.ctl.live.Some? && Enabled(s, Answer(i, reply)) && !Gives(s, Answer(i, reply), s.ctl.live.value.sessionId, at)
    ensures Answered(s.ctl, s.ctl.calls[i], reply).store.Verdicts(at) == s.ctl.store.Verdicts(at)
  {
    if reply.Replied? {
      VerifiedLeavesOthers(s.ctl.store, s.ctl.calls[i].at, reply.results, at);
    }
  }

  lemma AnsweredAsks(s: System, i: nat, reply: Reply, at: Location, latest: bool)
    requires s.ctl.live.Some? && Enabled(s, Answer(i, reply))
    requires Asked(s.ctl.store, s.ctl.calls, s.replies, latest, s.ctl.live.value.sessionId, at)
    ensures Asked(Answered(s.ctl, s.ctl.calls[i], reply).store, s.ctl.calls, s.replies[i := reply],
                  latest || Gives(s, Answer(i, reply), s.ctl.live.value.sessionId, at), s.ctl.live.value.sessionId, at)
  {
    AnswerKeepsMarks(s, i, reply);
    var id, after := s.ctl.live.value.sessionId, Answered(s.ctl, s.ctl.calls[i], reply).store;
    assert after.Placed(at) == s.ctl.store.Placed(at);
    forall k: nat | LastFor(s.ctl.calls, k, id, at) && WellAnswered(s.ctl.calls, s.replies[i := reply], k)
      ensures latest || Gives(s, Answer(i, reply), id, at)
    {
      if k != i {
        assert WellAnswered(s.ctl.calls, s.replies, k);
      }
    }
  }

  lemma AnsweredSettles(s: System, i: nat, reply: Reply, at: Location, latest: Option<seq<Verdict>>)
    requires Sessions(s) && Verdicts(s) && s.ctl.live.Some? && Enabled(s, Answer(i, reply))
    requires Settled(s.ctl, s.replies, latest, s.ctl.live.value.sessionId, at)
    ensures Settled(Answered(s.ctl, s.ctl.calls[i], reply), s.replies[i := reply],
                    if Gives(s, Answer(i, reply), s.ctl.live.value.sessionId, at) then Some(reply.results) else latest,
                    s.ctl.live.value.sessionId, at)
  {
    AnsweredAsks(s, i, reply, at, latest.Some?);
    if Gives(s, Answer(i, reply), s.ctl.live.value.sessionId, at) {
      GivingAnswerShows(s, i, reply, at);
    } else {
      AnswerKeepsMarks(s, i, reply);
      OtherAnswerKeepsVerdicts(s, i, reply, at);
      ShowsStays(s.ctl.store, Answered(s.ctl, s.ctl.calls[i], reply).store, latest, at);
    }
  }

  lemma LaunchedAsks(s: System, id: string, paths: seq<Location>, c: Controller, at: Location)
    requires Sessions(s) && s.starting.Some? && id !in s.used && Enumerates(paths, s.ctl.store, s.starting.value)
    requires c.store.descriptors == s.ctl.store.descriptors && c.calls == s.ctl.calls && at.rootId == s.starting.value
    ensures Asked(c.store, c.calls + Requests(c, id, paths), s.replies, false, id, at)
  {
    assert c.store.Placed(at) == s.ctl.store.Placed(at);
    if at in paths {
      var i :| 0 <= i < |paths| && paths[i] == at;
      AskedByOwn(c.store, c.calls, Requests(c, id, paths), i, s.replies, false, id, at);
    } else {
      forall k: nat ensures !LastFor(c.calls + Requests(c, id, paths), k, id, at) {
        NeverAsked(s.ctl.calls, s.used, id, at, k);
        NotAmongRequests(c, id, paths, at, k);
      }
    }
  }

  lemma NotAmongRequests(c: Controller, id: string, paths: seq<Location>, at: Location, k: nat)
    requires at !in paths && (k < |c.calls| ==> c.calls[k].sessionId != id)
    ensures !IsFor(c.calls + Requests(c, id, paths), k, id, at)
  {
    if |c.calls| <= k < |c.calls| + |paths| {
      assert paths[k - |c.calls|] in paths;
    }
  }

  lemma NeverAsked(calls: seq<Call>, used: set<string>, id: string, at: Location, k: nat)
    requires KnownCalls(calls, used) && id !in used
    ensures k < |calls| ==> calls[k].sessionId != id
  {
  }

  /** If the replay leaves the session open, it has sent nothing and kept every mark. */
  lemma {:induction false} ReplayLeavesCalls(c: Controller, events: seq<Event>)
    requires HandledAll(c, events).live.Some?
    ensures c.live.Some?
    ensures HandledAll(c, events).calls == c.calls
    ensures HandledAll(c, events).live.value.sessionId == c.live.value.sessionId
    ensures HandledAll(c, events).live.value.rootId == c.live.value.rootId
  {
    if events != [] {
      ReplayLeavesCalls(c, events[..|events| - 1]);
    }
  }

  lemma LaunchedSettles(s: System, id: string, paths: seq<Location>, at: Location)
    requires Sessions(s) && Enabled(s, ReturnStart(id, paths)) && at.rootId == s.starting.value
    requires Launched(s.ctl, id, s.starting.value, paths).live.Some?
    ensures Settled(Launched(s.ctl, id, s.starting.value, paths), s.replies, None, id, at)
  {
    var before := Opened(s.ctl, id, s.starting.value);
    ReplayLeavesCalls(before, Window(s.ctl));
    ReplayKeepsMarks(before, Window(s.ctl));
    LaunchedAsks(s, id, paths, HandledAll(before, Window(s.ctl)), at);
  }

  lemma SameFilesSettle(c: Controller, after: Controller, replies: map<nat, Reply>, latest: Option<seq<Verdict>>, sessionId: string, at: Location)
    requires Settled(c, replies, latest, sessionId, at) && after.store == c.store && after.calls == c.calls
    ensures Settled(after, replies, latest, sessionId, at)
  {
  }

  lemma HandledKeepsFiles(c: Controller, e: Event)
    requires c.live.Some? && Handled(c, e).live.Some?
    ensures Handled(c, e).store == c.store && Handled(c, e).calls == c.calls
    ensures Handled(c, e).live.value.sessionId == c.live.value.sessionId
  {
  }

  lemma HandledSettles(s: System, e: Event, at: Location, latest: Option<seq<Verdict>>)
    requires s.ctl.live.Some? && Handled(s.ctl, e).live.Some?
    requires Settled(s.ctl, s.replies, latest, s.ctl.live.value.sessionId, at)
    ensures Settled(Handled(s.ctl, e), s.replies, latest, Handled(s.ctl, e).live.value.sessionId, at)
  {
    HandledKeepsFiles(s.ctl, e);
    SameFilesSettle(s.ctl, Handled(s.ctl, e), s.replies, latest, s.ctl.live.value.sessionId, at);
  }

  // ----- whole runs -----

  /** A session id that has not been handed out has no answers. */
  lemma {:induction false} NoAnswersBefore(actions: seq<Action>, id: string, at: Location)
    requires id !in Run(actions).used
    ensures Latest(actions, id, at).None?
  {
    if actions != [] {
      var most := actions[..|actions| - 1];
      UsedGrows(Run(most), actions[|actions| - 1]);
      NoAnswersBefore(most, id, at);
      RunKeeps(most);
      assert KnownCalls(Run(most).ctl.calls, Run(most).used);
    }
  }

  lemma UsedGrows(s: System, a: Action)
    ensures s.used <= Step(s, a).used
  {
  }

  /** The live session's files are settled, each with its latest results. */
  ghost predicate SettledRun(actions: seq<Action>, at: Location) {
    var s := Run(actions);
    s.ctl.live.Some? && s.ctl.live.value.rootId == at.rootId ==>
      Settled(s.ctl, s.replies, Latest(actions, s.ctl.live.value.sessionId, at), s.ctl.live.value.sessionId, at)
  }

  ghost function LatestAfter(s: System, a: Action, latest: Option<seq<Verdict>>, id: string, at: Location): Option<seq<Verdict>> {
    if Gives(s, a, id, at) then Some(a.reply.results) else if ChangesList(s, a, at) then None else latest
  }

  lemma StepSettles(s: System, a: Action, latest: Option<seq<Verdict>>, at: Location)
    requires Sessions(s) && Verdicts(s) && Enabled(s, a) && !a.ReturnStart?
    requires s.ctl.live.Some? && s.ctl.live.value.rootId == at.rootId && Step(s, a).ctl.live.Some?
    requires Settled(s.ctl, s.replies, latest, s.ctl.live.value.sessionId, at)
    ensures Settled(Step(s, a).ctl, Step(s, a).replies, LatestAfter(s, a, latest, s.ctl.live.value.sessionId, at),
                    Step(s, a).ctl.live.value.sessionId, at)
  {
    match a
    case EditAction(file, e) => ChangedSettles(s, file, e, at, latest);
    case Arrive(e) => HandledSettles(s, e, at, latest);
    case Answer(i, reply) => AnsweredSettles(s, i, reply, at, latest);
    case _ =>
  }

  lemma StartSettles(most: seq<Action>, a: Action, at: Location)
    requires a.ReturnStart? && Enabled(Run(most), a)
    requires Step(Run(most), a).ctl.live.Some? && Step(Run(most), a).ctl.live.value.rootId == at.rootId
    ensures Step(Run(most), a).ctl.live.value.sessionId == a.sessionId
    ensures Settled(Step(Run(most), a).ctl, Run(most).replies, Latest(most, a.sessionId, at), a.sessionId, at)
  {
    RunKeeps(most);
    LaunchedFor(Run(most), a.sessionId, a.paths);
    NoAnswersBefore(most, a.sessionId, at);
    LaunchedSettles(Run(most), a.sessionId, a.paths, at);
  }

  lemma LaunchedFor(s: System, id: string, paths: seq<Location>)
    requires Enabled(s, ReturnStart(id, paths)) && Launched(s.ctl, id, s.starting.value, paths).live.Some?
    ensures Launched(s.ctl, id, s.starting.value, paths).live.value.sessionId == id
    ensures Launched(s.ctl, id, s.starting.value, paths).live.value.rootId == s.starting.value
  {
    ReplayLeavesCalls(Opened(s.ctl, id, s.starting.value), Window(s.ctl));
  }

  lemma LiveStepSettles(most: seq<Action>, a: Action, at: Location)
    requires SettledRun(most, at) && Enabled(Run(most), a)
    requires Step(Run(most), a).ctl.live.Some? && Step(Run(most), a).ctl.live.value.rootId == at.rootId
    ensures var s, after := Run(most), Step(Run(most), a); var id := after.ctl.live.value.sessionId;
      Settled(after.ctl, after.replies, LatestAfter(s, a, Latest(most, id, at), id, at), id, at)
  {
    if a.ReturnStart? {
      StartSettles(most, a, at);
    } else {
      RunKeeps(most);
      SameSession(Run(most), a);
      StepSettles(Run(most), a, Latest(most, Run(most).ctl.live.value.sessionId, at), at);
    }
  }

  lemma LatestSnoc(most: seq<Action>, a: Action, id: string, at: Location)
    ensures Latest(most + [a], id, at) == LatestAfter(Run(most), a, Latest(most, id, at), id, at)
  {
    assert (most + [a])[..|most|] == most;
  }

  lemma StepSettlesRun(most: seq<Action>, a: Action, at: Location)
    requires SettledRun(most, at)
    ensures SettledRun(most + [a], at)
  {
    RunSnoc(most, a);
    var after := Step(Run(most), a);
    if after.ctl.live.Some? && after.ctl.live.value.rootId == at.rootId {
      LatestSnoc(most, a, after.ctl.live.value.sessionId, at);
      if Enabled(Run(most), a) {
        LiveStepSettles(most, a, at);
      }
    }
  }

  lemma {:induction false} RunSettles(actions: seq<Action>, at: Location)
    ensures SettledRun(actions, at)
  {
    if actions != [] {
      RunSettles(actions[..|actions| - 1], at);
      StepSettlesRun(actions[..|actions| - 1], actions[|actions| - 1], at);
      assert actions[..|actions| - 1] + [actions[|actions| - 1]] == actions;
    }
  }

  // ----- in any order -----

  /** In every run, whatever the order of answers: every file of the live session's root that has a
      breakpoint has been asked about, the last request for a file lists its breakpoints as they now
      are, and the file shows the latest answer of the right length that came since its last edit. */
  lemma LatestAnswerIsShown(actions: seq<Action>, at: Location)
    requires Run(actions).ctl.live.Some? && Run(actions).ctl.live.value.rootId == at.rootId
    ensures var s := Run(actions); var id := s.ctl.live.value.sessionId;
      Settled(s.ctl, s.replies, Latest(actions, id, at), id, at)
  {
    RunSettles(actions, at);
  }

  lemma SameShown(list: seq<Descriptor>, a: seq<Verdict>, b: seq<Verdict>)
    requires |a| == |b| == |list|
    ensures Shown(list, a) == Shown(list, b) <==> a == b
  {
    if Shown(list, a) == Shown(list, b) {
      forall i | 0 <= i < |a| ensures a[i] == b[i] {
        assert Shown(list, a)[i] == Shown(list, b)[i];
      }
    }
  }

  /** So the well answered last request for a file is what the file shows exactly if the latest answer
      of the right length gave the same results. */
  lemma LastRequestShownExactly(actions: seq<Action>, at: Location, k: nat)
    requires Run(actions).ctl.live.Some? && Run(actions).ctl.live.value.rootId == at.rootId
    requires LastFor(Run(actions).ctl.calls, k, Run(actions).ctl.live.value.sessionId, at)
    requires WellAnswered(Run(actions).ctl.calls, Run(actions).replies, k)
    ensures var s := Run(actions); var latest := Latest(actions, s.ctl.live.value.sessionId, at);
      && latest.Some?
      && (Views(s.ctl.store, at) == Shown(s.ctl.calls[k].entries, s.replies[k].results) <==> latest.value == s.replies[k].results)
  {
    RunSettles(actions, at);
    var s := Run(actions);
    SameShown(s.ctl.calls[k].entries, Latest(actions, s.ctl.live.value.sessionId, at).value, s.replies[k].results);
  }

  /** One late answer: while a file shows the answer to its last request, an answer to another request
      of the session about it does no harm exactly if it failed, is of another length than the list,
      or says the same. */
  lemma LateAnswerHarmlessExactly(s: System, k: nat, i: nat, reply: Reply, at: Location)
    requires Sessions(s) && Verdicts(s) && s.ctl.live.Some? && k != i
    requires LastFor(s.ctl.calls, k, s.ctl.live.value.sessionId, at) && s.ctl.calls[k].entries == Listed(s.ctl.store.Placed(at))
    requires WellAnswered(s.ctl.calls, s.replies, k)
    requires Views(s.ctl.store, at) == Shown(s.ctl.calls[k].entries, s.replies[k].results)
    requires Enabled(s, Answer(i, reply)) && IsFor(s.ctl.calls, i, s.ctl.live.value.sessionId, at)
    ensures Views(Step(s, Answer(i, reply)).ctl.store, at) == Shown(s.ctl.calls[k].entries, s.replies[k].results)
       <==> reply.Failed? || |reply.results| != |s.ctl.store.Placed(at)| || reply.results == s.replies[k].results
  {
    AnswerKeepsMarks(s, i, reply);
    assert Answered(s.ctl, s.ctl.calls[i], reply).store.Placed(at) == s.ctl.store.Placed(at);
    if Gives(s, Answer(i, reply), s.ctl.live.value.sessionId, at) {
      GivingAnswerShows(s, i, reply, at);
      SameShown(s.ctl.calls[k].entries, reply.results, s.replies[k].results);
    } else {
      OtherAnswerKeepsVerdicts(s, i, reply, at);
      assert Views(Answered(s.ctl, s.ctl.calls[i], reply).store, at) == Views(s.ctl.store, at);
    }
  }

  // ----- in order -----

  predicate SameTarget(a: Call, b: Call) {
    a.SetBreakpoints? && b.SetBreakpoints? && a.sessionId == b.sessionId && a.at == b.at
  }

  ghost predicate AnswersNext(s: System, a: Action) {
    a.Answer? && a.index < |s.ctl.calls| ==>
      forall j :: 0 <= j < a.index && SameTarget(s.ctl.calls[j], s.ctl.calls[a.index]) ==> j in s.replies
  }

  /** Every answer comes after the answers to the earlier requests for the same file. */
  ghost predicate InOrder(actions: seq<Action>) {
    actions == [] ||
    (InOrder(actions[..|actions| - 1]) && AnswersNext(Run(actions[..|actions| - 1]), actions[|actions| - 1]))
  }

  ghost predicate EarlierAnswered(calls: seq<Call>, replies: map<nat, Reply>) {
    forall j, k :: 0 <= j < k < |calls| && SameTarget(calls[j], calls[k]) && k in replies ==> j in replies
  }

  lemma StepKeepsAnswerOrder(s: System, a: Action)
    requires Sessions(s) && EarlierAnswered(s.ctl.calls, s.replies) && AnswersNext(s, a)
    ensures EarlierAnswered(Step(s, a).ctl.calls, Step(s, a).replies)
  {
    if !a.Answer? {
      CallsOnlyGrow(s, a);
    } else if Enabled(s, a) {
      forall j, k | 0 <= j < k < |s.ctl.calls| && SameTarget(s.ctl.calls[j], s.ctl.calls[k]) && k in s.replies[a.index := a.reply]
        ensures j in s.replies[a.index := a.reply]
      {
      }
    }
  }

  lemma {:induction false} HandlingOnlyAddsCalls(c: Controller, events: seq<Event>)
    ensures c.calls <= HandledAll(c, events).calls
  {
    if events != [] {
      HandlingOnlyAddsCalls(c, events[..|events| - 1]);
    }
  }

  lemma CallsOnlyGrow(s: System, a: Action)
    ensures s.ctl.calls <= Step(s, a).ctl.calls
    ensures !a.Answer? ==> Step(s, a).replies == s.replies
  {
    if a.ReturnStart? && Enabled(s, a) {
      HandlingOnlyAddsCalls(Opened(s.ctl, a.sessionId, s.starting.value), Window(s.ctl));
    }
  }

  /** With answers in order, the answer to a well answered last request is the latest. */
  ghost predicate LastIsLatest(actions: seq<Action>, id: string, at: Location) {
    var s := Run(actions);
    forall k: nat :: LastFor(s.ctl.calls, k, id, at) && WellAnswered(s.ctl.calls, s.replies, k) ==>
      Latest(actions, id, at) == Some(s.replies[k].results)
  }

  /** No request that was sent before the last one can still be answered after it. */
  lemma AnswerKeepsLastLatest(most: seq<Action>, a: Action, id: string, at: Location)
    requires EarlierAnswered(Run(most).ctl.calls, Run(most).replies) && LastIsLatest(most, id, at)
    requires a.Answer? && Enabled(Run(most), a)
    requires Run(most).ctl.live.Some? && Run(most).ctl.live.value.sessionId == id && Run(most).ctl.live.value.rootId == at.rootId
    ensures LastIsLatest(most + [a], id, at)
  {
    var s, after := Run(most), Run(most + [a]);
    RunSnoc(most, a);
    RunSettles(most, at);
    assert (most + [a])[..|most|] == most;
    forall k: nat | LastFor(s.ctl.calls, k, id, at) && WellAnswered(s.ctl.calls, after.replies, k)
      ensures Latest(most + [a], id, at) == Some(after.replies[k].results)
    {
      if k == a.index {
        assert Gives(s, a, id, at);
      } else if Gives(s, a, id, at) {
        assert SameTarget(s.ctl.calls[a.index], s.ctl.calls[k]);
      } else {
        assert WellAnswered(s.ctl.calls, s.replies, k);
      }
    }
  }

  lemma ListEditAsks(s: System, a: Action, at: Location)
    requires ChangesList(s, a, at) && s.ctl.live.Some? && s.ctl.live.value.rootId == at.rootId
    ensures IsFor(Step(s, a).ctl.calls, |s.ctl.calls|, s.ctl.live.value.sessionId, at)
  {
  }

  /** A step that is not an answer answers no request: if the last one is well answered afterwards, it
      was the last before, and the file has not been edited. */
  lemma OtherStepKeepsLastLatest(most: seq<Action>, a: Action, id: string, at: Location, k: nat)
    requires Sessions(Run(most)) && LastIsLatest(most, id, at) && !a.Answer?
    requires Run(most).ctl.live.Some? && Run(most).ctl.live.value.sessionId == id && Run(most).ctl.live.value.rootId == at.rootId
    requires LastFor(Step(Run(most), a).ctl.calls, k, id, at) && WellAnswered(Step(Run(most), a).ctl.calls, Run(most).replies, k)
    ensures Latest(most + [a], id, at) == Some(Run(most).replies[k].results)
  {
    var s, calls := Run(most), Step(Run(most), a).ctl.calls;
    assert (most + [a])[..|most|] == most;
    CallsOnlyGrow(s, a);
    assert k < |s.ctl.calls| && calls[k] == s.ctl.calls[k];
    forall j | k < j < |s.ctl.calls| ensures !IsFor(s.ctl.calls, j, id, at) {
      assert calls[j] == s.ctl.calls[j] && !IsFor(calls, j, id, at);
    }
    if ChangesList(s, a, at) {
      ListEditAsks(s, a, at);
    }
  }

  /** What a started session was last asked has not been answered yet. */
  lemma StartIsUnanswered(s: System, a: Action, at: Location, k: nat)
    requires Sessions(s) && a.ReturnStart? && Enabled(s, a)
    ensures LastFor(Step(s, a).ctl.calls, k, a.sessionId, at) ==> k !in s.replies
  {
    CallsOnlyGrow(s, a);
    if k < |s.ctl.calls| {
      NeverAsked(s.ctl.calls, s.used, a.sessionId, at, k);
      assert Step(s, a).ctl.calls[k] == s.ctl.calls[k];
    }
  }

  ghost predicate LastIsLatestLive(actions: seq<Action>, at: Location) {
    var l := Run(actions).ctl.live;
    l.Some? && l.value.rootId == at.rootId ==> LastIsLatest(actions, l.value.sessionId, at)
  }

  lemma SameSession(s: System, a: Action)
    requires Step(s, a).ctl.live.Some? && !a.ReturnStart?
    ensures s.ctl.live.Some? && s.ctl.live.value.sessionId == Step(s, a).ctl.live.value.sessionId
    ensures s.ctl.live.value.rootId == Step(s, a).ctl.live.value.rootId
  {
  }

  lemma StepKeepsLastLatest(most: seq<Action>, a: Action, at: Location)
    requires EarlierAnswered(Run(most).ctl.calls, Run(most).replies) && LastIsLatestLive(most, at)
    requires Enabled(Run(most), a)
    ensures LastIsLatestLive(most + [a], at)
  {
    RunSnoc(most, a);
    RunKeeps(most);
    var s, after := Run(most), Step(Run(most), a);
    if after.ctl.live.Some? && after.ctl.live.value.rootId == at.rootId {
      var id := after.ctl.live.value.sessionId;
      if a.ReturnStart? {
        LaunchedFor(s, a.sessionId, a.paths);
        forall k: nat ensures LastFor(after.ctl.calls, k, id, at) ==> k !in after.replies {
          StartIsUnanswered(s, a, at, k);
        }
      } else {
        SameSession(s, a);
        if a.Answer? {
          AnswerKeepsLastLatest(most, a, id, at);
        } else {
          CallsOnlyGrow(s, a);
          forall k: nat | LastFor(after.ctl.calls, k, id, at) && WellAnswered(after.ctl.calls, after.replies, k)
            ensures Latest(most + [a], id, at) == Some(after.replies[k].results)
          {
            OtherStepKeepsLastLatest(most, a, id, at, k);
          }
        }
      }
    }
  }

  lemma {:induction false} RunInOrder(actions: seq<Action>, at: Location)
    requires InOrder(actions)
    ensures EarlierAnswered(Run(actions).ctl.calls, Run(actions).replies) && LastIsLatestLive(actions, at)
  {
    if actions != [] {
      var most, a := actions[..|actions| - 1], actions[|actions| - 1];
      RunInOrder(most, at);
      RunKeeps(most);
      StepKeepsAnswerOrder(Run(most), a);
      assert most + [a] == actions;
      if Enabled(Run(most), a) {
        StepKeepsLastLatest(most, a, at);
      } else {
        DisabledKeepsLatest(most, a, at);
      }
    }
  }

  lemma DisabledKeepsLatest(most: seq<Action>, a: Action, at: Location)
    requires !Enabled(Run(most), a) && LastIsLatestLive(most, at)
    ensures LastIsLatestLive(most + [a], at)
  {
    RunSnoc(most, a);
    assert (most + [a])[..|most|] == most;
  }

  /** In every run in which the adapter answers in order: every file of the live session's root that
      has a breakpoint has been asked about; the last request for a file lists its breakpoints as they
      now are; and once that request has been answered at its length, each breakpoint shows the
      answer given for that very breakpoint. */
  lemma VerdictsConverge(actions: seq<Action>, at: Location)
    requires InOrder(actions)
    requires Run(actions).ctl.live.Some? && Run(actions).ctl.live.value.rootId == at.rootId
    ensures Run(actions).ctl.store.Placed(at) != map[] ==>
      exists k: nat :: LastFor(Run(actions).ctl.calls, k, Run(actions).ctl.live.value.sessionId, at)
    ensures forall k: nat :: LastFor(Run(actions).ctl.calls, k, Run(actions).ctl.live.value.sessionId, at) ==>
      Converged(Run(actions), k, at)
  {
    RunInOrder(actions, at);
    RunSettles(actions, at);
    forall k: nat | LastFor(Run(actions).ctl.calls, k, Run(actions).ctl.live.value.sessionId, at)
      ensures Converged(Run(actions), k, at)
    {
      if WellAnswered(Run(actions).ctl.calls, Run(actions).replies, k) {
        LastRequestShownExactly(actions, at, k);
      }
    }
  }

  /** Request `k` lists the file's breakpoints as they are, and its answer, if of the same length, is
      what they show. */
  ghost predicate Converged(s: System, k: nat, at: Location)
    requires k < |s.ctl.calls| && s.ctl.calls[k].SetBreakpoints?
  {
    && s.ctl.calls[k].entries == Listed(s.ctl.store.Placed(at))
    && (WellAnswered(s.ctl.calls, s.replies, k) ==> Views(s.ctl.store, at) == Shown(s.ctl.calls[k].entries, s.replies[k].results))
  }

  /** Position is all there is: an answer of the right length is shown on the breakpoints of the
      moment, whatever its request listed and whatever was answered before. */
  lemma AnyAnswerOfTheRightLengthIsShown(s: System, i: nat, results: seq<Verdict>)
    requires Sessions(s) && Verdicts(s) && s.ctl.live.Some? && Enabled(s, Answer(i, Replied(results)))
    requires s.ctl.calls[i].sessionId == s.ctl.live.value.sessionId && |results| == |s.ctl.store.Placed(s.ctl.calls[i].at)|
    ensures var at := s.ctl.calls[i].at;
      Views(Step(s, Answer(i, Replied(results))).ctl.store, at) == Shown(Listed(s.ctl.store.Placed(at)), results)
  {
    assert CallsOfLive(s.ctl.calls, s.ctl.live.value);
    assert s.ctl.store.ConsistentAt(s.ctl.calls[i].at);
    VerifiedShowsResults(s.ctl.store, s.ctl.calls[i].at, results);
  }

  const Plain := Descriptor(1, None, None, None)
  const Conditional := Descriptor(1, Some("x > 0"), None, None)

  /** A line is marked, then given a condition: two requests, neither answered. */
  function TwoEdits(at: Location): seq<Action> {
    [CallStart(at.rootId), ReturnStart("s", [])] + [EditAction(at, Toggle(1))] + [EditAction(at, Redescribe(Conditional))]
  }

  lemma AfterOneEdit(at: Location)
    ensures Run([CallStart(at.rootId), ReturnStart("s", [])] + [EditAction(at, Toggle(1))])
         == System(Controller(Some(Live("s", at.rootId, None, None)), None, Store(map[at := map[1 := Plain]], map[]),
                              [SetBreakpoints("s", at, [Plain])], []), None, {"s"}, map[])
  {
    StartedWithNothing(at.rootId);
    RunSnoc([CallStart(at.rootId), ReturnStart("s", [])], EditAction(at, Toggle(1)));
    ListedAlone(Plain);
  }

  lemma AfterTwoEdits(at: Location)
    ensures Run(TwoEdits(at))
         == System(Controller(Some(Live("s", at.rootId, None, None)), None, Store(map[at := map[1 := Conditional]], map[]),
                              [SetBreakpoints("s", at, [Plain]), SetBreakpoints("s", at, [Conditional])], []), None, {"s"}, map[])
  {
    AfterOneEdit(at);
    RunSnoc([CallStart(at.rootId), ReturnStart("s", [])] + [EditAction(at, Toggle(1))], EditAction(at, Redescribe(Conditional)));
    ListedAlone(Conditional);
    assert map[1 := Plain][1 := Conditional] == map[1 := Conditional];
    assert map[at := map[1 := Plain]][at := map[1 := Conditional]] == map[at := map[1 := Conditional]];
  }

  ghost predicate TwoRequests(s: System, at: Location) {
    && s.ctl.live == Some(Live("s", at.rootId, None, None))
    && s.ctl.calls == [SetBreakpoints("s", at, [Plain]), SetBreakpoints("s", at, [Conditional])]
    && s.ctl.store.descriptors == map[at := map[1 := Conditional]]
  }

  lemma AnswerChangesVerdictsOnly(s: System, at: Location, i: nat, reply: Reply)
    requires TwoRequests(s, at) && i < 2 && i !in s.replies
    ensures TwoRequests(Step(s, Answer(i, reply)), at)
    ensures Step(s, Answer(i, reply)).replies == s.replies[i := reply]
  {
    AnswerKeepsMarks(s, i, reply);
  }

  // ----- out of order -----

  /** So the order of answers is needed: if those two requests are answered newest first, the verdict
      on the mark without the condition is the one that stays. */
  lemma OlderAnswerCanStay(at: Location, newer: Verdict, older: Verdict)
    ensures var s := Run(TwoEdits(at) + [Answer(1, Replied([newer]))] + [Answer(0, Replied([older]))]);
      && TwoRequests(s, at) && s.replies == map[1 := Replied([newer]), 0 := Replied([older])]
      && Views(s.ctl.store, at) == [View(Conditional, Some(older))]
  {
    var most := TwoEdits(at) + [Answer(1, Replied([newer]))];
    AfterNewerAnswer(at, newer);
    RunSnoc(most, Answer(0, Replied([older])));
    AnswerChangesVerdictsOnly(Run(most), at, 0, Replied([older]));
    RunKeeps(most);
    OlderIsShown(Run(most), at, older);
  }

  lemma AfterNewerAnswer(at: Location, newer: Verdict)
    ensures var s := Run(TwoEdits(at) + [Answer(1, Replied([newer]))]); TwoRequests(s, at) && s.replies == map[1 := Replied([newer])]
  {
    AfterTwoEdits(at);
    RunSnoc(TwoEdits(at), Answer(1, Replied([newer])));
    AnswerChangesVerdictsOnly(Run(TwoEdits(at)), at, 1, Replied([newer]));
  }

  lemma OlderIsShown(s: System, at: Location, older: Verdict)
    requires Sessions(s) && Verdicts(s) && TwoRequests(s, at) && 0 !in s.replies
    ensures Views(Step(s, Answer(0, Replied([older]))).ctl.store, at) == [View(Conditional, Some(older))]
  {
    assert s.ctl.store.Placed(at) == map[1 := Conditional];
    ListedAlone(Conditional);
    AnyAnswerOfTheRightLengthIsShown(s, 0, [older]);
  }

  lemma RunSnoc(actions: seq<Action>, a: Action)
    ensures Run(actions + [a]) == Step(Run(actions), a)
  {
    assert (actions + [a])[..|actions|] == actions;
  }

  lemma StartedWithNothing(rootId: string)
    ensures Run([CallStart(rootId), ReturnStart("s", [])])
         == System(Controller(Some(Live("s", rootId, None, None)), None, Store(map[], map[]), [], []), None, {"s"}, map[])
  {
    assert [] + [CallStart(rootId)] == [CallStart(rootId)];
    assert [CallStart(rootId)] + [ReturnStart("s", [])] == [CallStart(rootId), ReturnStart("s", [])];
    RunSnoc([], CallStart(rootId));
    RunSnoc([CallStart(rootId)], ReturnStart("s", []));
    assert Run([CallStart(rootId)]).ctl.pending == Some([]);
  }

  lemma ListedAlone(d: Descriptor)
    ensures Listed(map[d.line := d]) == [d]
  {
    ListedInOrder(map[d.line := d]);
  }
}
