/** Switching to another workspace: what the claim that everything is flushed is worth afterwards. */
module LayoutSwitch {
  import opened Options
  import opened LayoutKeys
  import opened LayoutStorage

  // ----- the switch -----

  /** Nothing is on disk for a workspace that is not there, and only allowed keys for one that is. */
  predicate OnDisk(workspace: Entries, rootsOpen: bool) {
    && (rootsOpen || ScopePart(workspace, Workspace) == map[])
    && forall k :: k in workspace ==> IsPlainLayoutStorageKey(k.scope, k.key)
  }

  /** What the disk should hold: the view of the window after the switch. */
  function View(s: Storage, workspace: Entries): Entries {
    Landed(s.persisted, workspace, false, true)
  }

  lemma ViewIsVisible(s: Storage, workspace: Entries, rootsOpen: bool)
    requires OnDisk(workspace, rootsOpen)
    ensures Visible(View(s, workspace), rootsOpen) == View(s, workspace)
  {
  }

  lemma PartsOfLanded(durable: Entries, entries: Entries, profile: bool, workspace: bool)
    ensures ScopePart(Landed(durable, entries, profile, workspace), Profile) == ScopePart(if profile then entries else durable, Profile)
    ensures ScopePart(Landed(durable, entries, profile, workspace), Workspace) == ScopePart(if workspace then entries else durable, Workspace)
  {
  }

  lemma SameParts(a: Entries, b: Entries)
    requires ScopePart(a, Profile) == ScopePart(b, Profile) && ScopePart(a, Workspace) == ScopePart(b, Workspace)
    ensures a == b
  {
    LandedWhole(a, a);
    LandedWhole(b, b);
  }

  // ----- until the next edit -----

  predicate NoEdit(a: Action) {
    !a.Store? && !a.Remove?
  }

  /** The state claims to be flushed, and the disk holds what is visible. */
  ghost predicate True(s: Storage) {
    s.flushed == s.mutation && s.durable == Visible(s.persisted, s.workspaceAvailable)
  }

  /** Entries that a write can bring to the disk without changing `view` there. */
  predicate HarmlessEntries(entries: Entries, view: Entries, rootsOpen: bool) {
    Refused(entries, rootsOpen) || entries == view
  }

  /** What a write still to come does to the disk leaves `view` there. */
  predicate Harmless(w: Write, view: Entries, rootsOpen: bool) {
    match w.status
    case Queued => HarmlessEntries(w.entries, view, rootsOpen)
    case Running => HarmlessEntries(w.entries, view, rootsOpen)
    case Elsewhere => ScopePart(w.entries, Profile) == ScopePart(view, Profile)
    case _ => true
  }

  ghost predicate AllHarmless(s: Storage, view: Entries) {
    forall i :: 0 <= i < |s.writes| ==> Harmless(s.writes[i], view, s.rootsOpen)
  }

  /** So would be the write that a flush would queue now, if it would queue one. */
  predicate FlushHarmless(s: Storage, view: Entries) {
    s.mutation <= s.flushed || HarmlessEntries(Visible(s.persisted, s.workspaceAvailable), view, s.rootsOpen)
  }

  /** The disk holds `view`, and nothing under way changes that. */
  ghost predicate Calm(s: Storage, view: Entries) {
    s.durable == view && AllHarmless(s, view) && FlushHarmless(s, view)
  }

  /** No write is of an edit yet to come. */
  ghost predicate Past(s: Storage) {
    s.flushed <= s.mutation && forall i :: 0 <= i < |s.writes| ==> s.writes[i].generation <= s.mutation
  }

  /** What stays the same while nobody edits. */
  ghost predicate SameEdits(s: Storage, after: Storage) {
    && after.persisted == s.persisted && after.workspaceAvailable == s.workspaceAvailable
    && after.rootsOpen == s.rootsOpen && after.mutation == s.mutation && s.flushed <= after.flushed
  }

  lemma OnlyWritesKeepsEdits(s: Storage, after: Storage)
    requires Past(s) && OnlyWrites(s, after) && after.flushed <= s.mutation
    ensures Past(after) && SameEdits(s, after)
  {
  }

  lemma ResumeKeepsPast(s: Storage, i: nat)
    requires Past(s)
    ensures OnlyWrites(s, FlushResumed(s, i)) && FlushResumed(s, i).flushed <= s.mutation
  {
    if i < |s.writes| {
      StatusSameWrites(s.writes, i, Recorded);
    }
  }

  lemma ProceedKeepsEdits(s: Storage)
    requires Past(s)
    ensures Past(FlushProceeded(s)) && SameEdits(s, FlushProceeded(s))
  {
  }

  lemma NextKeepsEdits(s: Storage, a: Action)
    requires Past(s) && NoEdit(a)
    ensures Past(Next(s, a)) && SameEdits(s, Next(s, a))
  {
    match a
    case ProceedFlush => ProceedKeepsEdits(s);
    case StartWrite(i) =>
      StartChangesOnlyWrites(s, i);
      OnlyWritesKeepsEdits(s, Next(s, a));
    case EndWrite(i, ok, profile, workspace) =>
      EndChangesOnlyWrites(s, i, ok, profile, workspace);
      OnlyWritesKeepsEdits(s, Next(s, a));
    case ResumeFlush(i) =>
      ResumeKeepsPast(s, i);
      OnlyWritesKeepsEdits(s, Next(s, a));
    case _ =>
  }

  lemma EndOfHarmless(s: Storage, i: nat, ok: bool, profile: bool, workspace: bool, view: Entries)
    requires s.durable == view && i < |s.writes| && Harmless(s.writes[i], view, s.rootsOpen)
    ensures WriteEnded(s, i, ok, profile, workspace).durable == view
  {
    var w := s.writes[i];
    if w.status.Running? {
      LandedSame(view, ok || profile, ok || workspace);
    } else if w.status.Elsewhere? {
      PartsOfLanded(view, w.entries, ok || profile, false);
      SameParts(Landed(view, w.entries, ok || profile, false), view);
    }
  }

  lemma StatusKeepsHarmless(s: Storage, i: nat, status: Status, view: Entries)
    requires AllHarmless(s, view) && i < |s.writes|
    requires status.Running? ==> s.writes[i].status.Queued?
    requires !status.Queued? && !status.Elsewhere?
    ensures AllHarmless(s.(writes := WithStatus(s.writes, i, status)), view)
  {
  }

  lemma SameHarmless(s: Storage, after: Storage, view: Entries)
    requires AllHarmless(s, view) && after.writes == s.writes && after.rootsOpen == s.rootsOpen
    ensures AllHarmless(after, view)
  {
  }

  lemma QueuedHarmless(s: Storage, view: Entries)
    requires AllHarmless(s, view) && FlushHarmless(s, view)
    ensures AllHarmless(FlushProceeded(s), view)
  {
  }

  /** Only the end of a write changes the disk. */
  lemma OtherwiseKeepsHarmless(s: Storage, a: Action, view: Entries)
    requires NoEdit(a) && !a.EndWrite? && AllHarmless(s, view) && FlushHarmless(s, view)
    ensures AllHarmless(Next(s, a), view) && Next(s, a).durable == s.durable
  {
    match a
    case ProceedFlush => QueuedHarmless(s, view);
    case StartWrite(i) => if MayStart(s, i) { StatusKeepsHarmless(s, i, Running, view); }
    case ResumeFlush(i) =>
      if i < |s.writes| && s.writes[i].status.Written? {
        StatusKeepsHarmless(s, i, Recorded, view);
        SameHarmless(s.(writes := WithStatus(s.writes, i, Recorded)), FlushResumed(s, i), view);
      }
    case _ => SameHarmless(s, Next(s, a), view);
  }

  lemma EndKeepsHarmless(s: Storage, i: nat, ok: bool, profile: bool, workspace: bool, view: Entries)
    requires AllHarmless(s, view) && i < |s.writes|
    ensures AllHarmless(WriteEnded(s, i, ok, profile, workspace), view)
  {
    StatusKeepsHarmless(s, i, Written, view);
    StatusKeepsHarmless(s, i, Failed, view);
  }

  lemma NextKeepsCalm(s: Storage, a: Action, view: Entries)
    requires Past(s) && NoEdit(a) && Calm(s, view)
    ensures Calm(Next(s, a), view)
  {
    NextKeepsEdits(s, a);
    if a.EndWrite? {
      if a.i < |s.writes| {
        EndOfHarmless(s, a.i, a.ok, a.profile, a.workspace, view);
        EndKeepsHarmless(s, a.i, a.ok, a.profile, a.workspace, view);
      }
    } else {
      OtherwiseKeepsHarmless(s, a, view);
    }
  }

  /** Some actions, none of them an edit. */
  ghost predicate NoEdits(actions: seq<Action>) {
    forall a :: a in actions ==> NoEdit(a)
  }

  lemma {:induction false} RunKeepsEdits(s: Storage, actions: seq<Action>)
    requires Past(s) && NoEdits(actions)
    ensures Past(Run(s, actions)) && SameEdits(s, Run(s, actions))
  {
    if actions != [] {
      var most := actions[..|actions| - 1];
      assert forall a :: a in most ==> a in actions;
      RunKeepsEdits(s, most);
      NextKeepsEdits(Run(s, most), actions[|actions| - 1]);
    }
  }

  lemma {:induction false} RunKeepsCalm(s: Storage, actions: seq<Action>, view: Entries)
    requires Past(s) && NoEdits(actions) && Calm(s, view)
    ensures Calm(Run(s, actions), view)
  {
    if actions != [] {
      var most := actions[..|actions| - 1];
      assert forall a :: a in most ==> a in actions;
      RunKeepsCalm(s, most, view);
      RunKeepsEdits(s, most);
      NextKeepsCalm(Run(s, most), actions[|actions| - 1], view);
    }
  }

  // ----- a harmful write can land -----

  lemma RunSnoc(s: Storage, actions: seq<Action>, a: Action)
    ensures Run(s, actions + [a]) == Next(Run(s, actions), a)
  {
    assert (actions + [a])[..|actions|] == actions;
  }

  /** The same state but for how far the first `n` writes are. */
  ghost predicate OnlyEarlier(s: Storage, after: Storage, n: nat) {
    && |after.writes| == |s.writes| && after == s.(writes := after.writes)
    && (forall i :: n <= i < |s.writes| ==> after.writes[i] == s.writes[i])
    && (forall i :: 0 <= i < |s.writes| ==> after.writes[i].after == s.writes[i].after)
  }

  ghost predicate FirstSettled(s: Storage, n: nat) {
    n <= |s.writes| && forall i :: 0 <= i < n ==> LayoutStorage.Settled(s.writes[i])
  }

  /** One write starts, if it has not, and fails without effect. */
  lemma SettleOne(s: Storage, n: nat) returns (actions: seq<Action>)
    requires Chained(s) && FirstSettled(s, n) && n < |s.writes|
    ensures NoEdits(actions)
    ensures OnlyEarlier(s, Run(s, actions), n + 1) && FirstSettled(Run(s, actions), n + 1)
  {
    var fail := EndWrite(n, false, false, false);
    if LayoutStorage.Settled(s.writes[n]) {
      actions := [];
    } else if s.writes[n].status.Queued? {
      actions := [StartWrite(n)] + [fail];
      FirstMayStart(s, n);
      StartThenFail(s, n);
      FailedIsSettled(s, n);
    } else {
      actions := [fail];
      assert [] + [fail] == actions;
      RunSnoc(s, [], fail);
      FailsWithoutEffect(s, n);
      FailedIsSettled(s, n);
    }
  }

  lemma FailedIsSettled(s: Storage, n: nat)
    requires FirstSettled(s, n) && n < |s.writes|
    ensures var after := s.(writes := WithStatus(s.writes, n, Failed)); OnlyEarlier(s, after, n + 1) && FirstSettled(after, n + 1)
  {
  }

  lemma FailsWithoutEffect(s: Storage, n: nat)
    requires n < |s.writes| && (s.writes[n].status.Running? || s.writes[n].status.Elsewhere?)
    ensures Next(s, EndWrite(n, false, false, false)) == s.(writes := WithStatus(s.writes, n, Failed))
  {
    LandedWhole(s.durable, s.durable);
  }

  lemma FirstMayStart(s: Storage, n: nat)
    requires Chained(s) && FirstSettled(s, n) && n < |s.writes| && s.writes[n].status.Queued?
    ensures MayStart(s, n)
  {
  }

  lemma StartThenFail(s: Storage, n: nat)
    requires MayStart(s, n)
    ensures Run(s, [StartWrite(n)] + [EndWrite(n, false, false, false)]) == s.(writes := WithStatus(s.writes, n, Failed))
  {
    RunOne(s, StartWrite(n));
    RunSnoc(s, [StartWrite(n)], EndWrite(n, false, false, false));
    var started := s.(writes := WithStatus(s.writes, n, Running));
    FailsWithoutEffect(started, n);
    assert WithStatus(started.writes, n, Failed) == WithStatus(s.writes, n, Failed);
  }

  lemma RunOn(s: Storage, first: seq<Action>, second: seq<Action>)
    ensures Run(s, first + second) == Run(Run(s, first), second)
    decreases |second|
  {
    if second == [] {
      assert first + second == first;
    } else {
      var n := |second| - 1;
      assert (first + second)[..|first + second| - 1] == first + second[..n];
      RunOn(s, first, second[..n]);
    }
  }

  lemma {:induction false} SettleFirst(s: Storage, n: nat) returns (actions: seq<Action>)
    requires Chained(s) && n <= |s.writes|
    ensures NoEdits(actions)
    ensures OnlyEarlier(s, Run(s, actions), n) && FirstSettled(Run(s, actions), n)
  {
    if n == 0 {
      actions := [];
    } else {
      var most := SettleFirst(s, n - 1);
      var one := SettleOne(Run(s, most), n - 1);
      actions := most + one;
      RunOn(s, most, one);
    }
  }

  lemma RunOne(s: Storage, a: Action)
    ensures Run(s, [a]) == Next(s, a)
  {
    assert [] + [a] == [a];
    RunSnoc(s, [], a);
  }

  lemma StartedLands(s: Storage, i: nat)
    requires i < |s.writes| && s.writes[i].status.Running? && !Refused(s.writes[i].entries, s.rootsOpen)
    ensures Next(s, EndWrite(i, true, true, true)).durable == s.writes[i].entries
  {
    LandedWhole(s.durable, s.writes[i].entries);
  }

  lemma ElsewhereLands(s: Storage, i: nat, view: Entries)
    requires i < |s.writes| && s.writes[i].status.Elsewhere? && !Harmless(s.writes[i], view, s.rootsOpen)
    ensures Next(s, EndWrite(i, true, true, true)).durable != view
  {
    PartsOfLanded(s.durable, s.writes[i].entries, true, false);
  }

  lemma HarmfulLands(s: Storage, i: nat, view: Entries) returns (actions: seq<Action>)
    requires Chained(s) && FirstSettled(s, i) && i < |s.writes|
    requires !Harmless(s.writes[i], view, s.rootsOpen)
    ensures NoEdits(actions)
    ensures Run(s, actions).durable != view
  {
    var end := EndWrite(i, true, true, true);
    if s.writes[i].status.Queued? {
      actions := [StartWrite(i)] + [end];
      RunOne(s, StartWrite(i));
      RunSnoc(s, [StartWrite(i)], end);
      assert MayStart(s, i);
      StartedLands(WriteStarted(s, i), i);
    } else {
      actions := [end];
      RunOne(s, end);
      if s.writes[i].status.Running? {
        StartedLands(s, i);
      } else {
        ElsewhereLands(s, i, view);
      }
    }
  }

  lemma HarmfulWriteSpoils(s: Storage, i: nat, view: Entries) returns (actions: seq<Action>)
    requires Chained(s) && i < |s.writes| && s.durable == view && !Harmless(s.writes[i], view, s.rootsOpen)
    ensures NoEdits(actions)
    ensures Run(s, actions).durable != view
  {
    var first := SettleFirst(s, i);
    var second := HarmfulLands(Run(s, first), i, view);
    RunOn(s, first, second);
    actions := first + second;
  }

  // ----- the claim, once it is made -----

  /** True now and after everything that can happen without an edit. */
  ghost predicate StaysTrue(s: Storage) {
    forall actions: seq<Action> :: NoEdits(actions) ==> True(Run(s, actions))
  }

  lemma CalmIsTrue(s: Storage, view: Entries)
    requires Past(s) && s.flushed == s.mutation && Calm(s, view) && view == Visible(s.persisted, s.workspaceAvailable)
    ensures StaysTrue(s)
  {
    forall actions: seq<Action> | NoEdits(actions) ensures True(Run(s, actions)) {
      RunKeepsCalm(s, actions, view);
      RunKeepsEdits(s, actions);
    }
  }

  lemma HarmfulIsNotTrue(s: Storage, i: nat)
    requires Chained(s) && Past(s) && i < |s.writes|
    requires !Harmless(s.writes[i], Visible(s.persisted, s.workspaceAvailable), s.rootsOpen)
    ensures !StaysTrue(s)
  {
    var view := Visible(s.persisted, s.workspaceAvailable);
    if s.durable != view {
      assert NoEdits([]) && !True(Run(s, []));
    } else {
      var actions := HarmfulWriteSpoils(s, i, view);
      RunKeepsEdits(s, actions);
      assert !True(Run(s, actions));
    }
  }

  /** In whatever state the switch ends, edits during it included: the claim of being flushed is true,
      and stays true whatever happens until the next edit, exactly if the disk holds what is visible and
      every write still queued or running is harmless to it. */
  lemma MarkedStaysTrueExactly(s: Storage)
    requires Chained(s) && Past(s)
    ensures StaysTrue(Marked(s)) <==>
      s.durable == Visible(s.persisted, s.workspaceAvailable) && AllHarmless(s, s.durable)
  {
    var after, view := Marked(s), Visible(s.persisted, s.workspaceAvailable);
    if s.durable == view && AllHarmless(s, view) {
      CalmIsTrue(after, view);
    } else if s.durable != view {
      assert NoEdits([]) && !True(Run(after, []));
    } else {
      var i :| 0 <= i < |s.writes| && !Harmless(s.writes[i], view, s.rootsOpen);
      HarmfulIsNotTrue(after, i);
    }
  }

  // ----- the whole switch -----

  /** What goes on between the steps of a switch: after the native side has moved, after the switch has
      been called, while the read is answered, while the layout is projected, and afterwards. */
  datatype Schedule = Schedule(moved: seq<Action>, called: seq<Action>, answered: seq<Action>, projected: seq<Action>, later: seq<Action>)
  {
    ghost predicate WithoutEdits() {
      NoEdits(moved) && NoEdits(called) && NoEdits(answered) && NoEdits(projected) && NoEdits(later)
    }
  }

  function BeforeRead(s: Storage, workspace: Entries, rootsOpen: bool, c: Schedule): Storage {
    Run(Begun(Run(Moved(s, workspace, rootsOpen), c.moved)), c.called)
  }

  function BeforeMark(s: Storage, workspace: Entries, rootsOpen: bool, c: Schedule): Storage {
    var reading := BeforeRead(s, workspace, rootsOpen, c);
    Run(Seeded(Run(reading, c.answered), Read(reading)), c.projected)
  }

  function SwitchRun(s: Storage, workspace: Entries, rootsOpen: bool, c: Schedule): Storage {
    Run(Marked(BeforeMark(s, workspace, rootsOpen, c)), c.later)
  }

  /** What can be read before the switch. The profile entries in memory are those on disk; every write
      queued or running is harmless to the new view: a running one has the same profile entries, a
      queued one has exactly the entries of the view, or will be refused; and so has the write that a
      flush would queue, unless all is flushed. */
  ghost predicate SafeToSwitch(s: Storage, workspace: Entries, rootsOpen: bool) {
    && ScopePart(s.persisted, Profile) == ScopePart(s.durable, Profile)
    && (forall i :: 0 <= i < |s.writes| ==> Harmless(LeftBehind(s.writes)[i], View(s, workspace), rootsOpen))
    && (s.mutation <= s.flushed || HarmlessEntries(Visible(s.persisted, s.workspaceAvailable), View(s, workspace), rootsOpen))
  }

  ghost predicate SwitchStaysTrue(s: Storage, workspace: Entries, rootsOpen: bool) {
    forall c: Schedule :: c.WithoutEdits() ==> True(SwitchRun(s, workspace, rootsOpen, c))
  }

  lemma ProfileDecides(s: Storage, workspace: Entries)
    ensures Landed(s.durable, workspace, false, true) == View(s, workspace)
       <==> ScopePart(s.persisted, Profile) == ScopePart(s.durable, Profile)
  {
    PartsOfLanded(s.durable, workspace, false, true);
    PartsOfLanded(s.persisted, workspace, false, true);
    if ScopePart(s.persisted, Profile) == ScopePart(s.durable, Profile) {
      SameParts(Landed(s.durable, workspace, false, true), View(s, workspace));
    }
  }

  lemma MovedIsChained(s: Storage, workspace: Entries, rootsOpen: bool)
    requires Chained(s) && InOrder(s) && Past(s)
    ensures Chained(Moved(s, workspace, rootsOpen)) && InOrder(Moved(s, workspace, rootsOpen)) && Past(Moved(s, workspace, rootsOpen))
  {
  }

  lemma MovedIsCalm(s: Storage, workspace: Entries, rootsOpen: bool)
    requires SafeToSwitch(s, workspace, rootsOpen)
    ensures Calm(Moved(s, workspace, rootsOpen), View(s, workspace))
  {
    ProfileDecides(s, workspace);
  }

  /** Reading the view from disk and seeding it gives the view. */
  lemma SeededView(s: Storage, workspace: Entries, rootsOpen: bool, persisted: Entries)
    requires OnDisk(workspace, rootsOpen) && persisted == s.persisted
    ensures Landed(persisted, AllowedPart(ScopePart(View(s, workspace), Workspace)), false, true) == View(s, workspace)
  {
    PartsOfLanded(s.persisted, workspace, false, true);
    var read := ScopePart(View(s, workspace), Workspace);
    assert AllowedPart(read) == read;
    assert ScopePart(read, Workspace) == ScopePart(workspace, Workspace);
  }

  lemma SeededIsCalm(s: Storage, snapshot: Snapshot, view: Entries)
    requires AllHarmless(s, view) && s.durable == view
    requires Seeded(s, snapshot).persisted == view == Visible(view, snapshot.available)
    ensures Calm(Seeded(s, snapshot), view)
  {
    SameHarmless(s, Seeded(s, snapshot), view);
  }

  lemma ReadingIsCalm(s: Storage, workspace: Entries, rootsOpen: bool, c: Schedule)
    requires Past(s) && Chained(s) && InOrder(s) && SafeToSwitch(s, workspace, rootsOpen) && c.WithoutEdits()
    ensures var reading := BeforeRead(s, workspace, rootsOpen, c);
      Past(reading) && Calm(reading, View(s, workspace)) && reading.persisted == s.persisted && reading.rootsOpen == rootsOpen
  {
    var moved, view := Moved(s, workspace, rootsOpen), View(s, workspace);
    MovedIsChained(s, workspace, rootsOpen);
    MovedIsCalm(s, workspace, rootsOpen);
    RunKeepsCalm(moved, c.moved, view);
    RunKeepsEdits(moved, c.moved);
    var begun := Begun(Run(moved, c.moved));
    SameHarmless(Run(moved, c.moved), begun, view);
    RunKeepsCalm(begun, c.called, view);
    RunKeepsEdits(begun, c.called);
  }

  lemma MarkingIsCalm(s: Storage, workspace: Entries, rootsOpen: bool, c: Schedule)
    requires Past(s) && Chained(s) && InOrder(s) && SafeToSwitch(s, workspace, rootsOpen) && c.WithoutEdits()
    requires OnDisk(workspace, rootsOpen)
    ensures var s4, view := BeforeMark(s, workspace, rootsOpen, c), View(s, workspace);
      Past(s4) && Calm(s4, view) && view == Visible(s4.persisted, s4.workspaceAvailable)
  {
    var reading, view := BeforeRead(s, workspace, rootsOpen, c), View(s, workspace);
    ReadingIsCalm(s, workspace, rootsOpen, c);
    var answered := Run(reading, c.answered);
    RunKeepsCalm(reading, c.answered, view);
    RunKeepsEdits(reading, c.answered);
    SeededView(s, workspace, rootsOpen, answered.persisted);
    ViewIsVisible(s, workspace, rootsOpen);
    SeededIsCalm(answered, Read(reading), view);
    RunKeepsCalm(Seeded(answered, Read(reading)), c.projected, view);
    RunKeepsEdits(Seeded(answered, Read(reading)), c.projected);
  }

  lemma SafeSwitchStaysTrue(s: Storage, workspace: Entries, rootsOpen: bool)
    requires Past(s) && Chained(s) && InOrder(s) && SafeToSwitch(s, workspace, rootsOpen) && OnDisk(workspace, rootsOpen)
    ensures SwitchStaysTrue(s, workspace, rootsOpen)
  {
    forall c: Schedule | c.WithoutEdits() ensures True(SwitchRun(s, workspace, rootsOpen, c)) {
      MarkingIsCalm(s, workspace, rootsOpen, c);
      var marked := Marked(BeforeMark(s, workspace, rootsOpen, c));
      SameHarmless(BeforeMark(s, workspace, rootsOpen, c), marked, View(s, workspace));
      CalmIsTrue(marked, View(s, workspace));
      assert True(Run(marked, c.later));
    }
  }

  /** The whole switch with nothing in between. */
  function Switched(s: Storage, workspace: Entries, rootsOpen: bool): Storage {
    var begun := Begun(Moved(s, workspace, rootsOpen));
    Marked(Seeded(begun, Read(begun)))
  }

  /** A flush goes on after the native side has moved; then the switch runs through at once. */
  function FlushedSwitch(s: Storage, workspace: Entries, rootsOpen: bool): Storage {
    var begun := Begun(FlushProceeded(FlushCalled(Moved(s, workspace, rootsOpen))));
    Marked(Seeded(begun, Read(begun)))
  }

  lemma SwitchedRun(s: Storage, workspace: Entries, rootsOpen: bool, later: seq<Action>)
    ensures SwitchRun(s, workspace, rootsOpen, Schedule([], [], [], [], later)) == Run(Switched(s, workspace, rootsOpen), later)
    ensures SwitchRun(s, workspace, rootsOpen, Schedule([CallFlush] + [ProceedFlush], [], [], [], later))
         == Run(FlushedSwitch(s, workspace, rootsOpen), later)
  {
    var moved := Moved(s, workspace, rootsOpen);
    RunOne(moved, CallFlush);
    RunSnoc(moved, [CallFlush], ProceedFlush);
  }

  lemma UnsafeSchedule(s: Storage, workspace: Entries, rootsOpen: bool)
    requires SwitchStaysTrue(s, workspace, rootsOpen)
    ensures StaysTrue(Switched(s, workspace, rootsOpen)) && StaysTrue(FlushedSwitch(s, workspace, rootsOpen))
  {
    forall later: seq<Action> | NoEdits(later)
      ensures True(Run(Switched(s, workspace, rootsOpen), later)) && True(Run(FlushedSwitch(s, workspace, rootsOpen), later))
    {
      SwitchedRun(s, workspace, rootsOpen, later);
      assert Schedule([], [], [], [], later).WithoutEdits();
      assert Schedule([CallFlush] + [ProceedFlush], [], [], [], later).WithoutEdits();
    }
  }

  /** What is visible after such a switch, in which nothing has landed. */
  lemma SwitchedView(s: Storage, workspace: Entries, rootsOpen: bool, begun: Storage)
    requires OnDisk(workspace, rootsOpen)
    requires begun.persisted == s.persisted && begun.rootsOpen == rootsOpen && begun.durable == Landed(s.durable, workspace, false, true)
    ensures var after := Seeded(begun, Read(begun)); Visible(after.persisted, after.workspaceAvailable) == View(s, workspace)
  {
    PartsOfLanded(s.durable, workspace, false, true);
    PartsOfLanded(s.persisted, workspace, false, true);
    SeededView(s, workspace, rootsOpen, s.persisted);
    ViewIsVisible(s, workspace, rootsOpen);
  }

  lemma SafeIfSwitchedTrue(s: Storage, workspace: Entries, rootsOpen: bool)
    requires Past(s) && Chained(s) && InOrder(s) && OnDisk(workspace, rootsOpen) && StaysTrue(Switched(s, workspace, rootsOpen))
    ensures ScopePart(s.persisted, Profile) == ScopePart(s.durable, Profile)
    ensures forall i :: 0 <= i < |s.writes| ==> Harmless(LeftBehind(s.writes)[i], View(s, workspace), rootsOpen)
  {
    var begun := Begun(Moved(s, workspace, rootsOpen));
    MovedIsChained(s, workspace, rootsOpen);
    SwitchedView(s, workspace, rootsOpen, begun);
    MarkedStaysTrueExactly(Seeded(begun, Read(begun)));
    ProfileDecides(s, workspace);
  }

  lemma FlushSafeIfTrue(s: Storage, workspace: Entries, rootsOpen: bool)
    requires Past(s) && Chained(s) && InOrder(s) && OnDisk(workspace, rootsOpen) && StaysTrue(FlushedSwitch(s, workspace, rootsOpen))
    requires s.mutation > s.flushed
    ensures HarmlessEntries(Visible(s.persisted, s.workspaceAvailable), View(s, workspace), rootsOpen)
  {
    var moved := Moved(s, workspace, rootsOpen);
    var begun := Begun(FlushProceeded(FlushCalled(moved)));
    MovedIsChained(s, workspace, rootsOpen);
    QueuedInOrder(FlushCalled(moved));
    SwitchedView(s, workspace, rootsOpen, begun);
    MarkedStaysTrueExactly(Seeded(begun, Read(begun)));
    var i := |s.writes|;
    assert begun.writes[i].status.Queued? && begun.writes[i].entries == Visible(s.persisted, s.workspaceAvailable);
  }

  /** After a switch the state claims to be flushed. The claim is true at its end, and stays true until
      the next edit, in every interleaving of its steps with timers, flushes and writes, exactly if the
      switch was safe. */
  lemma SwitchStaysTrueExactly(s: Storage, workspace: Entries, rootsOpen: bool)
    requires Inv(s) && OnDisk(workspace, rootsOpen)
    ensures SwitchStaysTrue(s, workspace, rootsOpen) <==> SafeToSwitch(s, workspace, rootsOpen)
  {
    assert Past(s);
    if SafeToSwitch(s, workspace, rootsOpen) {
      SafeSwitchStaysTrue(s, workspace, rootsOpen);
    }
    if SwitchStaysTrue(s, workspace, rootsOpen) {
      UnsafeSchedule(s, workspace, rootsOpen);
      SafeIfSwitchedTrue(s, workspace, rootsOpen);
      if s.mutation > s.flushed {
        FlushSafeIfTrue(s, workspace, rootsOpen);
      }
    }
  }

  lemma IdleIsHarmless(s: Storage, workspace: Entries, rootsOpen: bool)
    requires forall i :: 0 <= i < |s.writes| ==> LayoutStorage.Settled(s.writes[i])
    ensures forall i :: 0 <= i < |s.writes| ==> Harmless(LeftBehind(s.writes)[i], View(s, workspace), rootsOpen)
  {
  }

  lemma FlushedProfileAgrees(s: Storage)
    requires s.durable == Visible(s.persisted, s.workspaceAvailable)
    ensures ScopePart(s.persisted, Profile) == ScopePart(s.durable, Profile)
  {
  }

  /** In particular a switch from a flushed state with no write queued or running is safe. */
  lemma IdleSwitchIsSafe(s: Storage, actions: seq<Action>, workspace: Entries, rootsOpen: bool)
    requires Initial(s) && OnDisk(workspace, rootsOpen)
    requires Run(s, actions).flushed == Run(s, actions).mutation
    requires forall i :: 0 <= i < |Run(s, actions).writes| ==> LayoutStorage.Settled(Run(s, actions).writes[i])
    ensures SwitchStaysTrue(Run(s, actions), workspace, rootsOpen)
  {
    RunKeeps(s, actions);
    FlushedAgreesWithDisk(s, actions);
    FlushedProfileAgrees(Run(s, actions));
    IdleIsHarmless(Run(s, actions), workspace, rootsOpen);
    SwitchStaysTrueExactly(Run(s, actions), workspace, rootsOpen);
  }

  // ----- a second write of overlapping flushes -----

  /** One edit, and two flushes that both proceed before either write has started. */
  function BothProceed(key: string, value: string): seq<Action> {
    [Store(Some(Profile), key, Some(value)), CallFlush] + [CallFlush] + [ProceedFlush] + [ProceedFlush]
  }

  function Lands(i: nat): seq<Action> {
    [StartWrite(i)] + [EndWrite(i, true, true, true)] + [ResumeFlush(i)]
  }

  lemma AfterEditAndCalls(s: Storage, key: string, value: string)
    requires Initial(s) && s.persisted == map[] && IsPlainLayoutStorageKey(Profile, key)
    ensures Run(s, [Store(Some(Profile), key, Some(value)), CallFlush] + [CallFlush])
         == s.(persisted := map[EntryKey(Profile, key) := value], mutation := 1, timer := true, entered := 2)
  {
    var edit := Store(Some(Profile), key, Some(value));
    assert [edit] + [CallFlush] == [edit, CallFlush];
    RunOne(s, edit);
    RunSnoc(s, [edit], CallFlush);
    RunSnoc(s, [edit, CallFlush], CallFlush);
  }

  lemma AfterBothProceed(s: Storage, key: string, value: string)
    requires Initial(s) && s.persisted == map[] && IsPlainLayoutStorageKey(Profile, key)
    ensures var e := map[EntryKey(Profile, key) := value];
      Run(s, BothProceed(key, value))
      == s.(persisted := e, mutation := 1, writes := [Write(1, e, 0, Queued), Write(1, e, 1, Queued)], tail := 2)
  {
    var called := [Store(Some(Profile), key, Some(value)), CallFlush] + [CallFlush];
    var e := map[EntryKey(Profile, key) := value];
    AfterEditAndCalls(s, key, value);
    RunSnoc(s, called, ProceedFlush);
    assert Visible(e, s.workspaceAvailable) == e;
    assert Run(s, called + [ProceedFlush])
        == s.(persisted := e, mutation := 1, entered := 1, writes := [Write(1, e, 0, Queued)], tail := 1);
    RunSnoc(s, called + [ProceedFlush], ProceedFlush);
  }

  /** A write that starts, succeeds and is recorded leaves its entries on disk. */
  lemma AfterLands(s: Storage, i: nat)
    requires MayStart(s, i) && !Refused(s.writes[i].entries, s.rootsOpen)
    requires s.mutation == if s.flushed < s.writes[i].generation then s.writes[i].generation else s.flushed
    ensures Run(s, Lands(i)) == s.(writes := WithStatus(s.writes, i, Recorded), durable := s.writes[i].entries, flushed := s.mutation)
  {
    LandedWhole(s.durable, s.writes[i].entries);
    RunOne(s, StartWrite(i));
    RunSnoc(s, [StartWrite(i)], EndWrite(i, true, true, true));
    var ended := s.(writes := WithStatus(s.writes, i, Written), durable := s.writes[i].entries);
    assert WithStatus(WithStatus(s.writes, i, Running), i, Written) == WithStatus(s.writes, i, Written);
    assert Run(s, [StartWrite(i)] + [EndWrite(i, true, true, true)]) == ended;
    RunSnoc(s, [StartWrite(i)] + [EndWrite(i, true, true, true)], ResumeFlush(i));
    assert WithStatus(ended.writes, i, Recorded) == WithStatus(s.writes, i, Recorded);
  }

  lemma AfterFirstLands(s: Storage, key: string, value: string)
    requires Initial(s) && s.persisted == map[] && IsPlainLayoutStorageKey(Profile, key)
    ensures var e := map[EntryKey(Profile, key) := value];
      Run(s, BothProceed(key, value) + Lands(0))
      == s.(persisted := e, mutation := 1, flushed := 1, writes := [Write(1, e, 0, Recorded), Write(1, e, 1, Queued)], tail := 2,
            durable := e)
  {
    var e := map[EntryKey(Profile, key) := value];
    AfterBothProceed(s, key, value);
    var both := Run(s, BothProceed(key, value));
    RunOn(s, BothProceed(key, value), Lands(0));
    assert ScopePart(e, Workspace) == map[];
    AfterLands(both, 0);
    assert WithStatus(both.writes, 0, Recorded) == [Write(1, e, 0, Recorded), Write(1, e, 1, Queued)];
  }

  lemma OneScopeOnly(key: string, value: string, workspace: Entries)
    requires ScopePart(workspace, Workspace) != map[]
    ensures var e := map[EntryKey(Profile, key) := value]; e != Landed(e, workspace, false, true) && ScopePart(e, Workspace) == map[]
  {
    var e := map[EntryKey(Profile, key) := value];
    PartsOfLanded(e, workspace, false, true);
    assert ScopePart(e, Workspace) == map[];
  }

  lemma SwitchedIs(s: Storage, workspace: Entries, rootsOpen: bool)
    requires OnDisk(workspace, rootsOpen)
    ensures Switched(s, workspace, rootsOpen)
         == s.(timer := false, rootsOpen := rootsOpen, workspaceAvailable := rootsOpen, writes := LeftBehind(s.writes),
               durable := Landed(s.durable, workspace, false, true), persisted := View(s, workspace),
               mutation := s.mutation + 1, flushed := s.mutation + 1)
  {
    PartsOfLanded(s.durable, workspace, false, true);
    PartsOfLanded(s.persisted, workspace, false, true);
    SeededView(s, workspace, rootsOpen, s.persisted);
  }

  /** Being flushed, and in agreement with the disk, is not enough for a safe switch. The first of two
      overlapping writes has been recorded; the second is still queued; after the switch it lands with
      the entries of the workspace that was left, and takes the new one's from the disk, while the
      state is quiet and claims to be flushed. */
  lemma SecondWriteSpoilsSwitch(s: Storage, key: string, value: string, workspace: Entries)
    requires Initial(s) && s.persisted == map[] && s.workspaceAvailable && OnDisk(workspace, true)
    requires IsPlainLayoutStorageKey(Profile, key) && ScopePart(workspace, Workspace) != map[]
    ensures var before := Run(s, BothProceed(key, value) + Lands(0));
      && True(before) && ScopePart(before.persisted, Profile) == ScopePart(before.durable, Profile)
      && var end := Run(Switched(before, workspace, true), Lands(1));
      Quiet(end) && end.flushed == end.mutation && end.durable != Visible(end.persisted, end.workspaceAvailable)
  {
    var e := map[EntryKey(Profile, key) := value];
    AfterFirstLands(s, key, value);
    assert Visible(e, true) == e;
    SecondLands(Run(s, BothProceed(key, value) + Lands(0)), key, value, workspace);
  }

  lemma SecondLands(before: Storage, key: string, value: string, workspace: Entries)
    requires OnDisk(workspace, true) && ScopePart(workspace, Workspace) != map[] && !before.timer && before.entered == 0
    requires var e := map[EntryKey(Profile, key) := value];
      && before.persisted == e && before.mutation == 1 && before.flushed == 1 && before.tail == 2
      && before.writes == [Write(1, e, 0, Recorded), Write(1, e, 1, Queued)]
    ensures var end := Run(Switched(before, workspace, true), Lands(1));
      Quiet(end) && end.flushed == end.mutation && end.durable != Visible(end.persisted, end.workspaceAvailable)
  {
    SwitchedIs(before, workspace, true);
    OneScopeOnly(key, value, workspace);
    ViewIsVisible(before, workspace, true);
    LastLands(before, Switched(before, workspace, true), map[EntryKey(Profile, key) := value]);
  }

  lemma LastLands(before: Storage, switched: Storage, e: Entries)
    requires before.writes == [Write(1, e, 0, Recorded), Write(1, e, 1, Queued)] && !before.timer && before.entered == 0
    requires switched.writes == LeftBehind(before.writes) && !switched.timer && switched.entered == before.entered
    requires switched.rootsOpen && switched.flushed == switched.mutation >= 1
    ensures var end := Run(switched, Lands(1));
      && Quiet(end) && end.flushed == end.mutation && end.durable == e
      && end.persisted == switched.persisted && end.workspaceAvailable == switched.workspaceAvailable
  {
    assert switched.writes == before.writes;
    AfterLands(switched, 1);
  }

  // ----- a flush that is called before the switch and proceeds during it -----

  /** One edit of a workspace entry, and a flush that has been called and not yet looked at the state. */
  function EditThenFlush(key: string, value: string): seq<Action> {
    [Store(Some(Workspace), key, Some(value))] + [CallFlush]
  }

  function FlushDuringRead(i: nat): Schedule {
    Schedule([], [ProceedFlush], [], [], Lands(i))
  }

  lemma AfterEditThenFlush(s: Storage, key: string, value: string)
    requires Initial(s) && s.persisted == map[] && IsPlainLayoutStorageKey(Workspace, key)
    ensures Run(s, EditThenFlush(key, value))
         == s.(persisted := map[EntryKey(Workspace, key) := value], mutation := 1, timer := true, entered := 1)
  {
    RunOne(s, Store(Some(Workspace), key, Some(value)));
    RunSnoc(s, [Store(Some(Workspace), key, Some(value))], CallFlush);
  }

  /** Nothing that is queued or running before the switch is harmful, and no edit comes during it; but
      the flush proceeds while the read is under way, and its write, with the entries of the workspace
      that was left, lands in the new one. The switch is not safe, and the end is quiet and untrue. */
  lemma WaitingFlushSpoilsSwitch(s: Storage, key: string, value: string, workspace: Entries)
    requires Initial(s) && s.persisted == map[] && s.workspaceAvailable && OnDisk(workspace, true)
    requires IsPlainLayoutStorageKey(Workspace, key)
    requires Landed(map[], workspace, false, true) != map[EntryKey(Workspace, key) := value]
    ensures var before := Run(s, EditThenFlush(key, value));
      && before.writes == [] && !SafeToSwitch(before, workspace, true)
      && var end := SwitchRun(before, workspace, true, FlushDuringRead(0));
      Quiet(end) && end.flushed == end.mutation && end.durable != Visible(end.persisted, end.workspaceAvailable)
  {
    var e := map[EntryKey(Workspace, key) := value];
    AfterEditThenFlush(s, key, value);
    var before := Run(s, EditThenFlush(key, value));
    OnlyWorkspace(key, value, workspace);
    FlushedDuringRead(before, workspace, e);
    var marked := Marked(BeforeMark(before, workspace, true, FlushDuringRead(0)));
    AfterLands(marked, 0);
    ViewIsVisible(before, workspace, true);
  }

  lemma OnlyWorkspace(key: string, value: string, workspace: Entries)
    ensures var e := map[EntryKey(Workspace, key) := value];
      Landed(e, workspace, false, true) == Landed(map[], workspace, false, true) && Visible(e, true) == e
  {
    assert ScopePart(map[EntryKey(Workspace, key) := value], Profile) == ScopePart(map[], Profile);
  }

  lemma FlushedDuringRead(s: Storage, workspace: Entries, e: Entries)
    requires OnDisk(workspace, true) && s.persisted == e == Visible(e, true) && s.workspaceAvailable
    requires s.writes == [] && s.tail == 0 && s.entered == 1 && s.mutation == 1 && s.flushed == 0
    ensures Marked(BeforeMark(s, workspace, true, FlushDuringRead(0)))
         == s.(timer := false, entered := 0, rootsOpen := true, writes := [Write(1, e, 0, Queued)], tail := 1,
               durable := Landed(s.durable, workspace, false, true), persisted := View(s, workspace), mutation := 2, flushed := 2)
  {
    PartsOfLanded(s.durable, workspace, false, true);
    PartsOfLanded(s.persisted, workspace, false, true);
    SeededView(s, workspace, true, s.persisted);
    var begun := Begun(Moved(s, workspace, true));
    RunOne(begun, ProceedFlush);
    assert LeftBehind(s.writes) == [];
  }

  /** A switch with a profile edit still waiting loses it: nothing is left that would write it. */
  lemma SwitchLosesWaitingEdit(s: Storage, key: string, value: string, workspace: Entries, rootsOpen: bool)
    requires Initial(s) && IsPlainLayoutStorageKey(Profile, key) && EntryKey(Profile, key) !in s.persisted
    requires OnDisk(workspace, rootsOpen)
    ensures var r := Switched(Stored(s, Some(Profile), key, Some(value)), workspace, rootsOpen);
      && EntryKey(Profile, key) in r.persisted && EntryKey(Profile, key) !in r.durable
      && Quiet(r) && r.flushed == r.mutation
  {
    SwitchedIs(Stored(s, Some(Profile), key, Some(value)), workspace, rootsOpen);
  }

  /** So does one with an edit made while the layout is projected, between seeding and marking: the
      timer it sets finds nothing to flush. */
  lemma EditWhileProjectedIsLost(s: Storage, key: string, value: string)
    requires s.writes == [] && s.entered == 0 && IsPlainLayoutStorageKey(Profile, key) && EntryKey(Profile, key) !in s.durable
    ensures var r := Run(Marked(Stored(s, Some(Profile), key, Some(value))), [FireTimer] + [ProceedFlush]);
      && EntryKey(Profile, key) in r.persisted && EntryKey(Profile, key) !in r.durable
      && Quiet(r) && r.flushed == r.mutation
  {
    var marked := Marked(Stored(s, Some(Profile), key, Some(value)));
    RunOne(marked, FireTimer);
    RunSnoc(marked, [FireTimer], ProceedFlush);
  }
}
