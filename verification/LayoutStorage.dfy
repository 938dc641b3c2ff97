/** Layout storage that is written behind: edits are kept in memory at once and written to disk later,
    by a timer or an explicit flush, through a queue of writes that may fail. */
module LayoutKeys {
  datatype Scope = Profile | Workspace

  const ProfileExactKeys: set<string> := {
    "views.customizations",
    "workbench.auxiliaryBar.empty",
    "workbench.auxiliaryBar.lastNonMaximizedSize",
    "workbench.auxiliaryBar.size",
    "workbench.panel.alignment",
    "workbench.panel.lastNonMaximizedHeight",
    "workbench.panel.lastNonMaximizedWidth",
    "workbench.panel.placeholderPanels",
    "workbench.panel.pinnedPanels",
    "workbench.panel.size",
    "workbench.sideBar.size",
    "workbench.activity.pinnedViewlets2",
    "workbench.activity.placeholderViewlets",
    "workbench.auxiliarybar.pinnedPanels",
    "workbench.auxiliarybar.placeholderPanels"
  }

  const WorkspaceExactKeys: set<string> := {
    "workbench.activityBar.hidden",
    "workbench.auxiliaryBar.hidden",
    "workbench.auxiliaryBar.lastNonMaximizedVisibility",
    "workbench.auxiliaryBar.wasLastMaximized",
    "workbench.editor.centered",
    "workbench.editor.hidden",
    "workbench.panel.hidden",
    "workbench.panel.position",
    "workbench.panel.wasLastMaximized",
    "workbench.sideBar.hidden",
    "workbench.sideBar.position",
    "workbench.statusBar.hidden",
    "workbench.zenMode.active",
    "workbench.zenMode.exitInfo",
    "workbench.sidebar.activeviewletid",
    "workbench.panelpart.activepanelid",
    "workbench.auxiliarybar.activepanelid",
    "workbench.activity.viewletsWorkspaceState",
    "workbench.panel.viewContainersWorkspaceState",
    "workbench.auxiliarybar.viewContainersWorkspaceState"
  }

  const ViewStorageIds: set<string> := {
    "workbench.explorer.views.state",
    "workbench.view.search",
    "plain.workbench.viewContainer.scm",
    "plain.workbench.viewContainer.terminal",
    "plain.workbench.viewContainer.debug",
    "plain.workbench.viewContainer.debugConsole"
  }

  predicate IsPlainLayoutStorageKey(scope: Scope, key: string) {
    || key in (if scope.Profile? then ProfileExactKeys else WorkspaceExactKeys)
    || exists id :: id in ViewStorageIds &&
         if scope.Profile? then key == id + ".hidden" else key == id || key == id + ".numberOfVisibleViews"
  }

  /** Whether a view is hidden belongs to the profile, its state and how many are shown to the workspace. */
  lemma ViewKeysByScope(id: string)
    requires id in ViewStorageIds
    ensures IsPlainLayoutStorageKey(Profile, id + ".hidden")
    ensures IsPlainLayoutStorageKey(Workspace, id) && IsPlainLayoutStorageKey(Workspace, id + ".numberOfVisibleViews")
  {
  }

  /** Sizes belong to the profile, what is shown to the workspace. */
  lemma PartKeysByScope()
    ensures IsPlainLayoutStorageKey(Profile, "workbench.sideBar.size") && IsPlainLayoutStorageKey(Workspace, "workbench.sideBar.hidden")
  {
  }

  /** A key of one scope's list is not on the other's. */
  lemma ListsAreApart()
    ensures ProfileExactKeys !! WorkspaceExactKeys
  {
  }
}

module LayoutStorage {
  import opened Options
  import opened LayoutKeys

  datatype EntryKey = EntryKey(scope: Scope, key: string)

  type Entries = map<EntryKey, string>

  /** `Recorded`: written, and the flush that asked for it has gone on. `Elsewhere`: running, for a
      workspace that has been left since. */
  datatype Status = Queued | Running | Elsewhere | Written | Failed | Recorded

  /** `after` is the write whose end the promise chain makes this one wait for, counted from one. */
  datatype Write = Write(generation: nat, entries: Entries, after: nat, status: Status)

  /** `entered` counts the flushes that have been called and have not yet looked at the state;
      `durable` is what is on disk for the profile and the workspace open on the native side, and
      `rootsOpen` whether there is one. A write is `Running` once the native side has taken it. */
  datatype Storage = Storage(persisted: Entries, workspaceAvailable: bool, rootsOpen: bool, mutation: nat, flushed: nat,
                             timer: bool, entered: nat, writes: seq<Write>, tail: nat, durable: Entries)

  predicate Settled(w: Write) {
    w.status.Written? || w.status.Failed? || w.status.Recorded?
  }

  function Visible(persisted: Entries, workspaceAvailable: bool): Entries {
    map k | k in persisted && (k.scope.Profile? || workspaceAvailable) :: persisted[k]
  }

  function ScopePart(entries: Entries, scope: Scope): Entries {
    map k | k in entries && k.scope == scope :: entries[k]
  }

  /** The profile and the workspace entries lie in files of their own: either can be replaced. */
  function Landed(durable: Entries, entries: Entries, profile: bool, workspace: bool): Entries {
    ScopePart(if profile then entries else durable, Profile) + ScopePart(if workspace then entries else durable, Workspace)
  }

  lemma LandedWhole(durable: Entries, entries: Entries)
    ensures Landed(durable, entries, true, true) == entries
  {
  }

  lemma LandedSame(entries: Entries, profile: bool, workspace: bool)
    ensures Landed(entries, entries, profile, workspace) == entries
  {
  }

  // ----- the steps -----

  function Dirtied(s: Storage, persisted: Entries): Storage {
    s.(persisted := persisted, mutation := s.mutation + 1, timer := true)
  }

  /** `stored` is what the inherited store holds under the key after storing. */
  function Stored(s: Storage, scope: Option<Scope>, key: string, stored: Option<string>): Storage {
    if scope == None || !IsPlainLayoutStorageKey(scope.value, key) || stored == None then s
    else Dirtied(s, s.persisted[EntryKey(scope.value, key) := stored.value])
  }

  function Removed(s: Storage, scope: Option<Scope>, key: string): Storage {
    if scope == None || !IsPlainLayoutStorageKey(scope.value, key) then s
    else Dirtied(s, s.persisted - {EntryKey(scope.value, key)})
  }

  function FlushCalled(s: Storage): Storage {
    s.(entered := s.entered + 1)
  }

  function TimerFired(s: Storage): Storage {
    if s.timer then FlushCalled(s.(timer := false)) else s
  }

  function FlushProceeded(s: Storage): Storage {
    if s.entered == 0 then s
    else
      var s := s.(entered := s.entered - 1, timer := false);
      if s.mutation <= s.flushed then s
      else
        s.(writes := s.writes + [Write(s.mutation, Visible(s.persisted, s.workspaceAvailable), s.tail, Queued)],
           tail := |s.writes| + 1)
  }

  function WithStatus(writes: seq<Write>, i: nat, status: Status): seq<Write>
    requires i < |writes|
  {
    writes[i := writes[i].(status := status)]
  }

  predicate MayStart(s: Storage, i: nat) {
    && i < |s.writes| && s.writes[i].status.Queued?
    && (s.writes[i].after == 0 || (s.writes[i].after <= |s.writes| && Settled(s.writes[s.writes[i].after - 1])))
  }

  function WriteStarted(s: Storage, i: nat): Storage {
    if MayStart(s, i) then s.(writes := WithStatus(s.writes, i, Running)) else s
  }

  /** Without a workspace, a write that carries workspace entries is refused. */
  predicate Refused(entries: Entries, rootsOpen: bool) {
    !rootsOpen && ScopePart(entries, Workspace) != map[]
  }

  /** A write that fails may or may not have replaced either file; the workspace file is that of the
      workspace in which the write started to run. */
  function WriteEnded(s: Storage, i: nat, ok: bool, profile: bool, workspace: bool): Storage {
    if i >= |s.writes| || !(s.writes[i].status.Running? || s.writes[i].status.Elsewhere?) then s
    else
      var w := s.writes[i];
      if w.status.Running? && Refused(w.entries, s.rootsOpen) then s.(writes := WithStatus(s.writes, i, Failed))
      else
        s.(writes := WithStatus(s.writes, i, if ok then Written else Failed),
           durable := Landed(s.durable, w.entries, ok || profile, w.status.Running? && (ok || workspace)))
  }

  function FlushResumed(s: Storage, i: nat): Storage {
    if i < |s.writes| && s.writes[i].status.Written? then
      var flushed := if s.flushed < s.writes[i].generation then s.writes[i].generation else s.flushed;
      s.(writes := WithStatus(s.writes, i, Recorded), flushed := flushed, timer := s.timer || s.mutation > flushed)
    else s
  }

  // ----- the steps of a switch to another workspace -----

  /** Writes that are running keep the workspace they started in; queued ones will find the new one. */
  function LeftBehind(writes: seq<Write>): seq<Write> {
    seq(|writes|, i requires 0 <= i < |writes| => if writes[i].status.Running? then writes[i].(status := Elsewhere) else writes[i])
  }

  /** The native side has moved to another workspace, with its own entries on disk, or to none. */
  function Moved(s: Storage, workspace: Entries, rootsOpen: bool): Storage {
    s.(rootsOpen := rootsOpen, writes := LeftBehind(s.writes), durable := Landed(s.durable, workspace, false, true))
  }

  /** The switch has been called. */
  function Begun(s: Storage): Storage {
    s.(timer := false)
  }

  /** What a read answers. */
  datatype Snapshot = Snapshot(workspace: Entries, available: bool)

  function Read(s: Storage): Snapshot {
    Snapshot(ScopePart(s.durable, Workspace), s.rootsOpen)
  }

  function AllowedPart(entries: Entries): Entries {
    map k | k in entries && IsPlainLayoutStorageKey(k.scope, k.key) :: entries[k]
  }

  /** The answer has come: the workspace entries are replaced, the profile entries are kept. */
  function Seeded(s: Storage, snapshot: Snapshot): Storage {
    s.(workspaceAvailable := snapshot.available, persisted := Landed(s.persisted, AllowedPart(snapshot.workspace), false, true))
  }

  /** After the new layout has been projected into the window, all counts as flushed. */
  function Marked(s: Storage): Storage {
    s.(mutation := s.mutation + 1, flushed := s.mutation + 1)
  }

  datatype Action =
    | Store(scope: Option<Scope>, key: string, stored: Option<string>)
    | Remove(scope: Option<Scope>, key: string)
    | CallFlush
    | FireTimer
    | ProceedFlush
    | StartWrite(i: nat)
    | EndWrite(i: nat, ok: bool, profile: bool, workspace: bool)
    | ResumeFlush(i: nat)

  function Next(s: Storage, a: Action): Storage {
    match a
    case Store(scope, key, stored) => Stored(s, scope, key, stored)
    case Remove(scope, key) => Removed(s, scope, key)
    case CallFlush => FlushCalled(s)
    case FireTimer => TimerFired(s)
    case ProceedFlush => FlushProceeded(s)
    case StartWrite(i) => WriteStarted(s, i)
    case EndWrite(i, ok, profile, workspace) => WriteEnded(s, i, ok, profile, workspace)
    case ResumeFlush(i) => FlushResumed(s, i)
  }

  function Run(s: Storage, actions: seq<Action>): Storage {
    if actions == [] then s else Next(Run(s, actions[..|actions| - 1]), actions[|actions| - 1])
  }

  /** The service as constructed from what was on disk, which holds allowed keys only, and entries of
      the workspace only when there is one. */
  ghost predicate Initial(s: Storage) {
    && s.mutation == s.flushed == s.entered == s.tail == 0 && !s.timer && s.writes == []
    && s.durable == Visible(s.persisted, s.workspaceAvailable)
    && AllowedOnly(s.persisted) && s.rootsOpen == s.workspaceAvailable
  }

  ghost predicate AllowedOnly(entries: Entries) {
    forall k :: k in entries ==> IsPlainLayoutStorageKey(k.scope, k.key)
  }

  // ----- the service -----

  class PlainLayoutStorageService {
    var persisted: Entries
    var workspaceAvailable: bool
    var mutationGeneration: nat
    var flushedGeneration: nat
    var flushTimer: bool
    var entered: nat
    var writes: seq<Write>
    var writeTail: nat
    ghost var durable: Entries
    ghost var rootsOpen: bool

    ghost function State(): Storage
      reads this
    {
      Storage(persisted, workspaceAvailable, rootsOpen, mutationGeneration, flushedGeneration, flushTimer, entered, writes, writeTail, durable)
    }

    /** Takes over the allowed keys of what is on disk. */
    constructor (snapshot: Entries, workspaceAvailable: bool)
      ensures persisted == map k | k in snapshot && IsPlainLayoutStorageKey(k.scope, k.key) :: snapshot[k]
      ensures durable == snapshot && this.workspaceAvailable == workspaceAvailable
      ensures AllowedOnly(snapshot) && Visible(snapshot, workspaceAvailable) == snapshot ==> Initial(State())
    {
      persisted := map k | k in snapshot && IsPlainLayoutStorageKey(k.scope, k.key) :: snapshot[k];
      durable, this.workspaceAvailable, rootsOpen := snapshot, workspaceAvailable, workspaceAvailable;
      mutationGeneration, flushedGeneration, flushTimer, entered, writes, writeTail := 0, 0, false, 0, [], 0;
    }

    method MarkDirty()
      modifies this`mutationGeneration, this`flushTimer
      ensures mutationGeneration == old(mutationGeneration) + 1 && flushTimer
    {
      mutationGeneration := mutationGeneration + 1;
      flushTimer := true;
    }

    method StoreEntry(scope: Option<Scope>, key: string, stored: Option<string>)
      modifies this
      ensures State() == Stored(old(State()), scope, key, stored)
      ensures persisted == if scope.Some? && stored.Some? && IsPlainLayoutStorageKey(scope.value, key)
                           then old(persisted)[EntryKey(scope.value, key) := stored.value] else old(persisted)
    {
      if scope == None || !IsPlainLayoutStorageKey(scope.value, key) {
        return;
      }
      if stored == None {
        return;
      }
      persisted := persisted[EntryKey(scope.value, key) := stored.value];
      MarkDirty();
    }

    method RemoveEntry(scope: Option<Scope>, key: string)
      modifies this
      ensures State() == Removed(old(State()), scope, key)
      ensures persisted == if scope.Some? && IsPlainLayoutStorageKey(scope.value, key)
                           then old(persisted) - {EntryKey(scope.value, key)} else old(persisted)
    {
      if scope == None || !IsPlainLayoutStorageKey(scope.value, key) {
        return;
      }
      persisted := persisted - {EntryKey(scope.value, key)};
      MarkDirty();
    }

    method OnTimer()
      requires flushTimer
      modifies this
      ensures State() == TimerFired(old(State()))
      ensures !flushTimer && entered == old(entered) + 1
    {
      flushTimer := false;
      entered := entered + 1;
    }

    /** The part of `flush` after the inherited flush and before the write. */
    method ProceedFlush()
      requires entered > 0
      modifies this
      ensures State() == FlushProceeded(old(State()))
      ensures !flushTimer && |writes| == |old(writes)| + if old(mutationGeneration) > old(flushedGeneration) then 1 else 0
    {
      entered := entered - 1;
      if flushTimer {
        flushTimer := false;
      }
      var generation := mutationGeneration;
      if generation <= flushedGeneration {
        return;
      }
      var entries := map k | k in persisted && (k.scope.Profile? || workspaceAvailable) :: persisted[k];
      writes := writes + [Write(generation, entries, writeTail, Queued)];
      writeTail := |writes|;
    }

    method BeginSwitch()
      modifies this
      ensures State() == Begun(old(State()))
      ensures !flushTimer
    {
      if flushTimer {
        flushTimer := false;
      }
    }

    method SeedWorkspace(snapshot: Snapshot)
      modifies this
      ensures State() == Seeded(old(State()), snapshot)
      ensures workspaceAvailable == snapshot.available
      ensures forall k :: k in persisted <==>
        if k.scope == Profile then k in old(persisted) else k in snapshot.workspace && IsPlainLayoutStorageKey(Workspace, k.key)
      ensures forall k :: k in persisted ==> persisted[k] == if k.scope == Profile then old(persisted)[k] else snapshot.workspace[k]
    {
      workspaceAvailable := snapshot.available;
      var seeded := map k | k in snapshot.workspace && IsPlainLayoutStorageKey(k.scope, k.key) && k.scope == Workspace :: snapshot.workspace[k];
      SeedPart(snapshot.workspace);
      persisted := (map k | k in persisted && k.scope == Profile :: persisted[k]) + seeded;
    }

    method MarkSwitched()
      modifies this
      ensures State() == Marked(old(State()))
      ensures flushedGeneration == mutationGeneration == old(mutationGeneration) + 1
    {
      mutationGeneration := mutationGeneration + 1;
      flushedGeneration := mutationGeneration;
    }

    /** The part after the write has succeeded. */
    method ResumeFlush(i: nat)
      requires i < |writes| && writes[i].status.Written?
      modifies this
      ensures State() == FlushResumed(old(State()), i)
      ensures flushedGeneration >= old(writes)[i].generation && flushedGeneration >= old(flushedGeneration)
      ensures mutationGeneration > flushedGeneration ==> flushTimer
    {
      var generation := writes[i].generation;
      writes := WithStatus(writes, i, Recorded);
      flushedGeneration := if flushedGeneration < generation then generation else flushedGeneration;
      if mutationGeneration > flushedGeneration {
        flushTimer := true;
      }
    }
  }

  lemma SeedPart(entries: Entries)
    ensures ScopePart(AllowedPart(entries), Workspace)
         == map k | k in entries && IsPlainLayoutStorageKey(k.scope, k.key) && k.scope == Workspace :: entries[k]
  {
  }

  // ----- writes run one at a time, in flush order -----

  ghost predicate Chained(s: Storage) {
    && s.tail == |s.writes|
    && forall i :: 0 <= i < |s.writes| ==> s.writes[i].after == i
  }

  ghost predicate InOrder(s: Storage) {
    forall i, j :: 0 <= i < j < |s.writes| && !s.writes[j].status.Queued? ==> Settled(s.writes[i])
  }

  lemma QueuedInOrder(s: Storage)
    requires Chained(s) && InOrder(s)
    ensures Chained(FlushProceeded(s)) && InOrder(FlushProceeded(s))
  {
  }

  lemma StartedInOrder(s: Storage, i: nat)
    requires Chained(s) && InOrder(s) && MayStart(s, i)
    ensures Chained(WriteStarted(s, i)) && InOrder(WriteStarted(s, i))
  {
    if i > 0 {
      assert Settled(s.writes[i - 1]);
    }
  }

  lemma SettledInOrder(s: Storage, i: nat, status: Status)
    requires Chained(s) && InOrder(s) && i < |s.writes| && !s.writes[i].status.Queued?
    requires status.Written? || status.Failed? || status.Recorded?
    ensures Chained(s.(writes := WithStatus(s.writes, i, status))) && InOrder(s.(writes := WithStatus(s.writes, i, status)))
  {
  }

  lemma NextKeepsOrder(s: Storage, a: Action)
    requires Chained(s) && InOrder(s)
    ensures Chained(Next(s, a)) && InOrder(Next(s, a))
  {
    match a
    case ProceedFlush => QueuedInOrder(s);
    case StartWrite(i) => if MayStart(s, i) { StartedInOrder(s, i); }
    case EndWrite(i, ok, _, _) =>
      if i < |s.writes| && !s.writes[i].status.Queued? {
        SettledInOrder(s, i, Written);
        SettledInOrder(s, i, Failed);
      }
    case ResumeFlush(i) =>
      if i < |s.writes| && s.writes[i].status.Written? { SettledInOrder(s, i, Recorded); }
    case _ =>
  }

  // ----- generations -----

  ghost predicate Generations(s: Storage) {
    && s.flushed <= s.mutation
    && (forall i :: 0 <= i < |s.writes| ==> 1 <= s.writes[i].generation <= s.mutation)
    && (forall i, j :: 0 <= i < j < |s.writes| ==> s.writes[i].generation <= s.writes[j].generation)
    && (forall i :: 0 <= i < |s.writes| && s.writes[i].generation == s.mutation ==>
          s.writes[i].entries == Visible(s.persisted, s.workspaceAvailable))
  }

  lemma EditKeepsGenerations(s: Storage, persisted: Entries)
    requires Generations(s)
    ensures Generations(Dirtied(s, persisted))
  {
  }

  lemma ProceedKeepsGenerations(s: Storage)
    requires Generations(s)
    ensures Generations(FlushProceeded(s))
  {
  }

  /** Same writes but for their status. */
  ghost predicate SameWrites(before: seq<Write>, after: seq<Write>) {
    |before| == |after| && forall i :: 0 <= i < |before| ==> after[i] == before[i].(status := after[i].status)
  }

  lemma StatusKeepsGenerations(s: Storage, after: Storage)
    requires Generations(s) && SameWrites(s.writes, after.writes) && after.flushed <= after.mutation == s.mutation
    requires after.persisted == s.persisted && after.workspaceAvailable == s.workspaceAvailable
    ensures Generations(after)
  {
  }

  lemma NextKeepsGenerations(s: Storage, a: Action)
    requires Generations(s)
    ensures Generations(Next(s, a))
  {
    match a
    case Store(scope, key, stored) =>
      if scope.Some? && stored.Some? { EditKeepsGenerations(s, s.persisted[EntryKey(scope.value, key) := stored.value]); }
    case Remove(scope, key) => if scope.Some? { EditKeepsGenerations(s, s.persisted - {EntryKey(scope.value, key)}); }
    case ProceedFlush => ProceedKeepsGenerations(s);
    case _ =>
      OtherwiseSameWrites(s, a);
      StatusKeepsGenerations(s, Next(s, a));
  }

  lemma StatusSameWrites(writes: seq<Write>, i: nat, status: Status)
    requires i < |writes|
    ensures SameWrites(writes, WithStatus(writes, i, status))
  {
  }

  /** Nothing but the status of writes, the disk, the timer and the flushed generation differs. */
  ghost predicate OnlyWrites(s: Storage, after: Storage) {
    && SameWrites(s.writes, after.writes) && after.tail == s.tail
    && after.persisted == s.persisted && after.workspaceAvailable == s.workspaceAvailable && after.rootsOpen == s.rootsOpen
    && after.mutation == s.mutation && s.flushed <= after.flushed
  }

  lemma StartChangesOnlyWrites(s: Storage, i: nat)
    ensures OnlyWrites(s, WriteStarted(s, i))
  {
    if MayStart(s, i) {
      StatusSameWrites(s.writes, i, Running);
    }
  }

  lemma EndChangesOnlyWrites(s: Storage, i: nat, ok: bool, profile: bool, workspace: bool)
    ensures OnlyWrites(s, WriteEnded(s, i, ok, profile, workspace))
  {
    if i < |s.writes| {
      StatusSameWrites(s.writes, i, Written);
      StatusSameWrites(s.writes, i, Failed);
    }
  }

  lemma ResumeChangesOnlyWrites(s: Storage, i: nat)
    requires Generations(s)
    ensures OnlyWrites(s, FlushResumed(s, i)) && FlushResumed(s, i).flushed <= s.mutation
  {
    if i < |s.writes| {
      StatusSameWrites(s.writes, i, Recorded);
    }
  }

  lemma OtherwiseSameWrites(s: Storage, a: Action)
    requires !a.Store? && !a.Remove? && !a.ProceedFlush? && Generations(s)
    ensures OnlyWrites(s, Next(s, a)) && Next(s, a).flushed <= s.mutation
  {
    match a
    case StartWrite(i) => StartChangesOnlyWrites(s, i);
    case EndWrite(i, ok, profile, workspace) => EndChangesOnlyWrites(s, i, ok, profile, workspace);
    case ResumeFlush(i) => ResumeChangesOnlyWrites(s, i);
    case _ =>
  }

  // ----- what is on disk -----

  predicate Succeeded(w: Write) {
    w.status.Written? || w.status.Recorded?
  }

  /** The last edit has been written. */
  ghost predicate UpToDate(s: Storage) {
    s.mutation == 0 || exists i :: 0 <= i < |s.writes| && Succeeded(s.writes[i]) && s.writes[i].generation == s.mutation
  }

  ghost predicate FlushedByWrite(s: Storage) {
    s.flushed == 0 || exists i :: 0 <= i < |s.writes| && s.writes[i].status.Recorded? && s.writes[i].generation == s.flushed
  }

  ghost predicate Durable(s: Storage) {
    && (UpToDate(s) ==> s.durable == Visible(s.persisted, s.workspaceAvailable))
    && FlushedByWrite(s)
  }

  /** No write is left over from another workspace. */
  ghost predicate Here(s: Storage) {
    forall i :: 0 <= i < |s.writes| ==> !s.writes[i].status.Elsewhere?
  }

  lemma NextKeepsHere(s: Storage, a: Action)
    requires Here(s)
    ensures Here(Next(s, a))
  {
  }

  /** A write that runs after one of the last edit's writes carries the same entries. */
  lemma LaterWriteSame(s: Storage, i: nat, j: nat)
    requires Chained(s) && InOrder(s) && Generations(s) && Durable(s)
    requires i < |s.writes| && j < |s.writes| && s.writes[i].status.Running?
    requires Succeeded(s.writes[j]) && s.writes[j].generation == s.mutation
    ensures s.durable == s.writes[i].entries == Visible(s.persisted, s.workspaceAvailable)
  {
    assert UpToDate(s);
    assert j < i;
  }

  lemma EndedDurable(s: Storage, i: nat, ok: bool, profile: bool, workspace: bool)
    requires i < |s.writes| && s.writes[i].status.Running?
    ensures var after := WriteEnded(s, i, ok, profile, workspace);
      && (Succeeded(after.writes[i]) ==> after.durable == s.writes[i].entries)
      && (s.durable == s.writes[i].entries ==> after.durable == s.durable)
      && |after.writes| == |s.writes| && forall j :: 0 <= j < |s.writes| && j != i ==> after.writes[j] == s.writes[j]
  {
    LandedWhole(s.durable, s.writes[i].entries);
    LandedSame(s.writes[i].entries, ok || profile, ok || workspace);
  }

  lemma EndedByAny(s: Storage, i: nat, j: nat, ok: bool, profile: bool, workspace: bool)
    requires Chained(s) && InOrder(s) && Generations(s) && Durable(s)
    requires i < |s.writes| && j < |s.writes| && s.writes[i].status.Running? && s.writes[j].generation == s.mutation
    requires Succeeded(WriteEnded(s, i, ok, profile, workspace).writes[j])
    ensures WriteEnded(s, i, ok, profile, workspace).durable == Visible(s.persisted, s.workspaceAvailable)
  {
    EndedDurable(s, i, ok, profile, workspace);
    if j != i {
      LaterWriteSame(s, i, j);
    }
  }

  lemma EndedUpToDate(s: Storage, i: nat, ok: bool, profile: bool, workspace: bool)
    requires Chained(s) && InOrder(s) && Generations(s) && Durable(s)
    requires i < |s.writes| && s.writes[i].status.Running? && UpToDate(WriteEnded(s, i, ok, profile, workspace))
    ensures WriteEnded(s, i, ok, profile, workspace).durable == Visible(s.persisted, s.workspaceAvailable)
  {
    var after := WriteEnded(s, i, ok, profile, workspace);
    EndChangesOnlyWrites(s, i, ok, profile, workspace);
    var j :| 0 <= j < |after.writes| && Succeeded(after.writes[j]) && after.writes[j].generation == after.mutation;
    EndedByAny(s, i, j, ok, profile, workspace);
  }

  lemma EndKeepsDurable(s: Storage, i: nat, ok: bool, profile: bool, workspace: bool)
    requires Chained(s) && InOrder(s) && Generations(s) && Durable(s)
    requires i < |s.writes| && s.writes[i].status.Running?
    ensures Durable(WriteEnded(s, i, ok, profile, workspace))
  {
    var after := WriteEnded(s, i, ok, profile, workspace);
    if UpToDate(after) {
      EndedUpToDate(s, i, ok, profile, workspace);
    }
    if s.flushed != 0 {
      var k :| 0 <= k < |s.writes| && s.writes[k].status.Recorded? && s.writes[k].generation == s.flushed;
      assert after.writes[k] == s.writes[k];
    }
  }

  lemma ProceedKeepsDurable(s: Storage)
    requires Generations(s) && Durable(s) && s.entered > 0 && s.mutation > s.flushed
    ensures Durable(FlushProceeded(s))
  {
    var after := FlushProceeded(s);
    if UpToDate(after) {
      var j :| 0 <= j < |after.writes| && Succeeded(after.writes[j]) && after.writes[j].generation == s.mutation;
      assert s.writes[j] == after.writes[j];
    }
    if s.flushed != 0 {
      var k :| 0 <= k < |s.writes| && s.writes[k].status.Recorded? && s.writes[k].generation == s.flushed;
      assert after.writes[k] == s.writes[k];
    }
  }

  lemma StartKeepsDurable(s: Storage, i: nat)
    requires Durable(s) && MayStart(s, i)
    ensures Durable(WriteStarted(s, i))
  {
    var after := WriteStarted(s, i);
    if UpToDate(after) && s.mutation != 0 {
      var j :| 0 <= j < |after.writes| && Succeeded(after.writes[j]) && after.writes[j].generation == s.mutation;
      assert s.writes[j] == after.writes[j];
    }
    if s.flushed != 0 {
      var k :| 0 <= k < |s.writes| && s.writes[k].status.Recorded? && s.writes[k].generation == s.flushed;
      assert after.writes[k] == s.writes[k];
    }
  }

  lemma ResumeKeepsDurable(s: Storage, i: nat)
    requires Durable(s) && i < |s.writes| && s.writes[i].status.Written?
    ensures Durable(FlushResumed(s, i))
  {
    var after := FlushResumed(s, i);
    if UpToDate(after) && s.mutation != 0 {
      var j :| 0 <= j < |after.writes| && Succeeded(after.writes[j]) && after.writes[j].generation == s.mutation;
      assert Succeeded(s.writes[j]);
    }
    if s.flushed != 0 {
      var k :| 0 <= k < |s.writes| && s.writes[k].status.Recorded? && s.writes[k].generation == s.flushed;
      assert after.writes[k] == s.writes[k];
    }
    assert after.writes[i].status.Recorded?;
  }

  lemma EditKeepsDurable(s: Storage, persisted: Entries)
    requires Generations(s) && Durable(s)
    ensures Durable(Dirtied(s, persisted))
  {
  }

  lemma NextKeepsDurable(s: Storage, a: Action)
    requires Here(s) && Chained(s) && InOrder(s) && Generations(s) && Durable(s)
    ensures Durable(Next(s, a))
  {
    match a
    case Store(scope, key, stored) =>
      if scope.Some? && stored.Some? { EditKeepsDurable(s, s.persisted[EntryKey(scope.value, key) := stored.value]); }
    case Remove(scope, key) => if scope.Some? { EditKeepsDurable(s, s.persisted - {EntryKey(scope.value, key)}); }
    case ProceedFlush => if s.entered > 0 && s.mutation > s.flushed { ProceedKeepsDurable(s); }
    case StartWrite(i) => if MayStart(s, i) { StartKeepsDurable(s, i); }
    case EndWrite(i, ok, profile, workspace) =>
      if i < |s.writes| && s.writes[i].status.Running? { EndKeepsDurable(s, i, ok, profile, workspace); }
    case ResumeFlush(i) => if i < |s.writes| && s.writes[i].status.Written? { ResumeKeepsDurable(s, i); }
    case _ =>
  }

  // ----- nothing is forgotten -----

  /** An edit that is not yet flushed has a timer, a flush or a write behind it, or its write failed. */
  ghost predicate Remembered(s: Storage) {
    s.flushed < s.mutation ==>
      s.timer || s.entered > 0 || exists i :: 0 <= i < |s.writes| && s.writes[i].generation == s.mutation && !s.writes[i].status.Recorded?
  }

  lemma ProceedRemembers(s: Storage)
    requires s.entered > 0
    ensures Remembered(FlushProceeded(s))
  {
    if s.mutation > s.flushed {
      assert FlushProceeded(s).writes[|s.writes|].generation == s.mutation;
    }
  }

  lemma StatusRemembers(s: Storage, i: nat, status: Status)
    requires Remembered(s) && i < |s.writes| && !status.Recorded?
    ensures Remembered(s.(writes := WithStatus(s.writes, i, status)))
  {
    if s.flushed < s.mutation && !s.timer && s.entered == 0 {
      var j :| 0 <= j < |s.writes| && s.writes[j].generation == s.mutation && !s.writes[j].status.Recorded?;
      assert WithStatus(s.writes, i, status)[j].generation == s.mutation;
    }
  }

  lemma NextRemembers(s: Storage, a: Action)
    requires Generations(s) && Remembered(s)
    ensures Remembered(Next(s, a))
  {
    match a
    case ProceedFlush => if s.entered > 0 { ProceedRemembers(s); }
    case StartWrite(i) => if MayStart(s, i) { StatusRemembers(s, i, Running); }
    case EndWrite(i, _, _, _) =>
      if i < |s.writes| {
        StatusRemembers(s, i, Written);
        StatusRemembers(s, i, Failed);
      }
    case _ =>
  }

  // ----- nothing else crosses to disk -----

  ghost predicate Exposed(entries: Entries, workspaceAvailable: bool) {
    forall k :: k in entries ==> IsPlainLayoutStorageKey(k.scope, k.key) && (k.scope.Profile? || workspaceAvailable)
  }

  ghost predicate OnlyAllowedExposed(s: Storage) {
    AllowedOnly(s.persisted) && forall i :: 0 <= i < |s.writes| ==> Exposed(s.writes[i].entries, s.workspaceAvailable)
  }

  lemma VisibleIsExposed(s: Storage)
    requires AllowedOnly(s.persisted)
    ensures Exposed(Visible(s.persisted, s.workspaceAvailable), s.workspaceAvailable)
  {
  }

  lemma EntriesKept(s: Storage, after: Storage)
    requires OnlyAllowedExposed(s) && AllowedOnly(after.persisted) && after.workspaceAvailable == s.workspaceAvailable
    requires SameWrites(s.writes, after.writes)
    ensures OnlyAllowedExposed(after)
  {
  }

  lemma NextExposesOnlyAllowed(s: Storage, a: Action)
    requires OnlyAllowedExposed(s) && Generations(s)
    ensures OnlyAllowedExposed(Next(s, a))
  {
    match a
    case ProceedFlush => VisibleIsExposed(s);
    case Store(_, _, _) => EntriesKept(s, Next(s, a));
    case Remove(_, _) => EntriesKept(s, Next(s, a));
    case _ =>
      OtherwiseSameWrites(s, a);
      EntriesKept(s, Next(s, a));
  }

  // ----- the theorems -----

  ghost predicate Inv(s: Storage) {
    Here(s) && Chained(s) && InOrder(s) && Generations(s) && Durable(s) && Remembered(s) && OnlyAllowedExposed(s)
  }

  lemma {:induction false} RunKeeps(s: Storage, actions: seq<Action>)
    requires Initial(s)
    ensures Inv(Run(s, actions))
  {
    if actions != [] {
      var most, last := Run(s, actions[..|actions| - 1]), actions[|actions| - 1];
      RunKeeps(s, actions[..|actions| - 1]);
      NextKeepsHere(most, last);
      NextKeepsOrder(most, last);
      NextKeepsGenerations(most, last);
      NextKeepsDurable(most, last);
      NextRemembers(most, last);
      NextExposesOnlyAllowed(most, last);
    }
  }

  /** In every interleaving: a write starts only when every write asked for before it has ended. */
  lemma WritesRunInFlushOrder(s: Storage, actions: seq<Action>, i: nat, j: nat)
    requires Initial(s) && i < j < |Run(s, actions).writes|
    requires !Run(s, actions).writes[j].status.Queued?
    ensures Settled(Run(s, actions).writes[i])
  {
    RunKeeps(s, actions);
  }

  /** The flushed generation never passes the mutation generation, and when it has caught up, the disk
      holds the allowed entries that are visible now. */
  lemma FlushedAgreesWithDisk(s: Storage, actions: seq<Action>)
    requires Initial(s)
    ensures Run(s, actions).flushed <= Run(s, actions).mutation
    ensures Run(s, actions).flushed == Run(s, actions).mutation ==>
      Run(s, actions).durable == Visible(Run(s, actions).persisted, Run(s, actions).workspaceAvailable)
  {
    RunKeeps(s, actions);
  }

  ghost predicate Quiet(s: Storage) {
    && !s.timer && s.entered == 0
    && forall i :: 0 <= i < |s.writes| ==> s.writes[i].status.Recorded? || s.writes[i].status.Failed?
  }

  /** With nothing left to happen, either all is flushed or the write of the last edit failed; no
      further attempt is then made. */
  lemma QuietMeansFlushedOrFailed(s: Storage, actions: seq<Action>)
    requires Initial(s) && Quiet(Run(s, actions))
    ensures var r := Run(s, actions);
      || (r.flushed == r.mutation && r.durable == Visible(r.persisted, r.workspaceAvailable))
      || exists i :: 0 <= i < |r.writes| && r.writes[i].status.Failed? && r.writes[i].generation == r.mutation
  {
    RunKeeps(s, actions);
  }

  /** Every write carries allowed keys only, and workspace entries only if there is a workspace. */
  lemma WritesExposeOnlyAllowedKeys(s: Storage, actions: seq<Action>, i: nat)
    requires Initial(s) && i < |Run(s, actions).writes|
    ensures Exposed(Run(s, actions).writes[i].entries, Run(s, actions).workspaceAvailable)
  {
    RunKeeps(s, actions);
  }
}
