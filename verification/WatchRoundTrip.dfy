/** Collecting, then restoring under another root: what is expanded afterwards, in every schedule. */
module WatchRoundTrip {
  import opened Options
  import opened VariablesTree
  import opened WatchExpansion
  import opened WatchPaging
  import opened WatchRestore

  // ----- every step keeps the invariants -----

  ghost predicate Going(w: RawWatch, base: Tree, s: State) {
    Sound(w, base, s) && Covered(w, s)
  }

  ghost predicate Sound(w: RawWatch, base: Tree, s: State) {
    && TasksOk(w, s) && OneTaskEach(s) && StartedOk(w, s)
    && TouchesOnlyTargets(w, base, s) && KeepsKeys(base, s) && NewNodesOk(w, base, s)
  }

  lemma ReplacedGoes(w: Watch, base: Tree, s: State, t: Task, phase: Phase, after: Tree)
    requires Going(w, base, s) && t in s.tasks
    requires Only(s.tree, after, t.reference) && TaskOk(w, after, t.(phase := phase))
    requires t.reference in s.tree ==> t.reference in after
    requires t.reference in after ==> phase.Checking? || after == s.tree
    ensures Going(w, base, Replaced(s, t, phase, after))
  {
    ReplacedKeepsTasks(w, s, t, phase, after);
    ReplacedKeepsOneTaskEach(s, t, phase, after);
    ReplacedKeepsStarted(w, s, t, phase, after);
    ReplacedKeepsCovered(w, s, t, phase, after);
    ReplacedTouchesOnlyTargets(w, base, s, t, phase, after);
    ReplacedKeepsKeys(base, s, t, phase, after);
    ReplacedKeepsNewNodes(w, base, s, t, phase, after);
  }

  lemma ReplacedKeepsNewNodes(w: Watch, base: Tree, s: State, t: Task, phase: Phase, after: Tree)
    requires NewNodesOk(w, base, s) && Only(s.tree, after, t.reference)
    requires t.reference in after && t.reference !in base ==> NodeOk(w, after, t.reference)
    ensures NewNodesOk(w, base, Replaced(s, t, phase, after))
  {
    forall r | r in after && r !in base ensures NodeOk(w, after, r) {
      if r != t.reference {
        assert NodeOk(w, s.tree, r);
      }
    }
  }

  lemma ReplacedKeepsKeys(base: Tree, s: State, t: Task, phase: Phase, after: Tree)
    requires KeepsKeys(base, s) && Only(s.tree, after, t.reference) && (t.reference in s.tree ==> t.reference in after)
    ensures KeepsKeys(base, Replaced(s, t, phase, after))
  {
    forall r | r in base ensures r in after {
      assert r in s.tree;
    }
  }

  lemma DescendedIsSound(w: Watch, base: Tree, s: State, t: Task)
    requires Sound(w, base, s) && t in s.tasks && NodeOk(w, s.tree, t.reference)
    ensures Sound(w, base, Descended(s, t, w.paths))
  {
    DescendedKeepsTasks(w, s, t);
    DescendedKeepsOneTaskEach(w, s, t);
    DescendedKeepsStarted(w, s, t);
    SameTree(w, base, s, Descended(s, t, w.paths));
  }

  lemma SameTree(w: Watch, base: Tree, s: State, after: State)
    requires TouchesOnlyTargets(w, base, s) && KeepsKeys(base, s) && NewNodesOk(w, base, s) && after.tree == s.tree
    ensures TouchesOnlyTargets(w, base, after) && KeepsKeys(base, after) && NewNodesOk(w, base, after)
  {
  }

  lemma FailedGoes(w: Watch, base: Tree, s: State)
    requires Sound(w, base, s)
    ensures Going(w, base, s.(failed := true))
  {
    SameTree(w, base, s, s.(failed := true));
  }

  lemma DescendedGoes(w: Watch, base: Tree, s: State, t: Task)
    requires Going(w, base, s) && t in s.tasks && NodeOk(w, s.tree, t.reference)
    requires !NeedsMore(t.prefix, s.tree[t.reference], w.paths)
    ensures Going(w, base, Descended(s, t, w.paths))
  {
    assert TaskOk(w, s.tree, t);
    DescendedIsSound(w, base, s, t);
    DescendedKeepsCovered(w, s, t);
  }

  lemma ResumeGoes(w: Watch, base: Tree, s: State, t: Task)
    requires Going(w, base, s) && t in s.tasks && t.phase.Checking?
    ensures Going(w, base, Next(s, Resume(t), w.paths))
  {
    assert TaskOk(w, s.tree, t);
    var node := s.tree[t.reference];
    if NeedsMore(t.prefix, node, w.paths) {
      ReplacedGoes(w, base, s, t, Loading(|node.variables|), s.tree);
    } else {
      DescendedGoes(w, base, s, t);
    }
  }

  lemma ExpandedGoes(w: Watch, base: Tree, s: State, t: Task, fetch: Fetch)
    requires Going(w, base, s) && t in s.tasks && t.phase.Expanding? && fetch.Resolved?
    requires Serves(w, Answer(t, fetch))
    ensures Going(w, base, Next(s, Answer(t, fetch), w.paths))
  {
    assert TaskOk(w, s.tree, t);
    var after := Expanded(s.tree, t.reference, t.total, fetch);
    assert NodeOk(w, after, t.reference);
    ReplacedGoes(w, base, s, t, Checking(|fetch.variables|), after);
  }

  lemma LoadedGoes(w: Watch, base: Tree, s: State, t: Task, fetch: Fetch)
    requires Going(w, base, s) && t in s.tasks && t.phase.Loading? && fetch.Resolved?
    requires Serves(w, Answer(t, fetch))
    ensures Going(w, base, Next(s, Answer(t, fetch), w.paths))
  {
    assert TaskOk(w, s.tree, t);
    LoadedTaskOk(w, s.tree, t, fetch);
    MoreLoadedOnly(s.tree, t.reference, fetch);
    AnsweredLoad(w, s, t, fetch);
    ReplacedGoes(w, base, s, t, Checking(t.phase.loaded + |fetch.variables|), MoreLoaded(s.tree, t.reference, fetch));
  }

  lemma AnsweredLoad(w: Watch, s: State, t: Task, fetch: Fetch)
    requires t in s.tasks && t.phase.Loading? && t.reference in s.tree && fetch.Resolved?
    ensures Next(s, Answer(t, fetch), w.paths)
         == Replaced(s, t, Checking(t.phase.loaded + |fetch.variables|), MoreLoaded(s.tree, t.reference, fetch))
  {
  }

  lemma MoreLoadedOnly(tree: Tree, r: int, fetch: Fetch)
    ensures Only(tree, MoreLoaded(tree, r, fetch), r)
    ensures r in tree ==> r in MoreLoaded(tree, r, fetch)
  {
  }

  lemma LoadedTaskOk(w: Watch, tree: Tree, t: Task, fetch: Fetch)
    requires TaskOk(w, tree, t) && t.phase.Loading? && fetch.Resolved? && Serves(w, Answer(t, fetch))
    ensures TaskOk(w, MoreLoaded(tree, t.reference, fetch), t.(phase := Checking(t.phase.loaded + |fetch.variables|)))
  {
    PageExtendsPrefix(w.children(t.reference), tree[t.reference].variables, fetch.variables);
  }

  lemma DroppedGoes(w: Watch, base: Tree, s: State, t: Task)
    requires Going(w, base, s)
    ensures Going(w, base, Dropped(s, t))
  {
  }

  lemma NextGoes(w: Watch, base: Tree, s: State, a: Action)
    requires Going(w, base, s) && Serves(w, a)
    ensures Going(w, base, Next(s, a, w.paths))
  {
    var t := a.task;
    if t in s.tasks {
      assert TaskOk(w, s.tree, t);
      match a
      case Resume(_) => if t.phase.Checking? { ResumeGoes(w, base, s, t); }
      case Answer(_, Rejected) =>
        if t.phase.Expanding? { DroppedGoes(w, base, s, t); }
        if t.phase.Loading? {
          DescendedIsSound(w, base, s, t);
          FailedGoes(w, base, Descended(s, t, w.paths));
        }
      case Answer(_, fetch) =>
        if t.phase.Expanding? { ExpandedGoes(w, base, s, t, fetch); }
        if t.phase.Loading? { LoadedGoes(w, base, s, t, fetch); }
    }
  }

  ghost function Run(w: RawWatch, s: State, actions: seq<Action>): State {
    if actions == [] then s else Next(Run(w, s, actions[..|actions| - 1]), actions[|actions| - 1], w.paths)
  }

  lemma StartedIsSound(w: Watch, base: Tree)
    ensures Sound(w, base, Started(w, base))
  {
  }

  lemma StartedIsUnderway(w: Watch, base: Tree, p: Path)
    requires Target(w, p).Some?
    ensures Underway(Started(w, base), p)
  {
    TargetsAbove(w, p, 0);
    assert p[..0] == [];
    assert Task(w.root, w.total, [], Expanding) in Started(w, base).tasks;
  }

  lemma StartedGoes(w: Watch, base: Tree)
    ensures Going(w, base, Started(w, base))
  {
    StartedIsSound(w, base);
    forall p | Target(w, p).Some? ensures Underway(Started(w, base), p) {
      StartedIsUnderway(w, base, p);
    }
  }

  lemma {:induction false} RunGoes(w: Watch, base: Tree, actions: seq<Action>)
    requires forall a :: a in actions ==> Serves(w, a)
    ensures Going(w, base, Run(w, Started(w, base), actions))
  {
    if actions == [] {
      StartedGoes(w, base);
    } else {
      var most := actions[..|actions| - 1];
      assert forall a :: a in most ==> a in actions;
      RunGoes(w, base, most);
      NextGoes(w, base, Run(w, Started(w, base), most), actions[|actions| - 1]);
    }
  }

  /** In every schedule, whatever fails: a reference that no recorded path leads to is as it was. */
  lemma RestoreTouchesOnlyTargets(w: Watch, base: Tree, actions: seq<Action>, r: int)
    requires forall a :: a in actions ==> Serves(w, a)
    requires forall p :: Target(w, p) != Some(r)
    ensures var after := Run(w, Started(w, base), actions).tree;
      (r in after <==> r in base) && (r in base ==> after[r] == base[r])
  {
    RunGoes(w, base, actions);
  }

  ghost predicate Completed(w: RawWatch, base: Tree, actions: seq<Action>) {
    && (forall a :: a in actions ==> Serves(w, a))
    && var s := Run(w, Started(w, base), actions); s.tasks == {} && !s.failed
  }

  /** In every schedule that has run to its end without a failed fetch: every recorded path that still
      leads to something with children is expanded, with a true prefix of its children, as far as the
      paths below it and the declared count make the program load; or it is cut off at a name that was
      not loaded above it. */
  lemma RestoreSettlesEveryTarget(w: Watch, base: Tree, actions: seq<Action>, p: Path)
    requires Completed(w, base, actions) && Target(w, p).Some?
    ensures Settled(w, Run(w, Started(w, base), actions).tree, p)
  {
    RunGoes(w, base, actions);
  }

  ghost predicate AllSettled(w: RawWatch, after: Tree) {
    forall p :: Target(w, p).Some? ==> Settled(w, after, p)
  }

  /** Every name on the way is loaded where it is needed. */
  ghost predicate LoadedAlong(w: RawWatch, after: Tree, p: Path) {
    forall n: nat :: n < |p| ==> LoadedAt(w, after, p, n)
  }

  ghost predicate LoadedAt(w: RawWatch, after: Tree, p: Path, n: nat)
    requires n < |p|
  {
    Target(w, p[..n]).Some? && var r := Target(w, p[..n]).value; r in after && Names(after[r].variables, p[n])
  }

  // With true declared counts, nothing is cut off.

  /** The children that a recorded path needs are loaded. */
  ghost predicate Enough(w: RawWatch, node: Node, r: int, p: Path) {
    forall v :: v in w.children(r) && p + [v.name] in w.paths ==> v in node.variables
  }

  lemma EnoughLoaded(w: Watch, node: Node, r: int, prefix: Path)
    requires node.variables <= w.children(r) && node.total == Some(|w.children(r)|)
    requires !NeedsMore(prefix, node, w.paths)
    ensures Enough(w, node, r, prefix)
  {
    if |node.variables| < |w.children(r)| {
      forall v | v in w.children(r) && prefix + [v.name] in w.paths ensures v in node.variables {
        LoadedByName(w, node, r, prefix, v);
      }
    } else {
      assert node.variables == w.children(r);
    }
  }

  lemma LoadedByName(w: Watch, node: Node, r: int, prefix: Path, v: Variable)
    requires node.variables <= w.children(r) && !DeeperNameStillMissing(prefix, node.variables, w.paths)
    requires v in w.children(r) && prefix + [v.name] in w.paths
    ensures v in node.variables
  {
    var p := prefix + [v.name];
    assert prefix < p && p[|prefix|] == v.name;
    assert Names(node.variables, v.name);
    var i :| 0 <= i < |node.variables| && node.variables[i].name == v.name;
    assert node.variables[i] in w.children(r);
  }

  lemma NothingCutOff(w: Watch, after: Tree, p: Path, n: nat)
    requires w.DeclaresCounts() && Target(w, p).Some? && n < |p|
    ensures !CutOff(w, after, p, n)
  {
    TargetsAbove(w, p, n);
    if Done(w, after, p[..n]) {
      var r := Target(w, p[..n]).value;
      EnoughLoaded(w, after[r], r, p[..n]);
      var v := NextName(w, p[..n], r, p);
      assert v in after[r].variables;
    }
  }

  lemma CountsLoadAll(w: Watch, after: Tree, p: Path)
    requires w.DeclaresCounts() && AllSettled(w, after) && Target(w, p).Some?
    ensures Done(w, after, p) && LoadedAlong(w, after, p)
  {
    CountsLoad(w, after, p);
    forall n: nat | n < |p| ensures LoadedAt(w, after, p, n) {
      TargetsAbove(w, p, n);
      CountsLoad(w, after, p[..n]);
      NothingCutOff(w, after, p, n);
    }
  }

  lemma CountsLoad(w: Watch, after: Tree, p: Path)
    requires w.DeclaresCounts() && AllSettled(w, after) && Target(w, p).Some?
    ensures Done(w, after, p)
  {
    assert Settled(w, after, p);
    forall n: nat | n < |p| ensures !CutOff(w, after, p, n) {
      NothingCutOff(w, after, p, n);
    }
  }

  // ----- it ends -----

  /** How much is left of a task; `loaded` counts what its node holds. */
  ghost function Left(w: RawWatch, t: Task): nat {
    var n := |w.children(t.reference)|;
    match t.phase
    case Expanding => 2 * n + 3
    case Checking(loaded) => if loaded <= n then 2 * (n - loaded) + 2 else 1
    case Loading(loaded) => if loaded <= n then 2 * (n - loaded) + 1 else 1
  }

  ghost function Work(w: RawWatch, tasks: set<Task>): nat {
    if tasks == {} then 0
    else
      var t :| t in tasks;
      Left(w, t) + Work(w, tasks - {t})
  }

  lemma {:induction false} WorkWithout(w: RawWatch, tasks: set<Task>, t: Task)
    requires t in tasks
    ensures Work(w, tasks) == Left(w, t) + Work(w, tasks - {t})
  {
    var u :| u in tasks && Work(w, tasks) == Left(w, u) + Work(w, tasks - {u});
    if u != t {
      WorkWithout(w, tasks - {u}, t);
      WorkWithout(w, tasks - {t}, u);
      assert tasks - {u} - {t} == tasks - {t} - {u};
    }
  }

  /** The action is the one its task waits for. */
  ghost predicate Fits(s: State, a: Action) {
    a.task in s.tasks && (a.Resume? <==> a.task.phase.Checking?)
  }

  ghost function Unstarted(w: RawWatch, s: State): nat {
    |w.paths - s.started|
  }

  ghost predicate Less(w: RawWatch, after: State, before: State) {
    || Unstarted(w, after) < Unstarted(w, before)
    || (Unstarted(w, after) == Unstarted(w, before) && Work(w, after.tasks) < Work(w, before.tasks))
  }

  lemma WorkReplaced(w: RawWatch, tasks: set<Task>, t: Task, u: Task)
    requires t in tasks && u !in tasks - {t}
    ensures Work(w, tasks - {t} + {u}) + Left(w, t) == Work(w, tasks) + Left(w, u)
  {
    WorkWithout(w, tasks, t);
    WorkWithout(w, tasks - {t} + {u}, u);
    assert tasks - {t} + {u} - {u} == tasks - {t};
  }

  lemma ReplacedIsLess(w: Watch, s: State, t: Task, phase: Phase, after: Tree)
    requires OneTaskEach(s) && t in s.tasks
    ensures Less(w, Replaced(s, t, phase, after), s) <==> Left(w, t.(phase := phase)) < Left(w, t)
  {
    WorkReplaced(w, s.tasks, t, t.(phase := phase));
  }

  lemma DescendedIsLess(w: Watch, s: State, t: Task)
    requires StartedOk(w, s) && t in s.tasks && TaskOk(w, s.tree, t) && NodeOk(w, s.tree, t.reference)
    requires OneTaskEach(s)
    ensures Less(w, Descended(s, t, w.paths), s)
    ensures Less(w, Descended(s, t, w.paths).(failed := true), s)
  {
    var calls := CallEach(t.prefix, s.tree[t.reference].variables, w.paths);
    var after := Descended(s, t, w.paths);
    if calls == {} {
      WorkWithout(w, s.tasks, t);
      assert after.started == s.started && after.tasks == s.tasks - {t};
    } else {
      var c :| c in calls;
      CalledIsNew(w, s, t, c);
      DescendedKeepsStarted(w, s, t);
      assert c.prefix in after.started && c.prefix in w.paths - s.started;
      FewerLeft(w.paths, s.started, after.started, c.prefix);
    }
  }

  lemma FewerLeft(paths: set<Path>, before: set<Path>, after: set<Path>, p: Path)
    requires before <= after && p in paths && p !in before && p in after
    ensures |paths - after| < |paths - before|
  {
    SubsetSize(paths - after, paths - before - {p});
  }

  lemma ResumedIsLess(w: Watch, base: Tree, s: State, t: Task)
    requires Going(w, base, s) && t in s.tasks && t.phase.Checking?
    ensures Less(w, Next(s, Resume(t), w.paths), s)
  {
    assert TaskOk(w, s.tree, t);
    var node := s.tree[t.reference];
    if NeedsMore(t.prefix, node, w.paths) {
      CheckLeavesLess(w, s.tree, t);
      ReplacedIsLess(w, s, t, Loading(|node.variables|), s.tree);
    } else {
      DescendedIsLess(w, s, t);
    }
  }

  lemma CheckLeavesLess(w: Watch, tree: Tree, t: Task)
    requires TaskOk(w, tree, t) && t.phase.Checking? && NeedsMore(t.prefix, tree[t.reference], w.paths)
    ensures Left(w, t.(phase := Loading(|tree[t.reference].variables|))) < Left(w, t)
  {
  }

  lemma RejectedIsLess(w: Watch, base: Tree, s: State, t: Task)
    requires Going(w, base, s) && t in s.tasks && !t.phase.Checking?
    ensures Less(w, Next(s, Answer(t, Rejected), w.paths), s)
  {
    assert TaskOk(w, s.tree, t);
    if t.phase.Expanding? {
      WorkWithout(w, s.tasks, t);
    } else {
      DescendedIsLess(w, s, t);
    }
  }

  lemma ExpandedIsLess(w: Watch, base: Tree, s: State, t: Task, fetch: Fetch)
    requires Going(w, base, s) && t in s.tasks && t.phase.Expanding? && fetch.Resolved? && Serves(w, Answer(t, fetch))
    ensures Less(w, Next(s, Answer(t, fetch), w.paths), s)
  {
    ReplacedIsLess(w, s, t, Checking(|fetch.variables|), Expanded(s.tree, t.reference, t.total, fetch));
  }

  lemma LoadedIsLess(w: Watch, base: Tree, s: State, t: Task, fetch: Fetch)
    requires Going(w, base, s) && t in s.tasks && t.phase.Loading? && fetch.Resolved? && Serves(w, Answer(t, fetch))
    requires BringsMore(Answer(t, fetch))
    ensures Less(w, Next(s, Answer(t, fetch), w.paths), s)
  {
    assert TaskOk(w, s.tree, t);
    LoadLeavesLess(w, t, fetch);
    AnsweredLoad(w, s, t, fetch);
    ReplacedIsLess(w, s, t, Checking(t.phase.loaded + |fetch.variables|), MoreLoaded(s.tree, t.reference, fetch));
  }

  lemma LoadLeavesLess(w: Watch, t: Task, fetch: Fetch)
    requires t.phase.Loading? && fetch.Resolved? && Serves(w, Answer(t, fetch)) && BringsMore(Answer(t, fetch))
    ensures Left(w, t.(phase := Checking(t.phase.loaded + |fetch.variables|))) < Left(w, t)
  {
    assert fetch.variables != [];
  }

  lemma EmptyPageIsNotLess(w: Watch, base: Tree, s: State, t: Task)
    requires Going(w, base, s) && t in s.tasks && t.phase.Loading?
    ensures !Less(w, Next(s, Answer(t, Resolved([])), w.paths), s)
  {
    assert TaskOk(w, s.tree, t);
    EmptyAnswer(w, s, t);
    ReplacedIsLess(w, s, t, Checking(t.phase.loaded), s.tree);
  }

  /** Every answer or resumption that a task waits for brings the end nearer, exactly unless it is an
      empty further page: so no schedule without such pages goes on for ever. */
  lemma EveryStepIsLessExactly(w: Watch, base: Tree, s: State, a: Action)
    requires Going(w, base, s) && Serves(w, a) && Fits(s, a)
    ensures Less(w, Next(s, a, w.paths), s) <==> BringsMore(a)
  {
    match a
    case Resume(t) => ResumedIsLess(w, base, s, t);
    case Answer(t, Rejected) => RejectedIsLess(w, base, s, t);
    case Answer(t, fetch) =>
      if t.phase.Expanding? {
        ExpandedIsLess(w, base, s, t, fetch);
      } else if BringsMore(a) {
        LoadedIsLess(w, base, s, t, fetch);
      } else {
        EmptyPageIsNotLess(w, base, s, t);
      }
  }

  /** An empty further page brings the task, and the whole state, back to where it asked: that can be
      repeated for ever. */
  lemma EmptyPageRepeats(w: Watch, base: Tree, s: State, t: Task)
    requires Going(w, base, s) && t in s.tasks && t.phase.Checking?
    requires NeedsMore(t.prefix, s.tree[t.reference], w.paths)
    ensures Next(Next(s, Resume(t), w.paths), Answer(t.(phase := Loading(t.phase.loaded)), Resolved([])), w.paths) == s
  {
    assert TaskOk(w, s.tree, t);
    var u := t.(phase := Loading(t.phase.loaded));
    assert u !in s.tasks;
    EmptyAnswer(w, Replaced(s, t, u.phase, s.tree), u);
    ThereAndBack(s, t, u);
  }

  lemma EmptyAnswer(w: Watch, s: State, u: Task)
    requires u in s.tasks && u.phase.Loading? && u.reference in s.tree
    ensures Next(s, Answer(u, Resolved([])), w.paths) == Replaced(s, u, Checking(u.phase.loaded), s.tree)
  {
    AnsweredLoad(w, s, u, Resolved([]));
    assert s.tree[u.reference].variables + [] == s.tree[u.reference].variables;
    assert MoreLoaded(s.tree, u.reference, Resolved([])) == s.tree;
  }

  lemma ThereAndBack(s: State, t: Task, u: Task)
    requires t in s.tasks && u !in s.tasks && u == t.(phase := u.phase)
    ensures Replaced(Replaced(s, t, u.phase, s.tree), u, t.phase, s.tree) == s
  {
    assert s.tasks - {t} + {u} - {u} + {t} == s.tasks;
  }

  // ----- the round trip -----

  /** Where the names of `p` lead in the new subtree, whether recorded or not. */
  ghost function Follow(w: RawWatch, p: Path): Option<int> {
    if p == [] then (if w.root != 0 then Some(w.root) else None)
    else
      var above, name := Follow(w, p[..|p| - 1]), p[|p| - 1];
      if above.Some? && HasChild(w, above.value, name) && Child(w, above.value, name).reference != 0
      then Some(Child(w, above.value, name).reference)
      else None
  }

  ghost predicate PathsRecordedFrom(w: RawWatch, t: Tree, reference: int) {
    forall p :: p in w.paths <==> Recorded(t, reference, p)
  }

  lemma {:induction false} RecordedAbove(t: Tree, reference: int, p: Path, k: int)
    requires p != [] && Leads(t, reference, p, k)
    ensures Recorded(t, reference, p[..|p| - 1])
    decreases |p|
  {
    var front := p[..|p| - 1];
    if front == [] {
      assert Leads(t, reference, front, reference);
    } else {
      var i :| 0 <= i < |t[reference].variables| && LeadsThrough(t, t[reference].variables[i], p, k);
      RecordedAbove(t, t[reference].variables[i].reference, p[1..], k);
      assert p[1..][..|p[1..]| - 1] == front[1..];
      var m :| Leads(t, t[reference].variables[i].reference, front[1..], m);
      assert LeadsThrough(t, t[reference].variables[i], front, m);
      assert Leads(t, reference, front, m);
    }
  }

  /** For collected paths, a target is a recorded path that still leads somewhere. */
  lemma {:induction false} TargetIsRecordedAndLeads(w: Watch, t: Tree, reference: int, p: Path)
    requires PathsRecordedFrom(w, t, reference)
    ensures Target(w, p) == if Recorded(t, reference, p) then Follow(w, p) else None
  {
    if p != [] {
      TargetIsRecordedAndLeads(w, t, reference, p[..|p| - 1]);
      if Recorded(t, reference, p) {
        var k :| Leads(t, reference, p, k);
        RecordedAbove(t, reference, p, k);
      }
    }
  }

  lemma LeadsOneFurther(t: Tree, r: int, v: Variable)
    requires r != 0 && r in t && v in t[r].variables && v.reference != 0 && v.reference in t
    ensures Leads(t, r, [v.name], v.reference)
  {
    var i :| 0 <= i < |t[r].variables| && t[r].variables[i] == v;
    assert [v.name][1..] == [];
    assert LeadsThrough(t, t[r].variables[i], [v.name], v.reference);
  }

  lemma LoadedAbove(w: Watch, after: Tree, p: Path)
    requires p != [] && LoadedAlong(w, after, p)
    ensures LoadedAlong(w, after, p[..|p| - 1])
  {
    var front := p[..|p| - 1];
    forall n: nat | n < |front| ensures LoadedAt(w, after, front, n) {
      assert front[..n] == p[..n] && LoadedAt(w, after, p, n);
    }
  }

  lemma LoadedIsDone(w: Watch, after: Tree, p: Path)
    requires AllSettled(w, after) && Target(w, p).Some? && LoadedAlong(w, after, p)
    ensures Done(w, after, p)
  {
    assert Settled(w, after, p);
    forall n: nat | n < |p| ensures !CutOff(w, after, p, n) {
      assert LoadedAt(w, after, p, n);
    }
  }

  lemma {:induction false} TargetIsRecordedAgain(w: Watch, after: Tree, p: Path)
    requires AllSettled(w, after) && Target(w, p).Some? && LoadedAlong(w, after, p)
    ensures Leads(after, w.root, p, Target(w, p).value)
  {
    LoadedIsDone(w, after, p);
    if p != [] {
      var front := p[..|p| - 1];
      TargetAbove(w, p);
      LoadedAbove(w, after, p);
      TargetIsRecordedAgain(w, after, front);
      LoadedIsDone(w, after, front);
      LastIsLoaded(w, after, p);
      assert front + [p[|p| - 1]] == p;
      LastIsRecordedAgain(w, after, front, p[|p| - 1]);
    }
  }

  lemma LastIsLoaded(w: Watch, after: Tree, p: Path)
    requires p != [] && LoadedAlong(w, after, p) && Target(w, p[..|p| - 1]).Some?
    requires Done(w, after, p[..|p| - 1])
    ensures Names(after[Target(w, p[..|p| - 1]).value].variables, p[|p| - 1])
  {
    assert LoadedAt(w, after, p, |p| - 1);
  }

  lemma LastIsRecordedAgain(w: Watch, after: Tree, front: Path, name: string)
    requires Target(w, front).Some? && Target(w, front + [name]).Some?
    requires Done(w, after, front) && Done(w, after, front + [name])
    requires Names(after[Target(w, front).value].variables, name)
    requires Leads(after, w.root, front, Target(w, front).value)
    ensures Leads(after, w.root, front + [name], Target(w, front + [name]).value)
  {
    var r := Target(w, front).value;
    var v := LastChild(w, front, r, name);
    var u := NamedVariable(after[r].variables, name);
    assert u in w.children(r);
    TargetBelow(w, front, r, v);
    LeadsOneFurther(after, r, v);
    LeadsOn(after, w.root, front, r, [name], v.reference);
  }

  lemma {:induction false} LeadsByLast(t: Tree, reference: int, p: Path, k: int) returns (m: int, v: Variable)
    requires p != [] && Leads(t, reference, p, k)
    ensures Leads(t, reference, p[..|p| - 1], m)
    ensures m in t && v in t[m].variables && v.name == p[|p| - 1] && v.reference == k != 0 && k in t
    decreases |p|
  {
    var i :| 0 <= i < |t[reference].variables| && LeadsThrough(t, t[reference].variables[i], p, k);
    var u := t[reference].variables[i];
    if |p| == 1 {
      assert p[1..] == [] && p[..0] == [];
      assert Leads(t, u.reference, [], k);
      m, v := reference, u;
    } else {
      m, v := LeadsByLast(t, u.reference, p[1..], k);
      assert p[1..][..|p[1..]| - 1] == p[..|p| - 1][1..];
      assert LeadsThrough(t, u, p[..|p| - 1], m);
    }
  }

  /** The tree held nothing under the new references before the restore. */
  ghost predicate FreshReferences(w: RawWatch, base: Tree) {
    w.root !in base && forall r, v :: v in w.children(r) && v.reference != 0 ==> v.reference !in base
  }

  lemma ChildTarget(w: Watch, p: Path, m: int, v: Variable, q: Path)
    requires p != [] && Target(w, p[..|p| - 1]) == Some(m) && v in w.children(m) && v.name == p[|p| - 1] && v.reference != 0
    requires Target(w, q) == Some(v.reference)
    ensures q == p
  {
    assert q != [];
    TargetAbove(w, q);
    TargetsDiffer(w, q[..|q| - 1], p[..|p| - 1]);
    SameParts(p, q);
  }

  lemma RootIsTarget(w: Watch)
    requires exists q :: Target(w, q) == Some(w.root)
    ensures Target(w, []) == Some(w.root)
  {
    var q :| Target(w, q) == Some(w.root);
    if q != [] {
      TargetAbove(w, q);
    }
  }

  lemma {:induction false} RecordedAgainIsTarget(w: Watch, base: Tree, s: State, p: Path, k: int)
    requires TouchesOnlyTargets(w, base, s) && NewNodesOk(w, base, s) && FreshReferences(w, base)
    requires Leads(s.tree, w.root, p, k)
    ensures Target(w, p) == Some(k) && LoadedAlong(w, s.tree, p)
  {
    if p == [] {
      assert exists q :: Target(w, q) == Some(w.root);
      RootIsTarget(w);
    } else {
      var m, v := LeadsByLast(s.tree, w.root, p, k);
      RecordedAgainIsTarget(w, base, s, p[..|p| - 1], m);
      TargetIsFresh(w, base, p[..|p| - 1], m);
      ShownChildIsTarget(w, base, s, p, m, v);
      LoadedOneMore(w, s.tree, p, m, v);
    }
  }

  lemma TargetIsFresh(w: Watch, base: Tree, p: Path, r: int)
    requires FreshReferences(w, base) && Target(w, p) == Some(r)
    ensures r !in base
  {
    if p != [] {
      TargetAbove(w, p);
    }
  }

  lemma LoadedOneMore(w: Watch, after: Tree, p: Path, m: int, v: Variable)
    requires p != [] && LoadedAlong(w, after, p[..|p| - 1]) && Target(w, p[..|p| - 1]) == Some(m)
    requires m in after && v in after[m].variables && v.name == p[|p| - 1]
    ensures LoadedAlong(w, after, p)
  {
    var front := p[..|p| - 1];
    forall n: nat | n < |p| ensures LoadedAt(w, after, p, n) {
      if n < |front| {
        assert front[..n] == p[..n] && LoadedAt(w, after, front, n);
      }
    }
  }

  lemma ShownChildIsTarget(w: Watch, base: Tree, s: State, p: Path, m: int, v: Variable)
    requires TouchesOnlyTargets(w, base, s) && FreshReferences(w, base)
    requires p != [] && Target(w, p[..|p| - 1]) == Some(m) && NodeOk(w, s.tree, m)
    requires v in s.tree[m].variables && v.name == p[|p| - 1] && v.reference != 0 && v.reference in s.tree
    ensures Target(w, p) == Some(v.reference)
  {
    assert v in w.children(m);
    assert v.reference !in base;
    var q :| Target(w, q) == Some(v.reference);
    ChildTarget(w, p, m, v, q);
  }

  lemma RecordedAgainExactly(w: Watch, base: Tree, actions: seq<Action>, p: Path)
    requires Completed(w, base, actions) && FreshReferences(w, base)
    ensures var after := Run(w, Started(w, base), actions).tree;
      && AllSettled(w, after)
      && (Recorded(after, w.root, p) <==> Target(w, p).Some? && LoadedAlong(w, after, p))
  {
    var s := Run(w, Started(w, base), actions);
    RunGoes(w, base, actions);
    assert AllSettled(w, s.tree);
    if Target(w, p).Some? && LoadedAlong(w, s.tree, p) {
      TargetIsRecordedAgain(w, s.tree, p);
    }
    if Recorded(s.tree, w.root, p) {
      var k :| Leads(s.tree, w.root, p, k);
      RecordedAgainIsTarget(w, base, s, p, k);
    }
  }

  /** Collecting on the old tree and restoring on the new one, whatever counts are declared: once every
      task has ended and if no fetch failed, the paths that are expanded again are exactly the recorded
      ones whose names still lead to something with children and are loaded on the way. */
  lemma LoadedRoundTrip(w: Watch, t: Tree, reference: int, base: Tree, actions: seq<Action>, p: Path)
    requires PathsRecordedFrom(w, t, reference) && FreshReferences(w, base) && Completed(w, base, actions)
    ensures var after := Run(w, Started(w, base), actions).tree;
      Recorded(after, w.root, p) <==> Recorded(t, reference, p) && Follow(w, p).Some? && LoadedAlong(w, after, p)
  {
    RecordedAgainExactly(w, base, actions, p);
    TargetIsRecordedAndLeads(w, t, reference, p);
  }

  /** With true declared counts everything needed is loaded: exactly the recorded paths whose names
      still lead to something with children are expanded again. */
  lemma ExpansionRoundTrip(w: Watch, t: Tree, reference: int, base: Tree, actions: seq<Action>, p: Path)
    requires w.DeclaresCounts()
    requires PathsRecordedFrom(w, t, reference) && FreshReferences(w, base) && Completed(w, base, actions)
    ensures Recorded(Run(w, Started(w, base), actions).tree, w.root, p)
       <==> Recorded(t, reference, p) && Follow(w, p).Some?
  {
    RecordedAgainExactly(w, base, actions, p);
    TargetIsRecordedAndLeads(w, t, reference, p);
    if Target(w, p).Some? {
      CountsLoadAll(w, Run(w, Started(w, base), actions).tree, p);
    }
  }
}
