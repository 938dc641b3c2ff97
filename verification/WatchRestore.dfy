/** Expanding the recorded paths again under a new root reference. Children are restored
    concurrently, so the restore is a set of tasks over one shared tree, in any order the scheduler
    and the adapter choose. */
module WatchRestore {
  import opened Options
  import opened VariablesTree
  import opened WatchExpansion
  import opened WatchPaging

  /** What the adapter would list under each reference of the new subtree (nothing outside it), the
      subtree's root with its declared count, and the recorded paths. */
  datatype RawWatch = RawWatch(children: int -> seq<Variable>, root: int, total: Option<int>, paths: set<Path>)
  {
    ghost predicate Valid() {
      EachOnce() && UniqueNames() && DistinctReferences()
    }

    /** Every count is declared, and true. Not needed for a restore to be sound. */
    ghost predicate DeclaresCounts() {
      && (root != 0 ==> total == Some(|children(root)|))
      && (forall r, v :: v in children(r) && v.reference != 0 ==> DeclaredCount(v) == Some(|children(v.reference)|))
    }

    /** No child is listed twice under one parent. */
    ghost predicate EachOnce() {
      forall r: int :: DistinctChildren(children, r)
    }

    ghost predicate UniqueNames() {
      forall r, v, u :: v in children(r) && u in children(r) && v.name == u.name ==> v == u
    }

    ghost predicate DistinctReferences() {
      && (forall r, v, s, u :: v in children(r) && u in children(s) && v.reference == u.reference != 0 ==> r == s && v == u)
      && (forall r, v :: v in children(r) && v.reference != 0 ==> v.reference != root)
    }
  }

  type Watch = w: RawWatch | w.Valid() ghost witness RawWatch(_ => [], 0, None, {})

  // ----- which nodes are to be expanded -----

  ghost predicate HasChild(w: RawWatch, r: int, name: string) {
    exists v :: v in w.children(r) && v.name == name
  }

  ghost function Child(w: RawWatch, r: int, name: string): (v: Variable)
    requires HasChild(w, r, name)
    ensures v in w.children(r) && v.name == name
  {
    var v :| v in w.children(r) && v.name == name;
    v
  }

  /** The reference that the names `p` lead to in the new subtree, if `p` and every path above it is
      recorded and each leads to something that has children. */
  ghost function Target(w: RawWatch, p: Path): Option<int> {
    if p !in w.paths then None
    else if p == [] then (if w.root != 0 then Some(w.root) else None)
    else
      var above, name := Target(w, p[..|p| - 1]), p[|p| - 1];
      if above.Some? && HasChild(w, above.value, name) && Child(w, above.value, name).reference != 0
      then Some(Child(w, above.value, name).reference)
      else None
  }

  lemma ChildIs(w: Watch, r: int, v: Variable)
    requires v in w.children(r)
    ensures HasChild(w, r, v.name) && Child(w, r, v.name) == v
  {
  }

  lemma TargetBelow(w: Watch, p: Path, r: int, v: Variable)
    requires Target(w, p) == Some(r) && v in w.children(r) && v.reference != 0 && p + [v.name] in w.paths
    ensures Target(w, p + [v.name]) == Some(v.reference)
  {
    ChildIs(w, r, v);
    assert (p + [v.name])[..|p|] == p;
  }

  lemma TargetAbove(w: Watch, p: Path)
    requires p != [] && Target(w, p).Some?
    ensures Target(w, p[..|p| - 1]).Some?
    ensures var r := Target(w, p[..|p| - 1]).value;
      HasChild(w, r, p[|p| - 1]) && Child(w, r, p[|p| - 1]).reference == Target(w, p).value != 0
  {
  }

  lemma SameParts(p: Path, q: Path)
    requires p != [] && q != [] && p[..|p| - 1] == q[..|q| - 1] && p[|p| - 1] == q[|q| - 1]
    ensures p == q
  {
    assert p == p[..|p| - 1] + [p[|p| - 1]];
    assert q == q[..|q| - 1] + [q[|q| - 1]];
  }

  lemma PartOfPart(p: Path, n: nat)
    requires n < |p|
    ensures p[..|p| - 1][..n] == p[..n]
  {
  }

  lemma OneNameFurther(prefix: Path, p: Path)
    requires prefix < p
    ensures p[..|prefix| + 1] == prefix + [p[|prefix|]]
    ensures (prefix + [p[|prefix|]])[..|prefix|] == prefix
    ensures prefix + [p[|prefix|]] <= p
  {
  }

  /** No two paths lead to one reference. */
  lemma {:induction false} TargetsDiffer(w: Watch, p: Path, q: Path)
    requires Target(w, p).Some? && Target(w, p) == Target(w, q)
    ensures p == q
  {
    if p != [] && q != [] {
      TargetAbove(w, p);
      TargetAbove(w, q);
      TargetsDiffer(w, p[..|p| - 1], q[..|q| - 1]);
      SameParts(p, q);
    } else if p != [] {
      TargetAbove(w, p);
    } else if q != [] {
      TargetAbove(w, q);
    }
  }

  // ----- tasks -----

  /** A task waits for its first page, or is about to look at what is loaded, or waits for one more page. */
  datatype Phase = Expanding | Checking(loaded: nat) | Loading(loaded: nat)

  datatype Task = Task(reference: int, total: Option<int>, prefix: Path, phase: Phase)

  /** `started` are the prefixes for which there has been a task. */
  datatype State = State(tree: Tree, tasks: set<Task>, started: set<Path>, failed: bool)

  /** One call's task, if the call does anything. */
  function Call(reference: int, total: Option<int>, prefix: Path, paths: set<Path>): set<Task> {
    if reference == 0 || prefix !in paths then {} else {Task(reference, total, prefix, Expanding)}
  }

  function CallEach(prefix: Path, variables: seq<Variable>, paths: set<Path>): set<Task> {
    set v, t | v in variables && t in Call(v.reference, DeclaredCount(v), prefix + [v.name], paths) :: t
  }

  datatype Action = Answer(task: Task, fetch: Fetch) | Resume(task: Task)

  function Replaced(s: State, t: Task, phase: Phase, tree: Tree): State {
    s.(tree := tree, tasks := s.tasks - {t} + {t.(phase := phase)})
  }

  function Descended(s: State, t: Task, paths: set<Path>): State
    requires t.reference in s.tree
  {
    var calls := CallEach(t.prefix, s.tree[t.reference].variables, paths);
    s.(tasks := s.tasks - {t} + calls, started := s.started + set c | c in calls :: c.prefix)
  }

  function Dropped(s: State, t: Task): State {
    s.(tasks := s.tasks - {t}, failed := true)
  }

  function Next(s: State, a: Action, paths: set<Path>): State {
    var t := a.task;
    if t !in s.tasks then s
    else
      match a
      case Answer(_, fetch) =>
        if t.phase.Expanding? then
          if fetch.Rejected? then Dropped(s, t)
          else Replaced(s, t, Checking(|fetch.variables|), Expanded(s.tree, t.reference, t.total, fetch))
        else if t.phase.Loading? && t.reference in s.tree then
          if fetch.Rejected? then Descended(s, t, paths).(failed := true)
          else Replaced(s, t, Checking(t.phase.loaded + |fetch.variables|), MoreLoaded(s.tree, t.reference, fetch))
        else s
      case Resume(_) =>
        if !t.phase.Checking? then s
        else if t.reference !in s.tree then Dropped(s, t)
        else if NeedsMore(t.prefix, s.tree[t.reference], paths) then
          Replaced(s, t, Loading(|s.tree[t.reference].variables|), s.tree)
        else Descended(s, t, paths)
  }

  /** What the adapter answers: a page of the children. */
  ghost predicate Serves(w: RawWatch, a: Action) {
    a.Answer? && a.fetch.Resolved? ==>
      match a.task.phase
      case Expanding => IsPage(w.children, a.task.reference, 0, a.fetch.variables)
      case Loading(loaded) => IsPage(w.children, a.task.reference, loaded, a.fetch.variables)
      case Checking(_) => true
  }

  /** A further page is not empty. */
  predicate BringsMore(a: Action) {
    a.Answer? && a.fetch.Resolved? && a.task.phase.Loading? ==> a.fetch.variables != []
  }

  function Started(w: RawWatch, base: Tree): State {
    var calls := Call(w.root, w.total, [], w.paths);
    State(base, calls, set c | c in calls :: c.prefix, false)
  }

  // ----- what every step keeps -----

  ghost predicate NodeOk(w: RawWatch, tree: Tree, r: int) {
    && r in tree && tree[r].variables <= w.children(r)
    && (w.DeclaresCounts() ==> tree[r].total == Some(|w.children(r)|))
  }

  ghost predicate TaskOk(w: RawWatch, tree: Tree, t: Task) {
    && Target(w, t.prefix) == Some(t.reference)
    && (w.DeclaresCounts() ==> t.total == Some(|w.children(t.reference)|))
    && (t.phase.Expanding? || (NodeOk(w, tree, t.reference) && |tree[t.reference].variables| == t.phase.loaded))
  }

  ghost predicate TasksOk(w: RawWatch, s: State) {
    forall t :: t in s.tasks ==> TaskOk(w, s.tree, t)
  }

  ghost predicate OneTaskEach(s: State) {
    forall t, u :: t in s.tasks && u in s.tasks && t.prefix == u.prefix ==> t == u
  }

  /** A recorded path's node is loaded as far as the program will load it. */
  ghost predicate Done(w: RawWatch, tree: Tree, p: Path) {
    Target(w, p).Some? && var r := Target(w, p).value; NodeOk(w, tree, r) && !NeedsMore(p, tree[r], w.paths)
  }

  /** Above `p` is such a node without the name that `p` goes on with. */
  ghost predicate CutOff(w: RawWatch, tree: Tree, p: Path, n: nat) {
    n < |p| && Done(w, tree, p[..n]) && !Names(tree[Target(w, p[..n]).value].variables, p[n])
  }

  ghost predicate Underway(s: State, p: Path) {
    exists t :: t in s.tasks && t.prefix <= p
  }

  ghost predicate Settled(w: RawWatch, tree: Tree, p: Path) {
    Done(w, tree, p) || exists n: nat :: CutOff(w, tree, p, n)
  }

  ghost predicate Covered(w: RawWatch, s: State) {
    s.failed || forall p :: Target(w, p).Some? ==> Underway(s, p) || Settled(w, s.tree, p)
  }

  /** What has been added to the tree is true to the children. */
  ghost predicate NewNodesOk(w: RawWatch, base: Tree, s: State) {
    forall r :: r in s.tree && r !in base ==> NodeOk(w, s.tree, r)
  }

  ghost predicate TouchesOnlyTargets(w: RawWatch, base: Tree, s: State) {
    forall r :: (forall p :: Target(w, p) != Some(r)) ==>
      (r in s.tree <==> r in base) && (r in base ==> s.tree[r] == base[r])
  }

  ghost predicate KeepsKeys(base: Tree, s: State) {
    forall r :: r in base ==> r in s.tree
  }

  ghost predicate StartedOk(w: RawWatch, s: State) {
    && (forall q :: q in s.started ==> q in w.paths)
    && (forall t :: t in s.tasks ==> t.prefix in s.started)
    && (forall q :: q in s.started && q != [] ==> q[..|q| - 1] in s.started)
    && (forall q, t :: q in s.started && q != [] && t in s.tasks ==> t.prefix != q[..|q| - 1])
  }

  // ----- a task moves to its next phase -----

  lemma OtherTaskElsewhere(w: Watch, s: State, t: Task, u: Task)
    requires TasksOk(w, s) && OneTaskEach(s) && t in s.tasks && u in s.tasks && u != t
    ensures u.reference != t.reference
  {
    if u.reference == t.reference {
      TargetsDiffer(w, t.prefix, u.prefix);
    }
  }

  lemma ReplacedKeepsTasks(w: Watch, s: State, t: Task, phase: Phase, after: Tree)
    requires TasksOk(w, s) && OneTaskEach(s) && t in s.tasks
    requires Only(s.tree, after, t.reference) && TaskOk(w, after, t.(phase := phase))
    ensures TasksOk(w, Replaced(s, t, phase, after))
  {
    forall u | u in s.tasks && u != t ensures TaskOk(w, after, u) {
      OtherTaskElsewhere(w, s, t, u);
      assert TaskOk(w, s.tree, u);
    }
  }

  lemma ReplacedKeepsOneTaskEach(s: State, t: Task, phase: Phase, after: Tree)
    requires OneTaskEach(s) && t in s.tasks
    ensures OneTaskEach(Replaced(s, t, phase, after))
  {
  }

  lemma UnderwayAtTask(s: State, t: Task, phase: Phase, after: Tree, p: Path)
    requires t in s.tasks && t.prefix <= p
    ensures Underway(Replaced(s, t, phase, after), p)
  {
    assert t.(phase := phase) in Replaced(s, t, phase, after).tasks;
  }

  lemma DoneElsewhere(w: Watch, tree: Tree, after: Tree, r: int, p: Path)
    requires Only(tree, after, r) && Done(w, tree, p) && Target(w, p) != Some(r)
    ensures Done(w, after, p) && after[Target(w, p).value] == tree[Target(w, p).value]
  {
  }

  lemma ReplacedKeepsSettled(w: Watch, s: State, t: Task, phase: Phase, after: Tree, p: Path)
    requires t in s.tasks && Target(w, t.prefix) == Some(t.reference)
    requires Only(s.tree, after, t.reference) && Settled(w, s.tree, p)
    ensures Underway(Replaced(s, t, phase, after), p) || Settled(w, after, p)
  {
    if Done(w, s.tree, p) {
      if Target(w, p) == Some(t.reference) {
        TargetsDiffer(w, p, t.prefix);
        UnderwayAtTask(s, t, phase, after, p);
      } else {
        DoneElsewhere(w, s.tree, after, t.reference, p);
      }
    } else {
      var n: nat :| CutOff(w, s.tree, p, n);
      if Target(w, p[..n]) == Some(t.reference) {
        TargetsDiffer(w, p[..n], t.prefix);
        UnderwayAtTask(s, t, phase, after, p);
      } else {
        DoneElsewhere(w, s.tree, after, t.reference, p[..n]);
        assert CutOff(w, after, p, n);
      }
    }
  }

  lemma ReplacedKeepsCovered(w: Watch, s: State, t: Task, phase: Phase, after: Tree)
    requires Covered(w, s) && t in s.tasks && Target(w, t.prefix) == Some(t.reference)
    requires Only(s.tree, after, t.reference)
    ensures Covered(w, Replaced(s, t, phase, after))
  {
    var s' := Replaced(s, t, phase, after);
    if !s.failed {
      forall p | Target(w, p).Some? ensures Underway(s', p) || Settled(w, after, p) {
        if Underway(s, p) {
          StillUnderway(s, t, phase, after, p);
        } else {
          ReplacedKeepsSettled(w, s, t, phase, after, p);
        }
      }
    }
  }

  lemma StillUnderway(s: State, t: Task, phase: Phase, after: Tree, p: Path)
    requires t in s.tasks && Underway(s, p)
    ensures Underway(Replaced(s, t, phase, after), p)
  {
    var u :| u in s.tasks && u.prefix <= p;
    if u == t {
      assert t.(phase := phase) in Replaced(s, t, phase, after).tasks;
    }
  }

  lemma ReplacedKeepsStarted(w: Watch, s: State, t: Task, phase: Phase, after: Tree)
    requires StartedOk(w, s) && t in s.tasks
    ensures StartedOk(w, Replaced(s, t, phase, after))
  {
  }

  lemma ReplacedTouchesOnlyTargets(w: Watch, base: Tree, s: State, t: Task, phase: Phase, after: Tree)
    requires TouchesOnlyTargets(w, base, s) && Target(w, t.prefix) == Some(t.reference)
    requires Only(s.tree, after, t.reference)
    ensures TouchesOnlyTargets(w, base, Replaced(s, t, phase, after))
  {
  }

  // ----- a task calls its children -----

  lemma CalledChild(w: Watch, t: Task, variables: seq<Variable>, c: Task) returns (v: Variable)
    requires c in CallEach(t.prefix, variables, w.paths)
    ensures v in variables && v.reference != 0 && t.prefix + [v.name] in w.paths
    ensures c == Task(v.reference, DeclaredCount(v), t.prefix + [v.name], Expanding)
  {
    v :| v in variables && c in Call(v.reference, DeclaredCount(v), t.prefix + [v.name], w.paths);
  }

  lemma CalledTaskOk(w: Watch, tree: Tree, t: Task, c: Task)
    requires TaskOk(w, tree, t) && NodeOk(w, tree, t.reference)
    requires c in CallEach(t.prefix, tree[t.reference].variables, w.paths)
    ensures TaskOk(w, tree, c) && c.prefix != [] && c.prefix[..|c.prefix| - 1] == t.prefix
  {
    var v := CalledChild(w, t, tree[t.reference].variables, c);
    assert v in w.children(t.reference);
    TargetBelow(w, t.prefix, t.reference, v);
  }

  lemma DescendedKeepsTasks(w: Watch, s: State, t: Task)
    requires TasksOk(w, s) && t in s.tasks && NodeOk(w, s.tree, t.reference)
    ensures TasksOk(w, Descended(s, t, w.paths))
  {
    forall c | c in CallEach(t.prefix, s.tree[t.reference].variables, w.paths) ensures TaskOk(w, s.tree, c) {
      CalledTaskOk(w, s.tree, t, c);
    }
  }

  lemma CalledIsNew(w: Watch, s: State, t: Task, c: Task)
    requires StartedOk(w, s) && t in s.tasks && TaskOk(w, s.tree, t) && NodeOk(w, s.tree, t.reference)
    requires c in CallEach(t.prefix, s.tree[t.reference].variables, w.paths)
    ensures c.prefix !in s.started
  {
    CalledTaskOk(w, s.tree, t, c);
  }

  lemma CalledOnce(w: Watch, tree: Tree, t: Task, c: Task, d: Task)
    requires TaskOk(w, tree, t) && NodeOk(w, tree, t.reference)
    requires c in CallEach(t.prefix, tree[t.reference].variables, w.paths)
    requires d in CallEach(t.prefix, tree[t.reference].variables, w.paths)
    requires c.prefix == d.prefix
    ensures c == d
  {
    var v := CalledChild(w, t, tree[t.reference].variables, c);
    var u := CalledChild(w, t, tree[t.reference].variables, d);
    assert v in w.children(t.reference) && u in w.children(t.reference);
    assert c.prefix[|t.prefix|] == v.name && d.prefix[|t.prefix|] == u.name;
  }

  lemma DescendedKeepsOneTaskEach(w: Watch, s: State, t: Task)
    requires OneTaskEach(s) && StartedOk(w, s) && t in s.tasks && TaskOk(w, s.tree, t) && NodeOk(w, s.tree, t.reference)
    ensures OneTaskEach(Descended(s, t, w.paths))
  {
    var calls := CallEach(t.prefix, s.tree[t.reference].variables, w.paths);
    forall c, u | c in calls && u in s.tasks ensures c.prefix != u.prefix {
      CalledIsNew(w, s, t, c);
    }
    forall c, d | c in calls && d in calls && c.prefix == d.prefix ensures c == d {
      CalledOnce(w, s.tree, t, c, d);
    }
  }

  lemma DescendedKeepsStarted(w: Watch, s: State, t: Task)
    requires OneTaskEach(s) && StartedOk(w, s) && t in s.tasks && TaskOk(w, s.tree, t) && NodeOk(w, s.tree, t.reference)
    ensures StartedOk(w, Descended(s, t, w.paths))
  {
    var calls := CallEach(t.prefix, s.tree[t.reference].variables, w.paths);
    var s' := Descended(s, t, w.paths);
    forall c | c in calls ensures c.prefix !in s.started && c.prefix in w.paths && c.prefix != [] && c.prefix[..|c.prefix| - 1] == t.prefix {
      CalledIsNew(w, s, t, c);
      CalledTaskOk(w, s.tree, t, c);
    }
    forall q | q in s'.started && q !in s.started ensures q in w.paths && q != [] && q[..|q| - 1] == t.prefix {
      var c :| c in calls && c.prefix == q;
    }
    forall q, u | q in s'.started && q != [] && u in s'.tasks ensures u.prefix != q[..|q| - 1] {
      if q in s.started {
        assert q[..|q| - 1] in s.started;
      } else {
        assert q[..|q| - 1] == t.prefix;
        assert t.prefix in s.started;
      }
    }
  }

  lemma {:induction false} TargetsAbove(w: Watch, p: Path, n: nat)
    requires n <= |p| && Target(w, p).Some?
    ensures Target(w, p[..n]).Some?
  {
    if n < |p| {
      TargetAbove(w, p);
      TargetsAbove(w, p[..|p| - 1], n);
      PartOfPart(p, n);
    } else {
      assert p[..n] == p;
    }
  }

  lemma LastChild(w: Watch, prefix: Path, r: int, name: string) returns (v: Variable)
    requires Target(w, prefix) == Some(r) && Target(w, prefix + [name]).Some?
    ensures v in w.children(r) && v.reference != 0 && v.name == name && prefix + [name] in w.paths
  {
    assert (prefix + [name])[..|prefix|] == prefix;
    TargetAbove(w, prefix + [name]);
    v := Child(w, r, name);
  }

  lemma NextName(w: Watch, prefix: Path, r: int, p: Path) returns (v: Variable)
    requires Target(w, prefix) == Some(r) && prefix < p && Target(w, p).Some?
    ensures v in w.children(r) && v.reference != 0 && v.name == p[|prefix|]
    ensures prefix + [v.name] in w.paths && prefix + [v.name] <= p
  {
    OneNameFurther(prefix, p);
    TargetsAbove(w, p, |prefix| + 1);
    v := LastChild(w, prefix, r, p[|prefix|]);
  }

  lemma IsCalled(prefix: Path, variables: seq<Variable>, paths: set<Path>, v: Variable)
    requires v in variables && v.reference != 0 && prefix + [v.name] in paths
    ensures Task(v.reference, DeclaredCount(v), prefix + [v.name], Expanding) in CallEach(prefix, variables, paths)
  {
    assert Task(v.reference, DeclaredCount(v), prefix + [v.name], Expanding) in Call(v.reference, DeclaredCount(v), prefix + [v.name], paths);
  }

  lemma NamedVariable(variables: seq<Variable>, name: string) returns (v: Variable)
    requires Names(variables, name)
    ensures v in variables && v.name == name
  {
    var i :| 0 <= i < |variables| && variables[i].name == name;
    v := variables[i];
  }

  /** The next name of a path that is to be expanded further is called, if it is loaded. */
  lemma CalledOnTheWay(w: Watch, s: State, t: Task, p: Path)
    requires TaskOk(w, s.tree, t) && NodeOk(w, s.tree, t.reference)
    requires t.prefix < p && Target(w, p).Some? && Names(s.tree[t.reference].variables, p[|t.prefix|])
    ensures Underway(Descended(s, t, w.paths), p)
  {
    var v := NextName(w, t.prefix, t.reference, p);
    var u := NamedVariable(s.tree[t.reference].variables, p[|t.prefix|]);
    assert u in w.children(t.reference);
    IsCalled(t.prefix, s.tree[t.reference].variables, w.paths, v);
  }

  /** If it is not, the path is cut off there. */
  lemma CutOffAtTask(w: Watch, s: State, t: Task, p: Path)
    requires TaskOk(w, s.tree, t) && NodeOk(w, s.tree, t.reference) && !NeedsMore(t.prefix, s.tree[t.reference], w.paths)
    requires t.prefix < p && !Names(s.tree[t.reference].variables, p[|t.prefix|])
    ensures CutOff(w, s.tree, p, |t.prefix|)
  {
    assert p[..|t.prefix|] == t.prefix;
  }

  lemma DescendedCovers(w: Watch, s: State, t: Task, p: Path)
    requires t in s.tasks && TaskOk(w, s.tree, t) && NodeOk(w, s.tree, t.reference)
    requires !NeedsMore(t.prefix, s.tree[t.reference], w.paths)
    requires Target(w, p).Some? && t.prefix <= p
    ensures Underway(Descended(s, t, w.paths), p) || Settled(w, s.tree, p)
  {
    if t.prefix != p {
      if Names(s.tree[t.reference].variables, p[|t.prefix|]) {
        CalledOnTheWay(w, s, t, p);
      } else {
        CutOffAtTask(w, s, t, p);
      }
    }
  }

  lemma DescendedKeepsCovered(w: Watch, s: State, t: Task)
    requires Covered(w, s) && t in s.tasks && TaskOk(w, s.tree, t) && NodeOk(w, s.tree, t.reference)
    requires !NeedsMore(t.prefix, s.tree[t.reference], w.paths)
    ensures Covered(w, Descended(s, t, w.paths))
  {
    var s' := Descended(s, t, w.paths);
    if !s.failed {
      forall p | Target(w, p).Some? ensures Underway(s', p) || Settled(w, s.tree, p) {
        if Underway(s, p) {
          var u :| u in s.tasks && u.prefix <= p;
          if u == t {
            DescendedCovers(w, s, t, p);
          } else {
            assert u in s'.tasks;
          }
        }
      }
    }
  }
}
