/** Dropping a watch expression's expanded nodes, and recording them by name first. */
module WatchExpansion {
  import opened VariablesTree

  /** The chain of variable names from the expression's own root. */
  type Path = seq<string>

  lemma {:induction false} SubsetSize<T>(a: set<T>, b: set<T>)
    requires a <= b
    ensures |a| <= |b|
  {
    if a != {} {
      var x :| x in a;
      SubsetSize(a - {x}, b - {x});
    }
  }

  ghost predicate Within<K, V>(p: map<K, V>, t: map<K, V>) {
    forall k :: k in p ==> k in t && p[k] == t[k]
  }

  lemma SubmapSize<K, V>(p: map<K, V>, t: map<K, V>)
    requires Within(p, t)
    ensures |p.Keys| <= |t.Keys|
  {
    SubsetSize(p.Keys, t.Keys);
  }

  // ----- pruning -----

  ghost function Pruned(t: Tree, reference: int): (p: Tree)
    ensures Within(p, t)
    decreases |t.Keys|, 0
  {
    if reference == 0 || reference !in t then t
    else
      RemovalShrinks(t, reference);
      PrunedAll(t - {reference}, t[reference].variables)
  }

  ghost function PrunedAll(t: Tree, variables: seq<Variable>): (p: Tree)
    ensures Within(p, t)
    decreases |t.Keys|, 1 + |variables|
  {
    if variables == [] then t
    else
      var most := PrunedAll(t, variables[..|variables| - 1]);
      SubmapSize(most, t);
      Pruned(most, variables[|variables| - 1].reference)
  }

  lemma RemovalShrinks(t: Tree, reference: int)
    requires reference in t
    ensures |(t - {reference}).Keys| < |t.Keys|
  {
    assert (t - {reference}).Keys == t.Keys - {reference};
  }

  /** `b` is a child, among those fetched, of the expanded node `a`. */
  ghost predicate Edge(t: Tree, a: int, b: int) {
    a in t && b != 0 && exists i :: 0 <= i < |t[a].variables| && t[a].variables[i].reference == b
  }

  ghost predicate Trail(t: Tree, trail: seq<int>) {
    && trail != [] && trail[0] != 0
    && forall i :: 0 <= i < |trail| - 1 ==> Edge(t, trail[i], trail[i + 1])
  }

  /** `k` can be reached from `reference` through expanded nodes. */
  ghost predicate Reaches(t: Tree, reference: int, k: int) {
    exists trail :: Trail(t, trail) && trail[0] == reference && trail[|trail| - 1] == k
  }

  lemma EdgeWithin(p: Tree, t: Tree, a: int, b: int)
    requires Within(p, t) && Edge(p, a, b)
    ensures Edge(t, a, b)
  {
  }

  lemma ReachesWithin(p: Tree, t: Tree, reference: int, k: int)
    requires Within(p, t) && Reaches(p, reference, k)
    ensures Reaches(t, reference, k)
  {
    var trail :| Trail(p, trail) && trail[0] == reference && trail[|trail| - 1] == k;
    forall i | 0 <= i < |trail| - 1 ensures Edge(t, trail[i], trail[i + 1]) {
      EdgeWithin(p, t, trail[i], trail[i + 1]);
    }
    assert Trail(t, trail);
  }

  lemma ReachesItself(t: Tree, reference: int)
    requires reference != 0
    ensures Reaches(t, reference, reference)
  {
    assert Trail(t, [reference]);
  }

  lemma ReachesFurther(t: Tree, a: int, i: nat, k: int)
    requires a != 0 && a in t && i < |t[a].variables| && Reaches(t, t[a].variables[i].reference, k)
    ensures Reaches(t, a, k)
  {
    var b := t[a].variables[i].reference;
    var trail :| Trail(t, trail) && trail[0] == b && trail[|trail| - 1] == k;
    var longer := [a] + trail;
    assert Edge(t, a, b);
    forall j | 0 <= j < |longer| - 1 ensures Edge(t, longer[j], longer[j + 1]) {
      if j > 0 {
        assert longer[j] == trail[j - 1] && longer[j + 1] == trail[j];
        assert Edge(t, trail[j - 1], trail[j - 1 + 1]);
      }
    }
    assert Trail(t, longer);
  }

  lemma {:induction false} RemovedWasReached(t: Tree, reference: int, k: int)
    requires k in t && k !in Pruned(t, reference)
    ensures Reaches(t, reference, k)
    decreases |t.Keys|, 0
  {
    if k == reference {
      ReachesItself(t, reference);
    } else {
      RemovalShrinks(t, reference);
      var rest := t - {reference};
      var i := RemovedWasReachedFromOne(rest, t[reference].variables, k);
      ReachesWithin(rest, t, t[reference].variables[i].reference, k);
      ReachesFurther(t, reference, i, k);
    }
  }

  lemma {:induction false} RemovedWasReachedFromOne(t: Tree, variables: seq<Variable>, k: int) returns (i: nat)
    requires k in t && k !in PrunedAll(t, variables)
    ensures i < |variables| && Reaches(t, variables[i].reference, k)
    decreases |t.Keys|, 1 + |variables|
  {
    var before := variables[..|variables| - 1];
    var most := PrunedAll(t, before);
    if k !in most {
      i := RemovedWasReachedFromOne(t, before, k);
    } else {
      i := |variables| - 1;
      SubmapSize(most, t);
      RemovedWasReached(most, variables[i].reference, k);
      ReachesWithin(most, t, variables[i].reference, k);
    }
  }

  /** No removed node leads to a node that is left. */
  ghost predicate Severed(t: Tree, p: Tree) {
    forall a, b :: a in t && a !in p && Edge(t, a, b) ==> b !in p
  }

  lemma SeveredTwice(t: Tree, most: Tree, p: Tree)
    requires Within(most, t) && Within(p, most) && Severed(t, most) && Severed(most, p)
    ensures Severed(t, p)
  {
    forall a, b | a in t && a !in p && Edge(t, a, b) ensures b !in p {
      if a in most {
        assert Edge(most, a, b);
      }
    }
  }

  lemma {:induction false} PrunedSevers(t: Tree, reference: int)
    ensures reference != 0 ==> reference !in Pruned(t, reference)
    ensures Severed(t, Pruned(t, reference))
    decreases |t.Keys|, 0
  {
    if reference != 0 && reference in t {
      RemovalShrinks(t, reference);
      var rest, children := t - {reference}, t[reference].variables;
      PrunedAllSevers(rest, children);
      var p := PrunedAll(rest, children);
      forall a, b | a in t && a !in p && Edge(t, a, b) ensures b !in p {
        if a != reference {
          assert Edge(rest, a, b);
        }
      }
    }
  }

  lemma {:induction false} PrunedAllSevers(t: Tree, variables: seq<Variable>)
    ensures forall i :: 0 <= i < |variables| && variables[i].reference != 0 ==> variables[i].reference !in PrunedAll(t, variables)
    ensures Severed(t, PrunedAll(t, variables))
    decreases |t.Keys|, 1 + |variables|
  {
    if variables != [] {
      var before := variables[..|variables| - 1];
      var most := PrunedAll(t, before);
      PrunedAllSevers(t, before);
      SubmapSize(most, t);
      PrunedSevers(most, variables[|variables| - 1].reference);
      SeveredTwice(t, most, PrunedAll(t, variables));
      assert Within(PrunedAll(t, variables), most);
      assert forall i :: 0 <= i < |before| ==> before[i] == variables[i];
    }
  }

  lemma {:induction false} SeveredTrail(t: Tree, p: Tree, trail: seq<int>)
    requires Within(p, t) && Severed(t, p) && Trail(t, trail) && trail[0] !in p
    ensures trail[|trail| - 1] !in p
  {
    if |trail| > 1 {
      var most := trail[..|trail| - 1];
      assert Trail(t, most) by {
        forall i | 0 <= i < |most| - 1 ensures Edge(t, most[i], most[i + 1]) {
          assert Edge(t, trail[i], trail[i + 1]);
        }
      }
      SeveredTrail(t, p, most);
      assert Edge(t, trail[|trail| - 2], trail[|trail| - 2 + 1]);
    }
  }

  /** On every graph of expanded nodes, cyclic or shared: exactly the nodes that can be reached are
      dropped, and the others keep their pages. */
  lemma PrunesExactlyTheReachable(t: Tree, reference: int, k: int)
    ensures k in Pruned(t, reference) <==> k in t && !Reaches(t, reference, k)
    ensures k in Pruned(t, reference) ==> Pruned(t, reference)[k] == t[k]
  {
    var p := Pruned(t, reference);
    if k in t && k !in p {
      RemovedWasReached(t, reference, k);
    }
    if Reaches(t, reference, k) {
      var trail :| Trail(t, trail) && trail[0] == reference && trail[|trail| - 1] == k;
      PrunedSevers(t, reference);
      SeveredTrail(t, p, trail);
    }
  }

  method PruneExpandedSubtree(tree: DebugVariablesTree, reference: int)
    modifies tree
    ensures tree.expanded == Pruned(old(tree.expanded), reference)
    decreases |tree.expanded.Keys|
  {
    if reference == 0 {
      return;
    }
    ghost var before := tree.expanded;
    if reference !in tree.expanded {
      tree.Collapse(reference);
      return;
    }
    var node := tree.expanded[reference];
    RemovalShrinks(before, reference);
    tree.Collapse(reference);
    ghost var rest := tree.expanded;
    for i := 0 to |node.variables|
      invariant tree.expanded == PrunedAll(rest, node.variables[..i])
    {
      PrunedOneMore(rest, node.variables, i);
      PruneExpandedSubtree(tree, node.variables[i].reference);
    }
    assert node.variables[..|node.variables|] == node.variables;
  }

  lemma PrunedOneMore(rest: Tree, variables: seq<Variable>, i: nat)
    requires i < |variables|
    ensures |PrunedAll(rest, variables[..i]).Keys| <= |rest.Keys|
    ensures Pruned(PrunedAll(rest, variables[..i]), variables[i].reference) == PrunedAll(rest, variables[..i + 1])
  {
    assert variables[..i + 1][..i] == variables[..i];
    SubmapSize(PrunedAll(rest, variables[..i]), rest);
  }

  // ----- recording by name -----

  /** The names `p` lead from `reference` through expanded nodes to the expanded node `k`. */
  ghost predicate Leads(t: Tree, reference: int, p: Path, k: int)
    decreases |p|
  {
    && reference != 0 && reference in t
    && (if p == [] then k == reference
        else exists i :: 0 <= i < |t[reference].variables| && LeadsThrough(t, t[reference].variables[i], p, k))
  }

  ghost predicate LeadsThrough(t: Tree, v: Variable, p: Path, k: int)
    requires p != []
    decreases |p|, 0
  {
    v.name == p[0] && Leads(t, v.reference, p[1..], k)
  }

  ghost predicate Recorded(t: Tree, reference: int, p: Path) {
    exists k :: Leads(t, reference, p, k)
  }

  lemma {:induction false} LeadsOn(t: Tree, reference: int, p: Path, k: int, q: Path, m: int)
    requires Leads(t, reference, p, k) && Leads(t, k, q, m)
    ensures Leads(t, reference, p + q, m)
    decreases |p|
  {
    if p == [] {
      assert p + q == q;
    } else {
      var i :| 0 <= i < |t[reference].variables| && LeadsThrough(t, t[reference].variables[i], p, k);
      LeadsOn(t, t[reference].variables[i].reference, p[1..], k, q, m);
      assert (p + q)[1..] == p[1..] + q;
      assert LeadsThrough(t, t[reference].variables[i], p + q, m);
    }
  }

  lemma LeadsToChild(t: Tree, reference: int, i: nat)
    requires reference != 0 && reference in t && i < |t[reference].variables|
    requires t[reference].variables[i].reference != 0 && t[reference].variables[i].reference in t
    ensures Leads(t, reference, [t[reference].variables[i].name], t[reference].variables[i].reference)
  {
    var v := t[reference].variables[i];
    assert [v.name][1..] == [];
    assert LeadsThrough(t, v, [v.name], v.reference);
  }

  // ----- cycles -----

  ghost predicate LeadsDown(t: Tree, a: int, b: int) {
    exists q: Path :: q != [] && Leads(t, a, q, b)
  }

  /** No expanded node that can be reached from `reference` leads back to itself. */
  ghost predicate NoReturn(t: Tree, reference: int) {
    forall p, k :: Leads(t, reference, p, k) ==> !LeadsDown(t, k, k)
  }

  /** The nodes above `reference` on the walk that has come down to it. */
  ghost predicate Above(t: Tree, above: set<int>, reference: int) {
    reference != 0 && reference in t ==> forall a :: a in above ==> LeadsDown(t, a, reference)
  }

  lemma NotAboveItself(t: Tree, above: set<int>, reference: int)
    requires NoReturn(t, reference) && Above(t, above, reference) && reference != 0 && reference in t
    ensures reference !in above
    ensures |t.Keys - (above + {reference})| < |t.Keys - above|
  {
    assert Leads(t, reference, [], reference);
    assert t.Keys - (above + {reference}) == t.Keys - above - {reference};
  }

  lemma LeadsDownOn(t: Tree, a: int, b: int, c: int)
    requires LeadsDown(t, a, b) && LeadsDown(t, b, c)
    ensures LeadsDown(t, a, c)
  {
    var p: Path :| p != [] && Leads(t, a, p, b);
    var q: Path :| q != [] && Leads(t, b, q, c);
    LeadsOn(t, a, p, b, q, c);
    assert p + q != [];
  }

  lemma WalkGoesDown(t: Tree, above: set<int>, reference: int, i: nat)
    requires NoReturn(t, reference) && Above(t, above, reference)
    requires reference != 0 && reference in t && i < |t[reference].variables|
    ensures NoReturn(t, t[reference].variables[i].reference)
    ensures Above(t, above + {reference}, t[reference].variables[i].reference)
  {
    var v := t[reference].variables[i];
    if v.reference != 0 && v.reference in t {
      LeadsToChild(t, reference, i);
      assert LeadsDown(t, reference, v.reference);
      forall a | a in above ensures LeadsDown(t, a, v.reference) {
        LeadsDownOn(t, a, reference, v.reference);
      }
      forall p, k | Leads(t, v.reference, p, k) ensures !LeadsDown(t, k, k) {
        LeadsOn(t, reference, [v.name], v.reference, p, k);
      }
    }
  }

  /** What collecting from `reference` adds, with `prefix` before every path. */
  ghost predicate Found(t: Tree, reference: int, prefix: Path, q: Path) {
    prefix <= q && Recorded(t, reference, q[|prefix|..])
  }

  ghost predicate FoundBelow(t: Tree, variables: seq<Variable>, prefix: Path, q: Path) {
    exists i :: 0 <= i < |variables| && Found(t, variables[i].reference, prefix + [variables[i].name], q)
  }

  lemma FoundHereOrBelow(t: Tree, reference: int, prefix: Path, q: Path)
    requires reference != 0 && reference in t
    ensures Found(t, reference, prefix, q) <==> q == prefix || FoundBelow(t, t[reference].variables, prefix, q)
  {
    var variables := t[reference].variables;
    if prefix <= q {
      var p := q[|prefix|..];
      if p == [] {
        assert Leads(t, reference, p, reference);
        assert q == prefix;
      } else {
        if Found(t, reference, prefix, q) {
          var k :| Leads(t, reference, p, k);
          var i :| 0 <= i < |variables| && LeadsThrough(t, variables[i], p, k);
          FoundThrough(t, variables[i], prefix, q, k);
        }
        if FoundBelow(t, variables, prefix, q) {
          var i :| 0 <= i < |variables| && Found(t, variables[i].reference, prefix + [variables[i].name], q);
          var k := FoundThroughBack(t, variables[i], prefix, q);
          assert Leads(t, reference, p, k);
        }
      }
    }
  }

  lemma FoundThrough(t: Tree, v: Variable, prefix: Path, q: Path, k: int)
    requires prefix < q && LeadsThrough(t, v, q[|prefix|..], k)
    ensures Found(t, v.reference, prefix + [v.name], q)
  {
    assert q[|prefix|..][1..] == q[|prefix + [v.name]|..];
  }

  lemma FoundThroughBack(t: Tree, v: Variable, prefix: Path, q: Path) returns (k: int)
    requires prefix < q && Found(t, v.reference, prefix + [v.name], q)
    ensures LeadsThrough(t, v, q[|prefix|..], k)
  {
    assert q[|prefix|..][1..] == q[|prefix + [v.name]|..];
    k :| Leads(t, v.reference, q[|prefix + [v.name]|..], k);
  }

  /** `above` are the references between the start of the walk and this call. */
  method CollectExpandedPaths(tree: DebugVariablesTree, reference: int, prefix: Path, found: set<Path>, ghost above: set<int>)
    returns (all: set<Path>)
    requires NoReturn(tree.expanded, reference) && Above(tree.expanded, above, reference)
    ensures forall q :: q in all <==> q in found || Found(tree.expanded, reference, prefix, q)
    decreases |tree.expanded.Keys - above|
  {
    if reference == 0 || reference !in tree.expanded {
      return found;
    }
    all := found + {prefix};
    var node := tree.expanded[reference];
    NotAboveItself(tree.expanded, above, reference);
    for i := 0 to |node.variables|
      invariant forall q :: q in all <==> q in found || q == prefix || FoundBelow(tree.expanded, node.variables[..i], prefix, q)
    {
      var v := node.variables[i];
      WalkGoesDown(tree.expanded, above, reference, i);
      all := CollectExpandedPaths(tree, v.reference, prefix + [v.name], all, above + {reference});
      forall q ensures q in all <==> q in found || q == prefix || FoundBelow(tree.expanded, node.variables[..i + 1], prefix, q) {
        FoundBelowOneMore(tree.expanded, node.variables, i, prefix, q);
      }
    }
    assert node.variables[..|node.variables|] == node.variables;
    forall q ensures q in all <==> q in found || Found(tree.expanded, reference, prefix, q) {
      FoundHereOrBelow(tree.expanded, reference, prefix, q);
    }
  }

  lemma FoundBelowOneMore(t: Tree, variables: seq<Variable>, i: nat, prefix: Path, q: Path)
    requires i < |variables|
    ensures FoundBelow(t, variables[..i + 1], prefix, q)
       <==> FoundBelow(t, variables[..i], prefix, q) || Found(t, variables[i].reference, prefix + [variables[i].name], q)
  {
    if FoundBelow(t, variables[..i], prefix, q) {
      var j :| 0 <= j < i && Found(t, variables[..i][j].reference, prefix + [variables[..i][j].name], q);
      assert variables[..i + 1][j] == variables[..i][j];
    }
    if Found(t, variables[i].reference, prefix + [variables[i].name], q) {
      assert variables[..i + 1][i] == variables[i];
    }
    if FoundBelow(t, variables[..i + 1], prefix, q) {
      var j :| 0 <= j < i + 1 && Found(t, variables[..i + 1][j].reference, prefix + [variables[..i + 1][j].name], q);
      if j < i {
        assert variables[..i][j] == variables[..i + 1][j];
      }
    }
  }

  // ----- when collecting ends -----

  /** The recorded paths are the finite set `all`. */
  ghost predicate RecordsAre(t: Tree, reference: int, all: set<Path>) {
    forall p :: p in all <==> Recorded(t, reference, p)
  }

  ghost predicate RecordedThrough(t: Tree, v: Variable, p: Path) {
    p != [] && p[0] == v.name && Recorded(t, v.reference, p[1..])
  }

  lemma RecordedByFirstName(t: Tree, reference: int, p: Path)
    requires reference != 0 && reference in t && p != []
    ensures Recorded(t, reference, p) <==>
      exists i :: 0 <= i < |t[reference].variables| && RecordedThrough(t, t[reference].variables[i], p)
  {
    var variables := t[reference].variables;
    if Recorded(t, reference, p) {
      var k :| Leads(t, reference, p, k);
      var i :| 0 <= i < |variables| && LeadsThrough(t, variables[i], p, k);
      assert Leads(t, variables[i].reference, p[1..], k);
      assert RecordedThrough(t, variables[i], p);
    }
    if i :| 0 <= i < |variables| && RecordedThrough(t, variables[i], p) {
      var k :| Leads(t, variables[i].reference, p[1..], k);
      assert LeadsThrough(t, variables[i], p, k);
      assert Leads(t, reference, p, k);
    }
  }

  lemma {:induction false} FiniteRecords(t: Tree, reference: int, above: set<int>) returns (all: set<Path>)
    requires NoReturn(t, reference) && Above(t, above, reference)
    ensures RecordsAre(t, reference, all)
    decreases |t.Keys - above|, 0
  {
    if reference == 0 || reference !in t {
      all := {};
    } else {
      NotAboveItself(t, above, reference);
      var below := FiniteRecordsBelow(t, reference, above, |t[reference].variables|);
      all := {[]} + below;
      assert Leads(t, reference, [], reference);
      forall p | p != [] ensures p in all <==> Recorded(t, reference, p) {
        RecordedByFirstName(t, reference, p);
      }
    }
  }

  lemma {:induction false} FiniteRecordsBelow(t: Tree, reference: int, above: set<int>, n: nat) returns (all: set<Path>)
    requires NoReturn(t, reference) && Above(t, above, reference)
    requires reference != 0 && reference in t && n <= |t[reference].variables|
    ensures forall p :: p in all <==> exists i :: 0 <= i < n && RecordedThrough(t, t[reference].variables[i], p)
    decreases |t.Keys - above|, 0, n
  {
    all := {};
    if n > 0 {
      var v := t[reference].variables[n - 1];
      var most := FiniteRecordsBelow(t, reference, above, n - 1);
      NotAboveItself(t, above, reference);
      WalkGoesDown(t, above, reference, n - 1);
      var sub := FiniteRecords(t, v.reference, above + {reference});
      var last := set q | q in sub :: [v.name] + q;
      forall p ensures p in last <==> RecordedThrough(t, v, p) {
        Prefixed(sub, v.name, p);
      }
      all := most + last;
    }
  }

  lemma Prefixed(sub: set<Path>, name: string, p: Path)
    ensures p in (set q | q in sub :: [name] + q) <==> p != [] && p[0] == name && p[1..] in sub
  {
    if p != [] && p[0] == name && p[1..] in sub {
      assert p == [name] + p[1..];
    }
  }

  /** If an expanded node leads back to itself it has recorded paths of every length. */
  lemma {:induction false} CycleRecordsEveryLength(t: Tree, reference: int, p: Path, n: nat) returns (q: Path)
    requires p != [] && Leads(t, reference, p, reference)
    ensures |q| >= n && Leads(t, reference, q, reference)
  {
    if n == 0 {
      q := p;
    } else {
      var shorter := CycleRecordsEveryLength(t, reference, p, n - 1);
      LeadsOn(t, reference, p, reference, shorter, reference);
      q := p + shorter;
    }
  }

  lemma {:induction false} LongestPath(paths: set<Path>) returns (n: nat)
    ensures forall p :: p in paths ==> |p| < n
  {
    if paths == {} {
      n := 0;
    } else {
      var p :| p in paths;
      var m := LongestPath(paths - {p});
      n := if |p| < m then m else |p| + 1;
      assert forall q :: q in paths ==> q == p || q in paths - {p};
    }
  }

  /** So the recorded paths are finitely many, and the walk that collects them ends, exactly if no
      expanded node that can be reached from the start leads back to itself. */
  lemma RecordedFinitelyExactly(t: Tree, reference: int)
    ensures (exists all :: RecordsAre(t, reference, all)) <==> NoReturn(t, reference)
  {
    if NoReturn(t, reference) {
      var all := FiniteRecords(t, reference, {});
    }
    if all :| RecordsAre(t, reference, all) {
      forall p, k | Leads(t, reference, p, k) ensures !LeadsDown(t, k, k) {
        NoneTooLong(t, reference, all, p, k);
      }
    }
  }

  lemma NoneTooLong(t: Tree, reference: int, all: set<Path>, p: Path, k: int)
    requires RecordsAre(t, reference, all) && Leads(t, reference, p, k)
    ensures !LeadsDown(t, k, k)
  {
    var n := LongestPath(all);
    if q: Path :| q != [] && Leads(t, k, q, k) {
      var round := CycleRecordsEveryLength(t, k, q, n);
      LeadsOn(t, reference, p, k, round, k);
      assert Recorded(t, reference, p + round);
    }
  }
}
