/** The paging loop of a restore: pages are fetched until no recorded name is missing. */
module WatchPaging {
  import opened Options
  import opened VariablesTree
  import opened WatchExpansion

  predicate DeeperNameStillMissing(prefix: Path, variables: seq<Variable>, paths: set<Path>) {
    exists p :: p in paths && prefix < p && !Names(variables, p[|prefix|])
  }

  predicate Names(variables: seq<Variable>, name: string) {
    exists i :: 0 <= i < |variables| && variables[i].name == name
  }

  predicate NeedsMore(prefix: Path, node: Node, paths: set<Path>) {
    && DeeperNameStillMissing(prefix, node.variables, paths)
    && node.total.Some? && |node.variables| < node.total.value
  }

  /** The tree differs at most at one reference. */
  ghost predicate Only(tree: Tree, after: Tree, r: int) {
    forall q :: q != r ==> (q in tree <==> q in after) && (q in tree ==> tree[q] == after[q])
  }

  // ----- the loop, round by round -----

  /** One loop: the reference it loads, the paths it loads for, and the adapter, as a function of the
      reference and the offset asked from. */
  datatype Paging = Paging(reference: int, prefix: Path, paths: set<Path>, answer: (int, nat) -> Fetch)
  {
    function Page(t: Tree): Fetch {
      answer(reference, Loaded(t, reference))
    }
  }

  /** The loop looks for another page. */
  predicate Asks(t: Tree, p: Paging) {
    p.reference in t && NeedsMore(p.prefix, t[p.reference], p.paths)
  }

  /** It does so exactly if a recorded path goes on below this node with a name that is not loaded, and more
      children are declared than are loaded. */
  lemma AsksExactly(t: Tree, p: Paging)
    ensures Asks(t, p) <==>
      && p.reference in t && t[p.reference].total.Some? && |t[p.reference].variables| < t[p.reference].total.value
      && exists q :: q in p.paths && p.prefix < q && forall v :: v in t[p.reference].variables ==> v.name != q[|p.prefix|]
  {
    if p.reference in t {
      var variables := t[p.reference].variables;
      forall q | q in p.paths && p.prefix < q
        ensures Names(variables, q[|p.prefix|]) <==> exists v :: v in variables && v.name == q[|p.prefix|]
      {
        if v :| v in variables && v.name == q[|p.prefix|] {
          var i :| 0 <= i < |variables| && variables[i] == v;
        }
      }
    }
  }

  predicate Stops(t: Tree, p: Paging) {
    !Asks(t, p) || p.Page(t).Rejected?
  }

  function Round(t: Tree, p: Paging): Tree {
    if Stops(t, p) then t else MoreLoaded(t, p.reference, p.Page(t))
  }

  function Rounds(t: Tree, p: Paging, n: nat): Tree {
    if n == 0 then t else Round(Rounds(t, p, n - 1), p)
  }

  ghost predicate Ends(t: Tree, p: Paging) {
    exists n: nat :: Stops(Rounds(t, p, n), p)
  }

  /** Whenever the loop goes on, the page it is given is not empty. */
  ghost predicate NeverEmpty(t: Tree, p: Paging) {
    forall n: nat :: !Stops(Rounds(t, p, n), p) ==> p.Page(Rounds(t, p, n)).variables != []
  }

  /** An empty page leaves the tree as it was, and the loop asks for the same page again. */
  lemma EmptyRoundRepeats(t: Tree, p: Paging)
    requires !Stops(t, p) && p.Page(t).variables == []
    ensures Round(t, p) == t
  {
    assert t[p.reference].variables + [] == t[p.reference].variables;
  }

  lemma {:induction false} RepeatsForEver(t: Tree, p: Paging, n: nat, m: nat)
    requires Round(Rounds(t, p, n), p) == Rounds(t, p, n) && n <= m
    ensures Rounds(t, p, m) == Rounds(t, p, n)
    decreases m
  {
    if n < m {
      RepeatsForEver(t, p, n, m - 1);
    }
  }

  /** How many of the declared children are not loaded yet, while the loop asks. */
  function Missing(t: Tree, p: Paging): nat {
    if Asks(t, p) then t[p.reference].total.value - |t[p.reference].variables| else 0
  }

  lemma RoundLoadsSome(t: Tree, p: Paging)
    requires !Stops(t, p) && p.Page(t).variables != []
    ensures Missing(Round(t, p), p) < Missing(t, p)
  {
  }

  lemma {:induction false} EndsWithin(t: Tree, p: Paging, n: nat)
    requires NeverEmpty(t, p)
    ensures Ends(t, p)
    decreases Missing(Rounds(t, p, n), p)
  {
    if !Stops(Rounds(t, p, n), p) {
      RoundLoadsSome(Rounds(t, p, n), p);
      assert Rounds(t, p, n + 1) == Round(Rounds(t, p, n), p);
      EndsWithin(t, p, n + 1);
    }
  }

  /** Whatever the adapter answers and the parent declared: the loop ends exactly if no page it is given
      while it asks is empty. */
  lemma LoopEndsExactly(t: Tree, p: Paging)
    ensures Ends(t, p) <==> NeverEmpty(t, p)
  {
    if NeverEmpty(t, p) {
      EndsWithin(t, p, 0);
    }
    if Ends(t, p) {
      var m: nat :| Stops(Rounds(t, p, m), p);
      forall n: nat | !Stops(Rounds(t, p, n), p) ensures p.Page(Rounds(t, p, n)).variables != [] {
        if p.Page(Rounds(t, p, n)).variables == [] {
          EmptyRoundRepeats(Rounds(t, p, n), p);
          SameInTheEnd(t, p, n, m);
        }
      }
    }
  }

  lemma SameInTheEnd(t: Tree, p: Paging, n: nat, m: nat)
    requires Round(Rounds(t, p, n), p) == Rounds(t, p, n) && Stops(Rounds(t, p, m), p)
    ensures Stops(Rounds(t, p, n), p)
  {
    if n <= m {
      RepeatsForEver(t, p, n, m);
    } else {
      RepeatsForEver(t, p, m, n);
    }
  }

  /** The loop, which ends under exactly that condition, in the state of its last round. */
  method EnsureDeeperNamesLoaded(tree: DebugVariablesTree, p: Paging)
    requires NeverEmpty(tree.expanded, p)
    modifies tree
    ensures exists n: nat :: tree.expanded == Rounds(old(tree.expanded), p, n)
    ensures Stops(tree.expanded, p)
  {
    ghost var before, n: nat := tree.expanded, 0;
    while true
      invariant tree.expanded == Rounds(before, p, n)
      decreases Missing(tree.expanded, p)
    {
      if p.reference !in tree.expanded {
        return;
      }
      var node := tree.expanded[p.reference];
      if !NeedsMore(p.prefix, node, p.paths) {
        return;
      }
      var fetch := p.answer(p.reference, |node.variables|);
      if fetch.Resolved? {
        RoundLoadsSome(tree.expanded, p);
      }
      var ok := tree.LoadMore(p.reference, fetch);
      if !ok {
        return;
      }
      n := n + 1;
    }
  }

  /** While pages are true to the children, every round keeps the node a prefix of them, and leaves all
      other nodes. */
  lemma {:induction false} RoundsLoadPrefixes(children: int -> seq<Variable>, t: Tree, p: Paging, n: nat)
    requires Paged(children, t)
    requires forall start: nat :: start <= |children(p.reference)| && p.answer(p.reference, start).Resolved? ==>
      IsPage(children, p.reference, start, p.answer(p.reference, start).variables)
    ensures Paged(children, Rounds(t, p, n)) && Only(t, Rounds(t, p, n), p.reference)
  {
    if n > 0 {
      RoundsLoadPrefixes(children, t, p, n - 1);
      var most := Rounds(t, p, n - 1);
      if !Stops(most, p) {
        ApplyKeepsPaged(children, most, LoadMore(p.reference, p.Page(most)));
      }
    }
  }

  // ----- an adapter that is true to its children -----

  /** It never rejects, and answers with the next of the children: at least one while there is one left. */
  ghost predicate TrueTo(children: int -> seq<Variable>, p: Paging) {
    forall start: nat :: start <= |children(p.reference)| ==>
      && p.answer(p.reference, start).Resolved?
      && IsPage(children, p.reference, start, p.answer(p.reference, start).variables)
      && (start < |children(p.reference)| ==> p.answer(p.reference, start).variables != [])
  }

  /** A recorded name is among none of the children, and more of them are declared than there are. */
  predicate LooksBeyond(children: int -> seq<Variable>, t: Tree, p: Paging) {
    p.reference in t && NeedsMore(p.prefix, t[p.reference].(variables := children(p.reference)), p.paths)
  }

  lemma {:induction false} NodeStaysPrefix(children: int -> seq<Variable>, t: Tree, p: Paging, n: nat)
    requires TrueTo(children, p) && p.reference in t && t[p.reference].variables <= children(p.reference)
    ensures p.reference in Rounds(t, p, n) && Rounds(t, p, n)[p.reference].total == t[p.reference].total
    ensures Rounds(t, p, n)[p.reference].variables <= children(p.reference)
  {
    if n > 0 {
      NodeStaysPrefix(children, t, p, n - 1);
      var most := Rounds(t, p, n - 1);
      PageExtendsPrefix(children(p.reference), most[p.reference].variables, p.Page(most).variables);
    }
  }

  lemma MissingFromPrefix(prefix: Path, all: seq<Variable>, loaded: seq<Variable>, paths: set<Path>)
    requires loaded <= all && DeeperNameStillMissing(prefix, all, paths)
    ensures DeeperNameStillMissing(prefix, loaded, paths)
  {
    var q :| q in paths && prefix < q && !Names(all, q[|prefix|]);
    assert forall i :: 0 <= i < |loaded| ==> loaded[i] == all[i];
  }

  lemma {:induction false} RoundsWithoutNode(t: Tree, p: Paging, n: nat)
    requires p.reference !in t
    ensures Rounds(t, p, n) == t
  {
    if n > 0 {
      RoundsWithoutNode(t, p, n - 1);
    }
  }

  /** What can be told before the loop starts: with such an adapter it ends unless it looks beyond the
      children. */
  lemma TrueLoopEndsExactly(children: int -> seq<Variable>, t: Tree, p: Paging)
    requires TrueTo(children, p) && (p.reference in t ==> t[p.reference].variables <= children(p.reference))
    ensures Ends(t, p) <==> !LooksBeyond(children, t, p)
  {
    LoopEndsExactly(t, p);
    forall n: nat ensures LooksBeyond(children, t, p) ==> !Stops(Rounds(t, p, n), p) {
      if LooksBeyond(children, t, p) {
        BeyondNeverStops(children, t, p, n);
      }
    }
    forall n: nat ensures !LooksBeyond(children, t, p) && !Stops(Rounds(t, p, n), p) ==> p.Page(Rounds(t, p, n)).variables != [] {
      if !Stops(Rounds(t, p, n), p) && p.Page(Rounds(t, p, n)).variables == [] {
        EmptyMeansBeyond(children, t, p, n);
      }
    }
  }

  lemma BeyondNeverStops(children: int -> seq<Variable>, t: Tree, p: Paging, n: nat)
    requires TrueTo(children, p) && p.reference in t && t[p.reference].variables <= children(p.reference)
    requires LooksBeyond(children, t, p)
    ensures !Stops(Rounds(t, p, n), p)
  {
    NodeStaysPrefix(children, t, p, n);
    MissingFromPrefix(p.prefix, children(p.reference), Rounds(t, p, n)[p.reference].variables, p.paths);
  }

  lemma EmptyMeansBeyond(children: int -> seq<Variable>, t: Tree, p: Paging, n: nat)
    requires TrueTo(children, p) && (p.reference in t ==> t[p.reference].variables <= children(p.reference))
    requires !Stops(Rounds(t, p, n), p) && p.Page(Rounds(t, p, n)).variables == []
    ensures LooksBeyond(children, t, p)
  {
    if p.reference !in t {
      RoundsWithoutNode(t, p, n);
    } else {
      NodeStaysPrefix(children, t, p, n);
    }
  }
}
