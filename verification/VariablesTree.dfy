/** The paged cache over an adapter's child lists: for each expanded reference, the children fetched
    so far. */
module VariablesTree {
  import opened Options

  datatype Variable = Variable(name: string, reference: int, indexedVariables: Option<int>, namedVariables: Option<int>)

  datatype Node = Node(variables: seq<Variable>, total: Option<int>)

  type Tree = map<int, Node>

  /** A fetch rejects, or resolves with some children, possibly none. */
  datatype Fetch = Rejected | Resolved(variables: seq<Variable>)

  const PageSize := 100

  function DeclaredCount(v: Variable): Option<int> {
    if v.indexedVariables.Some? then v.indexedVariables else v.namedVariables
  }

  /** Indexed children are counted before named ones, also if there are none of them. */
  lemma IndexedCountFirst(v: Variable, n: int)
    ensures DeclaredCount(v) == Some(n) <==> v.indexedVariables == Some(n) || (v.indexedVariables == None && v.namedVariables == Some(n))
  {
  }

  function Expanded(t: Tree, reference: int, countHint: Option<int>, fetch: Fetch): Tree {
    match fetch
    case Rejected => t
    case Resolved(variables) => t[reference := Node(variables, countHint)]
  }

  function Collapsed(t: Tree, reference: int): Tree {
    t - {reference}
  }

  function Toggled(t: Tree, reference: int, countHint: Option<int>, fetch: Fetch): Tree {
    if reference in t then Collapsed(t, reference) else Expanded(t, reference, countHint, fetch)
  }

  function MoreLoaded(t: Tree, reference: int, fetch: Fetch): Tree {
    if reference !in t || fetch.Rejected? then t
    else t[reference := t[reference].(variables := t[reference].variables + fetch.variables)]
  }

  // ----- a page that is on its way -----

  /** The tree with the identity of each node object; a node recorded anew is a new object. */
  datatype Cache = Cache(tree: Tree, nodes: map<int, nat>, created: nat)

  /** A request for the page after what is loaded remembers the node object it was made for. */
  datatype Ask = Ask(reference: int, node: nat, start: nat)

  function NodeAt(nodes: map<int, nat>, reference: int): nat {
    if reference in nodes then nodes[reference] else 0
  }

  function RecordedAnew(c: Cache, reference: int, countHint: Option<int>, fetch: Fetch): Cache {
    if fetch.Rejected? then c
    else Cache(Expanded(c.tree, reference, countHint, fetch), c.nodes[reference := c.created], c.created + 1)
  }

  function Forgotten(c: Cache, reference: int): Cache {
    c.(tree := Collapsed(c.tree, reference), nodes := c.nodes - {reference})
  }

  function Asked(c: Cache, reference: int): Option<Ask> {
    if reference !in c.tree then None
    else Some(Ask(reference, NodeAt(c.nodes, reference), |c.tree[reference].variables|))
  }

  /** Whether the object that the request was made for is still the recorded one. */
  predicate StillThere(c: Cache, ask: Ask) {
    ask.reference in c.tree && NodeAt(c.nodes, ask.reference) == ask.node
  }

  /** The page is appended to that object; if it is no longer recorded, nobody will see it. */
  function Arrived(c: Cache, ask: Ask, fetch: Fetch): Cache {
    if StillThere(c, ask) then c.(tree := MoreLoaded(c.tree, ask.reference, fetch)) else c
  }

  /** Every node object was made before the next one will be. */
  ghost predicate Numbered(c: Cache) {
    forall r :: r in c.tree ==> NodeAt(c.nodes, r) < c.created
  }

  lemma StepsKeepNumbered(c: Cache, reference: int, countHint: Option<int>, ask: Ask, fetch: Fetch)
    requires Numbered(c)
    ensures Numbered(RecordedAnew(c, reference, countHint, fetch)) && Numbered(Forgotten(c, reference))
    ensures Numbered(Arrived(c, ask, fetch))
  {
  }

  class DebugVariablesTree {
    var expanded: Tree
    var nodes: map<int, nat>
    var created: nat

    function State(): Cache
      reads this
    {
      Cache(expanded, nodes, created)
    }

    constructor ()
      ensures State() == Cache(map[], map[], 0)
    {
      expanded, nodes, created := map[], map[], 0;
    }

    method Clear()
      modifies this
      ensures State() == Cache(map[], map[], old(created))
    {
      expanded, nodes := map[], map[];
    }

    method Collapse(reference: int)
      modifies this
      ensures State() == Forgotten(old(State()), reference)
      ensures expanded == old(expanded) - {reference}
    {
      expanded, nodes := expanded - {reference}, nodes - {reference};
    }

    /** `fetch` is the answer to the request for the first page. */
    method Expand(reference: int, countHint: Option<int>, fetch: Fetch) returns (ok: bool)
      modifies this
      ensures State() == RecordedAnew(old(State()), reference, countHint, fetch)
      ensures expanded == Expanded(old(expanded), reference, countHint, fetch)
      ensures expanded == if fetch.Rejected? then old(expanded) else old(expanded)[reference := Node(fetch.variables, countHint)]
      ensures ok == fetch.Resolved?
    {
      if fetch.Rejected? {
        return false;
      }
      expanded := expanded[reference := Node(fetch.variables, countHint)];
      nodes, created := nodes[reference := created], created + 1;
      return true;
    }

    /** Whether the map changed. */
    method Toggle(reference: int, countHint: Option<int>, fetch: Fetch) returns (changed: bool)
      modifies this
      ensures expanded == Toggled(old(expanded), reference, countHint, fetch)
      ensures reference in old(expanded) ==> expanded == old(expanded) - {reference}
      ensures reference !in old(expanded) && fetch.Resolved? ==> expanded == old(expanded)[reference := Node(fetch.variables, countHint)]
      ensures reference !in old(expanded) && fetch.Rejected? ==> expanded == old(expanded)
      ensures changed == (reference in old(expanded) || fetch.Resolved?)
    {
      if reference in expanded {
        Collapse(reference);
        return true;
      }
      changed := Expand(reference, countHint, fetch);
    }

    /** The part of loading more before the wait. */
    method AskMore(reference: int) returns (ask: Option<Ask>)
      ensures ask == Asked(State(), reference)
    {
      if reference !in expanded {
        return None;
      }
      return Some(Ask(reference, NodeAt(nodes, reference), |expanded[reference].variables|));
    }

    /** The part after the wait. */
    method MoreArrived(ask: Ask, fetch: Fetch) returns (ok: bool)
      modifies this
      ensures State() == Arrived(old(State()), ask, fetch)
      ensures ok == fetch.Resolved?
    {
      if fetch.Rejected? {
        return false;
      }
      if ask.reference in expanded && NodeAt(nodes, ask.reference) == ask.node {
        var node := expanded[ask.reference];
        expanded := expanded[ask.reference := node.(variables := node.variables + fetch.variables)];
      }
      return true;
    }

    /** Both parts, with nothing in between. */
    method LoadMore(reference: int, fetch: Fetch) returns (ok: bool)
      modifies this
      ensures expanded == MoreLoaded(old(expanded), reference, fetch)
      ensures reference in old(expanded) && fetch.Resolved? ==>
        var node := old(expanded)[reference];
        expanded == old(expanded)[reference := Node(node.variables + fetch.variables, node.total)]
      ensures ok == (reference in old(expanded) && fetch.Resolved?)
    {
      var ask := AskMore(reference);
      if ask.None? {
        return false;
      }
      ok := MoreArrived(ask.value, fetch);
    }
  }

  // ----- paging over fixed child lists -----

  datatype Operation =
    | Expand(reference: int, countHint: Option<int>, fetch: Fetch)
    | Toggle(reference: int, countHint: Option<int>, fetch: Fetch)
    | LoadMore(reference: int, fetch: Fetch)
    | Collapse(reference: int)
    | Clear

  function Apply(t: Tree, op: Operation): Tree {
    match op
    case Expand(r, hint, fetch) => Expanded(t, r, hint, fetch)
    case Toggle(r, hint, fetch) => Toggled(t, r, hint, fetch)
    case LoadMore(r, fetch) => MoreLoaded(t, r, fetch)
    case Collapse(r) => Collapsed(t, r)
    case Clear => map[]
  }

  /** One operation, at its own reference and everywhere else. */
  lemma OperationAtOneNode(t: Tree, op: Operation, r: int)
    requires !op.Clear?
    ensures r != op.reference ==> (r in Apply(t, op) <==> r in t) && (r in t ==> Apply(t, op)[r] == t[r])
    ensures op.Collapse? ==> op.reference !in Apply(t, op)
    ensures op.Toggle? && op.reference in t ==> op.reference !in Apply(t, op)
    ensures (op.Expand? || op.LoadMore? || (op.Toggle? && op.reference !in t)) && op.fetch.Rejected? ==> Apply(t, op) == t
    ensures (op.Expand? || (op.Toggle? && op.reference !in t)) && op.fetch.Resolved? ==>
      Apply(t, op) == t[op.reference := Node(op.fetch.variables, op.countHint)]
    ensures op.LoadMore? && op.fetch.Resolved? ==>
      if op.reference !in t then Apply(t, op) == t
      else Apply(t, op) == t[op.reference := Node(t[op.reference].variables + op.fetch.variables, t[op.reference].total)]
  {
  }

  function ApplyAll(t: Tree, ops: seq<Operation>): Tree {
    if ops == [] then t else Apply(ApplyAll(t, ops[..|ops| - 1]), ops[|ops| - 1])
  }

  /** The adapter's answer for `reference` from `start`: the next few of its children, at most a page. */
  ghost predicate IsPage(children: int -> seq<Variable>, reference: int, start: nat, page: seq<Variable>) {
    && |page| <= PageSize
    && start + |page| <= |children(reference)|
    && page == children(reference)[start..start + |page|]
  }

  function Loaded(t: Tree, reference: int): nat {
    if reference in t then |t[reference].variables| else 0
  }

  /** Whatever is fetched is a page of the reference asked about, from the offset asked for. */
  ghost predicate Served(children: int -> seq<Variable>, t: Tree, op: Operation) {
    match op
    case Expand(r, _, Resolved(page)) => IsPage(children, r, 0, page)
    case Toggle(r, _, Resolved(page)) => IsPage(children, r, 0, page)
    case LoadMore(r, Resolved(page)) => r in t ==> IsPage(children, r, Loaded(t, r), page)
    case _ => true
  }

  ghost predicate AllServed(children: int -> seq<Variable>, t: Tree, ops: seq<Operation>) {
    forall n :: 0 <= n < |ops| ==> Served(children, ApplyAll(t, ops[..n]), ops[n])
  }

  /** Every expanded node holds the first of its reference's children: no gap, no repeat, no change of order. */
  ghost predicate Paged(children: int -> seq<Variable>, t: Tree) {
    forall r :: r in t ==> t[r].variables <= children(r)
  }

  lemma PageExtendsPrefix(all: seq<Variable>, loaded: seq<Variable>, page: seq<Variable>)
    requires loaded <= all && |loaded| + |page| <= |all| && page == all[|loaded|..|loaded| + |page|]
    ensures loaded + page <= all
  {
  }

  lemma ApplyKeepsPaged(children: int -> seq<Variable>, t: Tree, op: Operation)
    requires Paged(children, t) && Served(children, t, op)
    ensures Paged(children, Apply(t, op))
  {
    match op
    case LoadMore(r, Resolved(page)) =>
      if r in t {
        PageExtendsPrefix(children(r), t[r].variables, page);
      }
    case _ =>
  }

  /** In every sequence of operations, each run after the one before has finished. */
  lemma {:induction false} NodesHoldPrefixes(children: int -> seq<Variable>, t: Tree, ops: seq<Operation>)
    requires Paged(children, t) && AllServed(children, t, ops)
    ensures Paged(children, ApplyAll(t, ops))
  {
    if ops != [] {
      var most := ops[..|ops| - 1];
      assert forall n :: 0 <= n < |most| ==> most[..n] == ops[..n];
      NodesHoldPrefixes(children, t, most);
      ApplyKeepsPaged(children, ApplyAll(t, most), ops[|ops| - 1]);
    }
  }

  /** The adapter lists no child twice under this reference. */
  ghost predicate DistinctChildren(children: int -> seq<Variable>, reference: int) {
    forall i, j :: 0 <= i < j < |children(reference)| ==> children(reference)[i] != children(reference)[j]
  }

  /** A page that arrives keeps every node a prefix exactly if it is empty, or the node object it was
      asked for is not the recorded one any more, or that object still ends where it did then. */
  lemma LoadKeepsPagedExactly(children: int -> seq<Variable>, c: Cache, ask: Ask, page: seq<Variable>)
    requires Paged(children, c.tree) && DistinctChildren(children, ask.reference)
    requires IsPage(children, ask.reference, ask.start, page)
    ensures Paged(children, Arrived(c, ask, Resolved(page)).tree)
       <==> page == [] || !StillThere(c, ask) || ask.start == Loaded(c.tree, ask.reference)
  {
    if StillThere(c, ask) {
      var loaded, all := c.tree[ask.reference].variables, children(ask.reference);
      if page == [] {
        assert loaded + page == loaded;
      } else if ask.start == |loaded| {
        PageExtendsPrefix(all, loaded, page);
      } else if loaded + page <= all {
        PageFollowsLoaded(all, loaded, ask.start, page);
      }
    }
  }

  lemma PageFollowsLoaded(all: seq<Variable>, loaded: seq<Variable>, start: nat, page: seq<Variable>)
    requires forall i, j :: 0 <= i < j < |all| ==> all[i] != all[j]
    requires page != [] && start + |page| <= |all| && page == all[start..start + |page|] && loaded + page <= all
    ensures start == |loaded|
  {
    assert (loaded + page)[|loaded|] == page[0] == all[start];
  }

  /** So of two loads that overlap, both asking from where the node ended before either, the second
      to be answered repeats what the first brought, unless one of the two brings nothing. */
  lemma OverlappingLoadsExactly(children: int -> seq<Variable>, c: Cache, ask: Ask, first: seq<Variable>, second: seq<Variable>)
    requires Paged(children, c.tree) && Asked(c, ask.reference) == Some(ask) && DistinctChildren(children, ask.reference)
    requires IsPage(children, ask.reference, ask.start, first) && IsPage(children, ask.reference, ask.start, second)
    ensures Paged(children, Arrived(Arrived(c, ask, Resolved(first)), ask, Resolved(second)).tree) <==> first == [] || second == []
  {
    LoadKeepsPagedExactly(children, c, ask, first);
    LoadKeepsPagedExactly(children, Arrived(c, ask, Resolved(first)), ask, second);
  }

  /** A node that was collapsed and expanded again meanwhile is another object: the page is lost to it. */
  lemma ReplacedNodeMissesPage(c: Cache, ask: Ask, countHint: Option<int>, first: Fetch, page: Fetch)
    requires Numbered(c) && Asked(c, ask.reference) == Some(ask)
    ensures var replaced := RecordedAnew(Forgotten(c, ask.reference), ask.reference, countHint, first);
      Arrived(replaced, ask, page) == replaced
  {
  }
}
