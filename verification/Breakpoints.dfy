/** Sorting sets of line numbers. */
module LineSets {
  ghost predicate Minimal(m: int, s: set<int>) {
    m in s && forall x :: x in s ==> m <= x
  }

  ghost function AnyOf<T>(s: set<T>): (x: T)
    requires s != {}
    ensures x in s
  {
    var x :| x in s;
    x
  }

  lemma {:induction false} LeastExists(s: set<int>)
    requires s != {}
    ensures exists m :: Minimal(m, s)
  {
    var a := AnyOf(s);
    if s == {a} {
      assert Minimal(a, s);
    } else {
      LeastExists(s - {a});
      var b :| Minimal(b, s - {a});
      assert forall x :: x in s ==> x == a || x in s - {a};
      assert Minimal(if a <= b then a else b, s);
    }
  }

  function Least(s: set<int>): (m: int)
    requires s != {}
    ensures Minimal(m, s)
  {
    LeastExists(s);
    var m :| m in s && forall x :: x in s ==> m <= x;
    m
  }

  function SortedLines(s: set<int>): (lines: seq<int>)
    ensures |lines| == |s|
    ensures forall x :: x in s <==> x in lines
    ensures forall i, j :: 0 <= i < j < |lines| ==> lines[i] < lines[j]
  {
    if s == {} then []
    else [Least(s)] + SortedLines(s - {Least(s)})
  }
}

/** The breakpoint store: which lines the user marked in which file, and what the live session last
    said about them. */
module Breakpoints {
  import opened Options
  import opened LineSets

  /** A file, within one workspace root. */
  datatype Location = Location(rootId: string, path: string)

  datatype Descriptor = Descriptor(line: int, condition: Option<string>, logMessage: Option<string>,
                                   hitCondition: Option<string>)

  datatype Verdict = Verdict(verified: bool, actualLine: Option<int>, message: Option<string>)

  datatype View = View(descriptor: Descriptor, verification: Option<Verdict>)

  datatype Store = Store(descriptors: map<Location, map<int, Descriptor>>,
                         verification: map<Location, map<int, Verdict>>)
  {
    function Placed(at: Location): map<int, Descriptor> {
      if at in descriptors then descriptors[at] else map[]
    }

    function Verdicts(at: Location): map<int, Verdict> {
      if at in verification then verification[at] else map[]
    }

    /** Every descriptor is filed under its own line, and every verdict is about a placed line. */
    ghost predicate Consistent() {
      forall at :: ConsistentAt(at)
    }

    ghost predicate ConsistentAt(at: Location) {
      Filed(Placed(at)) && Verdicts(at).Keys <= Placed(at).Keys
    }
  }

  ghost predicate Filed(placed: map<int, Descriptor>) {
    forall line :: line in placed ==> placed[line].line == line
  }

  /** What is sent for a file: its descriptors by increasing line. */
  function Listed(placed: map<int, Descriptor>): (list: seq<Descriptor>)
    ensures |list| == |placed|
  {
    var lines := SortedLines(placed.Keys);
    seq(|lines|, i requires 0 <= i < |lines| => assert lines[i] in placed.Keys; placed[lines[i]])
  }

  /** The list is in order of the lines, and every placed line is in it once. */
  lemma ListedInOrder(placed: map<int, Descriptor>)
    requires Filed(placed)
    ensures forall i, j :: 0 <= i < j < |Listed(placed)| ==> Listed(placed)[i].line < Listed(placed)[j].line
    ensures forall i :: 0 <= i < |Listed(placed)| ==>
      Listed(placed)[i].line in placed && placed[Listed(placed)[i].line] == Listed(placed)[i]
    ensures forall line :: line in placed ==> exists i :: 0 <= i < |Listed(placed)| && Listed(placed)[i].line == line
  {
    var lines, list := SortedLines(placed.Keys), Listed(placed);
    forall i | 0 <= i < |lines| ensures list[i].line == lines[i] && lines[i] in placed && placed[lines[i]] == list[i] {
      assert lines[i] in lines;
    }
    forall line | line in placed ensures exists i :: 0 <= i < |list| && list[i].line == line {
      assert line in lines;
      var i :| 0 <= i < |lines| && lines[i] == line;
      assert list[i].line == line;
    }
  }

  // ----- the operations, on values -----

  function WithoutVerdict(s: Store, at: Location, line: int): map<Location, map<int, Verdict>> {
    if at in s.verification then s.verification[at := s.verification[at] - {line}] else s.verification
  }

  function Toggled(s: Store, at: Location, line: int): Store {
    if line in s.Placed(at) then
      Store(s.descriptors[at := s.Placed(at) - {line}], WithoutVerdict(s, at, line))
    else
      Store(s.descriptors[at := s.Placed(at)[line := Descriptor(line, None, None, None)]], WithoutVerdict(s, at, line))
  }

  function Removed(s: Store, at: Location, line: int): Store {
    if line in s.Placed(at) then
      Store(s.descriptors[at := s.Placed(at) - {line}], WithoutVerdict(s, at, line))
    else s
  }

  /** The descriptor filed under a line gets the three details of `d`. */
  function Redescribed(s: Store, at: Location, d: Descriptor): Store {
    if d.line in s.Placed(at) then
      var updated := s.Placed(at)[d.line].(condition := d.condition, logMessage := d.logMessage, hitCondition := d.hitCondition);
      Store(s.descriptors[at := s.Placed(at)[d.line := updated]], s.verification)
    else s
  }

  /** Results are matched to the current descriptors by position; a list of another length is ignored. */
  function Verified(s: Store, at: Location, results: seq<Verdict>): Store {
    var list := Listed(s.Placed(at));
    if |results| != |list| then s
    else Store(s.descriptors, s.verification[at := Recorded(s.Verdicts(at), list, results, |list|)])
  }

  /** The first `n` results, each under the line of its descriptor. */
  function Recorded(verdicts: map<int, Verdict>, list: seq<Descriptor>, results: seq<Verdict>, n: nat): map<int, Verdict>
    requires n <= |list| == |results|
  {
    if n == 0 then verdicts
    else Recorded(verdicts, list, results, n - 1)[list[n - 1].line := results[n - 1]]
  }

  function Unverified(s: Store): Store {
    Store(s.descriptors, map[])
  }

  function Views(s: Store, at: Location): seq<View> {
    var list := Listed(s.Placed(at));
    seq(|list|, i requires 0 <= i < |list| =>
      View(list[i], if list[i].line in s.Verdicts(at) then Some(s.Verdicts(at)[list[i].line]) else None))
  }

  // ----- what they mean -----

  lemma {:induction false} RecordedAt(verdicts: map<int, Verdict>, list: seq<Descriptor>, results: seq<Verdict>, n: nat)
    requires n <= |list| == |results|
    requires forall i, j :: 0 <= i < j < |list| ==> list[i].line < list[j].line
    ensures forall i :: 0 <= i < n ==>
      list[i].line in Recorded(verdicts, list, results, n)
      && Recorded(verdicts, list, results, n)[list[i].line] == results[i]
  {
    if n > 0 {
      RecordedAt(verdicts, list, results, n - 1);
    }
  }

  /** A report of the right length gives a verdict to every placed line: at each position of the
      list, the result at that position. */
  lemma VerifiedRecords(s: Store, at: Location, results: seq<Verdict>)
    requires s.ConsistentAt(at) && |results| == |s.Placed(at)|
    ensures forall i :: 0 <= i < |results| ==>
      && Listed(s.Placed(at))[i].line in Verified(s, at, results).Verdicts(at)
      && Verified(s, at, results).Verdicts(at)[Listed(s.Placed(at))[i].line] == results[i]
  {
    ListedInOrder(s.Placed(at));
    RecordedAt(s.Verdicts(at), Listed(s.Placed(at)), results, |results|);
  }

  lemma VerifiedStaysOnPlacedLines(s: Store, at: Location, results: seq<Verdict>)
    requires s.ConsistentAt(at)
    ensures Verified(s, at, results).ConsistentAt(at)
  {
    if |results| == |Listed(s.Placed(at))| {
      ListedInOrder(s.Placed(at));
      RecordedOnLines(s.Placed(at), s.Verdicts(at), Listed(s.Placed(at)), results, |results|);
    }
  }

  lemma {:induction false} RecordedOnLines(placed: map<int, Descriptor>, verdicts: map<int, Verdict>,
                                           list: seq<Descriptor>, results: seq<Verdict>, n: nat)
    requires n <= |list| == |results|
    requires verdicts.Keys <= placed.Keys
    requires forall i :: 0 <= i < |list| ==> list[i].line in placed
    ensures Recorded(verdicts, list, results, n).Keys <= placed.Keys
  {
    if n > 0 {
      RecordedOnLines(placed, verdicts, list, results, n - 1);
    }
  }

  lemma VerifiedLeavesOthers(s: Store, at: Location, results: seq<Verdict>, other: Location)
    ensures Verified(s, at, results).descriptors == s.descriptors
    ensures other != at ==> Verified(s, at, results).Verdicts(other) == s.Verdicts(other)
  {
  }

  /** The view of the file then shows exactly the report, position by position. */
  lemma VerifiedShowsResults(s: Store, at: Location, results: seq<Verdict>)
    requires s.ConsistentAt(at) && |results| == |s.Placed(at)|
    ensures Views(Verified(s, at, results), at) == Shown(Listed(s.Placed(at)), results)
  {
    VerifiedRecords(s, at, results);
    VerifiedLeavesOthers(s, at, results, at);
  }

  /** What the view of a file shows when each entry has been given the result at its position. */
  function Shown(list: seq<Descriptor>, results: seq<Verdict>): (views: seq<View>)
    requires |list| == |results|
  {
    seq(|list|, i requires 0 <= i < |list| => View(list[i], Some(results[i])))
  }

  lemma ReportsKeepConsistency(s: Store, at: Location, results: seq<Verdict>)
    requires s.Consistent()
    ensures Verified(s, at, results).Consistent()
  {
    forall other ensures Verified(s, at, results).ConsistentAt(other) {
      assert s.ConsistentAt(other);
      VerifiedStaysOnPlacedLines(s, at, results);
      VerifiedLeavesOthers(s, at, results, other);
    }
  }

  lemma UnverifiedKeepsConsistency(s: Store)
    requires s.Consistent()
    ensures Unverified(s).Consistent()
  {
    forall at ensures Unverified(s).ConsistentAt(at) {
      assert s.ConsistentAt(at);
    }
  }

  // ----- edits -----

  datatype Edit = Toggle(line: int) | Remove(line: int) | Redescribe(descriptor: Descriptor)

  function Edited(s: Store, at: Location, e: Edit): Store {
    match e
    case Toggle(line) => Toggled(s, at, line)
    case Remove(line) => Removed(s, at, line)
    case Redescribe(d) => Redescribed(s, at, d)
  }

  /** Whether the edit does something, and so is announced to the listeners. */
  predicate Announced(s: Store, at: Location, e: Edit) {
    match e
    case Toggle(_) => true
    case Remove(line) => line in s.Placed(at)
    case Redescribe(d) => d.line in s.Placed(at)
  }

  lemma EditKeepsConsistencyAt(s: Store, at: Location, e: Edit)
    requires s.ConsistentAt(at)
    ensures Edited(s, at, e).ConsistentAt(at)
  {
  }

  lemma EditLeavesOthers(s: Store, at: Location, e: Edit, other: Location)
    requires other != at
    ensures Edited(s, at, e).Placed(other) == s.Placed(other)
    ensures Edited(s, at, e).Verdicts(other) == s.Verdicts(other)
  {
  }

  /** An edit gives no line a verdict. */
  lemma EditGivesNoVerdict(s: Store, at: Location, e: Edit, other: Location)
    ensures Edited(s, at, e).Verdicts(other).Items <= s.Verdicts(other).Items
  {
  }

  /** What an edit does to one line of its file, mark and verdict. */
  lemma EditedLine(s: Store, at: Location, e: Edit, line: int)
    requires s.ConsistentAt(at)
    ensures line in Edited(s, at, e).Placed(at) <==>
      match e
      case Toggle(l) => (line in s.Placed(at)) != (l == line)
      case Remove(l) => line in s.Placed(at) && l != line
      case Redescribe(_) => line in s.Placed(at)
    ensures line in Edited(s, at, e).Placed(at) && line !in s.Placed(at) ==>
      Edited(s, at, e).Placed(at)[line] == Descriptor(line, None, None, None)
    ensures line in Edited(s, at, e).Placed(at) && line in s.Placed(at) ==>
      Edited(s, at, e).Placed(at)[line] == if e.Redescribe? && e.descriptor.line == line then e.descriptor else s.Placed(at)[line]
    ensures line in Edited(s, at, e).Verdicts(at) <==>
      line in s.Verdicts(at) && (e.Redescribe? || e.line != line)
    ensures line in Edited(s, at, e).Verdicts(at) ==> Edited(s, at, e).Verdicts(at)[line] == s.Verdicts(at)[line]
  {
  }

  lemma UnannouncedChangesNothing(s: Store, at: Location, e: Edit)
    requires !Announced(s, at, e)
    ensures Edited(s, at, e) == s
  {
  }

  lemma EditsKeepConsistency(s: Store, at: Location, e: Edit)
    requires s.Consistent()
    ensures Edited(s, at, e).Consistent()
  {
    forall other ensures Edited(s, at, e).ConsistentAt(other) {
      assert s.ConsistentAt(other);
      if other == at {
        EditKeepsConsistencyAt(s, at, e);
      } else {
        EditLeavesOthers(s, at, e, other);
      }
    }
  }

  /** Clicking a line twice gives back the marks as they were, except that conditions are gone and
      the line's verdict is forgotten. */
  lemma ToggleTwice(s: Store, at: Location, line: int)
    ensures Toggled(Toggled(s, at, line), at, line).Placed(at).Keys == s.Placed(at).Keys
    ensures line !in Toggled(Toggled(s, at, line), at, line).Verdicts(at)
    ensures line !in s.Placed(at) ==> Toggled(Toggled(s, at, line), at, line).Placed(at) == s.Placed(at)
  {
  }

  // ----- the store -----

  datatype Kind = BreakpointsChanged | VerificationChanged

  datatype Notice = Notice(at: Location, kind: Kind)

  class DebugBreakpointStore {
    var descriptors: map<Location, map<int, Descriptor>>
    var verification: map<Location, map<int, Verdict>>

    function State(): Store
      reads this
    {
      Store(descriptors, verification)
    }

    constructor ()
      ensures State() == Store(map[], map[])
    {
      descriptors, verification := map[], map[];
    }

    /** `notices` are the listener calls, in order. */
    method Toggle(at: Location, line: int) returns (notices: seq<Notice>)
      modifies this
      ensures State() == Toggled(old(State()), at, line)
      ensures line in State().Placed(at) <==> line !in old(State()).Placed(at)
      ensures line !in State().Verdicts(at)
      ensures notices == [Notice(at, BreakpointsChanged)]
    {
      var forPath := if at in descriptors then descriptors[at] else map[];
      if line in forPath {
        descriptors := descriptors[at := forPath - {line}];
        if at in verification {
          verification := verification[at := verification[at] - {line}];
        }
        return [Notice(at, BreakpointsChanged)];
      }
      descriptors := descriptors[at := forPath[line := Descriptor(line, None, None, None)]];
      if at in verification {
        verification := verification[at := verification[at] - {line}];
      }
      return [Notice(at, BreakpointsChanged)];
    }

    method Remove(at: Location, line: int) returns (notices: seq<Notice>)
      modifies this
      ensures State() == Removed(old(State()), at, line)
      ensures State().Placed(at) == old(State()).Placed(at) - {line}
      ensures notices == if line in old(State()).Placed(at) then [Notice(at, BreakpointsChanged)] else []
    {
      if at !in descriptors || line !in descriptors[at] {
        return [];
      }
      descriptors := descriptors[at := descriptors[at] - {line}];
      if at in verification {
        verification := verification[at := verification[at] - {line}];
      }
      return [Notice(at, BreakpointsChanged)];
    }

    /** The three details at once; the single-field setters are this with the other two kept. */
    method SetDetails(at: Location, line: int, condition: Option<string>, logMessage: Option<string>,
                      hitCondition: Option<string>) returns (notices: seq<Notice>)
      modifies this
      ensures State() == Redescribed(old(State()), at, Descriptor(line, condition, logMessage, hitCondition))
      ensures State().verification == old(State()).verification
      ensures line in old(State()).Placed(at) ==>
        var existing := old(State()).Placed(at)[line];
        State().Placed(at) == old(State()).Placed(at)[line := Descriptor(existing.line, condition, logMessage, hitCondition)]
      ensures notices == if line in old(State()).Placed(at) then [Notice(at, BreakpointsChanged)] else []
    {
      if at !in descriptors || line !in descriptors[at] {
        return [];
      }
      var existing := descriptors[at][line];
      descriptors := descriptors[at := descriptors[at][line :=
        existing.(condition := condition, logMessage := logMessage, hitCondition := hitCondition)]];
      return [Notice(at, BreakpointsChanged)];
    }

    method SetVerification(at: Location, results: seq<Verdict>) returns (notices: seq<Notice>)
      modifies this
      ensures State() == Verified(old(State()), at, results)
      ensures notices == if |results| == |old(State()).Placed(at)| then [Notice(at, VerificationChanged)] else []
    {
      var list := Listed(State().Placed(at));
      if |results| != |list| {
        return [];
      }
      var recorded := RecordAll(State().Verdicts(at), list, results);
      verification := verification[at := recorded];
      return [Notice(at, VerificationChanged)];
    }

    /** One notice for each file that had been reported on. */
    method ClearAllVerification() returns (notices: seq<Notice>)
      modifies this
      ensures State() == Unverified(old(State()))
      ensures forall n :: n in notices <==> n.kind == VerificationChanged && n.at in old(verification)
      ensures forall i, j :: 0 <= i < j < |notices| ==> notices[i] != notices[j]
    {
      var rest := verification.Keys;
      ghost var sources := rest;
      verification := map[];
      notices := [];
      while rest != {}
        invariant forall at :: at in sources <==> at in rest || Notice(at, VerificationChanged) in notices
        invariant forall n :: n in notices ==> n.kind == VerificationChanged && n.at in sources && n.at !in rest
        invariant forall i, j :: 0 <= i < j < |notices| ==> notices[i] != notices[j]
        decreases rest
      {
        var at :| at in rest;
        rest := rest - {at};
        notices := notices + [Notice(at, VerificationChanged)];
      }
    }

    /** The files of a root that have a breakpoint, each once. */
    method PathsWithBreakpoints(rootId: string) returns (paths: seq<Location>)
      ensures Enumerates(paths, State(), rootId)
    {
      var rest := set at | at in descriptors && at.rootId == rootId && |descriptors[at]| > 0;
      ghost var all := rest;
      paths := [];
      while rest != {}
        invariant forall at :: at in all <==> at in rest || at in paths
        invariant forall i :: 0 <= i < |paths| ==> paths[i] !in rest
        invariant forall i, j :: 0 <= i < j < |paths| ==> paths[i] != paths[j]
        decreases rest
      {
        var at :| at in rest;
        rest := rest - {at};
        paths := paths + [at];
      }
      forall at ensures at in paths <==> at.rootId == rootId && State().Placed(at) != map[] {
        assert at in all <==> at in descriptors && at.rootId == rootId && |descriptors[at]| > 0;
      }
    }
  }

  method RecordAll(verdicts: map<int, Verdict>, list: seq<Descriptor>, results: seq<Verdict>)
    returns (recorded: map<int, Verdict>)
    requires |list| == |results|
    ensures recorded == Recorded(verdicts, list, results, |list|)
  {
    recorded := verdicts;
    for index := 0 to |list|
      invariant recorded == Recorded(verdicts, list, results, index)
    {
      recorded := recorded[list[index].line := results[index]];
    }
  }

  ghost predicate Enumerates(paths: seq<Location>, s: Store, rootId: string) {
    && (forall at :: at in paths <==> at.rootId == rootId && s.Placed(at) != map[])
    && (forall i, j :: 0 <= i < j < |paths| ==> paths[i] != paths[j])
  }
}
