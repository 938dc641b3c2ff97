/** Workspace-relative paths as the native side accepts them. Paths are UTF-8 byte strings. */
module RelativePaths {
  import opened ByteStrings
  import opened Options
  import opened Sequences

  const MAX_RELATIVE_PATH_BYTES := 4096
  const MAX_RELATIVE_PATH_SEGMENTS := 256

  const SLASH: byte := 47
  const DOT: byte := 46
  const SPACE: byte := 32
  const COLON: byte := 58
  const BACKSLASH: byte := 92
  const NUL: byte := 0

  /** The accepted spelling and the native path, kept as its components. */
  datatype RelativePath = RelativePath(wire: Bytes, native: seq<Bytes>)

  // ----- segments -----

  predicate IsControl(b: byte) {
    b < 32 || b == 127
  }

  /** `<`, `>`, `"`, `|`, `?` and `*`. */
  predicate IsReservedByte(b: byte) {
    b == 60 || b == 62 || b == 34 || b == 124 || b == 63 || b == 42
  }

  function ToUpper(s: Bytes): (r: Bytes)
    ensures |r| == |s|
  {
    if s == [] then []
    else [if 97 <= s[0] <= 122 then s[0] - 32 else s[0]] + ToUpper(s[1..])
  }

  /** CON, PRN, AUX, NUL, CONIN$, CONOUT$. */
  predicate IsDeviceName(upper: Bytes) {
    || upper == [67, 79, 78]
    || upper == [80, 82, 78]
    || upper == [65, 85, 88]
    || upper == [78, 85, 76]
    || upper == [67, 79, 78, 73, 78, 36]
    || upper == [67, 79, 78, 79, 85, 84, 36]
  }

  /** One of the digits 1 to 9, or a superscript one, two or three. */
  predicate IsPortSuffix(suffix: Bytes) {
    || (|suffix| == 1 && 49 <= suffix[0] <= 57)
    || suffix == [194, 185]
    || suffix == [194, 178]
    || suffix == [194, 179]
  }

  /** COM or LPT followed by a port suffix. */
  predicate IsPortName(upper: Bytes) {
    && |upper| > 3
    && (upper[..3] == [67, 79, 77] || upper[..3] == [76, 80, 84])
    && IsPortSuffix(upper[3..])
  }

  predicate IsWindowsAmbiguousSegment(segment: Bytes) {
    if (segment != [] && (segment[|segment| - 1] == DOT || segment[|segment| - 1] == SPACE))
       || exists i :: 0 <= i < |segment| && (IsControl(segment[i]) || IsReservedByte(segment[i]))
    then true
    else
      var upper := ToUpper(Split(segment, DOT)[0]);
      IsDeviceName(upper) || IsPortName(upper)
  }

  predicate AcceptableSegment(segment: Bytes) {
    && segment != []
    && segment != [DOT]
    && segment != [DOT, DOT]
    && !IsWindowsAmbiguousSegment(segment)
  }

  // ----- which segments are refused -----

  /** The same letters in either case, and every other byte the same. */
  predicate SameLetters(s: Bytes, name: Bytes) {
    |s| == |name| && forall k :: 0 <= k < |s| ==> s[k] == name[k] || (65 <= name[k] <= 90 && s[k] == name[k] + 32)
  }

  /** CON, PRN, AUX, NUL, CONIN$ and CONOUT$, and COM and LPT with a digit other than zero or a superscript
      one, two or three. */
  ghost predicate NamesDevice(s: Bytes) {
    || SameLetters(s, [67, 79, 78]) || SameLetters(s, [80, 82, 78]) || SameLetters(s, [65, 85, 88]) || SameLetters(s, [78, 85, 76])
    || SameLetters(s, [67, 79, 78, 73, 78, 36]) || SameLetters(s, [67, 79, 78, 79, 85, 84, 36])
    || (|s| > 3 && NamesPort(s[..3]) && NumbersPort(s[3..]))
  }

  predicate NumbersPort(t: Bytes) {
    (|t| == 1 && 49 <= t[0] <= 57) || (|t| == 2 && t[0] == 194 && (t[1] == 178 || t[1] == 179 || t[1] == 185))
  }

  predicate NamesPort(s: Bytes) {
    SameLetters(s, [67, 79, 77]) || SameLetters(s, [76, 80, 84])
  }

  /** What comes before the first dot. */
  predicate IsStem(segment: Bytes, stem: Bytes) {
    stem <= segment && DOT !in stem && (|stem| == |segment| || segment[|stem|] == DOT)
  }

  lemma {:induction false} UpperAt(s: Bytes, k: nat)
    requires k < |s|
    ensures ToUpper(s)[k] == if 97 <= s[k] <= 122 then s[k] - 32 else s[k]
  {
    if k > 0 {
      UpperAt(s[1..], k - 1);
    }
  }

  lemma OneLetter(b: byte, n: byte)
    requires !(97 <= n <= 122)
    ensures (if 97 <= b <= 122 then b - 32 else b) == n <==> b == n || (65 <= n <= 90 && b == n + 32)
  {
  }

  lemma UpperMeans(s: Bytes, name: Bytes)
    requires forall k :: 0 <= k < |name| ==> !(97 <= name[k] <= 122)
    ensures ToUpper(s) == name <==> SameLetters(s, name)
  {
    if |s| == |name| {
      forall k | 0 <= k < |s| ensures ToUpper(s)[k] == name[k] <==> s[k] == name[k] || (65 <= name[k] <= 90 && s[k] == name[k] + 32) {
        UpperAt(s, k);
        OneLetter(s[k], name[k]);
      }
    }
  }

  lemma {:induction false} UpperPart(s: Bytes, n: nat)
    requires n <= |s|
    ensures ToUpper(s)[..n] == ToUpper(s[..n]) && ToUpper(s)[n..] == ToUpper(s[n..])
  {
    forall k | 0 <= k < |s| ensures ToUpper(s)[k] == if k < n then ToUpper(s[..n])[k] else ToUpper(s[n..])[k - n] {
      UpperAt(s, k);
      if k < n {
        UpperAt(s[..n], k);
      } else {
        UpperAt(s[n..], k - n);
      }
    }
  }

  lemma DeviceNamesExactly(s: Bytes)
    ensures IsDeviceName(ToUpper(s)) || IsPortName(ToUpper(s)) <==> NamesDevice(s)
  {
    UpperMeans(s, [67, 79, 78]);
    UpperMeans(s, [80, 82, 78]);
    UpperMeans(s, [65, 85, 88]);
    UpperMeans(s, [78, 85, 76]);
    UpperMeans(s, [67, 79, 78, 73, 78, 36]);
    UpperMeans(s, [67, 79, 78, 79, 85, 84, 36]);
    if |s| > 3 {
      PortNamesExactly(s);
    }
  }

  lemma SuffixExactly(t: Bytes)
    requires t != []
    ensures IsPortSuffix(ToUpper(t)) <==> NumbersPort(t)
  {
    SuffixBytes(ToUpper(t));
    UpperAt(t, 0);
    if |t| == 2 {
      UpperAt(t, 1);
    }
  }

  lemma SuffixBytes(u: Bytes)
    ensures IsPortSuffix(u) <==> NumbersPort(u)
  {
    if |u| == 2 {
      assert u == [u[0], u[1]];
    }
  }

  lemma PortPrefixExactly(t: Bytes)
    ensures ToUpper(t) == [67, 79, 77] || ToUpper(t) == [76, 80, 84] <==> NamesPort(t)
  {
    UpperMeans(t, [67, 79, 77]);
    UpperMeans(t, [76, 80, 84]);
  }

  lemma PortParts(upper: Bytes, prefix: Bytes, suffix: Bytes)
    requires |upper| > 3 && upper[..3] == prefix && upper[3..] == suffix
    ensures IsPortName(upper) <==> (prefix == [67, 79, 77] || prefix == [76, 80, 84]) && IsPortSuffix(suffix)
  {
  }

  lemma PortNamesExactly(s: Bytes)
    requires |s| > 3
    ensures IsPortName(ToUpper(s)) <==> NamesPort(s[..3]) && NumbersPort(s[3..])
  {
    UpperPart(s, 3);
    PortParts(ToUpper(s), ToUpper(s[..3]), ToUpper(s[3..]));
    PortPrefixExactly(s[..3]);
    SuffixExactly(s[3..]);
  }

  lemma {:induction false} FirstPartIsStem(segment: Bytes, stem: Bytes)
    ensures Split(segment, DOT)[0] == stem <==> IsStem(segment, stem)
  {
    if segment != [] && segment[0] != DOT && stem != [] {
      FirstPartIsStem(segment[1..], stem[1..]);
      assert IsStem(segment, stem) <==> stem[0] == segment[0] && IsStem(segment[1..], stem[1..]) by {
        assert segment == [segment[0]] + segment[1..] && stem == [stem[0]] + stem[1..];
      }
    }
  }

  /** A segment is acceptable exactly if it is not empty, ends neither in a dot nor in a blank, has no control
      byte and none of the six reserved ones, and does not name a device before its first dot, in any case and
      with any extension. */
  lemma AcceptableSegmentExactly(segment: Bytes)
    ensures AcceptableSegment(segment) <==>
      && segment != [] && segment[|segment| - 1] != 46 && segment[|segment| - 1] != 32
      && (forall b :: b in segment ==> 32 <= b && b != 127 && b !in [34, 42, 60, 62, 63, 124])
      && (forall stem :: IsStem(segment, stem) ==> !NamesDevice(stem))
  {
    var first := Split(segment, DOT)[0];
    forall stem ensures IsStem(segment, stem) <==> stem == first {
      FirstPartIsStem(segment, stem);
    }
    DeviceNamesExactly(first);
    PlainBytes(segment);
    assert (forall stem :: IsStem(segment, stem) ==> !NamesDevice(stem)) <==> !NamesDevice(first);
  }

  lemma PlainBytes(segment: Bytes)
    ensures (forall b :: b in segment ==> 32 <= b && b != 127 && b !in [34, 42, 60, 62, 63, 124])
       <==> !exists i :: 0 <= i < |segment| && (IsControl(segment[i]) || IsReservedByte(segment[i]))
  {
    forall b: byte ensures IsControl(b) || IsReservedByte(b) <==> !(32 <= b && b != 127 && b !in [34, 42, 60, 62, 63, 124]) {
    }
    if b :| b in segment && (IsControl(b) || IsReservedByte(b)) {
      var i :| 0 <= i < |segment| && segment[i] == b;
      assert IsControl(segment[i]) || IsReservedByte(segment[i]);
    }
  }

  // ----- whole paths -----

  predicate HasForbiddenByte(wire: Bytes) {
    NUL in wire || BACKSLASH in wire || COLON in wire
  }

  function Segments(wire: Bytes): seq<Bytes> {
    if wire == [] then [] else Split(wire, SLASH)
  }

  /** What a wire string has to look like, without saying in which order it is checked. */
  ghost predicate Accepted(wire: Bytes) {
    && |wire| <= MAX_RELATIVE_PATH_BYTES
    && !HasForbiddenByte(wire)
    && |Segments(wire)| <= MAX_RELATIVE_PATH_SEGMENTS
    && forall i :: 0 <= i < |Segments(wire)| ==> AcceptableSegment(Segments(wire)[i])
  }

  ghost function Parsed(wire: Bytes): Option<RelativePath> {
    if Accepted(wire) then Some(RelativePath(wire, Segments(wire))) else None
  }

  ghost predicate Valid(path: RelativePath) {
    Parsed(path.wire) == Some(path)
  }

  /** At most 4096 bytes and 256 segments, none of the bytes 0, 58 and 92, and every segment acceptable. */
  lemma AcceptedExactly(wire: Bytes)
    requires wire != []
    ensures Accepted(wire) <==>
      && |wire| <= 4096 && |Split(wire, 47)| <= 256
      && (forall b :: b in wire ==> b !in [0, 58, 92])
      && (forall segment :: segment in Split(wire, 47) ==> AcceptableSegment(segment))
    ensures Accepted([]) && Segments([]) == []
  {
    if forall segment :: segment in Split(wire, 47) ==> AcceptableSegment(segment) {
      assert forall i :: 0 <= i < |Segments(wire)| ==> Segments(wire)[i] in Split(wire, 47);
    }
  }

  method ParseWire(wire: Bytes) returns (path: Option<RelativePath>)
    ensures path == Parsed(wire)
  {
    if |wire| > MAX_RELATIVE_PATH_BYTES {
      return None;
    }
    if wire == [] {
      return Some(RelativePath([], []));
    }
    var segments := Split(wire, SLASH);
    if wire[0] == SLASH || NUL in wire || BACKSLASH in wire || COLON in wire {
      assert wire[0] == SLASH ==> segments[0] == [];
      return None;
    }
    var native := [];
    var segmentCount := 0;
    for i := 0 to |segments|
      invariant segmentCount == i <= MAX_RELATIVE_PATH_SEGMENTS
      invariant native == segments[..i]
      invariant forall k :: 0 <= k < i ==> AcceptableSegment(segments[k])
    {
      var segment := segments[i];
      segmentCount := segmentCount + 1;
      if segmentCount > MAX_RELATIVE_PATH_SEGMENTS
        || segment == []
        || segment == [DOT] || segment == [DOT, DOT]
        || IsWindowsAmbiguousSegment(segment)
      {
        return None;
      }
      native := native + [segment];
    }
    assert native == segments;
    return Some(RelativePath(wire, native));
  }

  /** The wire string that `join_child` hands to the parser. */
  function ChildWire(parent: RelativePath, child: Bytes): Bytes {
    if parent.wire == [] then child else parent.wire + [SLASH] + child
  }

  ghost function Joined(parent: RelativePath, child: Bytes): Option<RelativePath> {
    Parsed(ChildWire(parent, child))
  }

  method JoinChild(parent: RelativePath, child: Bytes) returns (path: Option<RelativePath>)
    ensures path == Joined(parent, child)
  {
    path := ParseWire(ChildWire(parent, child));
  }

  // ----- the algebra of joins -----

  /** The spelling is recovered from the components, so accepted paths differ exactly when their
      components do. */
  lemma NativeDeterminesWire(p: RelativePath, q: RelativePath)
    requires Valid(p) && Valid(q)
    ensures Join(p.native, SLASH) == p.wire
    ensures p.native == q.native <==> p == q
  {
    JoinSplit(p.wire, SLASH);
    JoinSplit(q.wire, SLASH);
  }

  /** Below a non-root path a join succeeds exactly when the child is non-empty, acceptable alone,
      and the total stays within the byte and segment limits; the components then concatenate. */
  lemma JoinSucceedsExactly(parent: RelativePath, child: Bytes)
    requires Valid(parent) && parent.wire != []
    ensures Joined(parent, child).Some? <==>
      && child != []
      && Accepted(child)
      && |parent.wire| + 1 + |child| <= MAX_RELATIVE_PATH_BYTES
      && |parent.native| + |Segments(child)| <= MAX_RELATIVE_PATH_SEGMENTS
    ensures Joined(parent, child).Some? ==>
      && Joined(parent, child).value.wire == parent.wire + [SLASH] + child
      && Joined(parent, child).value.native == parent.native + Segments(child)
  {
    var wire := parent.wire + [SLASH] + child;
    SplitConcat(parent.wire, child, SLASH);
    var tail := Split(child, SLASH);
    assert Segments(wire) == parent.native + tail;
    if child == [] {
      assert Segments(wire)[|parent.native|] == [];
    } else {
      assert tail == Segments(child);
      if Accepted(wire) {
        forall i | 0 <= i < |tail| ensures AcceptableSegment(tail[i]) {
          assert tail[i] == Segments(wire)[|parent.native| + i];
        }
        assert forall b :: b in child ==> b in wire;
      }
    }
  }

  /** Joining two children in turn is joining the child they make together. Only an empty first
      child under a non-root parent breaks this, when the second child alone could be joined. */
  lemma JoinsAssociate(parent: RelativePath, first: Bytes, second: Bytes)
    requires Valid(parent)
    ensures
      var stepwise := if Joined(parent, first).Some? then Joined(Joined(parent, first).value, second) else None;
      var inner := if Parsed(first).Some? then Joined(Parsed(first).value, second) else None;
      var together := if inner.Some? then Joined(parent, inner.value.wire) else None;
      stepwise == together <==> !(first == [] && parent.wire != [] && Joined(parent, second).Some?)
  {
    if parent.wire != [] {
      if first == [] {
        JoinSucceedsExactly(parent, first);
        JoinSucceedsExactly(parent, second);
      } else {
        NestedJoin(parent, first, second);
      }
    }
  }

  lemma NestedJoin(parent: RelativePath, first: Bytes, second: Bytes)
    requires Valid(parent) && parent.wire != [] && first != []
    ensures
      var stepwise := if Joined(parent, first).Some? then Joined(Joined(parent, first).value, second) else None;
      var inner := if Parsed(first).Some? then Joined(Parsed(first).value, second) else None;
      stepwise == if inner.Some? then Joined(parent, inner.value.wire) else None
  {
    JoinSucceedsExactly(parent, first);
    if Parsed(first).Some? {
      JoinSucceedsExactly(Parsed(first).value, second);
      JoinSucceedsExactly(parent, first + [SLASH] + second);
      if Joined(parent, first).Some? {
        JoinSucceedsExactly(Joined(parent, first).value, second);
        JoinedWires(parent.wire, first, second);
      }
    }
  }

  lemma JoinedWires(a: Bytes, b: Bytes, c: Bytes)
    ensures (a + [SLASH] + b) + [SLASH] + c == a + [SLASH] + (b + [SLASH] + c)
  {
  }

  // ----- staying under the root -----

  /** Following components from a directory, given as the components below some base: a single dot
      stays, two dots climb, and climbing above the base gives `None`. */
  ghost function Walk(at: seq<Bytes>, components: seq<Bytes>): Option<seq<Bytes>>
    decreases components
  {
    if components == [] then Some(at)
    else if components[0] == [] || components[0] == [DOT] then Walk(at, components[1..])
    else if components[0] == [DOT, DOT] then
      if at == [] then None else Walk(at[..|at| - 1], components[1..])
    else Walk(at + [components[0]], components[1..])
  }

  lemma {:induction false} WalkDescends(at: seq<Bytes>, components: seq<Bytes>)
    requires forall i :: 0 <= i < |components| ==> AcceptableSegment(components[i])
    ensures Walk(at, components) == Some(at + components)
    decreases components
  {
    if components == [] {
      assert at + components == at;
    } else {
      WalkDescends(at + [components[0]], components[1..]);
      assert at + [components[0]] + components[1..] == at + components;
    }
  }

  /** Every prefix of an accepted path leads to a place under the directory it starts from: its own
      components, one level deeper each. */
  lemma NoPrefixEscapes(path: RelativePath, root: seq<Bytes>, k: nat)
    requires Valid(path) && k <= |path.native|
    ensures Walk(root, path.native[..k]) == Some(root + path.native[..k])
  {
    WalkDescends(root, path.native[..k]);
  }
}
