/** Partial patches: staging a chosen part of the line changes between the index text and the
    working-tree text. */
module HunkPatches {
  import opened Sequences

  type Line = string
  type Lines = seq<Line>

  /** One changed range, with the line numbers of the diff result: 1-based, end exclusive. */
  datatype Change = Change(originalStart: nat, originalEnd: nat, modifiedStart: nat, modifiedEnd: nat)
  {
    function Growth(): int {
      (modifiedEnd - modifiedStart) - (originalEnd - originalStart)
    }
  }

  function SplitLines(text: string): Lines {
    Split(text, '\n')
  }

  function JoinLines(lines: Lines): string {
    Join(lines, '\n')
  }

  lemma TextReadsBack(text: string)
    ensures JoinLines(SplitLines(text)) == text
  {
    JoinSplit(text, '\n');
  }

  // ----- what a diff promises -----

  /** Two texts and the changes between them, from one line (0-based) in each. */
  datatype RawDiff = RawDiff(original: Lines, modified: Lines, changes: seq<Change>, from: int, to: int)
  {
    /** The line from which original text is still to be dealt with before change `i`, and the same
        for the modified text. */
    ghost function OriginalCursor(i: nat): int
      requires i <= |changes|
    {
      if i == 0 then from else changes[i - 1].originalEnd - 1
    }

    ghost function ModifiedCursor(i: nat): int
      requires i <= |changes|
    {
      if i == 0 then to else changes[i - 1].modifiedEnd - 1
    }

    ghost predicate FitsAt(i: nat)
      requires i < |changes|
    {
      Fits(original, modified, changes[i], OriginalCursor(i), ModifiedCursor(i))
    }

    /** The changes come in order, do not overlap, and everything outside them is the same. */
    ghost predicate Valid() {
      && (forall i :: 0 <= i < |changes| ==> FitsAt(i))
      && CommonTail(original, modified, OriginalCursor(|changes|), ModifiedCursor(|changes|))
    }
  }

  /** A change lies at or after the two lines, and the lines up to it are common. */
  ghost predicate Fits(o: Lines, m: Lines, c: Change, original: int, modified: int) {
    && 0 <= original < c.originalStart <= c.originalEnd <= |o| + 1
    && 0 <= modified < c.modifiedStart <= c.modifiedEnd <= |m| + 1
    && o[original..c.originalStart - 1] == m[modified..c.modifiedStart - 1]
  }

  ghost predicate CommonTail(o: Lines, m: Lines, original: int, modified: int) {
    && 0 <= original <= |o|
    && 0 <= modified <= |m|
    && o[original..] == m[modified..]
  }

  type Diff = d: RawDiff | d.Valid() ghost witness RawDiff([], [], [], 0, 0)

  // ----- the partial patch -----

  /** The common lines before a change and then its own lines, new or old. */
  ghost function Contribution(o: Lines, m: Lines, c: Change, original: int, modified: int, take: bool): Lines
    requires Fits(o, m, c, original, modified)
  {
    o[original..c.originalStart - 1]
    + (if take then m[c.modifiedStart - 1..c.modifiedEnd - 1] else o[c.originalStart - 1..c.originalEnd - 1])
  }

  ghost function ContributionAt(d: Diff, chosen: seq<bool>, i: nat): Lines
    requires i < |d.changes| == |chosen|
  {
    assert d.FitsAt(i);
    Contribution(d.original, d.modified, d.changes[i], d.OriginalCursor(i), d.ModifiedCursor(i), chosen[i])
  }

  /** The text with the changes marked `true` made and the others left alone, from change `i` on. */
  ghost function PatchedFrom(d: Diff, chosen: seq<bool>, i: nat): Lines
    requires i <= |d.changes| == |chosen|
    decreases |d.changes| - i
  {
    if i == |d.changes| then d.original[d.OriginalCursor(i)..]
    else ContributionAt(d, chosen, i) + PatchedFrom(d, chosen, i + 1)
  }

  ghost function Patched(d: Diff, chosen: seq<bool>): Lines
    requires |d.changes| == |chosen|
  {
    PatchedFrom(d, chosen, 0)
  }

  ghost function Mask(selected: set<int>, n: nat): (chosen: seq<bool>)
    ensures |chosen| == n && forall i :: 0 <= i < n ==> (chosen[i] <==> i in selected)
  {
    seq(n, i requires 0 <= i < n => i in selected)
  }

  ghost function Either(s: seq<bool>, t: seq<bool>): (chosen: seq<bool>)
    requires |s| == |t|
    ensures |chosen| == |s|
  {
    seq(|s|, i requires 0 <= i < |s| => s[i] || t[i])
  }

  // ----- the loop -----

  /** What the loop has written before it reaches change `i`. */
  ghost function Written(d: Diff, chosen: seq<bool>, i: nat): Lines
    requires i <= |d.changes| == |chosen|
  {
    if i == 0 then [] else Written(d, chosen, i - 1) + ContributionAt(d, chosen, i - 1)
  }

  lemma {:induction false} WrittenThenRest(d: Diff, chosen: seq<bool>, i: nat)
    requires i <= |d.changes| == |chosen|
    ensures Patched(d, chosen) == Written(d, chosen, i) + PatchedFrom(d, chosen, i)
  {
    if i > 0 {
      WrittenThenRest(d, chosen, i - 1);
      Associate(Written(d, chosen, i - 1), ContributionAt(d, chosen, i - 1), PatchedFrom(d, chosen, i));
    }
  }

  method ApplySelected(o: Lines, m: Lines, changes: seq<Change>, selected: set<int>) returns (result: Lines)
    requires RawDiff(o, m, changes, 0, 0).Valid()
    ensures result == Patched(RawDiff(o, m, changes, 0, 0), Mask(selected, |changes|))
    ensures forall i :: 0 <= i < |changes| && selected == {i} ==> Replaced(o, m, changes[i], result)
  {
    ghost var d: Diff := RawDiff(o, m, changes, 0, 0);
    result := [];
    var originalCursor := 0;
    for index := 0 to |changes|
      invariant originalCursor == d.OriginalCursor(index)
      invariant result == Written(d, Mask(selected, |changes|), index)
    {
      assert d.FitsAt(index);
      var change := changes[index];
      var originalStart := change.originalStart - 1;
      var originalEnd := change.originalEnd - 1;
      ghost var before, gap := result, o[originalCursor..originalStart];
      result := result + o[originalCursor..originalStart];
      if index in selected {
        Associate(before, gap, m[change.modifiedStart - 1..change.modifiedEnd - 1]);
        result := result + m[change.modifiedStart - 1..change.modifiedEnd - 1];
      } else {
        Associate(before, gap, o[originalStart..originalEnd]);
        result := result + o[originalStart..originalEnd];
      }
      originalCursor := originalEnd;
    }
    WrittenThenRest(d, Mask(selected, |changes|), |changes|);
    result := result + o[originalCursor..];
    OneSelected(d, selected);
  }

  lemma OneSelected(d: Diff, selected: set<int>)
    requires d.from == 0
    ensures forall i :: 0 <= i < |d.changes| && selected == {i} ==>
      Replaced(d.original, d.modified, d.changes[i], Patched(d, Mask(selected, |d.changes|)))
  {
    forall i | 0 <= i < |d.changes| && selected == {i}
      ensures Replaced(d.original, d.modified, d.changes[i], Patched(d, Mask(selected, |d.changes|)))
    {
      OneReplaced(d, Mask(selected, |d.changes|), i);
    }
  }

  lemma OneReplaced(d: Diff, chosen: seq<bool>, i: nat)
    requires d.from == 0 && i < |d.changes| == |chosen| && forall k :: 0 <= k < |chosen| ==> (chosen[k] <==> k == i)
    ensures Replaced(d.original, d.modified, d.changes[i], Patched(d, chosen))
  {
    OneChangeIsMade(d, chosen, i, 0);
  }

  /** The text is the original but for the lines of one change, which are the modified text's. */
  ghost predicate Replaced(o: Lines, m: Lines, c: Change, result: Lines) {
    && 0 < c.originalStart <= c.originalEnd <= |o| + 1 && 0 < c.modifiedStart <= c.modifiedEnd <= |m| + 1
    && result == o[..c.originalStart - 1] + (m[c.modifiedStart - 1..c.modifiedEnd - 1] + o[c.originalEnd - 1..])
  }

  /** If of the changes from `from` on only change `i` is made, the rest is the original but for its lines. */
  lemma {:induction false} OneChangeIsMade(d: Diff, chosen: seq<bool>, i: nat, from: nat)
    requires from <= i < |d.changes| == |chosen|
    requires forall k :: from <= k < |chosen| ==> (chosen[k] <==> k == i)
    ensures Fits(d.original, d.modified, d.changes[i], d.OriginalCursor(i), d.ModifiedCursor(i))
    ensures 0 <= d.OriginalCursor(from) < d.changes[i].originalStart
    ensures PatchedFrom(d, chosen, from) == ReplacedFrom(d, i, d.OriginalCursor(from))
    decreases i - from
  {
    if from == i {
      LastChangeIsMade(d, chosen, i);
    } else {
      OneChangeIsMade(d, chosen, i, from + 1);
      EarlierIsLeft(d, chosen, i, from);
    }
  }

  lemma LastChangeIsMade(d: Diff, chosen: seq<bool>, i: nat)
    requires i < |d.changes| == |chosen| && chosen[i] && forall k :: i < k < |chosen| ==> !chosen[k]
    ensures Fits(d.original, d.modified, d.changes[i], d.OriginalCursor(i), d.ModifiedCursor(i))
    ensures PatchedFrom(d, chosen, i) == ReplacedFrom(d, i, d.OriginalCursor(i))
  {
    assert d.FitsAt(i);
    NothingGivesOriginal(d, chosen, i + 1);
    TakenThenRest(d.original, d.modified, d.changes[i], d.OriginalCursor(i), d.ModifiedCursor(i));
    TakenAt(d, chosen, i);
    assert d.OriginalCursor(i + 1) == d.changes[i].originalEnd - 1;
  }

  lemma TakenAt(d: Diff, chosen: seq<bool>, i: nat)
    requires i < |d.changes| == |chosen| && chosen[i] && d.FitsAt(i)
    ensures PatchedFrom(d, chosen, i)
         == Contribution(d.original, d.modified, d.changes[i], d.OriginalCursor(i), d.ModifiedCursor(i), true) + PatchedFrom(d, chosen, i + 1)
  {
  }

  lemma TakenThenRest(o: Lines, m: Lines, c: Change, original: int, modified: int)
    requires Fits(o, m, c, original, modified)
    ensures Contribution(o, m, c, original, modified, true) + o[c.originalEnd - 1..]
         == o[original..c.originalStart - 1] + (m[c.modifiedStart - 1..c.modifiedEnd - 1] + o[c.originalEnd - 1..])
  {
    Associate(o[original..c.originalStart - 1], m[c.modifiedStart - 1..c.modifiedEnd - 1], o[c.originalEnd - 1..]);
  }

  lemma EarlierIsLeft(d: Diff, chosen: seq<bool>, i: nat, from: nat)
    requires from < i < |d.changes| == |chosen| && !chosen[from]
    requires Fits(d.original, d.modified, d.changes[i], d.OriginalCursor(i), d.ModifiedCursor(i))
    requires 0 <= d.OriginalCursor(from + 1) < d.changes[i].originalStart
    requires PatchedFrom(d, chosen, from + 1) == ReplacedFrom(d, i, d.OriginalCursor(from + 1))
    ensures 0 <= d.OriginalCursor(from) < d.changes[i].originalStart
    ensures PatchedFrom(d, chosen, from) == ReplacedFrom(d, i, d.OriginalCursor(from))
  {
    assert d.FitsAt(from);
    ReplacedFurther(d, i, from, chosen);
  }

  ghost function ReplacedFrom(d: Diff, i: nat, cursor: int): Lines
    requires i < |d.changes| && Fits(d.original, d.modified, d.changes[i], d.OriginalCursor(i), d.ModifiedCursor(i))
    requires 0 <= cursor < d.changes[i].originalStart
  {
    var c := d.changes[i];
    d.original[cursor..c.originalStart - 1] + (d.modified[c.modifiedStart - 1..c.modifiedEnd - 1] + d.original[c.originalEnd - 1..])
  }

  lemma ReplacedFurther(d: Diff, i: nat, from: nat, chosen: seq<bool>)
    requires from < i < |d.changes| == |chosen| && !chosen[from]
    requires d.FitsAt(from) && Fits(d.original, d.modified, d.changes[i], d.OriginalCursor(i), d.ModifiedCursor(i))
    requires d.OriginalCursor(from + 1) < d.changes[i].originalStart
    ensures ContributionAt(d, chosen, from) + ReplacedFrom(d, i, d.OriginalCursor(from + 1)) == ReplacedFrom(d, i, d.OriginalCursor(from))
  {
    var c := d.changes[i];
    LeftPart(d.original, d.modified, d.changes[from], d.OriginalCursor(from), d.ModifiedCursor(from), c.originalStart - 1);
    Associate(ContributionAt(d, chosen, from), d.original[d.OriginalCursor(from + 1)..c.originalStart - 1],
              d.modified[c.modifiedStart - 1..c.modifiedEnd - 1] + d.original[c.originalEnd - 1..]);
  }

  /** A change that is not made contributes the original's own lines, up to any later line. */
  lemma LeftPart(o: Lines, m: Lines, c: Change, original: int, modified: int, upto: int)
    requires Fits(o, m, c, original, modified) && c.originalEnd - 1 <= upto <= |o|
    ensures Contribution(o, m, c, original, modified, false) + o[c.originalEnd - 1..upto] == o[original..upto]
  {
  }

  // ----- scripts: a diff without line numbers -----

  /** Common lines, then one change with its old and new lines and whether the first and the second
      stage take it, then the rest; at the end only common lines. */
  datatype Script =
    | End(tail: Lines)
    | Then(common: Lines, was: Lines, becomes: Lines, first: bool, second: bool, rest: Script)

  ghost function Old(s: Script): Lines {
    match s
    case End(tail) => tail
    case Then(common, was, _, _, _, rest) => common + was + Old(rest)
  }

  ghost function New(s: Script): Lines {
    match s
    case End(tail) => tail
    case Then(common, _, becomes, _, _, rest) => common + becomes + New(rest)
  }

  /** The text after the first stage. */
  ghost function Staged(s: Script): Lines {
    match s
    case End(tail) => tail
    case Then(common, was, becomes, first, _, rest) => common + (if first then becomes else was) + Staged(rest)
  }

  /** The text after both stages at once. */
  ghost function StagedTwice(s: Script): Lines {
    match s
    case End(tail) => tail
    case Then(common, was, becomes, first, second, rest) =>
      common + (if first || second then becomes else was) + StagedTwice(rest)
  }

  ghost function Marks(s: Script): seq<bool> {
    match s
    case End(_) => []
    case Then(_, _, _, first, _, rest) => [first] + Marks(rest)
  }

  ghost function Ranges(s: Script, original: nat, modified: nat): seq<Change> {
    match s
    case End(_) => []
    case Then(common, was, becomes, _, _, rest) =>
      [RangeOf(s, original, modified)]
      + Ranges(rest, original + |common| + |was|, modified + |common| + |becomes|)
  }

  ghost function RangeOf(s: Script, original: nat, modified: nat): Change
    requires s.Then?
  {
    Change(original + |s.common| + 1, original + |s.common| + |s.was| + 1,
           modified + |s.common| + 1, modified + |s.common| + |s.becomes| + 1)
  }

  /** The script of what the first stage leaves: a change it took becomes common lines, and the
      second stage's choice is the next one to make. */
  ghost function Leftover(s: Script, common: Lines): Script {
    match s
    case End(tail) => End(common + tail)
    case Then(more, was, becomes, first, second, rest) =>
      if first then Leftover(rest, common + more + becomes)
      else Then(common + more, was, becomes, second, false, Leftover(rest, []))
  }

  lemma {:induction false} LeftoverTexts(s: Script, common: Lines)
    ensures Old(Leftover(s, common)) == common + Staged(s)
    ensures New(Leftover(s, common)) == common + New(s)
    ensures Staged(Leftover(s, common)) == common + StagedTwice(s)
    decreases s
  {
    if s.Then? {
      if s.first {
        LeftoverTexts(s.rest, common + s.common + s.becomes);
        Regroup(common, s.common, s.becomes, Staged(s.rest));
        Regroup(common, s.common, s.becomes, New(s.rest));
        Regroup(common, s.common, s.becomes, StagedTwice(s.rest));
      } else {
        LeftoverTexts(s.rest, []);
        DropAll([], Staged(s.rest));
        DropAll([], New(s.rest));
        DropAll([], StagedTwice(s.rest));
        Regroup(common, s.common, s.was, Staged(s.rest));
        Regroup(common, s.common, s.becomes, New(s.rest));
        Regroup(common, s.common, s.becomes, StagedTwice(s.rest));
        Regroup(common, s.common, s.was, StagedTwice(s.rest));
      }
    }
  }

  // ----- from line numbers to scripts -----

  ghost function Scripted(d: Diff, first: seq<bool>, second: seq<bool>, i: nat): Script
    requires i <= |d.changes| == |first| == |second|
    decreases |d.changes| - i
  {
    if i == |d.changes| then End(d.original[d.OriginalCursor(i)..])
    else
      var c := d.changes[i];
      assert d.FitsAt(i);
      Then(d.original[d.OriginalCursor(i)..c.originalStart - 1],
           d.original[c.originalStart - 1..c.originalEnd - 1], d.modified[c.modifiedStart - 1..c.modifiedEnd - 1],
           first[i], second[i], Scripted(d, first, second, i + 1))
  }

  lemma {:induction false} ScriptedNew(d: Diff, first: seq<bool>, second: seq<bool>, i: nat)
    requires i <= |d.changes| == |first| == |second|
    ensures 0 <= d.ModifiedCursor(i) <= |d.modified|
    ensures New(Scripted(d, first, second, i)) == d.modified[d.ModifiedCursor(i)..]
    decreases |d.changes| - i
  {
    if i < |d.changes| {
      assert d.FitsAt(i);
      ScriptedNew(d, first, second, i + 1);
      Thirds(d.modified, d.ModifiedCursor(i), d.changes[i].modifiedStart - 1, d.changes[i].modifiedEnd - 1);
    }
  }

  lemma ScriptedPart(d: Diff, first: seq<bool>, second: seq<bool>, chosen: seq<bool>, i: nat)
    requires i < |d.changes| == |first| == |second| == |chosen|
    ensures Scripted(d, first, second, i).Then?
    ensures
      var s := Scripted(d, first, second, i);
      ContributionAt(d, chosen, i) == s.common + if chosen[i] then s.becomes else s.was
  {
    assert d.FitsAt(i);
  }

  lemma {:induction false} ScriptedFirst(d: Diff, first: seq<bool>, second: seq<bool>, i: nat)
    requires i <= |d.changes| == |first| == |second|
    ensures Staged(Scripted(d, first, second, i)) == PatchedFrom(d, first, i)
    decreases |d.changes| - i
  {
    if i < |d.changes| {
      ScriptedPart(d, first, second, first, i);
      ScriptedFirst(d, first, second, i + 1);
    }
  }

  lemma {:induction false} ScriptedBoth(d: Diff, first: seq<bool>, second: seq<bool>, i: nat)
    requires i <= |d.changes| == |first| == |second|
    ensures StagedTwice(Scripted(d, first, second, i)) == PatchedFrom(d, Either(first, second), i)
    decreases |d.changes| - i
  {
    if i < |d.changes| {
      ScriptedPart(d, first, second, Either(first, second), i);
      ScriptedBoth(d, first, second, i + 1);
    }
  }

  // ----- and back -----

  /** Putting a change in front of a diff. */
  ghost predicate Extends(d: Diff, c: Change, rest: Diff) {
    && d.original == rest.original && d.modified == rest.modified
    && d.changes == [c] + rest.changes
    && rest.from == c.originalEnd - 1 && rest.to == c.modifiedEnd - 1
  }

  lemma ExtendedIsValid(d: RawDiff, c: Change, rest: Diff)
    requires d.original == rest.original && d.modified == rest.modified && d.changes == [c] + rest.changes
    requires rest.from == c.originalEnd - 1 && rest.to == c.modifiedEnd - 1
    requires Fits(d.original, d.modified, c, d.from, d.to)
    ensures d.Valid()
  {
    forall i | 0 <= i < |d.changes| ensures d.FitsAt(i) {
      if i > 0 {
        assert rest.FitsAt(i - 1);
      }
    }
  }

  lemma ExtendedAt(d: Diff, c: Change, rest: Diff, take: bool, chosen: seq<bool>, i: nat)
    requires Extends(d, c, rest) && i < |rest.changes| == |chosen|
    ensures ContributionAt(d, [take] + chosen, i + 1) == ContributionAt(rest, chosen, i)
  {
    assert d.changes[i + 1] == rest.changes[i];
    assert d.OriginalCursor(i + 1) == rest.OriginalCursor(i);
    assert d.ModifiedCursor(i + 1) == rest.ModifiedCursor(i);
  }

  lemma {:induction false} ExtendedPatch(d: Diff, c: Change, rest: Diff, take: bool, chosen: seq<bool>, i: nat)
    requires Extends(d, c, rest) && i <= |rest.changes| == |chosen|
    ensures PatchedFrom(d, [take] + chosen, i + 1) == PatchedFrom(rest, chosen, i)
    decreases |rest.changes| - i
  {
    if i < |rest.changes| {
      ExtendedPatch(d, c, rest, take, chosen, i + 1);
      ExtendedAt(d, c, rest, take, chosen, i);
    } else {
      assert d.OriginalCursor(i + 1) == rest.OriginalCursor(i);
    }
  }

  /** The ranges of a script, as a diff between its two texts, wherever these start. */
  ghost function DiffOf(s: Script, before: Lines, above: Lines): RawDiff {
    RawDiff(before + Old(s), above + New(s), Ranges(s, |before|, |above|), |before|, |above|)
  }

  lemma {:induction false} RangesMarks(s: Script, original: nat, modified: nat)
    ensures |Ranges(s, original, modified)| == |Marks(s)|
    decreases s
  {
    if s.Then? {
      RangesMarks(s.rest, original + |s.common| + |s.was|, modified + |s.common| + |s.becomes|);
    }
  }

  /** It is valid, and patching it by the script's marks gives the staged text. */
  lemma {:induction false} ScriptIsADiff(s: Script, before: Lines, above: Lines)
    ensures DiffOf(s, before, above).Valid()
    ensures |Ranges(s, |before|, |above|)| == |Marks(s)|
    ensures PatchedFrom(DiffOf(s, before, above), Marks(s), 0) == Staged(s)
    decreases s, 1
  {
    RangesMarks(s, |before|, |above|);
    match s
    case End(tail) =>
      SliceOfPrefix(before, tail, |before|);
      SliceOfPrefix(above, tail, |above|);
    case Then(_, _, _, _, _, _) => ChangeIsADiff(s, before, above);
  }

  lemma {:induction false} ChangeIsADiff(s: Script, before: Lines, above: Lines)
    requires s.Then?
    ensures DiffOf(s, before, above).Valid()
    ensures |Ranges(s, |before|, |above|)| == |Marks(s)|
    ensures PatchedFrom(DiffOf(s, before, above), Marks(s), 0) == Staged(s)
    decreases s, 0
  {
    RangesMarks(s, |before|, |above|);
    ScriptIsADiff(s.rest, before + s.common + s.was, above + s.common + s.becomes);
    ScriptExtends(s, before, above);
    ScriptPart(s, DiffOf(s, before, above), before, above);
    ExtendedPatch(DiffOf(s, before, above), RangeOf(s, |before|, |above|), RestDiff(s, before, above),
                  s.first, Marks(s.rest), 0);
    ExtendedStaged(s, DiffOf(s, before, above), RestDiff(s, before, above));
  }

  /** The script of the rest, starting where this change ends. */
  ghost function RestDiff(s: Script, before: Lines, above: Lines): RawDiff
    requires s.Then?
  {
    DiffOf(s.rest, before + s.common + s.was, above + s.common + s.becomes)
  }

  lemma ScriptExtends(s: Script, before: Lines, above: Lines)
    requires s.Then? && RestDiff(s, before, above).Valid()
    ensures DiffOf(s, before, above).Valid()
    ensures Extends(DiffOf(s, before, above), RangeOf(s, |before|, |above|), RestDiff(s, before, above))
  {
    Regroup(before, s.common, s.was, Old(s.rest));
    Regroup(above, s.common, s.becomes, New(s.rest));
    assert |before + s.common + s.was| == |before| + |s.common| + |s.was|;
    assert |above + s.common + s.becomes| == |above| + |s.common| + |s.becomes|;
    var d, rest := DiffOf(s, before, above), RestDiff(s, before, above);
    assert d.original == rest.original && d.modified == rest.modified;
    assert d.changes == [RangeOf(s, |before|, |above|)] + rest.changes;
    ScriptStep(d.original, d.modified, before, above, s.common, s.was, s.becomes, Old(s.rest), New(s.rest));
    ExtendedIsValid(d, RangeOf(s, |before|, |above|), rest);
  }

  lemma ExtendedStaged(s: Script, d: Diff, rest: Diff)
    requires s.Then? && |rest.changes| == |Marks(s.rest)| && |d.changes| == |Marks(s)|
    requires ContributionAt(d, Marks(s), 0) == s.common + if s.first then s.becomes else s.was
    requires PatchedFrom(d, Marks(s), 1) == PatchedFrom(rest, Marks(s.rest), 0) == Staged(s.rest)
    ensures PatchedFrom(d, Marks(s), 0) == Staged(s)
  {
  }

  lemma ScriptPart(s: Script, d: Diff, before: Lines, above: Lines)
    requires s.Then? && d == DiffOf(s, before, above) && |d.changes| == |Marks(s)|
    ensures ContributionAt(d, Marks(s), 0) == s.common + if s.first then s.becomes else s.was
  {
    ScriptStep(d.original, d.modified, before, above, s.common, s.was, s.becomes, Old(s.rest), New(s.rest));
    assert d.changes[0] == RangeOf(s, |before|, |above|) && Marks(s)[0] == s.first;
  }

  lemma ScriptStep(o: Lines, m: Lines, before: Lines, above: Lines, common: Lines, was: Lines, becomes: Lines,
                   oldRest: Lines, newRest: Lines)
    requires o == before + (common + was + oldRest)
    requires m == above + (common + becomes + newRest)
    ensures
      var c := Change(|before| + |common| + 1, |before| + |common| + |was| + 1,
                      |above| + |common| + 1, |above| + |common| + |becomes| + 1);
      && Fits(o, m, c, |before|, |above|)
      && o[|before|..c.originalStart - 1] == common
      && o[c.originalStart - 1..c.originalEnd - 1] == was
      && m[c.modifiedStart - 1..c.modifiedEnd - 1] == becomes
  {
    Regroup(before, common, was, oldRest);
    Regroup(above, common, becomes, newRest);
    SliceBetween(before, common, was + oldRest);
    SliceBetween(above, common, becomes + newRest);
    SliceBetween(before + common, was, oldRest);
    SliceBetween(above + common, becomes, newRest);
    Associate(common, was, oldRest);
    Associate(common, becomes, newRest);
  }

  // ----- what is left to stage -----

  /** The changes not chosen, moved by the growth of the chosen ones before them. */
  ghost function Remaining(changes: seq<Change>, chosen: seq<bool>, i: nat, shift: int): seq<Change>
    requires i <= |changes| == |chosen|
    requires ShiftFits(changes, chosen, i, shift)
    decreases |changes| - i
  {
    if i == |changes| then []
    else if chosen[i] then Remaining(changes, chosen, i + 1, shift + changes[i].Growth())
    else
      [Change(changes[i].originalStart + shift, changes[i].originalEnd + shift,
              changes[i].modifiedStart, changes[i].modifiedEnd)]
      + Remaining(changes, chosen, i + 1, shift)
  }

  /** No shifted line number is negative. */
  ghost predicate ShiftFits(changes: seq<Change>, chosen: seq<bool>, i: nat, shift: int)
    requires i <= |changes| == |chosen|
    decreases |changes| - i
  {
    i == |changes| ||
    (if chosen[i] then ShiftFits(changes, chosen, i + 1, shift + changes[i].Growth())
     else
       && changes[i].originalStart + shift >= 0
       && changes[i].originalEnd + shift >= 0
       && ShiftFits(changes, chosen, i + 1, shift))
  }

  /** The part of a second selection that concerns the changes the first one left. */
  ghost function Restricted(first: seq<bool>, second: seq<bool>, i: nat): seq<bool>
    requires i <= |first| == |second|
    decreases |first| - i
  {
    if i == |first| then []
    else if first[i] then Restricted(first, second, i + 1)
    else [second[i]] + Restricted(first, second, i + 1)
  }

  /** The script goes through the changes from `i` on, each with its lengths and marks. */
  ghost predicate Follows(s: Script, changes: seq<Change>, first: seq<bool>, second: seq<bool>, i: nat,
                          original: int, modified: int)
    requires |changes| == |first| == |second|
  {
    match s
    case End(_) => i == |changes|
    case Then(common, was, becomes, f, g, rest) =>
      && i < |changes|
      && f == first[i] && g == second[i]
      && 0 <= original && original + |common| + 1 == changes[i].originalStart
      && 0 <= modified && modified + |common| + 1 == changes[i].modifiedStart
      && changes[i].originalStart + |was| == changes[i].originalEnd
      && changes[i].modifiedStart + |becomes| == changes[i].modifiedEnd
      && Follows(rest, changes, first, second, i + 1, changes[i].originalEnd - 1, changes[i].modifiedEnd - 1)
  }

  lemma {:induction false} ScriptedFollows(d: Diff, first: seq<bool>, second: seq<bool>, i: nat)
    requires i <= |d.changes| == |first| == |second|
    ensures Follows(Scripted(d, first, second, i), d.changes, first, second, i, d.OriginalCursor(i), d.ModifiedCursor(i))
    decreases |d.changes| - i
  {
    if i < |d.changes| {
      assert d.FitsAt(i);
      ScriptedFollows(d, first, second, i + 1);
    }
  }

  lemma {:induction false} LeftoverMarks(s: Script, changes: seq<Change>, first: seq<bool>, second: seq<bool>,
                                         i: nat, original: int, modified: int, common: Lines)
    requires i <= |changes| == |first| == |second|
    requires Follows(s, changes, first, second, i, original, modified)
    ensures Marks(Leftover(s, common)) == Restricted(first, second, i)
    decreases s
  {
    if i < |changes| {
      LeftoverMarks(s.rest, changes, first, second, i + 1, changes[i].originalEnd - 1, changes[i].modifiedEnd - 1,
                    if s.first then common + s.common + s.becomes else []);
    }
  }

  lemma {:induction false} ShiftsFit(s: Script, changes: seq<Change>, first: seq<bool>, second: seq<bool>,
                                     i: nat, original: int, modified: int, shift: int)
    requires i <= |changes| == |first| == |second|
    requires Follows(s, changes, first, second, i, original, modified)
    requires original + shift >= 0
    ensures ShiftFits(changes, first, i, shift)
    decreases s
  {
    if i < |changes| {
      ShiftsFit(s.rest, changes, first, second, i + 1, changes[i].originalEnd - 1, changes[i].modifiedEnd - 1,
                if first[i] then shift + changes[i].Growth() else shift);
    }
  }

  /** The leftover script has exactly the remaining ranges. */
  lemma {:induction false} LeftoverRanges(s: Script, changes: seq<Change>, first: seq<bool>, second: seq<bool>,
                                          i: nat, original: int, modified: int, shift: int, common: Lines,
                                          staged: nat, seen: nat)
    requires i <= |changes| == |first| == |second|
    requires Follows(s, changes, first, second, i, original, modified)
    requires ShiftFits(changes, first, i, shift)
    requires staged + |common| == original + shift && seen + |common| == modified
    ensures Ranges(Leftover(s, common), staged, seen) == Remaining(changes, first, i, shift)
    decreases s, 1
  {
    if i < |changes| {
      if first[i] {
        LeftoverChosen(s, changes, first, second, i, original, modified, shift, common, staged, seen);
      } else {
        LeftoverLeft(s, changes, first, second, i, original, modified, shift, common, staged, seen);
      }
    }
  }

  lemma {:induction false} LeftoverChosen(s: Script, changes: seq<Change>, first: seq<bool>, second: seq<bool>,
                                          i: nat, original: int, modified: int, shift: int, common: Lines,
                                          staged: nat, seen: nat)
    requires i < |changes| == |first| == |second| && first[i]
    requires Follows(s, changes, first, second, i, original, modified)
    requires ShiftFits(changes, first, i, shift)
    requires staged + |common| == original + shift && seen + |common| == modified
    ensures Ranges(Leftover(s, common), staged, seen) == Remaining(changes, first, i, shift)
    decreases s, 0
  {
    var c := changes[i];
    LeftoverRanges(s.rest, changes, first, second, i + 1, c.originalEnd - 1, c.modifiedEnd - 1, shift + c.Growth(),
                   common + s.common + s.becomes, staged, seen);
    assert Remaining(changes, first, i, shift) == Remaining(changes, first, i + 1, shift + c.Growth());
  }

  lemma {:induction false} LeftoverLeft(s: Script, changes: seq<Change>, first: seq<bool>, second: seq<bool>,
                                        i: nat, original: int, modified: int, shift: int, common: Lines,
                                        staged: nat, seen: nat)
    requires i < |changes| == |first| == |second| && !first[i]
    requires Follows(s, changes, first, second, i, original, modified)
    requires ShiftFits(changes, first, i, shift)
    requires staged + |common| == original + shift && seen + |common| == modified
    ensures Ranges(Leftover(s, common), staged, seen) == Remaining(changes, first, i, shift)
    decreases s, 0
  {
    var c := changes[i];
    LeftoverRange(s, common, staged, seen, c, shift);
    RemainingLeft(changes, first, i, shift);
    LeftoverRanges(s.rest, changes, first, second, i + 1, c.originalEnd - 1, c.modifiedEnd - 1, shift,
                   [], c.originalEnd - 1 + shift, c.modifiedEnd - 1);
  }

  lemma RemainingLeft(changes: seq<Change>, chosen: seq<bool>, i: nat, shift: int)
    requires i < |changes| == |chosen| && !chosen[i] && ShiftFits(changes, chosen, i, shift)
    ensures var c := changes[i];
      Remaining(changes, chosen, i, shift)
      == [Change(c.originalStart + shift, c.originalEnd + shift, c.modifiedStart, c.modifiedEnd)] + Remaining(changes, chosen, i + 1, shift)
  {
  }

  lemma LeftoverRange(s: Script, common: Lines, original: nat, modified: nat, c: Change, shift: int)
    requires s.Then? && !s.first
    requires original + |common| + |s.common| + 1 == c.originalStart + shift
    requires modified + |common| + |s.common| + 1 == c.modifiedStart
    requires c.originalEnd == c.originalStart + |s.was| && c.modifiedEnd == c.modifiedStart + |s.becomes|
    ensures Ranges(Leftover(s, common), original, modified)
         == [Change(c.originalStart + shift, c.originalEnd + shift, c.modifiedStart, c.modifiedEnd)]
            + Ranges(Leftover(s.rest, []), c.originalEnd - 1 + shift, c.modifiedEnd - 1)
  {
    var left := Leftover(s, common);
    assert RangeOf(left, original, modified)
        == Change(c.originalStart + shift, c.originalEnd + shift, c.modifiedStart, c.modifiedEnd);
    assert original + |left.common| + |left.was| == c.originalEnd - 1 + shift;
    assert modified + |left.common| + |left.becomes| == c.modifiedEnd - 1;
  }

  // ----- the statements about whole texts -----

  /** After staging a selection, the changes left over, shifted by the accumulated growth, are a
      valid diff from the staged text to the modified text; and staging a second selection from
      what is left is staging both at once. */
  lemma StagesCompose(d: Diff, first: seq<bool>, second: seq<bool>)
    requires d.from == d.to == 0
    requires |first| == |second| == |d.changes|
    ensures ShiftFits(d.changes, first, 0, 0)
    ensures
      var left := RawDiff(Patched(d, first), d.modified, Remaining(d.changes, first, 0, 0), 0, 0);
      && left.Valid()
      && |Restricted(first, second, 0)| == |left.changes|
      && Patched(left, Restricted(first, second, 0)) == Patched(d, Either(first, second))
  {
    var script := Scripted(d, first, second, 0);
    ScriptedNew(d, first, second, 0);
    ScriptedFirst(d, first, second, 0);
    ScriptedBoth(d, first, second, 0);
    ScriptedFollows(d, first, second, 0);
    LeftoverTexts(script, []);
    LeftoverMarks(script, d.changes, first, second, 0, 0, 0, []);
    ShiftsFit(script, d.changes, first, second, 0, 0, 0, 0);
    LeftoverRanges(script, d.changes, first, second, 0, 0, 0, 0, [], 0, 0);
    ScriptIsADiff(Leftover(script, []), [], []);
    assert [] + Old(Leftover(script, [])) == Staged(script);
    assert [] + New(Leftover(script, [])) == d.modified;
    assert [] + StagedTwice(script) == StagedTwice(script);
  }

  lemma {:induction false} AllGivesModified(d: Diff, chosen: seq<bool>, i: nat)
    requires i <= |d.changes| == |chosen|
    requires forall k :: i <= k < |chosen| ==> chosen[k]
    ensures 0 <= d.ModifiedCursor(i) <= |d.modified|
    ensures PatchedFrom(d, chosen, i) == d.modified[d.ModifiedCursor(i)..]
    decreases |d.changes| - i
  {
    if i < |d.changes| {
      assert d.FitsAt(i);
      AllGivesModified(d, chosen, i + 1);
      TakenPart(d.original, d.modified, d.changes[i], d.OriginalCursor(i), d.ModifiedCursor(i));
    }
  }

  /** A change that is made contributes the modified text's own lines up to its end. */
  lemma TakenPart(o: Lines, m: Lines, c: Change, original: int, modified: int)
    requires Fits(o, m, c, original, modified)
    ensures Contribution(o, m, c, original, modified, true) + m[c.modifiedEnd - 1..] == m[modified..]
  {
    Thirds(m, modified, c.modifiedStart - 1, c.modifiedEnd - 1);
  }

  lemma {:induction false} NothingGivesOriginal(d: Diff, chosen: seq<bool>, i: nat)
    requires i <= |d.changes| == |chosen|
    requires forall k :: i <= k < |chosen| ==> !chosen[k]
    ensures 0 <= d.OriginalCursor(i) <= |d.original|
    ensures PatchedFrom(d, chosen, i) == d.original[d.OriginalCursor(i)..]
    decreases |d.changes| - i
  {
    if i < |d.changes| {
      assert d.FitsAt(i);
      NothingGivesOriginal(d, chosen, i + 1);
      Thirds(d.original, d.OriginalCursor(i), d.changes[i].originalStart - 1, d.changes[i].originalEnd - 1);
    }
  }

  // ----- from lines back to text -----

  lemma {:induction false} PatchedIsFree(d: Diff, chosen: seq<bool>, i: nat)
    requires i <= |d.changes| == |chosen|
    requires AllFree(d.original, '\n') && AllFree(d.modified, '\n')
    ensures AllFree(PatchedFrom(d, chosen, i), '\n')
    decreases |d.changes| - i
  {
    if i < |d.changes| {
      assert d.FitsAt(i);
      PatchedIsFree(d, chosen, i + 1);
    }
  }

  /** From change `i` on nothing is written: no common line is left, every change made only deletes,
      and every change not made only inserts. */
  ghost predicate LeavesNothing(d: Diff, chosen: seq<bool>, i: nat)
    requires i <= |d.changes| == |chosen|
  {
    && (forall k :: i <= k < |d.changes| ==> PartIsEmpty(d, chosen, k))
    && d.OriginalCursor(|d.changes|) == |d.original|
  }

  ghost predicate PartIsEmpty(d: RawDiff, chosen: seq<bool>, k: nat)
    requires k < |d.changes| == |chosen|
  {
    var c := d.changes[k];
    && c.originalStart - 1 == d.OriginalCursor(k)
    && (if chosen[k] then c.modifiedStart == c.modifiedEnd else c.originalStart == c.originalEnd)
  }

  lemma ContributesNothing(d: Diff, chosen: seq<bool>, k: nat)
    requires k < |d.changes| == |chosen|
    ensures ContributionAt(d, chosen, k) == [] <==> PartIsEmpty(d, chosen, k)
  {
    assert d.FitsAt(k);
  }

  lemma {:induction false} PatchedIsEmptyExactly(d: Diff, chosen: seq<bool>, i: nat)
    requires i <= |d.changes| == |chosen|
    ensures PatchedFrom(d, chosen, i) == [] <==> LeavesNothing(d, chosen, i)
    decreases |d.changes| - i
  {
    if i < |d.changes| {
      ContributesNothing(d, chosen, i);
      PatchedIsEmptyExactly(d, chosen, i + 1);
      assert PatchedFrom(d, chosen, i) == [] <==> ContributionAt(d, chosen, i) == [] && PatchedFrom(d, chosen, i + 1) == [];
    }
  }

  /** A staged text splits into the same lines again, so that the next staging starts from exactly
      the lines this one produced, unless the changes and the selection leave no line at all. */
  lemma StagedTextSplitsBack(original: string, modified: string, d: Diff, chosen: seq<bool>)
    requires d.original == SplitLines(original) && d.modified == SplitLines(modified)
    requires |chosen| == |d.changes|
    ensures SplitLines(JoinLines(Patched(d, chosen))) == Patched(d, chosen) <==> !LeavesNothing(d, chosen, 0)
  {
    PatchedIsEmptyExactly(d, chosen, 0);
    JoinSplit(original, '\n');
    JoinSplit(modified, '\n');
    PatchedIsFree(d, chosen, 0);
    if Patched(d, chosen) != [] {
      SplitJoin(Patched(d, chosen), '\n');
    }
  }

  /** Between two neighbouring changes at least one common line remains. */
  ghost predicate Separated(changes: seq<Change>) {
    forall i :: 0 < i < |changes| ==> changes[i - 1].originalEnd < changes[i].originalStart
  }

  /** Separated changes never stage an empty list of lines out of non-empty texts. */
  lemma SeparatedStagesSomething(d: Diff, chosen: seq<bool>)
    requires d.from == d.to == 0 && |chosen| == |d.changes|
    requires d.original != [] && d.modified != [] && Separated(d.changes)
    ensures Patched(d, chosen) != []
  {
    if |d.changes| <= 1 {
      if chosen == [] || !chosen[0] {
        NothingGivesOriginal(d, chosen, 0);
      } else {
        AllGivesModified(d, chosen, 0);
      }
    } else {
      assert d.FitsAt(1);
      assert |ContributionAt(d, chosen, 1)| > 0;
      assert |PatchedFrom(d, chosen, 1)| > 0;
    }
  }

  /** Changes that touch can stage no line at all, and the empty text is then read back as one
      empty line. */
  lemma TouchingChangesCanStageNothing()
    ensures
      var d := RawDiff(["a"], ["b"], [Change(1, 2, 1, 1), Change(2, 2, 1, 2)], 0, 0);
      && d.Valid()
      && !Separated(d.changes)
      && Patched(d, [true, false]) == []
      && SplitLines(JoinLines([])) == [""]
  {
    var d := RawDiff(["a"], ["b"], [Change(1, 2, 1, 1), Change(2, 2, 1, 2)], 0, 0);
    assert d.FitsAt(0) && d.FitsAt(1);
    assert PatchedFrom(d, [true, false], 2) == [];
    assert PatchedFrom(d, [true, false], 1) == [];
    assert d.changes[0].originalEnd == d.changes[1].originalStart;
  }
}
