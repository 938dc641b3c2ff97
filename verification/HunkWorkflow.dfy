/** The explicit-selection workflow: read, choose, compute, read again, stage. */
module HunkWorkflow {
  import opened ByteStrings
  import opened HunkPatches
  import opened Options

  const MAX_SELECTABLE_HUNKS := 256

  datatype Snapshot = Snapshot(indexBytes: Option<Bytes>, worktreeBytes: Bytes)

  /** The platform's UTF-8 decoder, which may refuse, and its encoder. */
  datatype TextCodec = TextCodec(decode: Bytes -> Option<string>, encode: string -> Bytes)

  /** A number that came back from the picker. */
  datatype Index = Integral(value: int) | Fractional

  /** A service call answers or is rejected. */
  datatype Call<+T> = Answered(value: T) | Rejected

  /** The diff engine as a function of the two texts' lines, with its promise. */
  type Differ = (Lines, Lines) -> seq<Change>

  ghost predicate Sound(differ: Differ) {
    forall o: Lines, m: Lines :: RawDiff(o, m, differ(o, m), 0, 0).Valid()
  }

  // ----- reading text -----

  predicate HasByteOrderMark(bytes: Bytes) {
    |bytes| >= 3 && bytes[0] == 239 && bytes[1] == 187 && bytes[2] == 191
  }

  /** The text accepted for hunk staging: text whose encoding is these bytes again. */
  ghost predicate IsTextOf(codec: TextCodec, bytes: Bytes, text: string) {
    && !HasByteOrderMark(bytes)
    && 0 !in bytes
    && codec.decode(bytes) == Some(text)
    && codec.encode(text) == bytes
  }

  /** Bytes are accepted as a text exactly if they do not start with the three bytes of a byte-order mark,
      hold no zero byte, and decode to the text, which encodes to the same bytes again. */
  lemma TextExactly(codec: TextCodec, bytes: Bytes, text: string)
    ensures IsTextOf(codec, bytes, text) <==>
      && !([239, 187, 191] <= bytes) && (forall i :: 0 <= i < |bytes| ==> bytes[i] != 0)
      && codec.decode(bytes) == Some(text) && bytes == codec.encode(text)
  {
    assert [239, 187, 191] <= bytes <==> |bytes| >= 3 && bytes[..3] == [239, 187, 191];
  }

  method BytesEqual(left: Bytes, right: Bytes) returns (same: bool)
    ensures same <==> left == right
  {
    if |left| != |right| {
      return false;
    }
    for index := 0 to |left|
      invariant left[..index] == right[..index]
    {
      if left[index] != right[index] {
        return false;
      }
    }
    assert left == left[..|left|] && right == right[..|right|];
    return true;
  }

  method DecodeHunkStageText(codec: TextCodec, bytes: Bytes) returns (text: Option<string>)
    ensures text.Some? ==> IsTextOf(codec, bytes, text.value)
    ensures text.None? ==> forall t :: !IsTextOf(codec, bytes, t)
  {
    if HasByteOrderMark(bytes) || 0 in bytes {
      return None;
    }
    var decoded := codec.decode(bytes);
    if decoded.None? {
      return None;
    }
    var reencoded := codec.encode(decoded.value);
    if |reencoded| != |bytes| {
      return None;
    }
    for i := 0 to |reencoded|
      invariant reencoded[..i] == bytes[..i]
    {
      if reencoded[i] != bytes[i] {
        return None;
      }
    }
    assert reencoded == reencoded[..|reencoded|] && bytes == bytes[..|bytes|];
    return decoded;
  }

  method SameSnapshot(left: Snapshot, right: Snapshot) returns (same: bool)
    ensures same <==> left == right
  {
    var sameIndex;
    if left.indexBytes.None? {
      sameIndex := right.indexBytes.None?;
    } else if right.indexBytes.None? {
      sameIndex := false;
    } else {
      sameIndex := BytesEqual(left.indexBytes.value, right.indexBytes.value);
    }
    if !sameIndex {
      return false;
    }
    same := BytesEqual(left.worktreeBytes, right.worktreeBytes);
  }

  // ----- the plan and the content -----

  datatype SelectableHunk = SelectableHunk(index: nat, change: Change)

  datatype Plan = Plan(hunks: seq<SelectableHunk>, totalHunkCount: nat, truncated: bool, hitTimeout: bool)

  method CreatePlan(differ: Differ, originalText: string, modifiedText: string, hitTimeout: bool) returns (plan: Plan)
    ensures
      var changes := differ(SplitLines(originalText), SplitLines(modifiedText));
      && plan.totalHunkCount == |changes|
      && plan.hitTimeout == hitTimeout
      && (plan.truncated <==> !hitTimeout && |changes| > 256)
      && |plan.hunks| == (if hitTimeout then 0 else if plan.truncated then 256 else |changes|)
      && forall i :: 0 <= i < |plan.hunks| ==> plan.hunks[i] == SelectableHunk(i, changes[i])
  {
    var changes := differ(SplitLines(originalText), SplitLines(modifiedText));
    if hitTimeout {
      return Plan([], |changes|, false, true);
    }
    var shown := if |changes| > MAX_SELECTABLE_HUNKS then MAX_SELECTABLE_HUNKS else |changes|;
    var hunks := seq(shown, i requires 0 <= i < shown => SelectableHunk(i, changes[i]));
    plan := Plan(hunks, |changes|, |changes| > MAX_SELECTABLE_HUNKS, false);
  }

  /** A selection that is not empty, not too long, without duplicates, and only of hunks on offer. */
  ghost predicate GoodSelection(selected: seq<Index>, hunks: nat) {
    && 0 < |selected| <= MAX_SELECTABLE_HUNKS
    && (forall i :: 0 <= i < |selected| ==>
          selected[i].Integral? && 0 <= selected[i].value < hunks && selected[i].value < MAX_SELECTABLE_HUNKS)
    && (forall i, j :: 0 <= i < j < |selected| ==> selected[i] != selected[j])
  }

  /** At most 256 different numbers, each of one of the first 256 changes, and at least one. */
  lemma GoodSelectionExactly(selected: seq<Index>, hunks: nat)
    ensures GoodSelection(selected, hunks) <==>
      && selected != [] && |selected| <= 256
      && (forall index :: index in selected ==> index.Integral? && 0 <= index.value < 256 && index.value < hunks)
      && (forall i, j :: 0 <= j < i < |selected| ==> selected[j] != selected[i])
  {
    if forall index :: index in selected ==> index.Integral? && 0 <= index.value < 256 && index.value < hunks {
      assert forall i :: 0 <= i < |selected| ==> selected[i] in selected;
    }
  }

  ghost function Chosen(selected: seq<Index>): set<int> {
    set i | 0 <= i < |selected| && selected[i].Integral? :: selected[i].value
  }

  /** The text that results from making exactly the selected changes. */
  ghost function PartialText(differ: Differ, originalText: string, modifiedText: string, selected: set<int>): string
    requires Sound(differ)
  {
    var o, m := SplitLines(originalText), SplitLines(modifiedText);
    JoinLines(Patched(RawDiff(o, m, differ(o, m), 0, 0), Mask(selected, |differ(o, m)|)))
  }

  /** The text is the original with exactly those changes made whose numbers were selected. */
  ghost predicate MakesSelected(differ: Differ, originalText: string, modifiedText: string, selected: seq<Index>, content: string)
    requires Sound(differ)
  {
    var o, m := SplitLines(originalText), SplitLines(modifiedText);
    forall chosen: seq<bool> | |chosen| == |differ(o, m)| && forall i :: 0 <= i < |chosen| ==> (chosen[i] <==> Integral(i) in selected) ::
      content == JoinLines(Patched(RawDiff(o, m, differ(o, m), 0, 0), chosen))
  }

  method ComputeContent(differ: Differ, originalText: string, modifiedText: string, hitTimeout: bool, selected: seq<Index>)
    returns (content: Option<string>)
    requires Sound(differ)
    ensures content.Some? <==>
      !hitTimeout && GoodSelection(selected, |differ(SplitLines(originalText), SplitLines(modifiedText))|)
    ensures content.Some? ==>
      content.value == PartialText(differ, originalText, modifiedText, Chosen(selected))
    ensures content.Some? ==> MakesSelected(differ, originalText, modifiedText, selected, content.value)
  {
    if |selected| == 0 || |selected| > MAX_SELECTABLE_HUNKS || hitTimeout {
      return None;
    }
    var originalLines, modifiedLines := SplitLines(originalText), SplitLines(modifiedText);
    var changes := differ(originalLines, modifiedLines);
    var indices: set<int> := {};
    for k := 0 to |selected|
      invariant indices == Chosen(selected[..k])
      invariant k > 0 ==> GoodSelection(selected[..k], |changes|)
    {
      var index := selected[k];
      assert selected[..k + 1] == selected[..k] + [index];
      if index.Fractional?
        || index.value < 0 || index.value >= |changes| || index.value >= MAX_SELECTABLE_HUNKS
        || index.value in indices
      {
        DuplicateOrBad(selected, k, |changes|);
        return None;
      }
      GoodLonger(selected, k, |changes|);
      indices := indices + {index.value};
    }
    assert selected[..|selected|] == selected;
    assert RawDiff(originalLines, modifiedLines, changes, 0, 0).Valid();
    var result := ApplySelected(originalLines, modifiedLines, changes, indices);
    SelectedAreMade(differ, originalText, modifiedText, selected);
    return Some(JoinLines(result));
  }

  lemma SelectedAreMade(differ: Differ, originalText: string, modifiedText: string, selected: seq<Index>)
    requires Sound(differ)
    ensures MakesSelected(differ, originalText, modifiedText, selected,
                          PartialText(differ, originalText, modifiedText, Chosen(selected)))
  {
    var o, m := SplitLines(originalText), SplitLines(modifiedText);
    forall chosen: seq<bool> | |chosen| == |differ(o, m)| && forall i :: 0 <= i < |chosen| ==> (chosen[i] <==> Integral(i) in selected)
      ensures chosen == Mask(Chosen(selected), |differ(o, m)|)
    {
      forall i: nat | i < |chosen| ensures Integral(i) in selected <==> i in Chosen(selected) {
        SelectedNumber(selected, i);
      }
    }
  }

  lemma SelectedNumber(selected: seq<Index>, i: nat)
    ensures Integral(i) in selected <==> i in Chosen(selected)
  {
    if Integral(i) in selected {
      var k :| 0 <= k < |selected| && selected[k] == Integral(i);
      assert selected[k].value == i;
    }
  }

  lemma GoodLonger(selected: seq<Index>, k: nat, hunks: nat)
    requires k < |selected| <= MAX_SELECTABLE_HUNKS
    requires k > 0 ==> GoodSelection(selected[..k], hunks)
    requires selected[k].Integral? && 0 <= selected[k].value < hunks && selected[k].value < MAX_SELECTABLE_HUNKS
    requires selected[k].value !in Chosen(selected[..k])
    ensures GoodSelection(selected[..k + 1], hunks)
    ensures Chosen(selected[..k + 1]) == Chosen(selected[..k]) + {selected[k].value}
  {
    var shorter, longer := selected[..k], selected[..k + 1];
    forall i, j | 0 <= i < j < |longer| ensures longer[i] != longer[j] {
      if j == k {
        assert longer[i] == shorter[i];
      } else {
        assert shorter[i] == longer[i] && shorter[j] == longer[j];
      }
    }
    forall i | 0 <= i < |longer|
      ensures longer[i].Integral? && 0 <= longer[i].value < hunks && longer[i].value < MAX_SELECTABLE_HUNKS
    {
      if i < k {
        assert longer[i] == shorter[i];
      }
    }
    forall v | v in Chosen(longer) ensures v in Chosen(shorter) + {selected[k].value} {
      var i :| 0 <= i < |longer| && longer[i].Integral? && longer[i].value == v;
      if i < k {
        assert shorter[i] == longer[i];
      }
    }
    forall v | v in Chosen(shorter) + {selected[k].value} ensures v in Chosen(longer) {
      if v in Chosen(shorter) {
        var i :| 0 <= i < |shorter| && shorter[i].Integral? && shorter[i].value == v;
        assert longer[i] == shorter[i];
      } else {
        assert longer[k] == selected[k];
      }
    }
  }

  lemma DuplicateOrBad(selected: seq<Index>, k: nat, hunks: nat)
    requires k < |selected|
    requires selected[k].Fractional?
      || selected[k].value < 0 || selected[k].value >= hunks || selected[k].value >= MAX_SELECTABLE_HUNKS
      || selected[k].value in Chosen(selected[..k])
    ensures !GoodSelection(selected, hunks)
  {
    if selected[k].Integral? && selected[k].value in Chosen(selected[..k]) {
      var i :| 0 <= i < |selected[..k]| && selected[..k][i].Integral? && selected[..k][i].value == selected[k].value;
      assert selected[i] == selected[k];
    }
  }

  // ----- the workflow -----

  datatype Outcome = Staged | NotStaged | Failed

  /** The two texts read at the start allow hunk staging. */
  ghost predicate Readable(codec: TextCodec, snapshot: Snapshot) {
    && (exists t :: IsTextOf(codec, IndexBytes(snapshot), t))
    && (exists t :: IsTextOf(codec, snapshot.worktreeBytes, t))
  }

  function IndexBytes(snapshot: Snapshot): Bytes {
    if snapshot.indexBytes.Some? then snapshot.indexBytes.value else []
  }

  ghost function OriginalText(codec: TextCodec, snapshot: Snapshot): string {
    if codec.decode(IndexBytes(snapshot)).Some? then codec.decode(IndexBytes(snapshot)).value else ""
  }

  ghost function ModifiedText(codec: TextCodec, snapshot: Snapshot): string {
    if codec.decode(snapshot.worktreeBytes).Some? then codec.decode(snapshot.worktreeBytes).value else ""
  }

  ghost function ChangesOf(codec: TextCodec, differ: Differ, snapshot: Snapshot): seq<Change> {
    differ(SplitLines(OriginalText(codec, snapshot)), SplitLines(ModifiedText(codec, snapshot)))
  }

  /** `staged` is what the stage service was called with, in order. */
  method StageExplicitHunks(codec: TextCodec, differ: Differ, first: Call<Snapshot>, planTimeout: bool,
                            pick: Call<Option<seq<Index>>>, contentTimeout: bool, second: Call<Snapshot>, stageWorks: bool)
    returns (outcome: Outcome, staged: seq<Bytes>)
    requires Sound(differ)
    ensures |staged| <= 1
    ensures staged != [] <==>
      && second == first && first.Answered? && Readable(codec, first.value)
      && !planTimeout && !contentTimeout && pick.Answered? && pick.value.Some?
      && GoodSelection(pick.value.value, |ChangesOf(codec, differ, first.value)|)
    ensures outcome == Staged <==> staged != [] && stageWorks
    ensures staged != [] ==>
      staged[0] == codec.encode(PartialText(differ, OriginalText(codec, first.value), ModifiedText(codec, first.value),
                                            Chosen(pick.value.value)))
  {
    staged := [];
    if first.Rejected? {
      return Failed, staged;
    }
    var initial := first.value;
    var originalText := DecodeHunkStageText(codec, if initial.indexBytes.Some? then initial.indexBytes.value else []);
    var modifiedText := DecodeHunkStageText(codec, initial.worktreeBytes);
    if originalText.None? || modifiedText.None? {
      return NotStaged, staged;
    }
    assert IsTextOf(codec, IndexBytes(initial), originalText.value);
    assert IsTextOf(codec, initial.worktreeBytes, modifiedText.value);
    var plan := CreatePlan(differ, originalText.value, modifiedText.value, planTimeout);
    if plan.hitTimeout {
      return NotStaged, staged;
    }
    if |plan.hunks| == 0 {
      NothingToSelect();
      return NotStaged, staged;
    }
    if pick.Rejected? {
      return Failed, staged;
    }
    if pick.value.None? || |pick.value.value| == 0 {
      return NotStaged, staged;
    }
    var selected := pick.value.value;
    var offered := AllOffered(plan.hunks, selected);
    if !offered {
      return NotStaged, staged;
    }
    var content := ComputeContent(differ, originalText.value, modifiedText.value, contentTimeout, selected);
    if content.None? {
      return NotStaged, staged;
    }
    outcome, staged := StageIfUnchanged(initial, second, codec.encode(content.value), stageWorks);
  }

  /** Read again and compare; only the same bytes as before are staged over. */
  method StageIfUnchanged(initial: Snapshot, second: Call<Snapshot>, content: Bytes, stageWorks: bool)
    returns (outcome: Outcome, staged: seq<Bytes>)
    ensures staged == if second == Answered(initial) then [content] else []
    ensures outcome == Staged <==> second == Answered(initial) && stageWorks
  {
    if second.Rejected? {
      return Failed, [];
    }
    var same := SameSnapshot(initial, second.value);
    if !same {
      return NotStaged, [];
    }
    return if stageWorks then Staged else Failed, [content];
  }

  /** Whether everything that came back from the picker is one of the hunks it offered. */
  method AllOffered(hunks: seq<SelectableHunk>, selected: seq<Index>) returns (offered: bool)
    requires forall i :: 0 <= i < |hunks| ==> hunks[i].index == i
    ensures offered <==> forall i :: 0 <= i < |selected| ==> selected[i].Integral? && 0 <= selected[i].value < |hunks|
  {
    var selectable := set i | 0 <= i < |hunks| :: Integral(hunks[i].index);
    OnOffer(hunks);
    offered := !exists i :: 0 <= i < |selected| && selected[i] !in selectable;
  }

  lemma NothingToSelect()
    ensures forall selected :: !GoodSelection(selected, 0)
  {
    forall selected: seq<Index> ensures !GoodSelection(selected, 0) {
      assert |selected| > 0 ==> !(selected[0].Integral? && 0 <= selected[0].value < 0);
    }
  }

  lemma OnOffer(hunks: seq<SelectableHunk>)
    requires forall i :: 0 <= i < |hunks| ==> hunks[i].index == i
    ensures
      var selectable := set i | 0 <= i < |hunks| :: Integral(hunks[i].index);
      forall index :: index in selectable <==> index.Integral? && 0 <= index.value < |hunks|
  {
    var selectable := set i | 0 <= i < |hunks| :: Integral(hunks[i].index);
    forall index: Index | index.Integral? && 0 <= index.value < |hunks| ensures index in selectable {
      assert Integral(hunks[index.value].index) == index;
    }
  }

  /** Choosing every hunk of a plan that shows them all stages exactly the working-tree bytes, and
      the empty choice, which the workflow refuses, would have been the index bytes. */
  lemma EveryHunkStagesTheWorktree(codec: TextCodec, differ: Differ, snapshot: Snapshot, selected: set<int>)
    requires Sound(differ) && Readable(codec, snapshot)
    ensures
      var n := |ChangesOf(codec, differ, snapshot)|;
      var content := codec.encode(PartialText(differ, OriginalText(codec, snapshot), ModifiedText(codec, snapshot), selected));
      && ((forall i :: 0 <= i < n ==> i in selected) ==> content == snapshot.worktreeBytes)
      && ((forall i :: 0 <= i < n ==> i !in selected) ==>
            content == if snapshot.indexBytes.None? then [] else snapshot.indexBytes.value)
  {
    var o, m := SplitLines(OriginalText(codec, snapshot)), SplitLines(ModifiedText(codec, snapshot));
    var raw := RawDiff(o, m, differ(o, m), 0, 0);
    assert raw.Valid();
    var d: Diff := raw;
    TextReadsBack(OriginalText(codec, snapshot));
    TextReadsBack(ModifiedText(codec, snapshot));
    if forall i :: 0 <= i < |d.changes| ==> i in selected {
      AllGivesModified(d, Mask(selected, |d.changes|), 0);
    }
    if forall i :: 0 <= i < |d.changes| ==> i !in selected {
      NothingGivesOriginal(d, Mask(selected, |d.changes|), 0);
    }
  }
}
