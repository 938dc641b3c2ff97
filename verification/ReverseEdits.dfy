/** The formatting step of the protocol synchroniser: text edits reported against one
    document are applied from the last to the first. */
module ReverseEdits {

  datatype Edit = Edit(start: nat, length: nat, newText: string)

  /** JavaScript's `substring(0, end)`, which clamps `end`. */
  function Before(s: string, end: nat): string {
    if end <= |s| then s[..end] else s
  }

  /** JavaScript's `substring(start)`, which clamps `start`. */
  function From(s: string, start: nat): string {
    if start <= |s| then s[start..] else ""
  }

  /** One round of the loop. */
  function Splice(content: string, edit: Edit): string {
    Before(content, edit.start) + edit.newText + From(content, edit.start + edit.length)
  }

  /** The end of the edit before edit `i`. */
  ghost function CursorAt(edits: seq<Edit>, i: nat): nat
    requires i <= |edits|
  {
    if i == 0 then 0 else edits[i - 1].start + edits[i - 1].length
  }

  /** The edits lie in the document, in order of start, and do not overlap. */
  ghost predicate Orderly(length: nat, edits: seq<Edit>) {
    && (forall i :: 0 <= i < |edits| ==> CursorAt(edits, i) <= edits[i].start)
    && CursorAt(edits, |edits|) <= length
  }

  lemma {:induction false} CursorFits(length: nat, edits: seq<Edit>, i: nat)
    requires Orderly(length, edits) && i <= |edits|
    ensures CursorAt(edits, i) <= length
    decreases |edits| - i
  {
    if i < |edits| {
      CursorFits(length, edits, i + 1);
    }
  }

  /** The reference meaning: one pass over the original from left to right, copying what lies
      between edits and writing each replacement where its span was; from edit `i` on. */
  ghost function PassFrom(content: string, edits: seq<Edit>, i: nat): string
    requires Orderly(|content|, edits) && i <= |edits|
    decreases |edits| - i
  {
    CursorFits(|content|, edits, i);
    if i == |edits| then content[CursorAt(edits, i)..]
    else
      CursorFits(|content|, edits, i + 1);
      content[CursorAt(edits, i)..edits[i].start] + edits[i].newText + PassFrom(content, edits, i + 1)
  }

  ghost function OnePass(content: string, edits: seq<Edit>): string
    requires Orderly(|content|, edits)
  {
    PassFrom(content, edits, 0)
  }

  /** What the loop holds before it reaches edit `i - 1`: the original up to the end of that edit,
      and then the finished text. */
  ghost function DoneFrom(original: string, edits: seq<Edit>, i: nat): string
    requires Orderly(|original|, edits) && i <= |edits|
  {
    CursorFits(|original|, edits, i);
    original[..CursorAt(edits, i)] + PassFrom(original, edits, i)
  }

  lemma SpliceStep(original: string, edits: seq<Edit>, i: nat, content: string)
    requires Orderly(|original|, edits) && i < |edits| && content == DoneFrom(original, edits, i + 1)
    ensures Splice(content, edits[i]) == DoneFrom(original, edits, i)
  {
    CursorFits(|original|, edits, i + 1);
    SpliceText(original, CursorAt(edits, i), edits[i], PassFrom(original, edits, i + 1));
  }

  lemma SpliceText(original: string, cursor: nat, edit: Edit, tail: string)
    requires cursor <= edit.start && edit.start + edit.length <= |original|
    ensures Splice(original[..edit.start + edit.length] + tail, edit)
         == original[..cursor] + (original[cursor..edit.start] + edit.newText + tail)
  {
    var content := original[..edit.start + edit.length] + tail;
    assert content[..edit.start] == original[..cursor] + original[cursor..edit.start];
    assert content[edit.start + edit.length..] == tail;
  }

  /** The edits from the last down to edit `i`, one splice each. */
  function SplicedFrom(original: string, edits: seq<Edit>, i: nat): string
    requires i <= |edits|
    decreases |edits| - i
  {
    if i == |edits| then original else Splice(SplicedFrom(original, edits, i + 1), edits[i])
  }

  lemma {:induction false} SplicedIsDone(original: string, edits: seq<Edit>, i: nat)
    requires Orderly(|original|, edits) && i <= |edits|
    ensures SplicedFrom(original, edits, i) == DoneFrom(original, edits, i)
    decreases |edits| - i
  {
    if i == |edits| {
      NothingDone(original, edits);
    } else {
      SplicedIsDone(original, edits, i + 1);
      SpliceStep(original, edits, i, SplicedFrom(original, edits, i + 1));
    }
  }

  lemma NothingDone(original: string, edits: seq<Edit>)
    requires Orderly(|original|, edits)
    ensures DoneFrom(original, edits, |edits|) == original
  {
  }

  lemma AllDone(original: string, edits: seq<Edit>)
    requires Orderly(|original|, edits)
    ensures DoneFrom(original, edits, 0) == OnePass(original, edits)
  {
    assert original[..0] + OnePass(original, edits) == OnePass(original, edits);
  }

  lemma SplicesAreOnePass(original: string, edits: seq<Edit>)
    requires Orderly(|original|, edits)
    ensures SplicedFrom(original, edits, 0) == OnePass(original, edits)
  {
    SplicedIsDone(original, edits, 0);
    AllDone(original, edits);
  }

  /** The loop, from the last edit down to the first. For orderly edits it computes the one pass. */
  method ApplyEdits(original: string, edits: seq<Edit>) returns (content: string)
    ensures content == SplicedFrom(original, edits, 0)
    ensures Orderly(|original|, edits) ==> content == OnePass(original, edits)
  {
    content := original;
    var i := |edits|;
    while i > 0
      invariant 0 <= i <= |edits|
      invariant content == SplicedFrom(original, edits, i)
    {
      i := i - 1;
      var edit := edits[i];
      content := Before(content, edit.start) + edit.newText + From(content, edit.start + edit.length);
    }
    if Orderly(|original|, edits) {
      SplicesAreOnePass(original, edits);
    }
  }
}
