/** What the user has marked, told from the edits alone, and what the adapter was last told about it. */
module BreakpointHistory {
  import opened Options
  import opened Breakpoints
  import opened DebugSession
  import opened DebugRuns
  import opened DebugConvergence

  /** What an edit of its file does to the mark of one line. */
  function Remarked(mark: Option<Descriptor>, line: int, e: Edit): Option<Descriptor> {
    match e
    case Toggle(l) => if l != line then mark else if mark.Some? then None else Some(Descriptor(line, None, None, None))
    case Remove(l) => if l == line then None else mark
    case Redescribe(d) => if d.line == line && mark.Some? then Some(d) else mark
  }

  /** The mark of a line after a run: only edits of its file matter, in their order. */
  function MarkAfter(actions: seq<Action>, at: Location, line: int): Option<Descriptor> {
    if actions == [] then None
    else
      var most, a := MarkAfter(actions[..|actions| - 1], at, line), actions[|actions| - 1];
      if a.EditAction? && a.at == at then Remarked(most, line, a.edit) else most
  }

  function MarkIn(s: Store, at: Location, line: int): Option<Descriptor> {
    if line in s.Placed(at) then Some(s.Placed(at)[line]) else None
  }

  lemma EditRemarks(s: Store, at: Location, e: Edit, line: int)
    requires s.ConsistentAt(at)
    ensures MarkIn(Edited(s, at, e), at, line) == Remarked(MarkIn(s, at, line), line, e)
  {
    EditedLine(s, at, e, line);
  }

  lemma OtherwiseKeepsMarks(s: System, a: Action)
    requires !a.EditAction?
    ensures Step(s, a).ctl.store.descriptors == s.ctl.store.descriptors
  {
    if a.ReturnStart? && Enabled(s, a) {
      ReplayKeepsMarks(Opened(s.ctl, a.sessionId, s.starting.value), Window(s.ctl));
    }
  }

  /** In every run, whatever starts, events and answers come in between: the marks are those the edits say. */
  lemma {:induction false} MarksAreTheEdits(actions: seq<Action>, at: Location, line: int)
    ensures MarkIn(Run(actions).ctl.store, at, line) == MarkAfter(actions, at, line)
  {
    if actions != [] {
      var most, a := actions[..|actions| - 1], actions[|actions| - 1];
      MarksAreTheEdits(most, at, line);
      RunKeeps(most);
      assert Run(most).ctl.store.ConsistentAt(at);
      if !a.EditAction? {
        OtherwiseKeepsMarks(Run(most), a);
      } else if a.at == at {
        EditRemarks(Run(most).ctl.store, at, a.edit, line);
      } else {
        EditLeavesOthers(Run(most).ctl.store, a.at, a.edit, at);
      }
    }
  }

  /** So the last request for a file of the live session's root lists a breakpoint exactly if the edits
      have left it there. */
  lemma LastRequestListsTheMarks(actions: seq<Action>, at: Location, k: nat, d: Descriptor)
    requires Run(actions).ctl.live.Some? && Run(actions).ctl.live.value.rootId == at.rootId
    requires LastFor(Run(actions).ctl.calls, k, Run(actions).ctl.live.value.sessionId, at)
    ensures d in Run(actions).ctl.calls[k].entries <==> MarkAfter(actions, at, d.line) == Some(d)
  {
    var store := Run(actions).ctl.store;
    RunSettles(actions, at);
    RunKeeps(actions);
    assert store.ConsistentAt(at);
    ListedInOrder(store.Placed(at));
    MarksAreTheEdits(actions, at, d.line);
    ListedExactly(store.Placed(at), d);
  }

  lemma ListedExactly(placed: map<int, Descriptor>, d: Descriptor)
    requires Filed(placed)
    ensures d in Listed(placed) <==> d.line in placed && placed[d.line] == d
  {
    ListedInOrder(placed);
    if d.line in placed {
      var i :| 0 <= i < |Listed(placed)| && Listed(placed)[i].line == d.line;
    }
  }

  ghost predicate NeverToggles(actions: seq<Action>, at: Location, line: int) {
    forall a :: a in actions ==> a != EditAction(at, Toggle(line))
  }

  lemma {:induction false} StaysUnmarked(actions: seq<Action>, more: seq<Action>, at: Location, line: int)
    requires MarkAfter(actions, at, line) == None && NeverToggles(more, at, line)
    ensures MarkAfter(actions + more, at, line) == None
    decreases |more|
  {
    if more == [] {
      assert actions + more == actions;
    } else {
      var n := |more| - 1;
      assert (actions + more)[..|actions + more| - 1] == actions + more[..n];
      assert more[n] in more && forall a :: a in more[..n] ==> a in more;
      StaysUnmarked(actions, more[..n], at, line);
    }
  }

  /** A breakpoint that was removed, and not toggled since, is not there, and the last request for its
      file does not list its line. */
  lemma RemovedIsNotRequested(actions: seq<Action>, more: seq<Action>, at: Location, line: int)
    requires NeverToggles(more, at, line)
    ensures var s := Run(actions + [EditAction(at, Remove(line))] + more);
      && line !in s.ctl.store.Placed(at)
      && forall k: nat :: s.ctl.live.Some? && s.ctl.live.value.rootId == at.rootId && LastFor(s.ctl.calls, k, s.ctl.live.value.sessionId, at) ==>
           forall d :: d in s.ctl.calls[k].entries ==> d.line != line
  {
    var removed := actions + [EditAction(at, Remove(line))];
    assert removed[..|actions|] == actions;
    StaysUnmarked(removed, more, at, line);
    var all := removed + more;
    MarksAreTheEdits(all, at, line);
    var s := Run(all);
    forall k: nat, d | s.ctl.live.Some? && s.ctl.live.value.rootId == at.rootId
        && LastFor(s.ctl.calls, k, s.ctl.live.value.sessionId, at) && d in s.ctl.calls[k].entries
      ensures d.line != line
    {
      LastRequestListsTheMarks(all, at, k, d);
    }
  }

  /** An edit sends one request, with the list as it is afterwards, exactly if a session of that root is
      live and the line has, or by a toggle gets or loses, a breakpoint. */
  lemma EditAsksExactly(s: System, at: Location, e: Edit)
    ensures var after := Step(s, EditAction(at, e)).ctl;
      after.calls == s.ctl.calls +
        if s.ctl.live.Some? && s.ctl.live.value.rootId == at.rootId
           && (e.Toggle? || (if e.Remove? then e.line else e.descriptor.line) in s.ctl.store.Placed(at))
        then [SetBreakpoints(s.ctl.live.value.sessionId, at, Listed(after.store.Placed(at)))] else []
  {
  }
}
