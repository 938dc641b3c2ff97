# Verified models of the Plain desktop editor's state machines and text transformations

These Dafny modules model eleven parts of the editor, from its debug client to the layout storage and
the relative-path type of its native side, and prove what each is relied on for. Verify everything with

    dafny verify dfyconfig.toml

## What is modelled, and how

**Debug session and breakpoints** (`Breakpoints`, `DebugSession`, `DebugReplay`, `DebugRuns`,
`DebugConvergence`, `BreakpointHistory`). The breakpoint store and the session controller are classes. Each
method of the controller is one stretch of code between two suspensions, and its contract gives the whole new state
as a step function. A run is any sequence of user edits, starts, adapter events, answers and
disconnects; an action that cannot happen at some point does nothing. Verdicts are matched to
breakpoints by position alone, so the central result is convergence: the last request for a file
always lists that file's breakpoints as they are now, and the file shows the latest answer of the right
length. With answers in order that is the answer to the last request; in general it is so exactly if
the latest answer said the same. The start-up window keeps the last 256 events of *all* sessions: foreign events are
never replayed, but enough of them push out the new session's own.

**Variables tree and watch expansion** (`VariablesTree`, `WatchExpansion`, `WatchPaging`,
`WatchRestore`, `WatchRoundTrip`). The paged cache is a class. Pruning is proved on every graph of expanded
references, shared and cyclic ones included. Collecting ends exactly if no expanded node reached from the
start leads back to itself, and the paging loop exactly if no page it is given is empty. A page on its way
belongs to the node object it was asked for, not to the reference. Restoring runs
its children concurrently, so it is a set of tasks over one tree, and the results hold for every
schedule, every page size and, where stated, every failure.

**Explicit hunk staging** (`HunkPatches`, `HunkWorkflow`). A diff is any list of ordered, disjoint
changes with equal text between them. The loop that applies the chosen changes is a method; its result
is then studied as an algebra of partial patches, and as the middle of the workflow that reads,
decodes, chooses, reads again and stages.

**Layout storage** (`LayoutKeys`, `LayoutStorage`, `LayoutSwitch`, `LayoutHistory`). Edits, timers, overlapping flushes, the chained
write queue and failing writes interleave freely. After a failed write nothing more is attempted until
the next edit or flush. A switch of workspace marks everything as flushed without writing. It is
modelled step by step: the native side moves, the switch is called, it reads, seeds, projects and marks, and
timers, flushes and writes come in between in any order. The model gives the exact condition, readable before the
switch, under which the mark is true and stays true until the next edit, and runs in which it is not.

**Working-copy backups** (`BackupCodec`, `ScratchIds`, `BackupService`, `BackupLaws`,
`BackupEnumeration`, `BackupRuns`, `BackupVersions`). The service is a class over two stores. The step functions give net effects; the
methods set the index first and roll it back, as the program does, and are proved to have exactly
those effects. A migration to a new key can fail both when the old entry is discarded and when the new
one is taken back; a later discard then lets the failed backup's bytes be found again. Once both
stores have been read completely, and while calls run one at a time over open roots, only that and a
rejected call that took effect after all can part the service from the map it stands for; for such a
call the exact condition is given under which it does.

**JSONC preprocessing** (`JsoncStrip`, `JsoncMeaning`). The two scanners are methods with the loops of
the program, proved against character-by-character specifications; the meaning-preservation theorem is
over JSON values, their tokens (RFC 8259, sections 2 and 7) and layouts of those tokens with blanks,
comments and trailing commas.

**Native close handshake** (`Lifecycle`, `LifecycleSafety`, `LifecycleTiming`,
`LifecycleReasons`). A timed state machine with a log of everything that happened; the results are about the
log of every run of overlapping requests: when `allow` may be sent, when a veto may, and how soon either comes.

**Relative paths** (`RelativePaths`) on the bytes of the wire form, and **reverse-order edits**
(`ReverseEdits`).

Where a method's contract gives the new state as a step function, what that function does is told apart from it
as well: by what the edits, events and calls so far say of one line, entry, resource or request
(`BreakpointHistory`, `LayoutHistory`, `BackupVersions`, `LifecycleReasons`), or by a condition with its figures written out.

`Options`, `ByteStrings`, `Sequences` and `LineSets` hold shared definitions.

## Model

| member | source | states |
|---|---|---|
| `DebugConvergence.VerdictsConverge` | app/features/debug/plain-debug-session.ts:251-329 | In every run with answers in request order: each file of the live root that has a breakpoint has been asked about, the last request for a file lists its breakpoints as they now are, and once that request is answered at its length each breakpoint shows the answer at its own position |
| `DebugConvergence.LatestAnswerIsShown` | app/features/debug/plain-debug-session.ts:251-329 | In every run, whatever the order of answers: each file of the live root with a breakpoint has been asked about, the last request lists its breakpoints as they are, and the file shows the latest answer of the right length since its last edit |
| `DebugConvergence.LastRequestShownExactly` | app/features/debug/plain-debug-session.ts:279-294 | In every run, what a file shows is the answer to its last request exactly if the latest answer of the right length gave the same results |
| `DebugConvergence.LateAnswerHarmlessExactly` | app/features/debug/plain-debug-session.ts:279-294 | An answer to another request leaves the shown answer exactly if it failed, is of another length than the list, or says the same |
| `DebugConvergence.AnyAnswerOfTheRightLengthIsShown` | app/features/debug/plain-debug-breakpoints.ts:286-302 | An answer of the right length is shown on the breakpoints of the moment, whatever its request listed: position and length are the only guard |
| `DebugConvergence.OlderAnswerCanStay` | app/features/debug/plain-debug-session.ts:279-294 | So order is needed: a concrete run with the two answers reversed ends with the older verdict shown |
| `BreakpointHistory.LastRequestListsTheMarks` | app/features/debug/plain-debug-session.ts:251-272 | In every run the last request for a file of the live root lists a breakpoint exactly if the edits of its line, in their order, have left it there with these details |
| `BreakpointHistory.MarksAreTheEdits` | app/features/debug/plain-debug-breakpoints.ts:143-256 | In every run the mark of each line is the one its own edits say; starts, events, answers and edits of other lines and files do not matter |
| `BreakpointHistory.RemovedIsNotRequested` | app/features/debug/plain-debug-breakpoints.ts:164-171 | A breakpoint that was removed, and not toggled since, is not there, and the last request for its file does not list its line |
| `BreakpointHistory.EditAsksExactly` | app/features/debug/plain-debug-session.ts:318-328 | An edit sends one request, with the list as it is afterwards, exactly if a session of the root is live and the edit is a toggle or its line has a breakpoint; else none |
| `DebugConvergence.ChangedSettles` | app/features/debug/plain-debug-session.ts:318-328 | An edit of any file keeps every file of the live root settled: the edited file is asked about again, the others keep what they show |
| `DebugConvergence.LaunchedSettles` | app/features/debug/plain-debug-session.ts:297-303 | A start that survives its replay has asked once about every file with a breakpoint, each with its current list |
| `DebugConvergence.AnsweredSettles` | app/features/debug/plain-debug-session.ts:279-294 | Any answer, in any order, keeps every file settled: one of the right length becomes what its file shows, any other changes nothing |
| `DebugRuns.VerdictsBelongToTheLiveSession` | app/features/debug/plain-debug-session.ts:241-295 | In every run a verdict exists only while a session is live, in a file of its root, on a line that has a breakpoint, and was given by an answer to a request of that session about that file |
| `DebugRuns.DisconnectIsTheLastCall` | app/features/debug/plain-debug-session.ts:377-385 | In every run a session that was asked to disconnect is sent nothing afterwards, not even a second disconnect |
| `DebugRuns.StepKeepsSessions` | app/features/debug/plain-debug-session.ts:178-385 | Every step keeps: a live session has a known id, is not being started, was asked only about files of its root and not asked to disconnect; a window exists exactly while a start is under way |
| `DebugRuns.StepKeepsVerdicts` | app/features/debug/plain-debug-session.ts:178-385 | Every step keeps the verdict invariant: only placed lines, only while live, only given ones |
| `DebugReplay.StartReplaysWindow` | app/features/debug/plain-debug-session.ts:331-375 | A start from no live session ends as if the latest 256 events of the window had reached the new session live, then pushes only if none of them ended it |
| `DebugReplay.WindowKeepsLatest` | app/features/debug/plain-debug-session.ts:178-191 | While no session is live, any number of events leaves exactly the latest 256 in the window and changes nothing else |
| `DebugReplay.WindowInEveryRun` | app/features/debug/plain-debug-session.ts:178-191 | In every run, edits and answers in between included, the window of a start under way is the latest 256 of the events since it was called |
| `DebugReplay.StartInEveryRun` | app/features/debug/plain-debug-session.ts:331-375 | In every run a start that returns has the outcome of those events for its session, then pushes |
| `DebugReplay.OnlyOwnEventsMatter` | app/features/debug/plain-debug-session.ts:192-245 | A live session's fate depends only on its own events up to the first that ends it: what listeners hear, the two thread fields, the cleared verdicts and the disconnect request |
| `DebugReplay.ForeignEventsPushOutOwn` | app/features/debug/plain-debug-session.ts:184-189 | 256 events of another session push the new session's own event out of the window, so its stop is lost |
| `DebugReplay.StoppedThreadExactly` | app/features/debug/plain-debug-session.ts:192-245 | After any events of a session a thread is taken for stopped exactly if the latest stop or continuation is a stop that names it, or there was none and it was stopped before |
| `DebugReplay.KnownThreadExactly` | app/features/debug/plain-debug-session.ts:192-245 | The last known thread is the one last seen to stop or start, unless it has exited since |
| `DebugReplay.SessionEndsExactly` | app/features/debug/plain-debug-session.ts:178-245 | A live session ends exactly when the user disconnects it or its own adapter says it is over; a disconnect request follows unless the session was said to have ended; verdicts go and marks stay |
| `DebugSession.DebugSessionController.HandleEvent` | app/features/debug/plain-debug-session.ts:178-245 | New state is the step `Handled` of the old one, windowed, ignored or applied |
| `DebugSession.DebugSessionController.DisconnectSession` | app/features/debug/plain-debug-session.ts:377-385 | State and verdicts are cleared before the request is sent; nothing without a live session |
| `DebugSession.DebugSessionController.PushBreakpointsForPath` | app/features/debug/plain-debug-session.ts:251-272 | One request with the sorted current list, only for the live root |
| `DebugSession.DebugSessionController.PushAnswered` | app/features/debug/plain-debug-session.ts:273-295 | A failed or stale answer changes nothing; a current one reaches the store |
| `DebugSession.DebugSessionController.PushEveryPath` | app/features/debug/plain-debug-session.ts:297-303 | Exactly one request for each file of the root that has a breakpoint |
| `DebugSession.DebugSessionController.OnDidChange` | app/features/debug/plain-debug-session.ts:318-328 | Breakpoint notices are pushed, verification notices are not |
| `DebugSession.DebugSessionController.EditBreakpoint` | app/features/debug/plain-debug-session.ts:318-328 | An edit together with its listener is the step `Changed` |
| `DebugSession.DebugSessionController.StartCalled` | app/features/debug/plain-debug-session.ts:338-340 | Opens an empty window |
| `DebugSession.DebugSessionController.StartFailed` | app/features/debug/plain-debug-session.ts:356-359 | Closes the window |
| `DebugSession.DebugSessionController.StartReturned` | app/features/debug/plain-debug-session.ts:360-375 | The loop over the window followed by the pushes is the step `Launched` |
| `DebugSession.PushedOneMore` | app/features/debug/plain-debug-session.ts:297-303 | Pushing the files one by one sends the same requests as the list at once |
| `DebugSession.ReplayKeepsMarks` | app/features/debug/plain-debug-session.ts:370-372 | No sequence of events moves a breakpoint |
| `Breakpoints.VerifiedShowsResults` | app/features/debug/plain-debug-breakpoints.ts:286-302 | After a report of the right length the view of the file is the report, position by position |
| `Breakpoints.VerifiedRecords` | app/features/debug/plain-debug-breakpoints.ts:295-300 | Each descriptor's line holds the result at the descriptor's position |
| `Breakpoints.VerifiedStaysOnPlacedLines` | app/features/debug/plain-debug-breakpoints.ts:286-302 | A report puts verdicts on placed lines only |
| `Breakpoints.VerifiedLeavesOthers` | app/features/debug/plain-debug-breakpoints.ts:286-302 | A report moves no breakpoint and touches no other file |
| `Breakpoints.EditsKeepConsistency` | app/features/debug/plain-debug-breakpoints.ts:143-256 | Every edit keeps descriptors filed under their own line and verdicts on placed lines, in every file |
| `Breakpoints.EditGivesNoVerdict` | app/features/debug/plain-debug-breakpoints.ts:143-256 | No edit adds or changes a verdict anywhere |
| `Breakpoints.EditLeavesOthers` | app/features/debug/plain-debug-breakpoints.ts:143-256 | An edit of one file leaves all others |
| `Breakpoints.EditedLine` | app/features/debug/plain-debug-breakpoints.ts:143-256 | What an edit does to one line: a toggle turns the mark on plain or off, a removal takes it off, new details replace all three; the verdict goes exactly with a toggle or removal of its line |
| `Breakpoints.UnannouncedChangesNothing` | app/features/debug/plain-debug-breakpoints.ts:164-171 | An edit that notifies nobody has changed nothing |
| `Breakpoints.ListedInOrder` | app/features/debug/plain-debug-breakpoints.ts:258-267 | The list sent for a file has every placed line exactly once, by increasing line |
| `Breakpoints.ToggleTwice` | app/features/debug/plain-debug-breakpoints.ts:143-162 | Toggling twice restores the marked lines and forgets the line's verdict |
| `Breakpoints.DebugBreakpointStore.Toggle` | app/features/debug/plain-debug-breakpoints.ts:143-162 | Adds a plain breakpoint or removes it, clears the line's verdict, always notifies |
| `Breakpoints.DebugBreakpointStore.Remove` | app/features/debug/plain-debug-breakpoints.ts:164-171 | Removes and notifies, or does neither |
| `Breakpoints.DebugBreakpointStore.SetDetails` | app/features/debug/plain-debug-breakpoints.ts:241-256 | The three details in one update with one notice; a line without a breakpoint is left |
| `Breakpoints.DebugBreakpointStore.SetVerification` | app/features/debug/plain-debug-breakpoints.ts:286-302 | Records results by position when the lengths agree, else nothing |
| `Breakpoints.DebugBreakpointStore.ClearAllVerification` | app/features/debug/plain-debug-breakpoints.ts:314-322 | No verdict is left, every breakpoint is; one notice for each file that had been reported on |
| `Breakpoints.DebugBreakpointStore.PathsWithBreakpoints` | app/features/debug/plain-debug-breakpoints.ts:269-275 | Exactly the files of the root with a breakpoint, each once |
| `Breakpoints.RecordAll` | app/features/debug/plain-debug-breakpoints.ts:297-299 | The loop over the descriptors records each result under its descriptor's line |
| `WatchRoundTrip.ExpansionRoundTrip` | app/features/debug/plain-debug-watch-expansion.ts:47-179 | Collect on the old tree, restore on the new one, true counts declared: in every schedule without a failed fetch, the paths expanded afterwards are exactly the recorded ones whose names still lead to something with children |
| `WatchRoundTrip.LoadedRoundTrip` | app/features/debug/plain-debug-watch-expansion.ts:47-179 | Whatever counts are declared or missing: exactly those of them whose names are loaded on the way |
| `WatchRoundTrip.RestoreSettlesEveryTarget` | app/features/debug/plain-debug-watch-expansion.ts:150-179 | In every such schedule each recorded path that still leads somewhere is loaded as far as the program goes, with a true prefix of its children, or is cut off at a name not loaded above it |
| `WatchRoundTrip.RestoreTouchesOnlyTargets` | app/features/debug/plain-debug-watch-expansion.ts:150-179 | In every schedule, failures included, a reference no recorded path leads to is as it was before |
| `WatchRoundTrip.EveryStepIsLessExactly` | app/features/debug/plain-debug-watch-expansion.ts:119-179 | Every step a task waits for lowers (recorded paths not started, pages still to load), exactly unless it is an empty further page |
| `WatchRoundTrip.EmptyPageRepeats` | app/features/debug/plain-debug-watch-expansion.ts:125-143 | An empty further page brings the whole state back to where the page was asked for: that goes on for ever |
| `WatchRoundTrip.NextGoes` | app/features/debug/plain-debug-watch-expansion.ts:119-179 | Every step of every task keeps the invariant: tasks sit on distinct targets, nodes hold true prefixes, and every target is loaded as far as the program goes, cut off above, or has a task on the way to it |
| `WatchRoundTrip.TargetIsRecordedAndLeads` | app/features/debug/plain-debug-watch-expansion.ts:150-159 | For collected paths, what is to be expanded is what was recorded and still leads somewhere |
| `WatchRoundTrip.RecordedAgainIsTarget` | app/features/debug/plain-debug-watch-expansion.ts:150-179 | Nothing else is found expanded in the restored subtree |
| `WatchRestore.TargetsDiffer` | app/features/debug/plain-debug-watch-expansion.ts:31-41 | With distinct references no two name paths lead to one reference |
| `WatchPaging.EnsureDeeperNamesLoaded` | app/features/debug/plain-debug-watch-expansion.ts:119-144 | Under the exact condition for ending, the loop ends in the state of its last round: nothing more needed, or a rejection |
| `WatchPaging.LoopEndsExactly` | app/features/debug/plain-debug-watch-expansion.ts:125-143 | Whatever is answered and declared, the paging loop ends exactly if no page it is given while it asks is empty |
| `WatchPaging.TrueLoopEndsExactly` | app/features/debug/plain-debug-watch-expansion.ts:119-144 | With an adapter that never rejects and is true to its children, the loop ends exactly unless, as can be told before it starts, a recorded name is among none of the children and more of them are declared than there are |
| `WatchPaging.AsksExactly` | app/features/debug/plain-debug-watch-expansion.ts:125-143 | The loop asks for another page exactly if a recorded path goes on with a name that is not loaded and more children are declared than are loaded |
| `WatchPaging.RoundsLoadPrefixes` | app/features/debug/plain-debug-watch-expansion.ts:119-144 | While pages are true, every round keeps the node a prefix of its children and leaves all other nodes |
| `WatchExpansion.PrunesExactlyTheReachable` | app/features/debug/plain-debug-watch-expansion.ts:76-91 | On every graph, cyclic or shared: a node is dropped exactly if it can be reached through expanded nodes, and all others keep their pages |
| `WatchExpansion.PruneExpandedSubtree` | app/features/debug/plain-debug-watch-expansion.ts:76-91 | The recursive loop ends on every graph and leaves the pruned tree |
| `WatchExpansion.CollectExpandedPaths` | app/features/debug/plain-debug-watch-expansion.ts:47-69 | If no expanded node reached from the start leads back to itself, the walk ends and adds exactly the name paths that lead through expanded nodes to an expanded node |
| `WatchExpansion.RecordedFinitelyExactly` | app/features/debug/plain-debug-watch-expansion.ts:47-69 | The recorded paths from a reference are finitely many, so that the walk can end, exactly if no expanded node reached from it leads back to itself |
| `VariablesTree.NodesHoldPrefixes` | app/features/debug/plain-debug-variables-tree.ts:92-135 | In every sequence of operations run one after the other, each expanded node holds a gap-free, repeat-free prefix of its children |
| `VariablesTree.ApplyKeepsPaged` | app/features/debug/plain-debug-variables-tree.ts:82-135 | Each single operation keeps that |
| `VariablesTree.OperationAtOneNode` | app/features/debug/plain-debug-variables-tree.ts:82-135 | Each operation leaves every other node; at its own it collapses, replaces or appends exactly as asked, and a rejection changes nothing |
| `VariablesTree.LoadKeepsPagedExactly` | app/features/debug/plain-debug-variables-tree.ts:119-135 | A page that arrives keeps every node a prefix exactly if it is empty, or the node object it was asked for has been collapsed or replaced meanwhile, or that object still ends where it did when the page was asked for |
| `VariablesTree.OverlappingLoadsExactly` | app/features/debug/plain-debug-variables-tree.ts:119-135 | Two loads from one offset keep it exactly if one of them brings nothing |
| `VariablesTree.ReplacedNodeMissesPage` | app/features/debug/plain-debug-variables-tree.ts:119-135 | A node collapsed and expanded again while a page was on its way never gets that page |
| `VariablesTree.DebugVariablesTree.Expand` | app/features/debug/plain-debug-variables-tree.ts:92-103 | The first page replaces whatever was recorded; a rejection changes nothing |
| `VariablesTree.DebugVariablesTree.Toggle` | app/features/debug/plain-debug-variables-tree.ts:108-114 | Collapses or expands, and says whether the map changed |
| `VariablesTree.DebugVariablesTree.Collapse` | app/features/debug/plain-debug-variables-tree.ts:82-84 | Drops the node |
| `VariablesTree.DebugVariablesTree.LoadMore` | app/features/debug/plain-debug-variables-tree.ts:119-135 | With nothing in between, appends the next page to an expanded node; otherwise nothing |
| `VariablesTree.DebugVariablesTree.AskMore` | app/features/debug/plain-debug-variables-tree.ts:120-127 | Remembers the node object and where it ends; nothing for a reference that is not expanded |
| `VariablesTree.DebugVariablesTree.MoreArrived` | app/features/debug/plain-debug-variables-tree.ts:127-135 | Appends the page to the object it was asked for, visible only if that is still the recorded one; a rejection changes nothing |
| `VariablesTree.DebugVariablesTree.Clear` | app/features/debug/plain-debug-variables-tree.ts:67-69 | Nothing is expanded |
| `VariablesTree.IndexedCountFirst` | app/features/debug/plain-debug-variables-tree.ts:22-29 | The declared count of children is that of the indexed ones if there is one, else that of the named ones |
| `HunkPatches.StagesCompose` | app/features/scm/hunk-stage.ts:183-235 | After staging one selection, the other changes shifted by the accumulated growth are a valid diff from the staged text to the modified text, and staging any second selection from them equals staging both at once |
| `HunkPatches.ApplySelected` | app/features/scm/hunk-stage.ts:212-235 | The cursor loop writes the partial patch of the selection; for one selected hunk, the original text with that hunk's lines replaced by the modified ones and nothing else |
| `HunkPatches.OneChangeIsMade` | app/features/scm/hunk-stage.ts:216-234 | If one change is made, and whatever the others are, the text is the original but for exactly the lines of that change |
| `HunkPatches.AllGivesModified` | app/features/scm/hunk-stage.ts:216-233 | Choosing every change gives the modified text |
| `HunkPatches.NothingGivesOriginal` | app/features/scm/hunk-stage.ts:216-233 | Choosing none gives the original text |
| `HunkPatches.StagedTextSplitsBack` | app/features/scm/hunk-stage.ts:212-234 | Joining and splitting the staged text gives the staged lines again, exactly unless no common line is left, every change made only deletes and every other only inserts |
| `HunkPatches.PatchedIsEmptyExactly` | app/features/scm/hunk-stage.ts:216-233 | Exactly then the loop writes no line at all |
| `HunkPatches.SeparatedStagesSomething` | app/features/scm/hunk-stage.ts:212-234 | Changes with a common line between them never stage an empty list of lines |
| `HunkPatches.TouchingChangesCanStageNothing` | app/features/scm/hunk-stage.ts:212-234 | Without that the staged list can be empty: a concrete diff |
| `HunkPatches.TextReadsBack` | app/features/scm/hunk-stage.ts:69-71 | Splitting a text into lines and joining them gives the text |
| `HunkWorkflow.StageExplicitHunks` | app/features/scm/hunk-stage.ts:298-383 | Stages at most once, and exactly when both texts decode, the diff finished with changes, the selection is good and the snapshot read again is byte-equal; what is staged is the encoded partial patch |
| `HunkWorkflow.StageIfUnchanged` | app/features/scm/hunk-stage.ts:373-382 | Stages once if the snapshot read again is the first one, else not at all |
| `HunkWorkflow.AllOffered` | app/features/scm/hunk-stage.ts:353-360 | True exactly if every choice is the number of an offered hunk |
| `HunkWorkflow.EveryHunkStagesTheWorktree` | app/features/scm/hunk-stage.ts:298-383 | Choosing every hunk of a readable snapshot stages exactly the worktree bytes, through decode, split, patch, join and encode |
| `HunkWorkflow.ComputeContent` | app/features/scm/hunk-stage.ts:183-235 | Answers exactly for a finished diff and a non-empty, duplicate-free, in-range selection of at most 256 |
| `HunkWorkflow.SelectedAreMade` | app/features/scm/hunk-stage.ts:200-235 | The content is the original with exactly those changes made whose numbers were selected |
| `HunkWorkflow.GoodSelectionExactly` | app/features/scm/hunk-stage.ts:188-209 | A selection is good exactly if it has one to 256 entries, all different, each a whole number below 256 and below the number of changes |
| `HunkWorkflow.CreatePlan` | app/features/scm/hunk-stage.ts:121-176 | At most 256 hunks, numbered in order, with the true total; none after a timeout |
| `HunkWorkflow.DecodeHunkStageText` | app/features/scm/hunk-stage.ts:242-268 | Accepts exactly text without byte-order mark or NUL whose encoding is the same bytes |
| `HunkWorkflow.TextExactly` | app/features/scm/hunk-stage.ts:242-268 | Bytes are accepted as a text exactly if no byte-order mark stands in front, none of them is zero, and they decode to the text, which encodes back to them |
| `HunkWorkflow.BytesEqual` | app/features/scm/hunk-stage.ts:270-280 | Equal bytes and nothing else |
| `HunkWorkflow.SameSnapshot` | app/features/scm/hunk-stage.ts:282-292 | Equal index (absent counts) and worktree bytes and nothing else |
| `LayoutStorage.FlushedAgreesWithDisk` | app/services/plain-layout-storage-service.ts:315-386 | In every interleaving the flushed generation never passes the mutation generation, and when equal the disk holds the allowed entries filtered by workspace availability |
| `LayoutStorage.WritesRunInFlushOrder` | app/services/plain-layout-storage-service.ts:378-382 | In every interleaving a write starts only after every earlier one has ended |
| `LayoutStorage.QuietMeansFlushedOrFailed` | app/services/plain-layout-storage-service.ts:354-386 | When nothing is pending, either everything is flushed and on disk or the write of the last edit failed |
| `LayoutStorage.WritesExposeOnlyAllowedKeys` | app/services/plain-layout-storage-service.ts:270-281 | Every write carries allowed keys only, and workspace entries only if there is a workspace |
| `LayoutHistory.DiskIsTheEdits` | app/services/plain-layout-storage-service.ts:315-386 | In every interleaving, once all is flushed, each entry on disk is what the edits of its key say, the last one deciding; workspace entries only if there is a workspace |
| `LayoutHistory.EntriesAreTheEdits` | app/services/plain-layout-storage-service.ts:315-352 | In every interleaving the entries in memory are those the edits say |
| `LayoutHistory.RemovedIsGone` | app/services/plain-layout-storage-service.ts:340-352 | A removed entry that is not stored again is not on disk once all is flushed, whatever timers, flushes and writes do in between |
| `LayoutHistory.StoredIsOnDisk` | app/services/plain-layout-storage-service.ts:315-338 | An entry stored under an allowed key and not edited again is on disk with its value once all is flushed |
| `LayoutKeys.ViewKeysByScope` | app/services/plain-layout-storage-service.ts:270-281 | For every known view the hidden flag is a key of the profile, its state and count keys of the workspace |
| `LayoutSwitch.SwitchStaysTrueExactly` | app/services/plain-layout-storage-service.ts:392-410 | Whatever timers, flushes and writes come between the steps of a switch and after it: the claim of being flushed is true afterwards, and stays true until the next edit, exactly if before the switch the profile entries in memory were those on disk, every write queued or running is harmless to the new view, and so is the write that a flush would queue, unless all is flushed |
| `LayoutSwitch.MarkedStaysTrueExactly` | app/services/plain-layout-storage-service.ts:408-409 | In whatever state the switch ends, edits during it included, its claim is true and stays true until the next edit exactly if the disk then holds what is visible and every write still queued or running is harmless to it |
| `LayoutSwitch.IdleSwitchIsSafe` | app/services/plain-layout-storage-service.ts:392-410 | So it is after every run that ends flushed with no write queued or running |
| `LayoutSwitch.SecondWriteSpoilsSwitch` | app/services/plain-layout-storage-service.ts:378-410 | A concrete run: flushed and in agreement, but the second write of two overlapping flushes still queued; after the switch it lands and takes the new workspace entries from the disk |
| `LayoutSwitch.WaitingFlushSpoilsSwitch` | app/services/plain-layout-storage-service.ts:358-410 | A concrete run without any write before the switch: a flush already called goes on during the read and queues the old workspace entries; they land in the new workspace while the state claims to be flushed |
| `LayoutSwitch.SwitchLosesWaitingEdit` | app/services/plain-layout-storage-service.ts:392-410 | A switch with a profile edit still waiting loses it: marked flushed, not on disk, nothing pending |
| `LayoutSwitch.EditWhileProjectedIsLost` | app/services/plain-layout-storage-service.ts:402-409 | An edit made while the layout is projected is marked flushed with the rest: the timer it set finds nothing to do |
| `LayoutStorage.NextKeepsDurable` | app/services/plain-layout-storage-service.ts:315-386 | Every step keeps: once the write of the last edit has succeeded, the disk shows what is visible now |
| `LayoutStorage.NextRemembers` | app/services/plain-layout-storage-service.ts:474-485 | Every step keeps: an unflushed edit has a timer, a flush or a write behind it, or its write failed |
| `LayoutStorage.PlainLayoutStorageService.StoreEntry` | app/services/plain-layout-storage-service.ts:315-338 | An allowed key with a stored value is recorded and dirties; anything else does not |
| `LayoutStorage.PlainLayoutStorageService.RemoveEntry` | app/services/plain-layout-storage-service.ts:340-352 | An allowed key is removed and dirties |
| `LayoutStorage.PlainLayoutStorageService.MarkDirty` | app/services/plain-layout-storage-service.ts:474-477 | One more mutation, and the timer is set |
| `LayoutStorage.PlainLayoutStorageService.OnTimer` | app/services/plain-layout-storage-service.ts:481-484 | The timer is spent and a flush is called |
| `LayoutStorage.PlainLayoutStorageService.ProceedFlush` | app/services/plain-layout-storage-service.ts:358-381 | Clears the timer; queues one write of the visible entries behind the tail if there is something to flush |
| `LayoutStorage.PlainLayoutStorageService.ResumeFlush` | app/services/plain-layout-storage-service.ts:382-386 | Raises the flushed generation, and sets the timer if edits came meanwhile |
| `LayoutStorage.PlainLayoutStorageService.BeginSwitch` | app/services/plain-layout-storage-service.ts:392-397 | The timer is cleared; workspace availability, entries and generations are as before |
| `LayoutStorage.PlainLayoutStorageService.SeedWorkspace` | app/services/plain-layout-storage-service.ts:399-401 | Availability is the one read; the workspace part is replaced by the allowed workspace entries read, and the profile part kept |
| `LayoutStorage.PlainLayoutStorageService.MarkSwitched` | app/services/plain-layout-storage-service.ts:408-409 | One more mutation, and all of them count as flushed |
| `LayoutStorage.PlainLayoutStorageService.constructor` | app/services/plain-layout-storage-service.ts:304-313 | Takes over the allowed keys of the snapshot, and is in agreement with it if it holds no others |
| `BackupRuns.ServiceIsAMap` | app/services/plain-workspace-backup-service.ts:288-543 | In every run of backups, discards, discarding everything and reading both stores again, cancelled and failed calls included, `resolve` answers as a map that completed calls update and nothing else does, and `hasBackupSync` says yes exactly for its resources, as long as no rejected call has taken effect after all and a migration that fails is undone |
| `BackupVersions.LastBackedUpVersion` | app/services/plain-workspace-backup-service.ts:277-286 | In every such run a resource is said to be backed up in a version exactly if it is still in the map and its last completed backup was of that version, whatever else was backed up, discarded or read again |
| `BackupVersions.ReadingKeepsVersions` | app/services/plain-workspace-backup-service.ts:288-332 | Whichever of the two reads succeed, a resource that stays indexed keeps its version |
| `BackupRuns.StepMirrors` | app/services/plain-workspace-backup-service.ts:256-267 | Under the same condition every operation keeps the index equal to the set of resources that resolve to something |
| `BackupRuns.FreshServiceIsEmptyMap` | app/services/plain-workspace-backup-service.ts:271-275 | A new service over empty stores stands for the empty map |
| `BackupRuns.ReadingKeepsMap` | app/services/plain-workspace-backup-service.ts:288-332 | Whichever of the two reads succeed, every resource resolves as before |
| `BackupRuns.AllDiscardedRepresents` | app/services/plain-workspace-backup-service.ts:515-543 | Discarding everything clears exactly the domains whose call took effect, whatever is reported |
| `BackupRuns.OnlyExceptionsAreLeft` | app/services/plain-workspace-backup-service.ts:545-553 | Discarding all but some, one by one: if every call succeeds, exactly what the exceptions resolved to is left |
| `BackupLaws.BackupIsResolved` | app/services/plain-workspace-backup-service.ts:387-457 | After a completed backup `resolve` gives its bytes |
| `BackupLaws.BackupLeavesOthers` | app/services/plain-workspace-backup-service.ts:387-457 | However a backup ends, every other resource resolves and is indexed as before |
| `BackupLaws.FailedBackupRollsBack` | app/services/plain-workspace-backup-service.ts:451-456 | A failed or cancelled backup, wherever it stops and whatever took effect, leaves index, keys, roots and discarded ids exactly as they were |
| `BackupLaws.FailedBackupResolvesExactly` | app/services/plain-workspace-backup-service.ts:418-456 | Its resource resolves as before exactly if no rejected call took an effect that can be seen: a lost write hid behind an older key or wrote what was there, a lost discard of the older entry removed nothing readable |
| `BackupLaws.DiscardLeavesOthers` | app/services/plain-workspace-backup-service.ts:459-510 | However a discard ends, every other resource resolves and is indexed as before |
| `BackupLaws.FailedDiscardRollsBack` | app/services/plain-workspace-backup-service.ts:504-509 | A failed discard leaves index, keys, roots and discarded ids as they were |
| `BackupLaws.FailedDiscardResolvesExactly` | app/services/plain-workspace-backup-service.ts:496-509 | Its resource resolves as before exactly unless the rejected call took effect on something |
| `BackupLaws.DiscardEmptiesExactly` | app/services/plain-workspace-backup-service.ts:492-503 | From any state: after a completed discard the resource resolves to nothing, exactly unless its scratch file is there although its id is taken for discarded, or a readable entry lies in the current slot of a workspace resource and the discard named another one |
| `BackupLaws.SoundDiscardEmptiesExactly` | app/services/plain-workspace-backup-service.ts:492-503 | With roots, keys and discarded ids as the service keeps them, exactly unless the key was an old one and a readable entry lies under the current one |
| `BackupLaws.SettledDiscardEmpties` | app/services/plain-workspace-backup-service.ts:492-503 | Where every readable entry is the indexed one, a completed discard always leaves nothing |
| `BackupLaws.LeftoverComesBack` | app/services/plain-workspace-backup-service.ts:433-448 | A migration that fails both ways leaves an entry that a later discard brings back |
| `BackupLaws.LostScratchWriteStays` | app/services/plain-workspace-backup-service.ts:470-473 | A scratch write that took effect although rejected, after a discard, is out of reach of later discards |
| `BackupLaws.BackupKeepsSound` | app/services/plain-workspace-backup-service.ts:387-457 | Backups keep the invariant tying keys, roots, index and stored entries together |
| `BackupLaws.DiscardKeepsSound` | app/services/plain-workspace-backup-service.ts:459-510 | So do discards |
| `BackupLaws.BackupKeepsSettled` | app/services/plain-workspace-backup-service.ts:431-450 | With a migration completed or undone, every readable entry stays the indexed one of its resource |
| `BackupLaws.DiscardKeepsSettled` | app/services/plain-workspace-backup-service.ts:492-503 | So with a discard |
| `BackupLaws.SlotsDiffer` | app/services/plain-workspace-backup-service.ts:360-371 | Different resources never share a storage slot, old keys included |
| `BackupLaws.BackupCompletesExactly` | app/services/plain-workspace-backup-service.ts:387-457 | When a backup completes and when it is cancelled: kind of resource, cancellation, readable content, the 8 MiB limit and the answers of the stores |
| `BackupLaws.DiscardCompletesExactly` | app/services/plain-workspace-backup-service.ts:459-510 | A discard completes exactly if the store agrees or need not be asked |
| `BackupLaws.ScratchIsDiscardedOnce` | app/services/plain-workspace-backup-service.ts:466-490 | A scratch file discarded by itself or with everything else is not discarded again: a later discard completes without asking the store |
| `BackupLaws.WorkspaceResourcesExactly` | app/services/plain-workspace-backup-service.ts:360-371 | The resources kept as files are a root and a path below it and nothing more; none of them is a scratch resource |
| `BackupEnumeration.EnumerationAgreesWithStores` | app/services/plain-workspace-backup-service.ts:288-332 | After reading both stores with every root open, in any order, the index holds exactly what resolves to something, and every readable entry is the indexed one |
| `BackupVersions.ListedIdentifiers` | app/services/plain-workspace-backup-service.ts:288-332 | After both readings each file is listed with the type its entry holds, each scratch file without one, and each at the version known before, if any |
| `BackupEnumeration.NothingLeftAfterDiscardingAll` | app/services/plain-workspace-backup-service.ts:515-543 | After discarding everything nothing is indexed and nothing resolves |
| `BackupService.PlainWorkingCopyBackupService.Backup` | app/services/plain-workspace-backup-service.ts:387-457 | The optimistic update with its roll-backs has the net effect `BackedUp` |
| `BackupService.PlainWorkingCopyBackupService.Write` | app/services/plain-workspace-backup-service.ts:418-450 | The store of the resource's domain is written; the index is left alone |
| `BackupService.PlainWorkingCopyBackupService.WriteFile` | app/services/plain-workspace-backup-service.ts:424-450 | Write, migrate, undo: the net effect on files, keys and roots |
| `BackupService.PlainWorkingCopyBackupService.WriteScratch` | app/services/plain-workspace-backup-service.ts:418-423 | Stores within the size limit and forgets an earlier discard |
| `BackupService.PlainWorkingCopyBackupService.DiscardBackup` | app/services/plain-workspace-backup-service.ts:459-510 | The removal with its roll-backs has the net effect `Discarded` |
| `BackupService.PlainWorkingCopyBackupService.DiscardAllBackups` | app/services/plain-workspace-backup-service.ts:517-543 | Each store's answer is acted on by itself |
| `BackupService.PlainWorkingCopyBackupService.DiscardBackupsExcept` | app/services/plain-workspace-backup-service.ts:545-553 | The loop over the targets stops at the first failure |
| `BackupService.PlainWorkingCopyBackupService.RemoveIndexedDomain` | app/services/plain-workspace-backup-service.ts:567-579 | Takes exactly one domain's resources out of the index |
| `BackupService.PlainWorkingCopyBackupService.GetBackups` | app/services/plain-workspace-backup-service.ts:288-332 | The index, keys and roots after both readings |
| `BackupService.PlainWorkingCopyBackupService.Resolve` | app/services/plain-workspace-backup-service.ts:334-385 | The content found in the store of the resource's domain |
| `BackupService.PlainWorkingCopyBackupService.HasBackupSync` | app/services/plain-workspace-backup-service.ts:277-286 | Indexed, and in the asked-for version if one is asked for |
| `BackupService.PlainWorkingCopyBackupService.RollbackIndex` | app/services/plain-workspace-backup-service.ts:556-565 | Puts back the previous entry or its absence |
| `BackupService.PlainWorkingCopyBackupService.RollbackStorage` | app/services/plain-workspace-backup-service.ts:672-692 | Puts back the previous key and root or their absence |
| `ScratchIds.ScratchResourcesRoundTrip` | app/services/plain-untitled-resource.ts:11-36 | A resource carries a scratch id exactly if it is the one made for that id |
| `ScratchIds.ScratchIdExactly` | app/services/plain-untitled-resource.ts:3-4 | Which texts are scratch ids, character by character: a version 4 UUID in lower case |
| `ScratchIds.UntitledNumber` | app/services/plain-untitled-resource.ts:11-36 | An untitled document is numbered from one, in decimal without leading zeros, by the first eight digits of its id |
| `BackupCodec.RoundTripExactly` | app/services/plain-workspace-backup-service.ts:145-238 | Decoding the encoding gives the backup again exactly if metadata is absent, or non-empty without reserved names, and the baseline is absent or 64 lower-case hex digits |
| `BackupCodec.DecodedEncoding` | app/services/plain-workspace-backup-service.ts:145-238 | For every backup, identifier and content come back, whatever bytes the content holds |
| `BackupCodec.DecodedExactly` | app/services/plain-workspace-backup-service.ts:189-238 | From any bytes at all: nothing is read exactly if there is no line feed or the first line does not name a resource; else identifier, metadata, baseline and content are as stated, whatever is missing or odd |
| `BackupCodec.PreambleEndsAtFirstNewline` | app/services/plain-workspace-backup-service.ts:189-198 | Line feeds in the content never move the end of the preamble |
| `BackupCodec.EncodeBackupPayload` | app/services/plain-workspace-backup-service.ts:145-170 | Fills one buffer with preamble and content, or refuses beyond 8 MiB |
| `JsoncMeaning.MeaningPreserved` | app/features/debug/plain-debug-adapter-config.ts:73-179 | For every JSON value and every layout of its tokens with blanks, comments, one of them possibly a line comment that ends the text, and one trailing comma before the closer of a non-empty array or object, both passes give a text that lexes to the value's tokens |
| `JsoncMeaning.LayoutMeaningPreserved` | app/features/debug/plain-debug-adapter-config.ts:73-179 | The same for any layout of a well-spaced token sequence |
| `JsoncMeaning.FirstPass` | app/features/debug/plain-debug-adapter-config.ts:73-123 | Comment stripping turns the layout's text into the layout without comments, line feeds kept |
| `JsoncMeaning.SecondPass` | app/features/debug/plain-debug-adapter-config.ts:132-175 | Comma stripping then removes exactly the trailing commas of the layout |
| `JsoncMeaning.LexClean` | app/features/debug/plain-debug-adapter-config.ts:177-179 | What is left lexes to the tokens (sections 2 and 7 of RFC 8259) |
| `JsoncStrip.StripJsonComments` | app/features/debug/plain-debug-adapter-config.ts:73-123 | The loops write exactly the characters that the character-by-character machine keeps |
| `JsoncStrip.CommentsIdempotent` | app/features/debug/plain-debug-adapter-config.ts:73-123 | Stripping comments twice is stripping them once, for every text |
| `JsoncStrip.StringsKept` | app/features/debug/plain-debug-adapter-config.ts:79-97 | Every character of a string literal, escapes included, is written |
| `JsoncStrip.LinesKept` | app/features/debug/plain-debug-adapter-config.ts:100-117 | The line breaks written before any point are as many as read: every character stays on its line |
| `JsoncStrip.KeptIsWritten` | app/features/debug/plain-debug-adapter-config.ts:73-123 | Every kept character is written, at the place of what was written before it |
| `JsoncStrip.SkipLine` | app/features/debug/plain-debug-adapter-config.ts:98-104 | A line comment writes nothing and stops before its line feed |
| `JsoncStrip.SkipBlock` | app/features/debug/plain-debug-adapter-config.ts:105-118 | A block comment writes its line feeds only and ends after its closer or with the text |
| `JsoncStrip.StripTrailingCommas` | app/features/debug/plain-debug-adapter-config.ts:132-175 | Deletes exactly the commas outside strings whose next character that is not white space is a closing bracket |
| `JsoncStrip.LookAhead` | app/features/debug/plain-debug-adapter-config.ts:158-166 | True exactly if only white space separates the position from a closing bracket |
| `JsoncStrip.SpaceExactly` | app/features/debug/plain-debug-adapter-config.ts:158-166 | White space is exactly the twenty-five code points of the regular expression class |
| `JsoncStrip.OneCommaPerBracket` | app/features/debug/plain-debug-adapter-config.ts:157-170 | At most one comma goes for each bracket |
| `JsoncStrip.StripJsonc` | app/features/debug/plain-debug-adapter-config.ts:177-179 | The two passes in sequence |
| `LifecycleSafety.AllowOnlyWhenCleared` | app/services/plain-lifecycle-service.ts:76-118 | In every run `allow` is sent only after every veto, then the final veto, resolved false, and then storage was flushed |
| `LifecycleReasons.VetoHasReason` | app/services/plain-lifecycle-service.ts:76-118 | In every run a veto is sent only to a request that found another under way, or after an objection, a failed flush or call, or once min(4000, t - 750) ms have passed; after a successful flush only if an allow could not be delivered |
| `LifecycleReasons.UnopposedIsAllowed` | app/services/plain-lifecycle-service.ts:76-118 | With any number of listeners, with or without a final veto: if all say to go on, the flush succeeds and the joiners settle, the request is sent an allow |
| `LifecycleReasons.AllowWaitsForJoiners` | app/services/plain-lifecycle-service.ts:167-215 | In every run an allow comes after the flush, and then after the regular and the last joiners have settled or at least 500 ms later |
| `LifecycleReasons.FailedAllowIsVetoed` | app/services/plain-lifecycle-service.ts:105-115 | In every run an allow that could not be delivered is followed at once by a veto |
| `LifecycleReasons.SlotIsFreed` | app/services/plain-lifecycle-service.ts:105-117 | However the calls end, after at most two of them the slot is free for the next request; a delivered decision frees it at once |
| `LifecycleReasons.AskedAfterSettling` | app/services/plain-lifecycle-service.ts:120-131 | The listeners are asked once, and not before 100 ms have passed |
| `LifecycleReasons.ReasonInEveryRun` | app/services/plain-lifecycle-service.ts:84-116 | In every run the shutdown reason is set exactly while a request is under way that has not been vetoed, and after an allow was delivered last |
| `LifecycleTiming.AnsweredBeforeTimeout` | app/services/plain-lifecycle-service.ts:87-105 | For t of at least 750 ms the first answer comes within min(4000, t - 750) + 501 ms, hence at least 249 ms before t |
| `LifecycleTiming.UnansweredWithinBudget` | app/services/plain-lifecycle-service.ts:87-105 | A request that has not been answered has not waited longer than that either |
| `LifecycleTiming.VetoAfterAllowOnlyIfAllowFailed` | app/services/plain-lifecycle-service.ts:105-114 | After `allow` only a veto is sent, and only if that call failed |
| `LifecycleTiming.OneActiveTheRestAnswered` | app/services/plain-lifecycle-service.ts:79-83 | At most one request is under way; every other one has been answered |
| `LifecycleTiming.BusyRequestIsVetoed` | app/services/plain-lifecycle-service.ts:79-82 | In every run a request that arrives while another is under way is vetoed at once, and nothing is ever sent about it again |
| `LifecycleTiming.NextIsRegular` | app/services/plain-lifecycle-service.ts:76-118 | Every step keeps the clock within the phase's budget and the answers in order |
| `LifecycleSafety.ContinuedIsProved` | app/services/plain-lifecycle-service.ts:87-118 | Every step keeps the evidence its phase rests on |
| `Lifecycle.PlainLifecycleService.OnNativeCloseRequest` | app/services/plain-lifecycle-service.ts:79-86 | Vetoes at once if another request is active, else takes the slot |
| `Lifecycle.PlainLifecycleService.OnVetoesSettled` | app/services/plain-lifecycle-service.ts:149-160 | Goes on exactly if every answer says so; then asks the final veto, if any |
| `Lifecycle.PlainLifecycleService.OnFinalVeto` | app/services/plain-lifecycle-service.ts:159-164 | An objection or a failure is a veto |
| `Lifecycle.PlainLifecycleService.OnFlushed` | app/services/plain-lifecycle-service.ts:89-93 | A flushed storage leads to joining, a failed flush to a veto |
| `Lifecycle.PlainLifecycleService.OnRegularJoined` | app/services/plain-lifecycle-service.ts:199-211 | The last joiners get what is left of 500 ms, but at least 1 |
| `Lifecycle.PlainLifecycleService.OnLastJoined` | app/services/plain-lifecycle-service.ts:204-210 | When the last joiners have settled, an allow is sent |
| `Lifecycle.PlainLifecycleService.OnTimer` | app/services/plain-lifecycle-service.ts:45-53 | A timeout while preparing vetoes; while joining it only ends the waiting |
| `Lifecycle.PlainLifecycleService.Complete` | app/services/plain-lifecycle-service.ts:96-115 | Sends a decision; a veto also clears the shutdown reason |
| `Lifecycle.PlainLifecycleService.OnCompleted` | app/services/plain-lifecycle-service.ts:105-117 | Frees the slot, or sends a veto if the call failed inside the guarded part |
| `Lifecycle.AnyVeto` | app/services/plain-lifecycle-service.ts:149-157 | A veto exactly if some answer is not "go on" |
| `RelativePaths.ParseWire` | src-tauri/src/path_policy.rs:19-54 | The loop accepts exactly the acceptable wire forms and gives their segments |
| `RelativePaths.AcceptableSegmentExactly` | src-tauri/src/path_policy.rs:110-133 | A segment is refused exactly if it is empty, ends in a dot or blank, has a control or reserved byte, or names a device before its first dot, in any case and with any extension |
| `RelativePaths.AcceptedExactly` | src-tauri/src/path_policy.rs:19-54 | A wire form that is not empty is accepted exactly with at most 4096 bytes and 256 segments, without NUL, backslash and colon, and with acceptable segments only |
| `RelativePaths.JoinChild` | src-tauri/src/path_policy.rs:68-75 | Parses the child, below a parent that is not the root after its text and a slash |
| `RelativePaths.JoinSucceedsExactly` | src-tauri/src/path_policy.rs:68-75 | Below a non-root path a join succeeds exactly if the child is non-empty, acceptable alone and the total fits the byte and segment limits; the segments then concatenate |
| `RelativePaths.JoinsAssociate` | src-tauri/src/path_policy.rs:68-75 | Joining two children one after the other is joining their joint path, under the stated condition |
| `RelativePaths.NativeDeterminesWire` | src-tauri/src/path_policy.rs:36-53 | Segments joined by slashes are the wire form, and equal segments mean equal paths |
| `RelativePaths.WalkDescends` | src-tauri/src/path_policy.rs:38-48 | Walking acceptable segments only goes down |
| `RelativePaths.NoPrefixEscapes` | src-tauri/src/path_policy.rs:38-48 | No prefix of an accepted path resolves outside its root |
| `ReverseEdits.ApplyEdits` | scripts/sync-agent-host-protocol.ts:56-60 | The descending loop splices every edit, last to first; for sorted, non-overlapping edits the result is one left-to-right pass over the original |
| `ReverseEdits.SplicesAreOnePass` | scripts/sync-agent-host-protocol.ts:56-60 | Splicing sorted, non-overlapping edits last to first, each into what the ones after it left, gives the text in which all spans are replaced at once |

## Left out

Assumptions about code that is not modelled are parameters with contracts: the text diff, the UTF-8 and
JSON libraries, URI printing and parsing, and SHA-256 as an injective function. Bridge calls, the
network, timers and the clock are answers, failures and scheduler events.

- Text is a sequence of Dafny characters: lone surrogates of UTF-16 and lengths in UTF-16 code units are not captured.
- Breakpoints.DebugBreakpointStore.SetDetails: stands for the three single-detail setters too, which keep the other two details; the nested maps by root and path are one map by both.
- DebugRuns.VerdictsBelongToTheLiveSession: runs never call `start` while a session is live or starting, which the program does not prevent.
- DebugSession.DebugSessionController.HandleEvent: capabilities, listener sets and the failure of the disconnect request itself are not modelled.
- WatchPaging.EnsureDeeperNamesLoaded: run on its own here; inside a restore its steps are those of a task, so that other tasks can come between them.
- WatchRoundTrip.LoadedRoundTrip: needs distinct references, unique sibling names and references that are new to the tree; `ExpansionRoundTrip` needs true declared totals besides, because without them only the first page, or too few, are looked at.
- WatchExpansion.CollectExpandedPaths: paths are sequences of names, for which their JSON encoding stands in the program.
- HunkWorkflow.CreatePlan: labels, summaries, notifications and the picker are left out.
- LayoutSwitch.SwitchStaysTrueExactly: covers switches without an edit while they are under way (`MarkedStaysTrueExactly` covers those too, from where the switch ends); the disk holds allowed keys only, as the native side stores no others; a read or projection that fails, and what projecting does to the window, are left out.
- LayoutStorage.PlainLayoutStorageService.StoreEntry: the inherited in-memory store is a parameter; the order of entries inside one write is left out.
- BackupRuns.ServiceIsAMap: operations run one at a time and stores are listed completely with every root open; sharing one scratch discard between overlapping calls is left out. Calls that take effect although rejected are part of the model, and what they do is stated for one operation, not for runs.
- BackupEnumeration.EnumerationAgreesWithStores: both reads and the snapshot of open roots succeed; without a snapshot an entry keeps the root it was written with, and its stored root can then differ from its resource's.
- BackupService.PlainWorkingCopyBackupService.Resolve: gives the content; refreshing the metadata of a backup whose root has changed is left out, and the baseline digest of a backup is a parameter.
- Lifecycle.PlainLifecycleService.OnRegularJoined: joiners settle together as one event; the cancellation token, the fired events and what a preparation does after it has timed out are left out.
- JsoncMeaning.MeaningPreserved: ends at tokens; `JSON.parse` itself and the launch-list parsers are left out.
- The rest of the synchronising script, its file walking and import merging, is left out.
- View panes, menus, commands, blame annotations, remote and trust modules, and service wiring have no invariant of their own and are left out.
