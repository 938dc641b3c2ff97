/** Whole runs of the backup service: backups, discards, discarding everything and reading both stores
    again, each with every way its calls can fail. */
module BackupRuns {
  import opened Options
  import opened ByteStrings
  import opened BackupCodec
  import opened ScratchIds
  import opened BackupService
  import opened BackupLaws
  import opened BackupEnumeration

  // ----- reading again leaves the map as it is -----

  /** A resource that resolves does so from the entry it owns. */
  lemma ResolvedEntryIsOwned(env: Env, s: Backups, u: Uri)
    requires env.Valid() && Keyed(env, s) && FilesKeyed(env, s.files) && ContentAt(env, s.files, SlotOf(env, s, u)).Some?
    ensures OwnerOf(env, s.files, SlotOf(env, s, u)) == Some(u)
  {
    var a := WrittenAs(env, s, u);
    var slot := SlotOf(env, s, u);
    assert OwnerOf(env, s.files, slot).Some?;
    assert Decoded(env.lib, s.files[slot]).value.identifier.resource == u.(authority := a);
  }

  lemma OwnedEntryIsResolved(env: Env, s: Backups, u: Uri, slot: Slot)
    requires Settled(env, s) && OwnerOf(env, s.files, slot) == Some(u)
    ensures SlotOf(env, s, u) == slot
  {
    assert SettledAt(env, s, slot);
  }

  /** Two settled states over the same files resolve alike. */
  lemma SameFilesResolveAlike(env: Env, s: Backups, t: Backups, u: Uri)
    requires env.Valid() && s.files == t.files && FilesKeyed(env, s.files)
    requires Keyed(env, s) && Settled(env, s) && Keyed(env, t) && Settled(env, t)
    ensures ContentAt(env, s.files, SlotOf(env, s, u)) == ContentAt(env, t.files, SlotOf(env, t, u))
  {
    if ContentAt(env, s.files, SlotOf(env, s, u)).Some? {
      ResolvedEntryIsOwned(env, s, u);
      OwnedEntryIsResolved(env, t, u, SlotOf(env, s, u));
    } else if ContentAt(env, t.files, SlotOf(env, t, u)).Some? {
      ResolvedEntryIsOwned(env, t, u);
      OwnedEntryIsResolved(env, s, u, SlotOf(env, t, u));
    }
  }

  lemma SettledHasOneEntryEach(env: Env, s: Backups)
    requires Settled(env, s)
    ensures OneEntryEach(env, s.files)
  {
    forall a, b | OwnerOf(env, s.files, a).Some? && OwnerOf(env, s.files, a) == OwnerOf(env, s.files, b) ensures a == b {
      assert SettledAt(env, s, a) && SettledAt(env, s, b);
    }
  }

  /** Both reads are complete: they list what is stored, in any order, and every root is open. A read
      that failed lists nothing and is not looked at. */
  ghost predicate Complete(s: Backups, slots: Option<seq<Slot>>, ids: Option<seq<string>>, roots: set<string>) {
    && RootsOpen(s.files, roots)
    && (slots.Some? ==> forall slot :: slot in s.files <==> slot in slots.value)
    && (ids.Some? ==> forall id :: id in s.scratch <==> id in ids.value)
  }

  lemma FilesRead(env: Env, s: Backups, slots: seq<Slot>, roots: set<string>)
    requires Sound(env, s) && Settled(env, s) && RootsOpen(s.files, roots) && forall slot :: slot in s.files <==> slot in slots
    ensures var after := FilesIndexed(env, WithoutDomain(s, true), s.index, slots, Some(roots));
      Sound(env, after) && Settled(env, after) && SameStores(s, after)
  {
    var bare := WithoutDomain(s, true);
    WithoutWorkspaceIsBare(env, s);
    EntriesIndexed(env, bare, s.index, slots, roots);
    var after := FilesIndexed(env, bare, s.index, slots, Some(roots));
    ReadIsRooted(env, after, slots);
    SettledHasOneEntryEach(env, s);
    ReadIsSettled(env, after, slots);
    FilesReadIndexed(bare, after);
  }

  lemma FilesReadIndexed(bare: Backups, after: Backups)
    requires IndexGrewByKeys(bare, after) && (forall u :: u in after.storageKeys <==> u in after.storageRootIds)
    requires forall u :: u in bare.index ==> ScratchIdOf(u).Some?
    requires forall u :: u in after.storageKeys ==> IsWorkspace(u)
    ensures Indexed(after)
  {
  }

  lemma ScratchRead(env: Env, s: Backups, previous: map<Uri, Entry>, ids: seq<string>)
    requires Sound(env, s) && Settled(env, s) && forall id :: id in s.scratch <==> id in ids
    ensures var after := ScratchIndexed(WithoutDomain(s, false), previous, ids);
      Sound(env, after) && Settled(env, after) && after.files == s.files && after.scratch == s.scratch
  {
    WithoutScratch(s);
    var rest := WithoutDomain(s, false);
    ScratchListed(rest, previous, ids);
    SameKeysSettled(env, s, ScratchIndexed(rest, previous, ids));
  }

  lemma SameKeysSettled(env: Env, s: Backups, after: Backups)
    requires Rooted(s) && Keyed(env, s) && Settled(env, s)
    requires after.storageKeys == s.storageKeys && after.storageRootIds == s.storageRootIds && after.files == s.files
    ensures Rooted(after) && Keyed(env, after) && Settled(env, after)
  {
    forall slot ensures SettledAt(env, after, slot) {
      assert SettledAt(env, s, slot);
    }
  }

  lemma ReadingKeepsStores(env: Env, s: Backups, slots: Option<seq<Slot>>, ids: Option<seq<string>>, roots: set<string>)
    requires Sound(env, s) && Settled(env, s) && Complete(s, slots, ids, roots)
    ensures var after := Reindexed(env, s, slots, ids, Some(roots));
      Sound(env, after) && Settled(env, after) && after.files == s.files && after.scratch == s.scratch
  {
    if slots.Some? {
      FilesRead(env, s, slots.value, roots);
    }
    var filed := if slots.Some? then FilesIndexed(env, WithoutDomain(s, true), s.index, slots.value, Some(roots)) else s;
    if ids.Some? {
      ScratchRead(env, filed, s.index, ids.value);
    }
  }

  /** Whichever of the two reads succeed, every resource resolves as before. */
  lemma ReadingKeepsMap(env: Env, s: Backups, slots: Option<seq<Slot>>, ids: Option<seq<string>>, roots: set<string>, u: Uri)
    requires Sound(env, s) && Settled(env, s) && Complete(s, slots, ids, roots)
    ensures Resolved(env, Reindexed(env, s, slots, ids, Some(roots)), u) == Resolved(env, s, u)
  {
    ReadingKeepsStores(env, s, slots, ids, roots);
    SameFilesResolveAlike(env, s, Reindexed(env, s, slots, ids, Some(roots)), u);
  }

  // ----- discarding everything -----

  lemma WithoutDomainKeepsSound(env: Env, s: Backups, workspace: bool)
    requires Sound(env, s)
    ensures Sound(env, WithoutDomain(s, workspace))
  {
  }

  lemma NoFiles(env: Env, s: Backups)
    requires Sound(env, s)
    ensures Sound(env, s.(files := map[])) && Settled(env, s.(files := map[]))
  {
  }

  lemma NoScratch(env: Env, s: Backups)
    requires Sound(env, s) && Settled(env, s)
    ensures Sound(env, s.(scratch := map[])) && Settled(env, s.(scratch := map[]))
  {
    SameKeysSettled(env, s, s.(scratch := map[]));
  }

  lemma StoresEmptied(env: Env, s: Backups, files: Answer, scratch: Answer)
    requires Sound(env, s) && Settled(env, s)
    ensures var after := s.(files := if files.Took() then map[] else s.files, scratch := if scratch.Took() then map[] else s.scratch);
      Sound(env, after) && Settled(env, after)
  {
    NoFiles(env, s);
    NoScratch(env, s);
    NoScratch(env, s.(files := map[]));
  }

  lemma FilesForgotten(env: Env, s: Backups)
    requires Sound(env, s) && s.files == map[]
    ensures Sound(env, WithoutDomain(s, true)) && Settled(env, WithoutDomain(s, true))
  {
    WithoutDomainKeepsSound(env, s, true);
  }

  lemma ScratchForgotten(env: Env, s: Backups, ids: set<string>)
    requires Sound(env, s) && Settled(env, s) && s.scratch == map[]
    ensures var after := WithoutDomain(s.(discarded := s.discarded + ids), false);
      Sound(env, after) && Settled(env, after) && SameStores(after, s.(discarded := s.discarded + ids)) && after.storageKeys == s.storageKeys
  {
    var marked := s.(discarded := s.discarded + ids);
    WithoutScratch(marked);
    SameKeysSettled(env, s, WithoutDomain(marked, false));
  }

  /** What discarding everything leaves of a map, by which of the two calls took effect. */
  function Cleared(m: map<Uri, Bytes>, files: bool, scratch: bool): map<Uri, Bytes> {
    map u | u in m && !(files && ScratchIdOf(u).None?) && !(scratch && ScratchIdOf(u).Some?) :: m[u]
  }

  lemma AllDiscardedIsSound(env: Env, s: Backups, files: Answer, scratch: Answer)
    requires Sound(env, s) && Settled(env, s)
    ensures var after := AllDiscarded(s, files, scratch).0; Sound(env, after) && Settled(env, after)
    ensures AllDiscarded(s, files, scratch).0.files == if files.Took() then map[] else s.files
    ensures AllDiscarded(s, files, scratch).0.scratch == if scratch.Took() then map[] else s.scratch
  {
    StoresEmptied(env, s, files, scratch);
    var ids := set u | u in s.index && ScratchIdOf(u).Some? :: ScratchIdOf(u).value;
    var s1 := s.(files := if files.Took() then map[] else s.files, scratch := if scratch.Took() then map[] else s.scratch);
    if files.Accepted? {
      FilesForgotten(env, s1);
    }
    var s2 := if files.Accepted? then WithoutDomain(s1, true) else s1;
    if scratch.Accepted? {
      ScratchForgotten(env, s2, ids);
    }
  }

  /** Whatever is reported: exactly the resources whose store was emptied are gone. */
  lemma AllDiscardedRepresents(env: Env, s: Backups, files: Answer, scratch: Answer, m: map<Uri, Bytes>)
    requires Sound(env, s) && Settled(env, s) && Represents(env, s, m)
    ensures Represents(env, AllDiscarded(s, files, scratch).0, Cleared(m, files.Took(), scratch.Took()))
  {
    var after := AllDiscarded(s, files, scratch).0;
    AllDiscardedIsSound(env, s, files, scratch);
    forall u ensures Resolved(env, after, u) == Lookup(Cleared(m, files.Took(), scratch.Took()), u) {
      assert Resolved(env, s, u) == Lookup(m, u);
      if files.Refused? {
        SameFilesResolveAlike(env, s, after, u);
      }
    }
  }

  // ----- the index mirrors the stores -----

  ghost predicate MirroredAt(env: Env, s: Backups, u: Uri) {
    u in s.index <==> Resolved(env, s, u).Some?
  }

  /** Exactly the resources that resolve to something are indexed. */
  ghost predicate Mirrored(env: Env, s: Backups) {
    forall u :: MirroredAt(env, s, u)
  }

  // ----- discarding everything with exceptions -----

  lemma {:induction false} EachDiscarded(env: Env, s: Backups, targets: seq<Uri>, answers: seq<Answer>, m: map<Uri, Bytes>)
    requires |targets| == |answers| && Sound(env, s) && Settled(env, s) && Represents(env, s, m)
    requires DiscardedEach(env, s, targets, answers).1 == Done
    ensures var after := DiscardedEach(env, s, targets, answers).0;
      Sound(env, after) && Settled(env, after) && Represents(env, after, map u | u in m && u !in targets :: m[u])
  {
    var left := map u | u in m && u !in targets :: m[u];
    if targets == [] {
      assert left == m;
    } else {
      var n := |targets| - 1;
      var before := DiscardedEach(env, s, targets[..n], answers[..n]).0;
      var most := map u | u in m && u !in targets[..n] :: m[u];
      EachDiscarded(env, s, targets[..n], answers[..n], m);
      OneLeftFewer(m, targets);
      DiscardKeepsSound(env, before, targets[n], answers[n]);
      DiscardKeepsSettled(env, before, targets[n], answers[n]);
      DiscardRepresentsDone(env, before, targets[n], answers[n], most);
    }
  }

  lemma OneLeftFewer(m: map<Uri, Bytes>, targets: seq<Uri>)
    requires targets != []
    ensures var n := |targets| - 1;
      (map u | u in m && u !in targets[..n] :: m[u]) - {targets[n]} == map u | u in m && u !in targets :: m[u]
  {
    assert targets == targets[..|targets| - 1] + [targets[|targets| - 1]];
  }

  lemma DiscardRepresentsDone(env: Env, s: Backups, u: Uri, answer: Answer, m: map<Uri, Bytes>)
    requires Sound(env, s) && Settled(env, s) && Represents(env, s, m) && Discarded(env, s, u, answer).1 == Done
    ensures Represents(env, Discarded(env, s, u, answer).0, m - {u})
  {
    forall v ensures Resolved(env, Discarded(env, s, u, answer).0, v) == Lookup(m - {u}, v) {
      if v == u {
        SettledDiscardEmpties(env, s, u, answer);
      } else {
        DiscardLeavesOthers(env, s, u, answer, v);
      }
    }
  }

  /** Discarding all indexed resources but some, one by one: if every one succeeds, exactly what the
      exceptions resolved to is left. */
  lemma OnlyExceptionsAreLeft(env: Env, s: Backups, except: set<Uri>, targets: seq<Uri>, answers: seq<Answer>, m: map<Uri, Bytes>)
    requires |targets| == |answers| && Sound(env, s) && Settled(env, s) && Mirrored(env, s) && Represents(env, s, m)
    requires forall u :: u in targets <==> u in s.index && u !in except
    requires DiscardedEach(env, s, targets, answers).1 == Done
    ensures Represents(env, DiscardedEach(env, s, targets, answers).0, map u | u in m && u in except :: m[u])
  {
    EachDiscarded(env, s, targets, answers, m);
    forall u | u in m ensures u !in targets <==> u in except {
      assert MirroredAt(env, s, u) && Resolved(env, s, u) == Lookup(m, u);
    }
    assert (map u | u in m && u !in targets :: m[u]) == (map u | u in m && u in except :: m[u]);
  }

  // ----- each operation keeps the index a mirror -----

  lemma BackupMirrors(env: Env, s: Backups, r: Request, fate: Fate)
    requires Sound(env, s) && Mirrored(env, s) && NothingSeen(env, s, r, fate)
    ensures Mirrored(env, BackedUp(env, s, r, fate).0)
  {
    forall u ensures MirroredAt(env, BackedUp(env, s, r, fate).0, u) {
      assert MirroredAt(env, s, u);
      if u != r.Resource() {
        BackupLeavesOthers(env, s, r, fate, u);
        BackupKeepsOthersKeys(env, s, r, fate, u);
      } else if BackedUp(env, s, r, fate).1 == Done {
        BackupIsResolved(env, s, r, fate);
        DoneIsIndexed(env, s, r, fate);
      } else {
        FailedBackupRollsBack(env, s, r, fate);
        FailedBackupResolvesExactly(env, s, r, fate);
      }
    }
  }

  lemma DoneIsIndexed(env: Env, s: Backups, r: Request, fate: Fate)
    requires BackedUp(env, s, r, fate).1 == Done
    ensures r.Resource() in BackedUp(env, s, r, fate).0.index
  {
  }

  lemma DiscardMirrors(env: Env, s: Backups, u: Uri, answer: Answer)
    requires Sound(env, s) && Settled(env, s) && Mirrored(env, s) && (answer.Lost? ==> Resolved(env, s, u).None?)
    ensures Mirrored(env, Discarded(env, s, u, answer).0)
  {
    forall v ensures MirroredAt(env, Discarded(env, s, u, answer).0, v) {
      assert MirroredAt(env, s, v);
      if v != u {
        DiscardLeavesOthers(env, s, u, answer, v);
        DiscardKeepsOthersKeys(env, s, u, answer, v);
      } else if Discarded(env, s, u, answer).1 == Done {
        SettledDiscardEmpties(env, s, u, answer);
        DoneIsUnindexed(env, s, u, answer);
      } else {
        FailedDiscardRollsBack(env, s, u, answer);
        FailedDiscardResolvesExactly(env, s, u, answer);
      }
    }
  }

  lemma DoneIsUnindexed(env: Env, s: Backups, u: Uri, answer: Answer)
    requires Discarded(env, s, u, answer).1 == Done
    ensures Discarded(env, s, u, answer).0.index == s.index - {u}
  {
  }

  lemma AllDiscardedIndex(env: Env, s: Backups, files: Answer, scratch: Answer, u: Uri)
    requires Indexed(s)
    ensures u in AllDiscarded(s, files, scratch).0.index
       <==> u in s.index && !(files.Accepted? && IsWorkspace(u)) && !(scratch.Accepted? && ScratchIdOf(u).Some?)
  {
  }

  lemma AllDiscardedMirrors(env: Env, s: Backups, files: Answer, scratch: Answer)
    requires Sound(env, s) && Settled(env, s) && Mirrored(env, s) && !files.Lost? && !scratch.Lost?
    ensures Mirrored(env, AllDiscarded(s, files, scratch).0)
  {
    var after := AllDiscarded(s, files, scratch).0;
    AllDiscardedIsSound(env, s, files, scratch);
    forall u ensures MirroredAt(env, after, u) {
      assert MirroredAt(env, s, u);
      AllDiscardedIndex(env, s, files, scratch, u);
      if files.Refused? {
        SameFilesResolveAlike(env, s, after, u);
      }
    }
  }

  lemma FilesReadMirrors(env: Env, s: Backups, slots: seq<Slot>, roots: set<string>)
    requires Sound(env, s) && Settled(env, s) && RootsOpen(s.files, roots) && forall slot :: slot in s.files <==> slot in slots
    requires Mirrored(env, s)
    ensures Mirrored(env, FilesIndexed(env, WithoutDomain(s, true), s.index, slots, Some(roots)))
  {
    var bare := WithoutDomain(s, true);
    WithoutWorkspaceIsBare(env, s);
    EntriesIndexed(env, bare, s.index, slots, roots);
    FilesRead(env, s, slots, roots);
    var after := FilesIndexed(env, bare, s.index, slots, Some(roots));
    forall u ensures MirroredAt(env, after, u) {
      assert MirroredAt(env, s, u);
      EntryIsWorkspace(env, after, slots, u);
      ReadResolves(env, after, slots, u);
    }
  }

  lemma ScratchReadMirrors(env: Env, s: Backups, previous: map<Uri, Entry>, ids: seq<string>)
    requires Sound(env, s) && (forall id :: id in s.scratch <==> id in ids) && Mirrored(env, s)
    ensures Mirrored(env, ScratchIndexed(WithoutDomain(s, false), previous, ids))
  {
    WithoutScratch(s);
    var rest := WithoutDomain(s, false);
    ScratchListed(rest, previous, ids);
    forall u ensures MirroredAt(env, ScratchIndexed(rest, previous, ids), u) {
      SameMirror(env, s, ScratchIndexed(rest, previous, ids), u);
    }
  }

  lemma SameMirror(env: Env, s: Backups, after: Backups, u: Uri)
    requires Mirrored(env, s) && after.files == s.files && after.scratch == s.scratch && after.storageKeys == s.storageKeys
    requires ScratchIdOf(u).Some? ==> (u in after.index <==> ScratchIdOf(u).value in s.scratch)
    requires ScratchIdOf(u).None? ==> (u in after.index <==> u in s.index)
    ensures MirroredAt(env, after, u)
  {
    assert MirroredAt(env, s, u);
  }

  lemma ReadingMirrors(env: Env, s: Backups, slots: Option<seq<Slot>>, ids: Option<seq<string>>, roots: set<string>)
    requires Sound(env, s) && Settled(env, s) && Mirrored(env, s) && Complete(s, slots, ids, roots)
    ensures Mirrored(env, Reindexed(env, s, slots, ids, Some(roots)))
  {
    if slots.Some? {
      FilesRead(env, s, slots.value, roots);
      FilesReadMirrors(env, s, slots.value, roots);
    }
    var filed := if slots.Some? then FilesIndexed(env, WithoutDomain(s, true), s.index, slots.value, Some(roots)) else s;
    if ids.Some? {
      ScratchReadMirrors(env, filed, s.index, ids.value);
    }
  }

  // ----- runs -----

  datatype Operation =
    | BackUp(request: Request, fate: Fate)
    | Discard(resource: Uri, answer: Answer)
    | DiscardAll(files: Answer, scratch: Answer)
    | Enumerate(slots: Option<seq<Slot>>, ids: Option<seq<string>>, roots: set<string>)

  /** A rejected call has not taken effect after all, a migration that fails is undone, and a read lists
      what is stored. */
  ghost predicate Orderly(s: Backups, op: Operation) {
    match op
    case BackUp(_, fate) => Told(fate)
    case Discard(_, answer) => !answer.Lost?
    case DiscardAll(files, scratch) => !files.Lost? && !scratch.Lost?
    case Enumerate(slots, ids, roots) => Complete(s, slots, ids, roots) && forall id :: id in s.scratch ==> IsScratchId(id)
  }

  ghost function Applied(env: Env, s: Backups, op: Operation): (Backups, Outcome)
    requires Orderly(s, op)
  {
    match op
    case BackUp(r, fate) => BackedUp(env, s, r, fate)
    case Discard(u, answer) => Discarded(env, s, u, answer)
    case DiscardAll(files, scratch) => AllDiscarded(s, files, scratch)
    case Enumerate(slots, ids, roots) => (Reindexed(env, s, slots, ids, Some(roots)), Done)
  }

  /** An operation that is not orderly is not part of the run. */
  ghost function RunAll(env: Env, s: Backups, ops: seq<Operation>): Backups {
    if ops == [] then s
    else
      var before, op := RunAll(env, s, ops[..|ops| - 1]), ops[|ops| - 1];
      if Orderly(before, op) then Applied(env, before, op).0 else before
  }

  /** What one operation means for the map: a completed backup sets, a completed discard removes,
      discarding everything clears what agreed, and anything else does nothing. */
  ghost function Meaning(env: Env, s: Backups, m: map<Uri, Bytes>, op: Operation): map<Uri, Bytes>
    requires Orderly(s, op)
  {
    match op
    case BackUp(r, _) => if Applied(env, s, op).1 == Done then m[r.Resource() := r.content] else m
    case Discard(u, _) => if Applied(env, s, op).1 == Done then m - {u} else m
    case DiscardAll(files, scratch) => Cleared(m, files.Took(), scratch.Took())
    case Enumerate(_, _, _) => m
  }

  ghost function Meant(env: Env, s: Backups, m: map<Uri, Bytes>, ops: seq<Operation>): map<Uri, Bytes> {
    if ops == [] then m
    else
      var before, op := RunAll(env, s, ops[..|ops| - 1]), ops[|ops| - 1];
      var most := Meant(env, s, m, ops[..|ops| - 1]);
      if Orderly(before, op) then Meaning(env, before, most, op) else most
  }

  lemma ToldShowsNothing(env: Env, s: Backups, r: Request, fate: Fate)
    requires Told(fate)
    ensures NothingSeen(env, s, r, fate)
  {
  }

  lemma StepKeepsSettled(env: Env, s: Backups, op: Operation)
    requires Sound(env, s) && Settled(env, s) && Orderly(s, op)
    ensures Sound(env, Applied(env, s, op).0) && Settled(env, Applied(env, s, op).0)
  {
    match op
    case BackUp(r, fate) =>
      BackupKeepsSound(env, s, r, fate);
      BackupKeepsSettled(env, s, r, fate);
    case Discard(u, answer) =>
      DiscardKeepsSound(env, s, u, answer);
      DiscardKeepsSettled(env, s, u, answer);
    case DiscardAll(files, scratch) => AllDiscardedIsSound(env, s, files, scratch);
    case Enumerate(slots, ids, roots) => ReadingKeepsStores(env, s, slots, ids, roots);
  }

  lemma StepMirrors(env: Env, s: Backups, op: Operation)
    requires Sound(env, s) && Settled(env, s) && Mirrored(env, s) && Orderly(s, op)
    ensures Mirrored(env, Applied(env, s, op).0)
  {
    match op
    case BackUp(r, fate) =>
      ToldShowsNothing(env, s, r, fate);
      BackupMirrors(env, s, r, fate);
    case Discard(u, answer) => DiscardMirrors(env, s, u, answer);
    case DiscardAll(files, scratch) => AllDiscardedMirrors(env, s, files, scratch);
    case Enumerate(slots, ids, roots) => ReadingMirrors(env, s, slots, ids, roots);
  }

  lemma StepRepresents(env: Env, s: Backups, m: map<Uri, Bytes>, op: Operation)
    requires Sound(env, s) && Settled(env, s) && Orderly(s, op) && Represents(env, s, m)
    ensures Represents(env, Applied(env, s, op).0, Meaning(env, s, m, op))
  {
    match op
    case BackUp(r, fate) =>
      ToldShowsNothing(env, s, r, fate);
      BackupRepresents(env, s, r, fate, m);
    case Discard(u, answer) => DiscardRepresents(env, s, u, answer, m);
    case DiscardAll(files, scratch) => AllDiscardedRepresents(env, s, files, scratch, m);
    case Enumerate(slots, ids, roots) =>
      forall u ensures Resolved(env, Applied(env, s, op).0, u) == Lookup(m, u) {
        ReadingKeepsMap(env, s, slots, ids, roots, u);
      }
  }

  lemma {:induction false} RunKeeps(env: Env, s: Backups, m: map<Uri, Bytes>, ops: seq<Operation>)
    requires Sound(env, s) && Settled(env, s) && Mirrored(env, s) && Represents(env, s, m)
    ensures Sound(env, RunAll(env, s, ops)) && Settled(env, RunAll(env, s, ops)) && Mirrored(env, RunAll(env, s, ops))
    ensures Represents(env, RunAll(env, s, ops), Meant(env, s, m, ops))
  {
    if ops != [] {
      var most, op := ops[..|ops| - 1], ops[|ops| - 1];
      RunKeeps(env, s, m, most);
      if Orderly(RunAll(env, s, most), op) {
        StepKeepsSettled(env, RunAll(env, s, most), op);
        StepMirrors(env, RunAll(env, s, most), op);
        StepRepresents(env, RunAll(env, s, most), Meant(env, s, m, most), op);
      }
    }
  }

  /** In every run, whatever fails, as long as a rejected call has not taken effect after all and a
      migration that fails is undone: `resolve` answers as the map would, and `hasBackupSync` says yes
      exactly for the resources in the map. */
  lemma ServiceIsAMap(env: Env, s: Backups, m: map<Uri, Bytes>, ops: seq<Operation>, u: Uri)
    requires Sound(env, s) && Settled(env, s) && Mirrored(env, s) && Represents(env, s, m)
    ensures Resolved(env, RunAll(env, s, ops), u) == Lookup(Meant(env, s, m, ops), u)
    ensures HasBackup(RunAll(env, s, ops), u, None) <==> u in Meant(env, s, m, ops)
  {
    RunKeeps(env, s, m, ops);
    assert MirroredAt(env, RunAll(env, s, ops), u);
  }

  /** A service that has just started over empty stores stands for the empty map. */
  lemma FreshServiceIsEmptyMap(env: Env)
    requires env.Valid()
    ensures var s := Backups(map[], map[], map[], {}, map[], map[]);
      Sound(env, s) && Settled(env, s) && Mirrored(env, s) && Represents(env, s, map[])
  {
  }
}
