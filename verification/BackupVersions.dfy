/** Which version of a resource is backed up, and what a listing of the stores says of it. */
module BackupVersions {
  import opened Options
  import opened ByteStrings
  import opened BackupCodec
  import opened ScratchIds
  import opened BackupService
  import opened BackupLaws
  import opened BackupEnumeration
  import opened BackupRuns

  type Versions = map<Uri, Option<int>>

  // ----- what reading the stores again says of each resource -----

  /** The entry of `u` names it with the type stored in its slot, at the version known before. */
  ghost predicate ListedAsStored(env: Env, s: Backups, previous: map<Uri, Entry>, u: Uri) {
    && u in s.index && u in s.storageKeys && u in s.storageRootIds
    && var slot := Slot(s.storageRootIds[u], s.storageKeys[u]);
    && slot in s.files && Decoded(env.lib, s.files[slot]).Some?
    && s.index[u].identifier == Identifier(u, Decoded(env.lib, s.files[slot]).value.identifier.typeId)
    && s.index[u].versionId == if u in previous then previous[u].versionId else None
  }

  ghost predicate FilesListed(env: Env, base: Backups, s: Backups, previous: map<Uri, Entry>) {
    && s.files == base.files && s.scratch == base.scratch
    && (forall u :: u in s.storageKeys ==> ListedAsStored(env, s, previous, u))
    && (forall u :: u in s.index && u !in s.storageKeys ==> u in base.index && s.index[u] == base.index[u])
  }

  lemma OneFileListed(env: Env, base: Backups, s: Backups, previous: map<Uri, Entry>, slot: Slot, roots: Option<set<string>>)
    requires FilesListed(env, base, s, previous)
    ensures FilesListed(env, base, FileIndexed(env, s, previous, slot, roots), previous)
  {
    var after := FileIndexed(env, s, previous, slot, roots);
    forall u | u in after.storageKeys ensures ListedAsStored(env, after, previous, u) {
      if after != s && !(u in s.storageKeys && after.storageKeys[u] == s.storageKeys[u] && after.index[u] == s.index[u]) {
        assert after.storageKeys[u] == slot.key;
      } else if u in s.storageKeys {
        assert ListedAsStored(env, s, previous, u);
      }
    }
  }

  lemma {:induction false} EveryFileListed(env: Env, s: Backups, previous: map<Uri, Entry>, slots: seq<Slot>, roots: Option<set<string>>)
    requires s.storageKeys == map[]
    ensures FilesListed(env, s, FilesIndexed(env, s, previous, slots, roots), previous)
  {
    if slots != [] {
      var most := slots[..|slots| - 1];
      EveryFileListed(env, s, previous, most, roots);
      OneFileListed(env, s, FilesIndexed(env, s, previous, most, roots), previous, slots[|slots| - 1], roots);
    }
  }

  ghost predicate ScratchListedAs(base: Backups, s: Backups, previous: map<Uri, Entry>, ids: seq<string>, u: Uri) {
    if ScratchIdOf(u).Some? && ScratchIdOf(u).value in ids then
      u in s.index && s.index[u] == Entry(Identifier(u, ""), if u in previous then previous[u].versionId else None)
    else
      (u in s.index <==> u in base.index) && (u in s.index ==> s.index[u] == base.index[u])
  }

  lemma {:induction false} EveryScratchListed(s: Backups, previous: map<Uri, Entry>, ids: seq<string>, u: Uri)
    requires forall id :: id in ids ==> IsScratchId(id)
    ensures ScratchListedAs(s, ScratchIndexed(s, previous, ids), previous, ids, u)
  {
    if ids != [] {
      var most, id := ids[..|ids| - 1], ids[|ids| - 1];
      assert forall i :: i in most ==> i in ids;
      assert ids == most + [id];
      EveryScratchListed(s, previous, most, u);
      ScratchResourcesRoundTrip(u, id);
    }
  }

  /** The state between the two readings. */
  ghost function FilesFirst(env: Env, s: Backups, slots: Option<seq<Slot>>, roots: set<string>): Backups {
    if slots.Some? then FilesIndexed(env, WithoutDomain(s, true), s.index, slots.value, Some(roots)) else s
  }

  lemma FilesFirstKeepVersions(env: Env, s: Backups, slots: Option<seq<Slot>>, roots: set<string>, u: Uri)
    requires Sound(env, s) && u in s.index && u in FilesFirst(env, s, slots, roots).index
    ensures FilesFirst(env, s, slots, roots).index[u].versionId == s.index[u].versionId
  {
    if slots.Some? {
      var bare := WithoutDomain(s, true);
      WithoutWorkspaceIsBare(env, s);
      EveryFileListed(env, bare, s.index, slots.value, Some(roots));
      var after := FilesIndexed(env, bare, s.index, slots.value, Some(roots));
      if u in after.storageKeys {
        assert ListedAsStored(env, after, s.index, u);
      }
    }
  }

  /** Whichever of the two reads succeed: a resource that is still indexed is so at the version it had. */
  lemma ReadingKeepsVersions(env: Env, s: Backups, slots: Option<seq<Slot>>, ids: Option<seq<string>>, roots: set<string>, u: Uri)
    requires Sound(env, s) && (ids.Some? ==> forall id :: id in ids.value ==> IsScratchId(id))
    requires u in s.index && u in Reindexed(env, s, slots, ids, Some(roots)).index
    ensures Reindexed(env, s, slots, ids, Some(roots)).index[u].versionId == s.index[u].versionId
  {
    var filed := FilesFirst(env, s, slots, roots);
    if ids.Some? {
      EveryScratchListed(WithoutDomain(filed, false), s.index, ids.value, u);
    }
    if u in filed.index {
      FilesFirstKeepVersions(env, s, slots, roots, u);
    }
  }

  /** After a reading of both stores each file is listed with the type its entry holds and each scratch
      file without one, and none with a version that was not known before. */
  lemma ListedIdentifiers(env: Env, s: Backups, slots: seq<Slot>, ids: seq<string>, roots: set<string>, u: Uri)
    requires Sound(env, s) && forall id :: id in ids ==> IsScratchId(id)
    requires u in Reindexed(env, s, Some(slots), Some(ids), Some(roots)).index
    ensures var after := Reindexed(env, s, Some(slots), Some(ids), Some(roots));
      if ScratchIdOf(u).Some? then after.index[u] == Entry(Identifier(u, ""), if u in s.index then s.index[u].versionId else None)
      else ListedAsStored(env, after, s.index, u)
  {
    var filed := FilesFirst(env, s, Some(slots), roots);
    var rest := WithoutDomain(filed, false);
    FilesFirstAreListed(env, s, slots, roots);
    EveryScratchListed(rest, s.index, ids, u);
    if ScratchIdOf(u).None? {
      assert ListedAsStored(env, filed, s.index, u);
      ScratchKeepsListing(env, filed, s.index, ids, u);
    }
  }

  lemma ScratchKeepsListing(env: Env, filed: Backups, previous: map<Uri, Entry>, ids: seq<string>, u: Uri)
    requires ListedAsStored(env, filed, previous, u) && ScratchIdOf(u).None? && forall id :: id in ids ==> IsScratchId(id)
    ensures ListedAsStored(env, ScratchIndexed(WithoutDomain(filed, false), previous, ids), previous, u)
  {
    EveryScratchListed(WithoutDomain(filed, false), previous, ids, u);
    ScratchListed(WithoutDomain(filed, false), previous, ids);
  }

  lemma FilesFirstAreListed(env: Env, s: Backups, slots: seq<Slot>, roots: set<string>)
    requires Sound(env, s)
    ensures FilesListed(env, WithoutDomain(s, true), FilesFirst(env, s, Some(slots), roots), s.index)
    ensures forall u :: u in WithoutDomain(s, true).index ==> ScratchIdOf(u).Some?
  {
    WithoutWorkspaceIsBare(env, s);
    EveryFileListed(env, WithoutDomain(s, true), s.index, slots, Some(roots));
  }

  // ----- versions in whole runs -----

  /** The last completed backup of each resource decides; a completed discard forgets it, discarding
      everything what agreed, and nothing else matters. */
  ghost function VersionAfter(env: Env, s: Backups, versions: Versions, op: Operation): Versions
    requires Orderly(s, op)
  {
    match op
    case BackUp(r, _) => if Applied(env, s, op).1 == Done then versions[r.Resource() := r.versionId] else versions
    case Discard(u, _) => if Applied(env, s, op).1 == Done then versions - {u} else versions
    case DiscardAll(files, scratch) =>
      map u | u in versions && !(if ScratchIdOf(u).Some? then scratch.Accepted? else files.Accepted?) :: versions[u]
    case Enumerate(_, _, _) => versions
  }

  ghost function VersionsAfter(env: Env, s: Backups, versions: Versions, ops: seq<Operation>): Versions {
    if ops == [] then versions
    else
      var before, op := RunAll(env, s, ops[..|ops| - 1]), ops[|ops| - 1];
      var most := VersionsAfter(env, s, versions, ops[..|ops| - 1]);
      if Orderly(before, op) then VersionAfter(env, before, most, op) else most
  }

  ghost predicate KnownVersions(s: Backups, versions: Versions) {
    forall u :: (u in s.index <==> u in versions) && (u in s.index ==> s.index[u].versionId == versions[u])
  }

  lemma BackupVersion(env: Env, s: Backups, r: Request, fate: Fate)
    ensures BackedUp(env, s, r, fate).0.index
         == if BackedUp(env, s, r, fate).1 == Done then s.index[r.Resource() := Entry(r.identifier, r.versionId)] else s.index
  {
    StoredIndex(env, s, r, fate, s.index);
  }

  lemma DiscardVersion(env: Env, s: Backups, u: Uri, answer: Answer)
    ensures Discarded(env, s, u, answer).0.index == if Discarded(env, s, u, answer).1 == Done then s.index - {u} else s.index
  {
  }

  lemma AllDiscardedVersions(s: Backups, files: Answer, scratch: Answer, u: Uri)
    requires Indexed(s) && u in AllDiscarded(s, files, scratch).0.index
    ensures u in s.index && AllDiscarded(s, files, scratch).0.index[u] == s.index[u]
  {
  }

  lemma ReadingVersions(env: Env, s: Backups, slots: Option<seq<Slot>>, ids: Option<seq<string>>, roots: set<string>, versions: Versions)
    requires Sound(env, s) && Settled(env, s) && Mirrored(env, s) && Complete(s, slots, ids, roots) && KnownVersions(s, versions)
    requires forall id :: id in s.scratch ==> IsScratchId(id)
    ensures KnownVersions(Reindexed(env, s, slots, ids, Some(roots)), versions)
  {
    var after := Reindexed(env, s, slots, ids, Some(roots));
    ReadingMirrors(env, s, slots, ids, roots);
    forall u ensures (u in after.index <==> u in versions) && (u in after.index ==> after.index[u].versionId == versions[u]) {
      assert MirroredAt(env, s, u) && MirroredAt(env, after, u);
      ReadingKeepsMap(env, s, slots, ids, roots, u);
      if u in after.index {
        ReadingKeepsVersions(env, s, slots, ids, roots, u);
      }
    }
  }

  lemma AllDiscardedKnown(env: Env, s: Backups, files: Answer, scratch: Answer, versions: Versions)
    requires Sound(env, s) && KnownVersions(s, versions) && Orderly(s, DiscardAll(files, scratch))
    ensures KnownVersions(AllDiscarded(s, files, scratch).0, VersionAfter(env, s, versions, DiscardAll(files, scratch)))
  {
    var after := AllDiscarded(s, files, scratch).0;
    forall u ensures u in after.index <==> u in s.index && !(if ScratchIdOf(u).Some? then scratch.Accepted? else files.Accepted?) {
      AllDiscardedIndex(env, s, files, scratch, u);
    }
    forall u | u in after.index ensures u in s.index && after.index[u] == s.index[u] {
      AllDiscardedVersions(s, files, scratch, u);
    }
  }

  lemma StepKeepsVersions(env: Env, s: Backups, versions: Versions, op: Operation)
    requires Sound(env, s) && Settled(env, s) && Mirrored(env, s) && KnownVersions(s, versions) && Orderly(s, op)
    ensures KnownVersions(Applied(env, s, op).0, VersionAfter(env, s, versions, op))
  {
    match op
    case BackUp(r, fate) => BackupVersion(env, s, r, fate);
    case Discard(u, answer) => DiscardVersion(env, s, u, answer);
    case DiscardAll(files, scratch) => AllDiscardedKnown(env, s, files, scratch, versions);
    case Enumerate(slots, ids, roots) => ReadingVersions(env, s, slots, ids, roots, versions);
  }

  lemma {:induction false} RunKeepsVersions(env: Env, s: Backups, m: map<Uri, Bytes>, versions: Versions, ops: seq<Operation>)
    requires Sound(env, s) && Settled(env, s) && Mirrored(env, s) && Represents(env, s, m) && KnownVersions(s, versions)
    ensures KnownVersions(RunAll(env, s, ops), VersionsAfter(env, s, versions, ops))
  {
    if ops != [] {
      var most := ops[..|ops| - 1];
      RunKeepsVersions(env, s, m, versions, most);
      RunKeeps(env, s, m, most);
      if Orderly(RunAll(env, s, most), ops[|ops| - 1]) {
        StepKeepsVersions(env, RunAll(env, s, most), VersionsAfter(env, s, versions, most), ops[|ops| - 1]);
      }
    }
  }

  /** In every such run: a resource is said to be backed up in a version exactly if it is still in the map
      and that is the version of its last completed backup, whatever was backed up, discarded or read
      again in between. */
  lemma LastBackedUpVersion(env: Env, s: Backups, m: map<Uri, Bytes>, versions: Versions, ops: seq<Operation>, u: Uri, n: int)
    requires Sound(env, s) && Settled(env, s) && Mirrored(env, s) && Represents(env, s, m) && KnownVersions(s, versions)
    ensures HasBackup(RunAll(env, s, ops), u, Some(n)) <==>
      u in Meant(env, s, m, ops) && u in VersionsAfter(env, s, versions, ops) && VersionsAfter(env, s, versions, ops)[u] == Some(n)
    ensures u in Meant(env, s, m, ops) <==> u in VersionsAfter(env, s, versions, ops)
  {
    RunKeepsVersions(env, s, m, versions, ops);
    ServiceIsAMap(env, s, m, ops, u);
  }
}
