/** Reading both stores again: afterwards the index and the stores agree. */
module BackupEnumeration {
  import opened Options
  import opened ByteStrings
  import opened BackupCodec
  import opened ScratchIds
  import opened BackupService
  import opened BackupLaws

  /** No resource has two readable entries under one root. */
  ghost predicate OneEntryEach(env: Env, files: map<Slot, Bytes>) {
    forall a, b :: OwnerOf(env, files, a).Some? && OwnerOf(env, files, a) == OwnerOf(env, files, b) ==> a == b
  }

  ghost predicate RootsOpen(files: map<Slot, Bytes>, roots: set<string>) {
    forall slot :: slot in files ==> slot.rootId in roots
  }

  // ----- the file entries -----

  /** Indexing one entry records its slot for its owner. */
  lemma OneIndexed(env: Env, s: Backups, previous: map<Uri, Entry>, slot: Slot, roots: set<string>)
    requires FilesKeyed(env, s.files) && RootsOpen(s.files, roots)
    ensures var after, owner := FileIndexed(env, s, previous, slot, Some(roots)), OwnerOf(env, s.files, slot);
      if owner.None? then after == s
      else
        && after.storageKeys == s.storageKeys[owner.value := slot.key]
        && after.storageRootIds == s.storageRootIds[owner.value := slot.rootId]
        && after.index.Keys == s.index.Keys + {owner.value}
        && after == s.(index := after.index, storageKeys := after.storageKeys, storageRootIds := after.storageRootIds)
  {
    var owner := OwnerOf(env, s.files, slot);
    if owner.Some? {
      var stored := Decoded(env.lib, s.files[slot]).value.identifier.resource;
      assert IsWorkspace(owner.value);
      assert CurrentResource(stored, slot.rootId, Some(roots)) == Some(owner.value);
    }
  }

  ghost predicate SameStores(s: Backups, after: Backups) {
    after.files == s.files && after.scratch == s.scratch && after.discarded == s.discarded
  }

  /** A recorded key and root is the slot of one of the entries read. */
  ghost predicate FromEntry(env: Env, s: Backups, slots: seq<Slot>, u: Uri, slot: Slot) {
    && slot in slots && OwnerOf(env, s.files, slot) == Some(u)
    && u in s.storageKeys && u in s.storageRootIds && slot == Slot(s.storageRootIds[u], s.storageKeys[u])
  }

  ghost predicate OnlyEntries(env: Env, s: Backups, slots: seq<Slot>) {
    && (forall u :: u in s.storageKeys <==> u in s.storageRootIds)
    && (forall u :: u in s.storageKeys ==> exists slot :: FromEntry(env, s, slots, u, slot))
  }

  ghost predicate AllEntries(env: Env, s: Backups, slots: seq<Slot>) {
    forall slot :: slot in slots && OwnerOf(env, s.files, slot).Some? ==> OwnerOf(env, s.files, slot).value in s.storageKeys
  }

  ghost predicate IndexGrewByKeys(base: Backups, s: Backups) {
    forall u :: u in s.index <==> u in base.index || u in s.storageKeys
  }

  lemma OneMoreEntry(env: Env, s: Backups, previous: map<Uri, Entry>, slots: seq<Slot>, slot: Slot, roots: set<string>)
    requires FilesKeyed(env, s.files) && RootsOpen(s.files, roots)
    requires OnlyEntries(env, s, slots) && AllEntries(env, s, slots)
    ensures var after := FileIndexed(env, s, previous, slot, Some(roots));
      OnlyEntries(env, after, slots + [slot]) && AllEntries(env, after, slots + [slot])
  {
    OneIndexed(env, s, previous, slot, roots);
    var after := FileIndexed(env, s, previous, slot, Some(roots));
    forall u | u in after.storageKeys ensures exists other :: FromEntry(env, after, slots + [slot], u, other) {
      if OwnerOf(env, s.files, slot) == Some(u) {
        assert FromEntry(env, after, slots + [slot], u, slot);
      } else {
        var other :| FromEntry(env, s, slots, u, other);
        assert FromEntry(env, after, slots + [slot], u, other);
      }
    }
  }

  lemma {:induction false} EntriesIndexed(env: Env, s: Backups, previous: map<Uri, Entry>, slots: seq<Slot>, roots: set<string>)
    requires FilesKeyed(env, s.files) && RootsOpen(s.files, roots) && s.storageKeys == map[] && s.storageRootIds == map[]
    ensures var after := FilesIndexed(env, s, previous, slots, Some(roots));
      SameStores(s, after) && OnlyEntries(env, after, slots) && AllEntries(env, after, slots) && IndexGrewByKeys(s, after)
  {
    if slots != [] {
      var most, slot := slots[..|slots| - 1], slots[|slots| - 1];
      EntriesIndexed(env, s, previous, most, roots);
      var before := FilesIndexed(env, s, previous, most, Some(roots));
      OneMoreEntry(env, before, previous, most, slot, roots);
      OneIndexed(env, before, previous, slot, roots);
      assert most + [slot] == slots;
    }
  }

  // ----- the scratch entries -----

  lemma {:induction false} ScratchListed(s: Backups, previous: map<Uri, Entry>, ids: seq<string>)
    requires forall id :: id in ids ==> IsScratchId(id)
    ensures var after := ScratchIndexed(s, previous, ids);
      && after == s.(index := after.index, discarded := after.discarded)
      && (forall u :: u in after.index <==> u in s.index || (ScratchIdOf(u).Some? && ScratchIdOf(u).value in ids))
      && (forall id :: id in after.discarded <==> id in s.discarded && id !in ids)
  {
    if ids != [] {
      var most, id := ids[..|ids| - 1], ids[|ids| - 1];
      assert forall i :: i in most ==> i in ids;
      assert ids == most + [id];
      ScratchListed(s, previous, most);
      forall u ensures ScratchIdOf(u) == Some(id) <==> u == ResourceFor(id) {
        ScratchResourcesRoundTrip(u, id);
      }
    }
  }

  // ----- both -----

  lemma WithoutWorkspaceIsBare(env: Env, s: Backups)
    requires Sound(env, s)
    ensures var bare := WithoutDomain(s, true);
      && bare.storageKeys == map[] && bare.storageRootIds == map[] && SameStores(s, bare)
      && (forall u :: u in bare.index <==> u in s.index && !IsWorkspace(u))
      && (forall u :: u in bare.index ==> ScratchIdOf(u).Some?)
  {
  }

  lemma WithoutScratch(s: Backups)
    requires forall u :: u in s.storageKeys || u in s.storageRootIds ==> IsWorkspace(u)
    ensures var rest := WithoutDomain(s, false);
      && rest == s.(index := rest.index) && forall u :: u in rest.index <==> u in s.index && ScratchIdOf(u).None?
  {
    var gone := set u | u in s.index && ScratchIdOf(u).Some?;
    assert s.storageKeys - gone == s.storageKeys && s.storageRootIds - gone == s.storageRootIds;
  }

  /** What both readings leave: keys and roots of the file entries, and an index of those and the
      scratch files. */
  ghost predicate Read(env: Env, s: Backups, after: Backups, slots: seq<Slot>, ids: seq<string>) {
    && after.files == s.files && after.scratch == s.scratch
    && OnlyEntries(env, after, slots) && AllEntries(env, after, slots)
    && (forall u :: u in after.index <==> u in after.storageKeys || (ScratchIdOf(u).Some? && ScratchIdOf(u).value in ids))
    && (forall id :: id in after.discarded <==> id in s.discarded && id !in ids)
  }

  lemma EntryIsWorkspace(env: Env, s: Backups, slots: seq<Slot>, u: Uri)
    requires FilesKeyed(env, s.files) && OnlyEntries(env, s, slots)
    ensures u in s.storageKeys || u in s.storageRootIds ==> IsWorkspace(u) && ScratchIdOf(u).None?
  {
    if u in s.storageKeys {
      var slot :| FromEntry(env, s, slots, u, slot);
      assert OwnerOf(env, s.files, slot).Some?;
    }
  }

  lemma ReadAgain(env: Env, s: Backups, slots: seq<Slot>, ids: seq<string>, roots: set<string>)
    requires Sound(env, s) && RootsOpen(s.files, roots) && forall id :: id in ids ==> IsScratchId(id)
    ensures Read(env, s, Reindexed(env, s, Some(slots), Some(ids), Some(roots)), slots, ids)
  {
    var bare := WithoutDomain(s, true);
    WithoutWorkspaceIsBare(env, s);
    EntriesIndexed(env, bare, s.index, slots, roots);
    var filed := FilesIndexed(env, bare, s.index, slots, Some(roots));
    forall u ensures u in filed.storageKeys || u in filed.storageRootIds ==> IsWorkspace(u) && ScratchIdOf(u).None? {
      EntryIsWorkspace(env, filed, slots, u);
    }
    WithoutScratch(filed);
    var rest := WithoutDomain(filed, false);
    ScratchListed(rest, s.index, ids);
    SameEntries(env, filed, ScratchIndexed(rest, s.index, ids), slots);
  }

  lemma SameEntries(env: Env, s: Backups, after: Backups, slots: seq<Slot>)
    requires OnlyEntries(env, s, slots) && AllEntries(env, s, slots)
    requires after.storageKeys == s.storageKeys && after.storageRootIds == s.storageRootIds && after.files == s.files
    ensures OnlyEntries(env, after, slots) && AllEntries(env, after, slots)
  {
    forall u | u in after.storageKeys ensures exists slot :: FromEntry(env, after, slots, u, slot) {
      var slot :| FromEntry(env, s, slots, u, slot);
      assert FromEntry(env, after, slots, u, slot);
    }
  }

  lemma ReadIsRooted(env: Env, s: Backups, slots: seq<Slot>)
    requires FilesKeyed(env, s.files) && OnlyEntries(env, s, slots)
    ensures Rooted(s) && Keyed(env, s)
  {
    forall u | u in s.storageKeys ensures s.storageRootIds[u] == u.authority && IsWorkspace(u) && IsKeyFor(env, u, s.storageKeys[u]) {
      var slot :| FromEntry(env, s, slots, u, slot);
      var stored := Decoded(env.lib, s.files[slot]).value.identifier.resource;
      assert u.(authority := stored.authority) == stored;
    }
  }

  lemma ReadIsSettled(env: Env, s: Backups, slots: seq<Slot>)
    requires OnlyEntries(env, s, slots) && AllEntries(env, s, slots) && OneEntryEach(env, s.files)
    requires forall slot :: slot in s.files ==> slot in slots
    ensures Settled(env, s)
  {
    forall slot ensures SettledAt(env, s, slot) {
      if OwnerOf(env, s.files, slot).Some? {
        var u := OwnerOf(env, s.files, slot).value;
        var other :| FromEntry(env, s, slots, u, other);
        assert other == slot;
      }
    }
  }

  lemma ReadResolves(env: Env, s: Backups, slots: seq<Slot>, u: Uri)
    requires env.Valid() && FilesKeyed(env, s.files) && Rooted(s) && OnlyEntries(env, s, slots) && AllEntries(env, s, slots)
    requires forall slot :: slot in s.files ==> slot in slots
    ensures ContentAt(env, s.files, SlotOf(env, s, u)).Some? <==> u in s.storageKeys
  {
    if u in s.storageKeys {
      var slot :| FromEntry(env, s, slots, u, slot);
      assert slot == SlotOf(env, s, u);
    } else if ContentAt(env, s.files, Home(env, u)).Some? {
      HomeOwner(env, s.files, u);
    }
  }

  /** After both stores have been read with every root open, from any sound state and in whatever order
      they list their entries: the index holds exactly the resources that resolve to something, and
      every readable entry is the indexed one of its resource. */
  lemma EnumerationAgreesWithStores(env: Env, s: Backups, slots: seq<Slot>, ids: seq<string>, roots: set<string>)
    requires Sound(env, s) && RootsOpen(s.files, roots) && OneEntryEach(env, s.files)
    requires forall slot :: slot in s.files <==> slot in slots
    requires forall id :: id in s.scratch <==> id in ids
    ensures var after := Reindexed(env, s, Some(slots), Some(ids), Some(roots));
      Sound(env, after) && Settled(env, after) && forall u :: u in after.index <==> Resolved(env, after, u).Some?
  {
    var after := Reindexed(env, s, Some(slots), Some(ids), Some(roots));
    ReadAgain(env, s, slots, ids, roots);
    ReadIsRooted(env, after, slots);
    ReadIsSettled(env, after, slots);
    forall u ensures u in after.storageKeys ==> IsWorkspace(u) && ScratchIdOf(u).None? {
      EntryIsWorkspace(env, after, slots, u);
    }
    forall u ensures u in after.index <==> Resolved(env, after, u).Some? {
      ReadResolves(env, after, slots, u);
    }
  }

  /** After everything has been discarded, nothing is indexed and nothing resolves. */
  lemma NothingLeftAfterDiscardingAll(env: Env, s: Backups, u: Uri)
    requires Sound(env, s)
    ensures AllDiscarded(s, Accepted, Accepted).1 == Done
    ensures u !in AllDiscarded(s, Accepted, Accepted).0.index
    ensures Resolved(env, AllDiscarded(s, Accepted, Accepted).0, u).None?
  {
  }
}
