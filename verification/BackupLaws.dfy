/** The backup service behaves as a map from resources to bytes. */
module BackupLaws {
  import opened Options
  import opened ByteStrings
  import opened BackupCodec
  import opened ScratchIds
  import opened BackupService

  // ----- what holds of the index and the stores -----

  /** A recorded root is the resource's own authority. */
  ghost predicate Rooted(s: Backups) {
    forall u :: u in s.storageRootIds ==> s.storageRootIds[u] == u.authority
  }

  /** A recorded key is the digest of the resource, perhaps under an authority it had before. */
  ghost predicate IsKeyFor(env: Env, u: Uri, key: string) {
    exists a :: env.digest(u.(authority := a)) == key
  }

  ghost predicate Keyed(env: Env, s: Backups) {
    forall u :: u in s.storageKeys ==> IsWorkspace(u) && IsKeyFor(env, u, s.storageKeys[u])
  }

  /** What a stored entry is a backup of, under the root that owns it now. */
  ghost function OwnerOf(env: Env, files: map<Slot, Bytes>, slot: Slot): Option<Uri> {
    if slot !in files || Decoded(env.lib, files[slot]).None? then None
    else Some(Decoded(env.lib, files[slot]).value.identifier.resource.(authority := slot.rootId))
  }

  /** Every readable entry is stored under the digest of its resource and root it was written with. */
  ghost predicate FilesKeyed(env: Env, files: map<Slot, Bytes>) {
    forall slot :: OwnerOf(env, files, slot).Some? ==>
      && IsWorkspace(OwnerOf(env, files, slot).value)
      && slot.key == env.digest(Decoded(env.lib, files[slot]).value.identifier.resource)
  }

  /** Every readable entry is the indexed one of its resource. */
  ghost predicate Settled(env: Env, s: Backups) {
    forall slot :: SettledAt(env, s, slot)
  }

  ghost predicate SettledAt(env: Env, s: Backups, slot: Slot) {
    OwnerOf(env, s.files, slot).Some? ==>
      var u := OwnerOf(env, s.files, slot).value; u in s.storageKeys && s.storageKeys[u] == slot.key
  }

  ghost predicate ScratchKnown(s: Backups) {
    && (forall id :: id in s.discarded ==> id !in s.scratch)
    && (forall id :: id in s.scratch ==> IsScratchId(id))
  }

  /** Keys and roots are recorded for the same resources, all of them indexed. */
  ghost predicate Indexed(s: Backups) {
    && (forall u :: u in s.storageKeys <==> u in s.storageRootIds)
    && (forall u :: u in s.storageKeys ==> u in s.index)
    && (forall u :: u in s.index ==> IsWorkspace(u) || ScratchIdOf(u).Some?)
  }

  ghost predicate Sound(env: Env, s: Backups) {
    env.Valid() && Rooted(s) && Keyed(env, s) && FilesKeyed(env, s.files) && ScratchKnown(s) && Indexed(s)
  }

  // ----- different resources, different slots -----

  lemma SlotsDiffer(env: Env, s: Backups, u: Uri, v: Uri)
    requires env.Valid() && Keyed(env, s) && u != v
    ensures SlotOf(env, s, u) != SlotOf(env, s, v)
  {
    if SlotOf(env, s, u) == SlotOf(env, s, v) {
      var a := WrittenAs(env, s, u);
      var b := WrittenAs(env, s, v);
      SameButAuthority(u, v, a, b);
    }
  }

  lemma WrittenAs(env: Env, s: Backups, u: Uri) returns (a: string)
    requires Keyed(env, s)
    ensures env.digest(u.(authority := a)) == KeyOf(env, s, u)
  {
    if u in s.storageKeys {
      a :| env.digest(u.(authority := a)) == s.storageKeys[u];
    } else {
      a := u.authority;
      assert u.(authority := a) == u;
    }
  }

  lemma SameButAuthority(u: Uri, v: Uri, a: string, b: string)
    requires u.(authority := a) == v.(authority := b) && u.authority == v.authority
    ensures u == v
  {
  }

  lemma HomeDiffers(env: Env, s: Backups, u: Uri, v: Uri)
    requires env.Valid() && Keyed(env, s) && u != v
    ensures Home(env, u) != SlotOf(env, s, v)
  {
    if env.digest(u) == KeyOf(env, s, v) {
      var b := WrittenAs(env, s, v);
      assert u == v.(authority := b);
    }
  }

  // ----- backing up -----

  lemma WrittenContent(env: Env, r: Request, fate: Fate, files: map<Slot, Bytes>, slot: Slot)
    requires env.Valid()
    ensures ContentAt(env, files[slot := PayloadOf(env, r, fate)], slot) == Some(r.content)
  {
    DecodedEncoding(env.lib, Backup(r.identifier, r.meta, r.content, fate.baseline));
  }

  lemma FileBackupIsResolved(env: Env, s: Backups, r: Request, fate: Fate)
    requires env.Valid() && FileBackedUp(env, s, r, fate).1 == Done
    ensures ContentAt(env, FileBackedUp(env, s, r, fate).0.files, Home(env, r.Resource())) == Some(r.content)
  {
    WrittenContent(env, r, fate, s.files, Home(env, r.Resource()));
    if Migrates(env, s, r.Resource()) {
      assert OldSlot(s, r.Resource()) != Home(env, r.Resource());
    }
  }

  lemma FileBackupIsAtHome(env: Env, s: Backups, r: Request, fate: Fate)
    requires FileBackedUp(env, s, r, fate).1 == Done
    ensures SlotOf(env, FileBackedUp(env, s, r, fate).0, r.Resource()) == Home(env, r.Resource())
  {
  }

  /** A backup that succeeds is what resolving gives afterwards. */
  lemma BackupIsResolved(env: Env, s: Backups, r: Request, fate: Fate)
    requires Sound(env, s) && BackedUp(env, s, r, fate).1 == Done
    ensures Resolved(env, BackedUp(env, s, r, fate).0, r.Resource()) == Some(r.content)
  {
    if ScratchIdOf(r.Resource()).None? {
      FileBackupIsResolved(env, s, r, fate);
      FileBackupIsAtHome(env, s, r, fate);
    }
  }

  lemma ScratchIdsDiffer(u: Uri, v: Uri)
    requires ScratchIdOf(u).Some? && ScratchIdOf(u) == ScratchIdOf(v)
    ensures u == v
  {
  }

  /** Only the resource's current slot and the one it had before can change. */
  lemma FileBackupTouchesTwoSlots(env: Env, s: Backups, r: Request, fate: Fate, slot: Slot)
    requires slot != Home(env, r.Resource())
    requires Migrates(env, s, r.Resource()) ==> slot != OldSlot(s, r.Resource())
    ensures slot in FileBackedUp(env, s, r, fate).0.files <==> slot in s.files
    ensures slot in s.files ==> FileBackedUp(env, s, r, fate).0.files[slot] == s.files[slot]
  {
  }

  lemma FileBackupLeavesOthers(env: Env, s: Backups, r: Request, fate: Fate, v: Uri)
    requires Sound(env, s) && v != r.Resource()
    ensures ContentAt(env, FileBackedUp(env, s, r, fate).0.files, SlotOf(env, s, v)) == ContentAt(env, s.files, SlotOf(env, s, v))
  {
    HomeDiffers(env, s, r.Resource(), v);
    SlotsDiffer(env, s, r.Resource(), v);
    FileBackupTouchesTwoSlots(env, s, r, fate, SlotOf(env, s, v));
  }

  lemma FileBackupKeepsOthersKeys(env: Env, s: Backups, r: Request, fate: Fate, v: Uri)
    requires v != r.Resource()
    ensures KeyOf(env, FileBackedUp(env, s, r, fate).0, v) == KeyOf(env, s, v)
    ensures v in FileBackedUp(env, s, r, fate).0.index <==> v in s.index
    ensures v in s.index ==> FileBackedUp(env, s, r, fate).0.index[v] == s.index[v]
  {
  }

  lemma BackupKeepsOthersKeys(env: Env, s: Backups, r: Request, fate: Fate, v: Uri)
    requires v != r.Resource()
    ensures KeyOf(env, BackedUp(env, s, r, fate).0, v) == KeyOf(env, s, v)
    ensures v in BackedUp(env, s, r, fate).0.index <==> v in s.index
    ensures v in s.index ==> BackedUp(env, s, r, fate).0.index[v] == s.index[v]
  {
    FileBackupKeepsOthersKeys(env, s, r, fate, v);
  }

  /** Whatever becomes of it, no other resource is touched. */
  lemma BackupLeavesOthers(env: Env, s: Backups, r: Request, fate: Fate, v: Uri)
    requires Sound(env, s) && v != r.Resource()
    ensures Resolved(env, BackedUp(env, s, r, fate).0, v) == Resolved(env, s, v)
    ensures forall n :: HasBackup(BackedUp(env, s, r, fate).0, v, n) == HasBackup(s, v, n)
  {
    BackupKeepsOthersKeys(env, s, r, fate, v);
    if ScratchIdOf(v).Some? {
      BackupLeavesOtherScratch(env, s, r, fate, v);
    } else {
      BackupLeavesOtherFiles(env, s, r, fate, v);
    }
  }

  lemma BackupLeavesOtherScratch(env: Env, s: Backups, r: Request, fate: Fate, v: Uri)
    requires v != r.Resource() && ScratchIdOf(v).Some?
    ensures Resolved(env, BackedUp(env, s, r, fate).0, v) == Resolved(env, s, v)
  {
    if ScratchIdOf(r.Resource()) == ScratchIdOf(v) {
      ScratchIdsDiffer(r.Resource(), v);
    }
  }

  lemma BackupLeavesOtherFiles(env: Env, s: Backups, r: Request, fate: Fate, v: Uri)
    requires Sound(env, s) && v != r.Resource()
    ensures ContentAt(env, BackedUp(env, s, r, fate).0.files, SlotOf(env, s, v)) == ContentAt(env, s.files, SlotOf(env, s, v))
  {
    FileBackupLeavesOthers(env, s, r, fate, v);
  }

  /** A backup that fails or is cancelled, wherever it stops and whatever of it has taken effect in the
      stores, leaves the index, the keys, the roots and the discarded ids exactly as they were. */
  lemma FailedBackupRollsBack(env: Env, s: Backups, r: Request, fate: Fate)
    requires BackedUp(env, s, r, fate).1 != Done
    ensures BackedUp(env, s, r, fate).0.(files := s.files, scratch := s.scratch) == s
  {
  }

  /** How far the backup got: whether the write was sent. */
  predicate Sends(env: Env, r: Request, fate: Fate) {
    && !fate.cancelledFirst && fate.contentOk && !fate.cancelledLater
    && (if ScratchIdOf(r.Resource()).Some? then |r.content| <= MaxPayloadBytes
        else IsWorkspace(r.Resource()) && |PayloadOf(env, r, fate)| <= MaxPayloadBytes)
  }

  /** No rejected call took an effect that can be seen: a lost write hid behind an older key or wrote
      what was there, and a lost discard of the older entry removed nothing readable. */
  ghost predicate NothingSeen(env: Env, s: Backups, r: Request, fate: Fate) {
    var u := r.Resource();
    Sends(env, r, fate) ==>
      match fate.write
      case Refused => true
      case Lost => (ScratchIdOf(u).None? && Migrates(env, s, u)) || Resolved(env, s, u) == Some(r.content)
      case Accepted =>
        ScratchIdOf(u).None? && Migrates(env, s, u) && fate.discard.Lost? ==> Resolved(env, s, u).None?
  }

  lemma LostFileWrite(env: Env, s: Backups, r: Request, fate: Fate)
    requires env.Valid() && IsWorkspace(r.Resource()) && Sends(env, r, fate) && fate.write.Lost?
    ensures Resolved(env, BackedUp(env, s, r, fate).0, r.Resource())
         == if Migrates(env, s, r.Resource()) then Resolved(env, s, r.Resource()) else Some(r.content)
  {
    var u := r.Resource();
    WrittenContent(env, r, fate, s.files, Home(env, u));
    if Migrates(env, s, u) {
      assert SlotOf(env, s, u) != Home(env, u);
    }
  }

  lemma FailedMigration(env: Env, s: Backups, r: Request, fate: Fate)
    requires Rooted(s) && IsWorkspace(r.Resource()) && Sends(env, r, fate)
    requires fate.write.Accepted? && Migrates(env, s, r.Resource()) && !fate.discard.Accepted?
    ensures Resolved(env, BackedUp(env, s, r, fate).0, r.Resource())
         == if fate.discard.Lost? then None else Resolved(env, s, r.Resource())
  {
    var u := r.Resource();
    assert OldSlot(s, u) == SlotOf(env, s, u) != Home(env, u);
  }

  lemma NothingSent(env: Env, s: Backups, r: Request, fate: Fate)
    requires BackedUp(env, s, r, fate).1 != Done && !(Sends(env, r, fate) && fate.write.Took())
    ensures BackedUp(env, s, r, fate).0 == s
  {
  }

  lemma LostScratchWrite(env: Env, s: Backups, r: Request, fate: Fate)
    requires ScratchIdOf(r.Resource()).Some? && Sends(env, r, fate) && fate.write.Lost?
    ensures Resolved(env, BackedUp(env, s, r, fate).0, r.Resource()) == Some(r.content)
  {
  }

  /** Its resource resolves as before exactly if no rejected call took an effect that can be seen. */
  lemma FailedBackupResolvesExactly(env: Env, s: Backups, r: Request, fate: Fate)
    requires env.Valid() && Rooted(s) && BackedUp(env, s, r, fate).1 != Done
    ensures Resolved(env, BackedUp(env, s, r, fate).0, r.Resource()) == Resolved(env, s, r.Resource())
       <==> NothingSeen(env, s, r, fate)
  {
    if !(Sends(env, r, fate) && fate.write.Took()) {
      NothingSent(env, s, r, fate);
    } else if ScratchIdOf(r.Resource()).Some? {
      LostScratchWrite(env, s, r, fate);
    } else if fate.write.Lost? {
      LostFileWrite(env, s, r, fate);
    } else {
      MustHaveMigrated(env, s, r, fate);
      FailedMigration(env, s, r, fate);
    }
  }

  lemma MustHaveMigrated(env: Env, s: Backups, r: Request, fate: Fate)
    requires Sends(env, r, fate) && ScratchIdOf(r.Resource()).None? && fate.write.Accepted?
    requires BackedUp(env, s, r, fate).1 != Done
    ensures Migrates(env, s, r.Resource()) && !fate.discard.Accepted?
  {
  }

  /** A scratch write that took effect although rejected, after the file had been discarded, is beyond
      the reach of later discards: they take the file for gone and send nothing. */
  lemma LostScratchWriteStays(env: Env, s: Backups, r: Request, fate: Fate, answer: Answer)
    requires ScratchIdOf(r.Resource()).Some? && ScratchIdOf(r.Resource()).value in s.discarded
    requires Sends(env, r, fate) && fate.write.Lost?
    ensures var after := Discarded(env, BackedUp(env, s, r, fate).0, r.Resource(), answer);
      after.1 == Done && Resolved(env, after.0, r.Resource()) == Some(r.content)
  {
  }

  // ----- discarding -----

  lemma DiscardKeepsOthersKeys(env: Env, s: Backups, u: Uri, answer: Answer, v: Uri)
    requires v != u
    ensures KeyOf(env, Discarded(env, s, u, answer).0, v) == KeyOf(env, s, v)
    ensures v in Discarded(env, s, u, answer).0.index <==> v in s.index
    ensures v in s.index ==> Discarded(env, s, u, answer).0.index[v] == s.index[v]
  {
    DiscardIndexes(env, s, u, answer);
  }

  lemma DiscardLeavesOtherScratch(env: Env, s: Backups, u: Uri, answer: Answer, v: Uri)
    requires v != u && ScratchIdOf(v).Some?
    ensures Resolved(env, Discarded(env, s, u, answer).0, v) == Resolved(env, s, v)
  {
    if ScratchIdOf(u) == ScratchIdOf(v) {
      ScratchIdsDiffer(u, v);
    }
  }

  lemma DiscardTouchesOneSlot(env: Env, s: Backups, u: Uri, answer: Answer, slot: Slot)
    requires Rooted(s) && slot != SlotOf(env, s, u)
    ensures slot in Discarded(env, s, u, answer).0.files <==> slot in s.files
    ensures slot in s.files ==> Discarded(env, s, u, answer).0.files[slot] == s.files[slot]
  {
  }

  lemma DiscardLeavesOtherFiles(env: Env, s: Backups, u: Uri, answer: Answer, v: Uri)
    requires Sound(env, s) && v != u
    ensures ContentAt(env, Discarded(env, s, u, answer).0.files, SlotOf(env, s, v)) == ContentAt(env, s.files, SlotOf(env, s, v))
  {
    SlotsDiffer(env, s, u, v);
    DiscardTouchesOneSlot(env, s, u, answer, SlotOf(env, s, v));
  }

  lemma DiscardLeavesOthers(env: Env, s: Backups, u: Uri, answer: Answer, v: Uri)
    requires Sound(env, s) && v != u
    ensures Resolved(env, Discarded(env, s, u, answer).0, v) == Resolved(env, s, v)
    ensures forall n :: HasBackup(Discarded(env, s, u, answer).0, v, n) == HasBackup(s, v, n)
  {
    DiscardKeepsOthersKeys(env, s, u, answer, v);
    if ScratchIdOf(v).Some? {
      DiscardLeavesOtherScratch(env, s, u, answer, v);
    } else {
      DiscardLeavesOtherFiles(env, s, u, answer, v);
    }
  }

  /** A discard that fails leaves the index, the keys, the roots and the discarded ids as they were. */
  lemma FailedDiscardRollsBack(env: Env, s: Backups, u: Uri, answer: Answer)
    requires Discarded(env, s, u, answer).1 != Done
    ensures Discarded(env, s, u, answer).0.(files := s.files, scratch := s.scratch) == s
    ensures !answer.Lost? ==> Discarded(env, s, u, answer).0 == s
  {
  }

  /** Its resource resolves as before exactly unless the rejected call took effect on something. */
  lemma FailedDiscardResolvesExactly(env: Env, s: Backups, u: Uri, answer: Answer)
    requires Rooted(s) && Discarded(env, s, u, answer).1 != Done
    ensures Resolved(env, Discarded(env, s, u, answer).0, u) == Resolved(env, s, u)
       <==> answer.Refused? || Resolved(env, s, u).None?
  {
  }

  /** The slot that a discard of a workspace resource names. */
  function NamedSlot(env: Env, s: Backups, u: Uri): Slot {
    Slot(if u in s.storageRootIds then s.storageRootIds[u] else u.authority, KeyOf(env, s, u))
  }

  /** From any state at all: after a completed discard the resource resolves to nothing, unless it is a
      scratch file that is there although taken for discarded, or a workspace resource with a readable
      entry in its current slot, which is not the one named. */
  lemma DiscardEmptiesExactly(env: Env, s: Backups, u: Uri, answer: Answer)
    requires Discarded(env, s, u, answer).1 == Done
    ensures Resolved(env, Discarded(env, s, u, answer).0, u).None? <==>
      if ScratchIdOf(u).Some? then !(ScratchIdOf(u).value in s.discarded && ScratchIdOf(u).value in s.scratch)
      else !(IsWorkspace(u) && NamedSlot(env, s, u) != Home(env, u) && ContentAt(env, s.files, Home(env, u)).Some?)
  {
    if ScratchIdOf(u).Some? {
      ScratchDiscardEmpties(env, s, u, answer);
    } else {
      FileDiscardEmpties(env, s, u, answer);
    }
  }

  lemma ScratchDiscardEmpties(env: Env, s: Backups, u: Uri, answer: Answer)
    requires Discarded(env, s, u, answer).1 == Done && ScratchIdOf(u).Some?
    ensures var id := ScratchIdOf(u).value;
      Resolved(env, Discarded(env, s, u, answer).0, u).None? <==> !(id in s.discarded && id in s.scratch)
  {
  }

  lemma FileDiscardEmpties(env: Env, s: Backups, u: Uri, answer: Answer)
    requires Discarded(env, s, u, answer).1 == Done && ScratchIdOf(u).None?
    ensures Resolved(env, Discarded(env, s, u, answer).0, u).None?
       <==> !(IsWorkspace(u) && NamedSlot(env, s, u) != Home(env, u) && ContentAt(env, s.files, Home(env, u)).Some?)
  {
    if IsWorkspace(u) {
      ForgottenResolvesAtHome(env, s, u, answer);
    }
  }

  lemma ForgottenResolvesAtHome(env: Env, s: Backups, u: Uri, answer: Answer)
    requires Discarded(env, s, u, answer).1 == Done && ScratchIdOf(u).None? && IsWorkspace(u)
    ensures Resolved(env, Discarded(env, s, u, answer).0, u) == ContentAt(env, s.files - {NamedSlot(env, s, u)}, Home(env, u))
  {
  }

  /** With recorded roots and scratch ids as the service keeps them, only an old key is left of that. */
  lemma SoundDiscardEmptiesExactly(env: Env, s: Backups, u: Uri, answer: Answer)
    requires Rooted(s) && ScratchKnown(s) && Keyed(env, s) && Discarded(env, s, u, answer).1 == Done
    ensures Resolved(env, Discarded(env, s, u, answer).0, u).None?
       <==> !(ScratchIdOf(u).None? && Migrates(env, s, u) && ContentAt(env, s.files, Home(env, u)).Some?)
  {
    DiscardEmptiesExactly(env, s, u, answer);
  }

  /** Where every readable entry is the indexed one, that cannot be. */
  lemma SettledDiscardEmpties(env: Env, s: Backups, u: Uri, answer: Answer)
    requires Sound(env, s) && Settled(env, s) && Discarded(env, s, u, answer).1 == Done
    ensures Resolved(env, Discarded(env, s, u, answer).0, u).None?
  {
    SoundDiscardEmptiesExactly(env, s, u, answer);
    if Migrates(env, s, u) {
      NoSecondEntry(env, s, u);
    }
  }

  lemma NoSecondEntry(env: Env, s: Backups, u: Uri)
    requires env.Valid() && FilesKeyed(env, s.files) && Settled(env, s) && Migrates(env, s, u)
    ensures ContentAt(env, s.files, Home(env, u)).None?
  {
    assert SettledAt(env, s, Home(env, u));
    if ContentAt(env, s.files, Home(env, u)).Some? {
      HomeOwner(env, s.files, u);
    }
  }

  /** If a migration fails both ways, its new entry stays behind: a later discard removes the old one,
      and the resource then resolves to what the failed backup wrote. */
  lemma LeftoverComesBack(env: Env, s: Backups, r: Request, fate: Fate)
    requires Sound(env, s) && IsWorkspace(r.Resource()) && Migrates(env, s, r.Resource())
    requires !fate.cancelledFirst && fate.contentOk && !fate.cancelledLater && |PayloadOf(env, r, fate)| <= MaxPayloadBytes
    requires fate.write.Accepted? && fate.discard.Refused? && fate.undo.Refused?
    ensures BackedUp(env, s, r, fate).1 == Failed
    ensures var after := Discarded(env, BackedUp(env, s, r, fate).0, r.Resource(), Accepted);
      after.1 == Done && Resolved(env, after.0, r.Resource()) == Some(r.content)
  {
    FailedBothWays(env, s, r, fate);
    WrittenContent(env, r, fate, s.files, Home(env, r.Resource()));
    DiscardOfOldKey(env, s.(files := s.files[Home(env, r.Resource()) := PayloadOf(env, r, fate)]), r.Resource());
  }

  lemma FailedBothWays(env: Env, s: Backups, r: Request, fate: Fate)
    requires IsWorkspace(r.Resource()) && Migrates(env, s, r.Resource())
    requires !fate.cancelledFirst && fate.contentOk && !fate.cancelledLater && |PayloadOf(env, r, fate)| <= MaxPayloadBytes
    requires fate.write.Accepted? && fate.discard.Refused? && fate.undo.Refused?
    ensures BackedUp(env, s, r, fate) == (s.(files := s.files[Home(env, r.Resource()) := PayloadOf(env, r, fate)]), Failed)
  {
  }

  /** Discarding under an old key leaves what lies under the current one, and that is found next. */
  lemma DiscardOfOldKey(env: Env, s: Backups, u: Uri)
    requires IsWorkspace(u) && Migrates(env, s, u)
    ensures Discarded(env, s, u, Accepted).1 == Done
    ensures Resolved(env, Discarded(env, s, u, Accepted).0, u) == ContentAt(env, s.files, Home(env, u))
  {
  }

  lemma HomeOwner(env: Env, files: map<Slot, Bytes>, u: Uri)
    requires env.Valid() && FilesKeyed(env, files) && ContentAt(env, files, Home(env, u)).Some?
    ensures OwnerOf(env, files, Home(env, u)) == Some(u)
  {
    var owner := OwnerOf(env, files, Home(env, u));
    assert owner.Some?;
    assert Decoded(env.lib, files[Home(env, u)]).value.identifier.resource == u;
  }

  // ----- every operation keeps this -----

  lemma WrittenOwner(env: Env, files: map<Slot, Bytes>, r: Request, fate: Fate, slot: Slot)
    requires env.Valid()
    ensures Decoded(env.lib, PayloadOf(env, r, fate)).Some?
    ensures Decoded(env.lib, PayloadOf(env, r, fate)).value.identifier.resource == r.Resource()
  {
    DecodedEncoding(env.lib, Backup(r.identifier, r.meta, r.content, fate.baseline));
  }

  lemma WrittenFilesKeyed(env: Env, files: map<Slot, Bytes>, r: Request, fate: Fate)
    requires env.Valid() && FilesKeyed(env, files) && IsWorkspace(r.Resource())
    ensures FilesKeyed(env, files[Home(env, r.Resource()) := PayloadOf(env, r, fate)])
  {
    var u := r.Resource();
    var written := files[Home(env, u) := PayloadOf(env, r, fate)];
    WrittenOwner(env, files, r, fate, Home(env, u));
    assert OwnerOf(env, written, Home(env, u)) == Some(u);
    forall slot | slot != Home(env, u) && OwnerOf(env, written, slot).Some? ensures OwnerOf(env, files, slot) == OwnerOf(env, written, slot) {
    }
  }

  lemma FewerFilesKeyed(env: Env, files: map<Slot, Bytes>, slot: Slot)
    requires FilesKeyed(env, files)
    ensures FilesKeyed(env, files - {slot})
  {
    forall other | OwnerOf(env, files - {slot}, other).Some? ensures OwnerOf(env, files, other) == OwnerOf(env, files - {slot}, other) {
    }
  }

  ghost predicate SubFiles(some: map<Slot, Bytes>, files: map<Slot, Bytes>) {
    forall slot :: slot in some ==> slot in files && some[slot] == files[slot]
  }

  lemma SubFilesKeyed(env: Env, some: map<Slot, Bytes>, files: map<Slot, Bytes>)
    requires FilesKeyed(env, files) && SubFiles(some, files)
    ensures FilesKeyed(env, some)
  {
    forall slot | OwnerOf(env, some, slot).Some? ensures OwnerOf(env, files, slot) == OwnerOf(env, some, slot) {
    }
  }

  lemma FileBackupFiles(env: Env, s: Backups, r: Request, fate: Fate)
    ensures var after := FileBackedUp(env, s, r, fate).0.files;
      after == s.files || SubFiles(after, s.files[Home(env, r.Resource()) := PayloadOf(env, r, fate)])
  {
  }

  /** The files are as they were, or some of what they are with the payload under the current key. */
  lemma BackupFiles(env: Env, s: Backups, r: Request, fate: Fate)
    ensures var after := BackedUp(env, s, r, fate).0.files;
      after == s.files
      || (IsWorkspace(r.Resource()) && SubFiles(after, s.files[Home(env, r.Resource()) := PayloadOf(env, r, fate)]))
  {
    FileBackupFiles(env, s, r, fate);
  }

  lemma BackupKeepsFilesKeyed(env: Env, s: Backups, r: Request, fate: Fate)
    requires Sound(env, s)
    ensures FilesKeyed(env, BackedUp(env, s, r, fate).0.files)
  {
    var u, after := r.Resource(), BackedUp(env, s, r, fate).0.files;
    BackupFiles(env, s, r, fate);
    if after != s.files {
      WrittenFilesKeyed(env, s.files, r, fate);
      SubFilesKeyed(env, after, s.files[Home(env, u) := PayloadOf(env, r, fate)]);
    }
  }

  lemma FileBackupKeys(env: Env, s: Backups, r: Request, fate: Fate)
    ensures var u, after := r.Resource(), FileBackedUp(env, s, r, fate).0;
      || (after.storageKeys == s.storageKeys && after.storageRootIds == s.storageRootIds)
      || (after.storageKeys == s.storageKeys[u := env.digest(u)] && after.storageRootIds == s.storageRootIds[u := u.authority])
  {
  }

  /** The recorded keys and roots change together, to the current ones, or not at all. */
  lemma BackupKeys(env: Env, s: Backups, r: Request, fate: Fate)
    ensures var u, after := r.Resource(), BackedUp(env, s, r, fate).0;
      || (after.storageKeys == s.storageKeys && after.storageRootIds == s.storageRootIds)
      || (IsWorkspace(u) && after.storageKeys == s.storageKeys[u := env.digest(u)] && after.storageRootIds == s.storageRootIds[u := u.authority])
  {
    FileBackupKeys(env, s, r, fate);
  }

  lemma CurrentKeyFits(env: Env, u: Uri)
    ensures IsKeyFor(env, u, env.digest(u))
  {
    assert u.(authority := u.authority) == u;
  }

  lemma BackupKeepsKeys(env: Env, s: Backups, r: Request, fate: Fate)
    requires Rooted(s) && Keyed(env, s)
    ensures Rooted(BackedUp(env, s, r, fate).0) && Keyed(env, BackedUp(env, s, r, fate).0)
  {
    BackupKeys(env, s, r, fate);
    CurrentKeyFits(env, r.Resource());
  }

  lemma KeptIndexed(env: Env, s: Backups, r: Request, files: map<Slot, Bytes>)
    requires Indexed(s) && IsWorkspace(r.Resource())
    ensures Indexed(Kept(env, s, r, files))
  {
  }

  lemma ScratchKeptIndexed(s: Backups, u: Uri, e: Entry, after: Backups)
    requires Indexed(s) && ScratchIdOf(u).Some?
    requires after.index == s.index[u := e] && after.storageKeys == s.storageKeys && after.storageRootIds == s.storageRootIds
    ensures Indexed(after)
  {
  }

  lemma SameIndexed(s: Backups, after: Backups)
    requires Indexed(s) && after.(files := s.files, scratch := s.scratch) == s
    ensures Indexed(after)
  {
  }

  lemma BackupKeepsIndexed(env: Env, s: Backups, r: Request, fate: Fate)
    requires Indexed(s)
    ensures Indexed(BackedUp(env, s, r, fate).0)
  {
    var u, after := r.Resource(), BackedUp(env, s, r, fate).0;
    if BackedUp(env, s, r, fate).1 != Done {
      FailedBackupRollsBack(env, s, r, fate);
      SameIndexed(s, after);
    } else if ScratchIdOf(u).Some? {
      ScratchKeptIndexed(s, u, Entry(r.identifier, r.versionId), after);
    } else {
      KeptIndexed(env, s, r, after.files);
    }
  }

  lemma BackupKeepsScratch(env: Env, s: Backups, r: Request, fate: Fate)
    requires ScratchKnown(s) && (fate.write.Lost? ==> ScratchIdOf(r.Resource()).None?)
    ensures ScratchKnown(BackedUp(env, s, r, fate).0)
  {
  }

  lemma BackupKeepsSound(env: Env, s: Backups, r: Request, fate: Fate)
    requires Sound(env, s) && (fate.write.Lost? ==> ScratchIdOf(r.Resource()).None?)
    ensures Sound(env, BackedUp(env, s, r, fate).0)
  {
    BackupKeepsFilesKeyed(env, s, r, fate);
    BackupKeepsKeys(env, s, r, fate);
    BackupKeepsIndexed(env, s, r, fate);
    BackupKeepsScratch(env, s, r, fate);
  }

  lemma ForgottenIndexed(s: Backups, u: Uri)
    requires Indexed(s)
    ensures Indexed(Forgotten(s, u))
  {
  }

  lemma ForgottenKeyed(env: Env, s: Backups, u: Uri)
    requires Rooted(s) && Keyed(env, s)
    ensures Rooted(Forgotten(s, u)) && Keyed(env, Forgotten(s, u))
  {
  }

  lemma IndexOnlyForgotten(s: Backups, u: Uri)
    requires Indexed(s) && u !in s.storageKeys
    ensures Indexed(s.(index := s.index - {u}))
  {
  }

  /** The state but for the stores and the discarded ids. */
  function Books(s: Backups): Backups {
    s.(discarded := {}, files := map[], scratch := map[])
  }

  lemma ScratchDiscardIndexes(env: Env, s: Backups, u: Uri, answer: Answer)
    requires ScratchIdOf(u).Some?
    ensures var books := Books(Discarded(env, s, u, answer).0);
      books == Books(s) || books == Books(Forgotten(s, u)) || books == Books(s.(index := s.index - {u}))
  {
  }

  lemma FileDiscardIndexes(env: Env, s: Backups, u: Uri, answer: Answer)
    requires ScratchIdOf(u).None?
    ensures var books := Books(Discarded(env, s, u, answer).0); books == Books(s) || books == Books(Forgotten(s, u))
  {
  }

  /** A discard forgets the resource entirely, or takes it from the index only, or does nothing to the index. */
  lemma DiscardIndexes(env: Env, s: Backups, u: Uri, answer: Answer)
    ensures var books := Books(Discarded(env, s, u, answer).0);
      || books == Books(s) || books == Books(Forgotten(s, u))
      || (ScratchIdOf(u).Some? && books == Books(s.(index := s.index - {u})))
  {
    if ScratchIdOf(u).Some? {
      ScratchDiscardIndexes(env, s, u, answer);
    } else {
      FileDiscardIndexes(env, s, u, answer);
    }
  }

  lemma DiscardKeepsIndexed(env: Env, s: Backups, u: Uri, answer: Answer)
    requires Indexed(s) && Rooted(s) && Keyed(env, s)
    ensures Indexed(Discarded(env, s, u, answer).0) && Rooted(Discarded(env, s, u, answer).0) && Keyed(env, Discarded(env, s, u, answer).0)
  {
    DiscardIndexes(env, s, u, answer);
    ForgottenIndexed(s, u);
    ForgottenKeyed(env, s, u);
    if ScratchIdOf(u).Some? {
      IndexOnlyForgotten(s, u);
    }
    SameBooks(env, s, Discarded(env, s, u, answer).0);
    SameBooks(env, Forgotten(s, u), Discarded(env, s, u, answer).0);
    SameBooks(env, s.(index := s.index - {u}), Discarded(env, s, u, answer).0);
  }

  lemma SameBooks(env: Env, s: Backups, after: Backups)
    ensures Books(s) == Books(after) && Indexed(s) && Rooted(s) && Keyed(env, s) ==> Indexed(after) && Rooted(after) && Keyed(env, after)
  {
  }

  lemma DiscardKeepsScratch(env: Env, s: Backups, u: Uri, answer: Answer)
    requires ScratchKnown(s)
    ensures ScratchKnown(Discarded(env, s, u, answer).0)
  {
  }

  lemma DiscardKeepsSound(env: Env, s: Backups, u: Uri, answer: Answer)
    requires Sound(env, s)
    ensures Sound(env, Discarded(env, s, u, answer).0)
  {
    DiscardKeepsIndexed(env, s, u, answer);
    DiscardKeepsScratch(env, s, u, answer);
    DiscardFiles(env, s, u, answer);
    FewerFilesKeyed(env, s.files, SlotOf(env, s, u));
  }

  lemma DiscardFiles(env: Env, s: Backups, u: Uri, answer: Answer)
    requires Rooted(s)
    ensures Discarded(env, s, u, answer).0.files == s.files || Discarded(env, s, u, answer).0.files == s.files - {SlotOf(env, s, u)}
  {
    if ScratchIdOf(u).Some? {
      ScratchDiscardKeepsFiles(env, s, u, answer);
    } else {
      FileDiscardFiles(env, s, u, answer);
    }
  }

  lemma ScratchDiscardKeepsFiles(env: Env, s: Backups, u: Uri, answer: Answer)
    requires ScratchIdOf(u).Some?
    ensures Discarded(env, s, u, answer).0.files == s.files
  {
  }

  lemma FileDiscardFiles(env: Env, s: Backups, u: Uri, answer: Answer)
    requires Rooted(s) && ScratchIdOf(u).None?
    ensures Discarded(env, s, u, answer).0.files == s.files || Discarded(env, s, u, answer).0.files == s.files - {SlotOf(env, s, u)}
  {
  }

  lemma SettledElsewhere(env: Env, s: Backups, u: Uri, slot: Slot)
    requires Sound(env, s) && Settled(env, s) && OwnerOf(env, s.files, slot) == Some(u)
    ensures u in s.storageKeys && slot == SlotOf(env, s, u) && slot == OldSlot(s, u)
  {
    assert SettledAt(env, s, slot);
  }

  lemma FewerFilesSettled(env: Env, s: Backups, after: Backups, slot: Slot)
    requires Settled(env, s) && after.storageKeys == s.storageKeys
    requires slot in after.files ==> slot in s.files && after.files[slot] == s.files[slot]
    ensures SettledAt(env, after, slot)
  {
    assert SettledAt(env, s, slot);
    assert OwnerOf(env, after.files, slot).Some? ==> OwnerOf(env, s.files, slot) == OwnerOf(env, after.files, slot);
  }

  lemma OtherOwnerSettled(env: Env, s: Backups, after: Backups, slot: Slot, u: Uri)
    requires Settled(env, s) && (forall w :: w != u && w in s.storageKeys ==> w in after.storageKeys && after.storageKeys[w] == s.storageKeys[w])
    requires slot in after.files ==> slot in s.files && after.files[slot] == s.files[slot]
    requires OwnerOf(env, s.files, slot) != Some(u)
    ensures SettledAt(env, after, slot)
  {
    assert SettledAt(env, s, slot);
    assert OwnerOf(env, after.files, slot).Some? ==> OwnerOf(env, s.files, slot) == OwnerOf(env, after.files, slot);
  }

  lemma KeptSettlesHome(env: Env, s: Backups, r: Request, fate: Fate)
    requires Sound(env, s) && IsWorkspace(r.Resource()) && FileBackedUp(env, s, r, fate).1 == Done
    ensures SettledAt(env, FileBackedUp(env, s, r, fate).0, Home(env, r.Resource()))
  {
    WrittenOwner(env, s.files, r, fate, Home(env, r.Resource()));
    if Migrates(env, s, r.Resource()) {
      assert OldSlot(s, r.Resource()) != Home(env, r.Resource());
    }
  }

  lemma KeptSettlesElsewhere(env: Env, s: Backups, r: Request, fate: Fate, slot: Slot)
    requires Sound(env, s) && Settled(env, s) && FileBackedUp(env, s, r, fate).1 == Done && slot != Home(env, r.Resource())
    ensures SettledAt(env, FileBackedUp(env, s, r, fate).0, slot)
  {
    var u, after := r.Resource(), FileBackedUp(env, s, r, fate).0;
    if OwnerOf(env, s.files, slot) == Some(u) {
      SettledElsewhere(env, s, u, slot);
      assert slot !in after.files;
    } else {
      OtherOwnerSettled(env, s, after, slot, u);
    }
  }

  /** No rejected call takes effect after all, and a migration is either completed or undone. */
  predicate Told(fate: Fate) {
    !fate.write.Lost? && !fate.discard.Lost? && (fate.discard.Accepted? || fate.undo.Took())
  }

  /** With a migration that is either completed or undone, every readable entry stays the indexed one. */
  lemma BackupKeepsSettled(env: Env, s: Backups, r: Request, fate: Fate)
    requires Sound(env, s) && Settled(env, s) && Told(fate)
    ensures Settled(env, BackedUp(env, s, r, fate).0)
  {
    var after := BackedUp(env, s, r, fate).0;
    forall slot ensures SettledAt(env, after, slot) {
      if ScratchIdOf(r.Resource()).Some? || BackedUp(env, s, r, fate).1 != Done {
        FewerFilesSettled(env, s, after, slot);
      } else if slot == Home(env, r.Resource()) {
        KeptSettlesHome(env, s, r, fate);
      } else {
        KeptSettlesElsewhere(env, s, r, fate, slot);
      }
    }
  }

  lemma DiscardKeepsOtherKeys(env: Env, s: Backups, u: Uri, answer: Answer)
    ensures var after := Discarded(env, s, u, answer).0;
      forall w :: w != u && w in s.storageKeys ==> w in after.storageKeys && after.storageKeys[w] == s.storageKeys[w]
  {
  }

  lemma OwnSlotSettled(env: Env, s: Backups, u: Uri, answer: Answer, slot: Slot)
    requires Sound(env, s) && Settled(env, s) && OwnerOf(env, s.files, slot) == Some(u)
    ensures SettledAt(env, Discarded(env, s, u, answer).0, slot)
  {
    SettledElsewhere(env, s, u, slot);
    DiscardOfFile(env, s, u, answer);
    assert SettledAt(env, s, slot);
  }

  lemma DiscardSettles(env: Env, s: Backups, u: Uri, answer: Answer, slot: Slot)
    requires Sound(env, s) && Settled(env, s)
    ensures SettledAt(env, Discarded(env, s, u, answer).0, slot)
  {
    if OwnerOf(env, s.files, slot) == Some(u) {
      OwnSlotSettled(env, s, u, answer, slot);
    } else {
      DiscardFiles(env, s, u, answer);
      DiscardKeepsOtherKeys(env, s, u, answer);
      OtherOwnerSettled(env, s, Discarded(env, s, u, answer).0, slot, u);
    }
  }

  lemma DiscardOfFile(env: Env, s: Backups, u: Uri, answer: Answer)
    requires Rooted(s) && IsWorkspace(u)
    ensures Discarded(env, s, u, answer).0 == s || SlotOf(env, s, u) !in Discarded(env, s, u, answer).0.files
  {
  }

  lemma DiscardKeepsSettled(env: Env, s: Backups, u: Uri, answer: Answer)
    requires Sound(env, s) && Settled(env, s)
    ensures Settled(env, Discarded(env, s, u, answer).0)
  {
    forall slot ensures SettledAt(env, Discarded(env, s, u, answer).0, slot) {
      DiscardSettles(env, s, u, answer, slot);
    }
  }

  // ----- when an operation completes -----

  /** A backup completes exactly if its resource is a workspace file or a scratch file, nothing cancels it,
      its content can be read and is not above 8 MiB as stored, the write is accepted, and so is the discard
      of an entry under an older key. */
  lemma BackupCompletesExactly(env: Env, s: Backups, r: Request, fate: Fate)
    ensures BackedUp(env, s, r, fate).1 == Done <==>
      && !fate.cancelledFirst && fate.contentOk && !fate.cancelledLater && fate.write.Accepted?
      && if ScratchIdOf(r.Resource()).Some? then |r.content| <= 8388608
         else
           && IsWorkspace(r.Resource())
           && |Line(env.lib, Backup(r.identifier, r.meta, r.content, fate.baseline))| + |r.content| <= 8388608
           && (r.Resource() in s.storageKeys && s.storageKeys[r.Resource()] != env.digest(r.Resource()) ==> fate.discard.Accepted?)
    ensures BackedUp(env, s, r, fate).1 == Cancelled <==>
      && (ScratchIdOf(r.Resource()).Some? || IsWorkspace(r.Resource()))
      && (fate.cancelledFirst || (fate.contentOk && fate.cancelledLater))
  {
  }

  /** A discard completes exactly if the store agrees or is not asked: for a scratch file known to be gone
      and for a resource of neither kind that no root is recorded for. */
  lemma DiscardCompletesExactly(env: Env, s: Backups, u: Uri, answer: Answer)
    ensures Discarded(env, s, u, answer).1 == Done <==>
      || answer.Accepted?
      || (if ScratchIdOf(u).Some? then ScratchIdOf(u).value in s.discarded else !IsWorkspace(u) && u !in s.storageRootIds)
    ensures Discarded(env, s, u, answer).1 != Cancelled
  {
  }

  /** A scratch file that was discarded, by itself or with everything else, is not discarded again: a later
      discard completes without asking the store, whatever it would have answered. */
  lemma ScratchIsDiscardedOnce(env: Env, s: Backups, u: Uri, answer: Answer, files: Answer, later: Answer)
    requires ScratchIdOf(u).Some?
    ensures var (after, outcome) := Discarded(env, s, u, answer);
      outcome == Done ==> Discarded(env, after, u, later) == (after.(index := after.index - {u}), Done) && u !in after.index
    ensures u in s.index ==>
      var all := AllDiscarded(s, files, Accepted).0; Discarded(env, all, u, later) == (all.(index := all.index - {u}), Done)
  {
  }

  /** The resources of workspace files: a root, a path below it, and nothing more. */
  lemma WorkspaceResourcesExactly(u: Uri)
    ensures IsWorkspace(u) <==>
      exists rootId, name :: rootId != "" && name != "" && u == Uri("plain-workspace", rootId, "/" + name, "", "")
    ensures IsWorkspace(u) ==> ScratchIdOf(u).None?
  {
    if IsWorkspace(u) {
      assert u.path == "/" + u.path[1..];
    }
  }

  // ----- the map -----

  /** The map that `resolve` answers from. */
  ghost predicate Represents(env: Env, s: Backups, m: map<Uri, Bytes>) {
    forall u :: Resolved(env, s, u) == Lookup(m, u)
  }

  lemma BackupRepresents(env: Env, s: Backups, r: Request, fate: Fate, m: map<Uri, Bytes>)
    requires Sound(env, s) && Represents(env, s, m) && NothingSeen(env, s, r, fate)
    ensures Represents(env, BackedUp(env, s, r, fate).0, if BackedUp(env, s, r, fate).1 == Done then m[r.Resource() := r.content] else m)
  {
    forall v ensures v != r.Resource() ==> Resolved(env, BackedUp(env, s, r, fate).0, v) == Resolved(env, s, v) {
      if v != r.Resource() {
        BackupLeavesOthers(env, s, r, fate, v);
      }
    }
    if BackedUp(env, s, r, fate).1 == Done {
      BackupIsResolved(env, s, r, fate);
    } else {
      FailedBackupResolvesExactly(env, s, r, fate);
    }
  }

  lemma DiscardRepresents(env: Env, s: Backups, u: Uri, answer: Answer, m: map<Uri, Bytes>)
    requires Sound(env, s) && Settled(env, s) && Represents(env, s, m) && (answer.Lost? ==> Resolved(env, s, u).None?)
    ensures Represents(env, Discarded(env, s, u, answer).0, if Discarded(env, s, u, answer).1 == Done then m - {u} else m)
  {
    forall v ensures Resolved(env, Discarded(env, s, u, answer).0, v)
      == if v == u && Discarded(env, s, u, answer).1 == Done then None else Resolved(env, s, v)
    {
      if v == u {
        DiscardedResolves(env, s, u, answer);
      } else {
        DiscardLeavesOthers(env, s, u, answer, v);
      }
    }
  }

  lemma DiscardedResolves(env: Env, s: Backups, u: Uri, answer: Answer)
    requires Sound(env, s) && Settled(env, s) && (answer.Lost? ==> Resolved(env, s, u).None?)
    ensures Resolved(env, Discarded(env, s, u, answer).0, u)
         == if Discarded(env, s, u, answer).1 == Done then None else Resolved(env, s, u)
  {
    if Discarded(env, s, u, answer).1 == Done {
      SettledDiscardEmpties(env, s, u, answer);
    } else {
      FailedDiscardResolvesExactly(env, s, u, answer);
    }
  }
}
