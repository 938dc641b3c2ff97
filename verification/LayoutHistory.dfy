/** What the disk holds, told from the edits alone. */
module LayoutHistory {
  import opened Options
  import opened LayoutKeys
  import opened LayoutStorage

  function EntryIn(entries: Entries, k: EntryKey): Option<string> {
    if k in entries then Some(entries[k]) else None
  }

  predicate StoresAt(a: Action, k: EntryKey) {
    a.Store? && a.scope == Some(k.scope) && a.key == k.key && a.stored.Some?
  }

  predicate RemovesAt(a: Action, k: EntryKey) {
    a.Remove? && a.scope == Some(k.scope) && a.key == k.key
  }

  /** The entry of a key after a run: only edits of that key matter, and the last one decides. */
  function EntryAfter(first: Option<string>, actions: seq<Action>, k: EntryKey): Option<string> {
    if actions == [] then first
    else
      var most, a := EntryAfter(first, actions[..|actions| - 1], k), actions[|actions| - 1];
      if StoresAt(a, k) && IsPlainLayoutStorageKey(k.scope, k.key) then a.stored
      else if RemovesAt(a, k) && IsPlainLayoutStorageKey(k.scope, k.key) then None
      else most
  }

  /** What one edit does to one entry. */
  lemma EditedEntry(s: Storage, a: Action, k: EntryKey)
    requires a.Store? || a.Remove?
    ensures EntryIn(Next(s, a).persisted, k)
         == if !IsPlainLayoutStorageKey(k.scope, k.key) then EntryIn(s.persisted, k)
            else if StoresAt(a, k) then a.stored
            else if RemovesAt(a, k) then None
            else EntryIn(s.persisted, k)
  {
    match a
    case Store(scope, key, stored) =>
      if scope.Some? && stored.Some? {
        assert EntryIn(s.persisted[EntryKey(scope.value, key) := stored.value], k)
            == if EntryKey(scope.value, key) == k then stored else EntryIn(s.persisted, k);
      }
    case Remove(scope, key) =>
      if scope.Some? {
        assert EntryIn(s.persisted - {EntryKey(scope.value, key)}, k) == if EntryKey(scope.value, key) == k then None else EntryIn(s.persisted, k);
      }
  }

  /** It counts as one edit and sets the timer. */
  lemma EditCounts(s: Storage, a: Action, k: EntryKey)
    requires (StoresAt(a, k) || RemovesAt(a, k)) && IsPlainLayoutStorageKey(k.scope, k.key)
    ensures Next(s, a).mutation == s.mutation + 1 && Next(s, a).timer
  {
  }

  /** No other action edits anything. */
  lemma OthersKeepEntries(s: Storage, a: Action)
    ensures !a.Store? && !a.Remove? ==> Next(s, a).mutation == s.mutation && Next(s, a).persisted == s.persisted
    ensures Next(s, a).workspaceAvailable == s.workspaceAvailable
  {
  }

  /** In every interleaving the entries in memory are those the edits say. */
  lemma {:induction false} EntriesAreTheEdits(s: Storage, actions: seq<Action>, k: EntryKey)
    ensures EntryIn(Run(s, actions).persisted, k) == EntryAfter(EntryIn(s.persisted, k), actions, k)
    ensures Run(s, actions).workspaceAvailable == s.workspaceAvailable
  {
    if actions != [] {
      var most, a := actions[..|actions| - 1], actions[|actions| - 1];
      EntriesAreTheEdits(s, most, k);
      OthersKeepEntries(Run(s, most), a);
      if a.Store? || a.Remove? {
        EditedEntry(Run(s, most), a, k);
      }
    }
  }

  /** And once all is flushed, so is the disk, but for workspace entries when there is no workspace. */
  lemma DiskIsTheEdits(s: Storage, actions: seq<Action>, k: EntryKey)
    requires Initial(s) && Run(s, actions).flushed == Run(s, actions).mutation
    ensures EntryIn(Run(s, actions).durable, k)
         == if k.scope.Profile? || s.workspaceAvailable then EntryAfter(EntryIn(s.persisted, k), actions, k) else None
  {
    FlushedAgreesWithDisk(s, actions);
    EntriesAreTheEdits(s, actions, k);
  }

  ghost predicate NeverStored(actions: seq<Action>, k: EntryKey) {
    forall a :: a in actions ==> !StoresAt(a, k)
  }

  ghost predicate NeverRemoved(actions: seq<Action>, k: EntryKey) {
    forall a :: a in actions ==> !RemovesAt(a, k)
  }

  lemma {:induction false} StaysRemoved(first: Option<string>, actions: seq<Action>, more: seq<Action>, k: EntryKey)
    requires EntryAfter(first, actions, k) == None && NeverStored(more, k)
    ensures EntryAfter(first, actions + more, k) == None
    decreases |more|
  {
    if more == [] {
      assert actions + more == actions;
    } else {
      var n := |more| - 1;
      assert (actions + more)[..|actions + more| - 1] == actions + more[..n];
      assert more[n] in more && forall a :: a in more[..n] ==> a in more;
      StaysRemoved(first, actions, more[..n], k);
    }
  }

  lemma {:induction false} StaysStored(first: Option<string>, actions: seq<Action>, more: seq<Action>, k: EntryKey)
    requires NeverStored(more, k) && NeverRemoved(more, k)
    ensures EntryAfter(first, actions + more, k) == EntryAfter(first, actions, k)
    decreases |more|
  {
    if more == [] {
      assert actions + more == actions;
    } else {
      var n := |more| - 1;
      assert (actions + more)[..|actions + more| - 1] == actions + more[..n];
      assert more[n] in more && forall a :: a in more[..n] ==> a in more;
      StaysStored(first, actions, more[..n], k);
    }
  }

  /** An entry removed, and not stored again, is not on disk once all is flushed, whatever the timers,
      flushes and writes in between have done. */
  lemma RemovedIsGone(s: Storage, actions: seq<Action>, k: EntryKey, more: seq<Action>)
    requires Initial(s) && NeverStored(more, k)
    requires var r := Run(s, actions + [Remove(Some(k.scope), k.key)] + more); r.flushed == r.mutation
    ensures k !in Run(s, actions + [Remove(Some(k.scope), k.key)] + more).durable
  {
    var removed, first := actions + [Remove(Some(k.scope), k.key)], EntryIn(s.persisted, k);
    assert removed[..|actions|] == actions;
    if IsPlainLayoutStorageKey(k.scope, k.key) {
      StaysRemoved(first, removed, more, k);
    } else {
      NeverThere(removed + more, k);
    }
    DiskIsTheEdits(s, removed + more, k);
  }

  lemma {:induction false} NeverThere(actions: seq<Action>, k: EntryKey)
    requires !IsPlainLayoutStorageKey(k.scope, k.key)
    ensures EntryAfter(None, actions, k) == None
  {
    if actions != [] {
      NeverThere(actions[..|actions| - 1], k);
    }
  }

  /** An entry stored under an allowed key, and not edited again, is on disk once all is flushed. */
  lemma StoredIsOnDisk(s: Storage, actions: seq<Action>, k: EntryKey, value: string, more: seq<Action>)
    requires Initial(s) && NeverStored(more, k) && NeverRemoved(more, k) && IsPlainLayoutStorageKey(k.scope, k.key)
    requires k.scope.Profile? || s.workspaceAvailable
    requires var r := Run(s, actions + [Store(Some(k.scope), k.key, Some(value))] + more); r.flushed == r.mutation
    ensures EntryIn(Run(s, actions + [Store(Some(k.scope), k.key, Some(value))] + more).durable, k) == Some(value)
  {
    var stored, first := actions + [Store(Some(k.scope), k.key, Some(value))], EntryIn(s.persisted, k);
    assert stored[..|actions|] == actions;
    StaysStored(first, stored, more, k);
    DiskIsTheEdits(s, stored + more, k);
  }
}
