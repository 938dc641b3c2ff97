/** Resources of untitled documents, whose authority is the id of a scratch file. */
module ScratchIds {
  import opened Options
  import opened BackupCodec

  predicate AllHex(text: string) {
    forall i :: 0 <= i < |text| ==> IsHexDigit(text[i])
  }

  /** Eight, four, four, four and twelve digits; a version 4 UUID in lower case. */
  predicate IsScratchId(id: string) {
    && |id| == 36
    && id[8] == '-' && id[13] == '-' && id[18] == '-' && id[23] == '-'
    && id[14] == '4' && id[19] in {'8', '9', 'a', 'b'}
    && AllHex(id[..8]) && AllHex(id[9..13]) && AllHex(id[15..18]) && AllHex(id[20..23]) && AllHex(id[24..])
  }

  /** Character by character. */
  lemma ScratchIdExactly(id: string)
    ensures IsScratchId(id) <==> |id| == 36 && forall i :: 0 <= i < 36 ==> FitsUuid(i, id[i])
  {
    if IsScratchId(id) {
      forall i | 0 <= i < 36 ensures FitsUuid(i, id[i]) {
        HexAt(id, i);
      }
    } else if |id| == 36 && forall i :: 0 <= i < 36 ==> FitsUuid(i, id[i]) {
      FitsFully(id);
    }
  }

  predicate FitsUuid(i: nat, c: char) {
    if i in [8, 13, 18, 23] then c == '-'
    else if i == 14 then c == '4'
    else if i == 19 then c in "89ab"
    else '0' <= c <= '9' || 'a' <= c <= 'f'
  }

  lemma HexAt(id: string, i: nat)
    requires IsScratchId(id) && i < 36
    ensures i !in [8, 13, 14, 18, 19, 23] ==> IsHexDigit(id[i])
  {
    if i < 8 {
      assert id[..8][i] == id[i];
    } else if 9 <= i < 13 {
      assert id[9..13][i - 9] == id[i];
    } else if 15 <= i < 18 {
      assert id[15..18][i - 15] == id[i];
    } else if 20 <= i < 23 {
      assert id[20..23][i - 20] == id[i];
    } else if 24 <= i {
      assert id[24..][i - 24] == id[i];
    }
  }

  lemma FitsFully(id: string)
    requires |id| == 36 && forall i :: 0 <= i < 36 ==> FitsUuid(i, id[i])
    ensures IsScratchId(id)
  {
    assert FitsUuid(8, id[8]) && FitsUuid(13, id[13]) && FitsUuid(18, id[18]) && FitsUuid(23, id[23]);
    assert FitsUuid(14, id[14]) && FitsUuid(19, id[19]);
  }

  function HexValue(text: string): nat
    requires AllHex(text)
  {
    if text == [] then 0
    else
      var c := text[|text| - 1];
      16 * HexValue(text[..|text| - 1]) + (if c <= '9' then c as int - '0' as int else c as int - 'a' as int + 10)
  }

  function Decimal(n: nat): string {
    (if n < 10 then [] else Decimal(n / 10)) + [('0' as int + n % 10) as char]
  }

  function ResourceFor(id: string): Uri
    requires IsScratchId(id)
  {
    Uri("untitled", id, "/Untitled-" + Decimal(HexValue(id[..8]) + 1), "", "")
  }

  function ScratchIdOf(u: Uri): Option<string> {
    if u.scheme != "untitled" || !IsScratchId(u.authority) || u.query != "" || u.fragment != "" then None
    else if u.path == ResourceFor(u.authority).path then Some(u.authority) else None
  }

  /** The number that decimal digits stand for. */
  function DecimalValue(text: string): int {
    if text == [] then 0 else 10 * DecimalValue(text[..|text| - 1]) + (text[|text| - 1] as int - '0' as int)
  }

  lemma {:induction false} DecimalReadsBack(n: nat)
    ensures DecimalValue(Decimal(n)) == n && Decimal(n) != []
    ensures forall c :: c in Decimal(n) ==> '0' <= c <= '9'
    ensures Decimal(n)[0] == '0' <==> n == 0
  {
    if n >= 10 {
      DecimalReadsBack(n / 10);
      assert Decimal(n)[..|Decimal(n)| - 1] == Decimal(n / 10);
    }
  }

  /** An untitled document is numbered from one, in decimal, by the first eight digits of its id. */
  lemma UntitledNumber(id: string)
    requires IsScratchId(id)
    ensures var u := ResourceFor(id);
      && u.scheme == "untitled" && u.authority == id && u.query == u.fragment == ""
      && |u.path| > 10 && u.path[..10] == "/Untitled-" && DecimalValue(u.path[10..]) == 1 + HexValue(id[..8]) && u.path[10] != '0'
  {
    DecimalReadsBack(HexValue(id[..8]) + 1);
  }

  /** The digits 0 to 9 and a to f stand for zero to fifteen, the first ones counting most. */
  lemma HexDigitsCount(text: string, digit: nat)
    requires AllHex(text) && digit < 16
    ensures var c := if digit < 10 then ('0' as int + digit) as char else ('a' as int + digit - 10) as char;
      AllHex(text + [c]) && HexValue(text + [c]) == 16 * HexValue(text) + digit
    ensures HexValue([]) == 0
  {
    var c := if digit < 10 then ('0' as int + digit) as char else ('a' as int + digit - 10) as char;
    assert (text + [c])[..|text|] == text;
  }

  /** The two are inverse to each other. */
  lemma ScratchResourcesRoundTrip(u: Uri, id: string)
    requires IsScratchId(id)
    ensures ScratchIdOf(u) == Some(id) <==> u == ResourceFor(id)
  {
  }
}

/** The backup service: an index in memory over two stores that have nothing in common, the backups of
    workspace files and the scratch files. */
module BackupService {
  import opened Options
  import opened ByteStrings
  import opened BackupCodec
  import opened ScratchIds

  datatype Entry = Entry(identifier: Identifier, versionId: Option<int>)

  /** Where a workspace backup is stored. */
  datatype Slot = Slot(rootId: string, key: string)

  /** `files` and `scratch` are the two stores behind the bridge. */
  datatype Backups = Backups(index: map<Uri, Entry>, storageKeys: map<Uri, string>, storageRootIds: map<Uri, string>,
                             discarded: set<string>, files: map<Slot, Bytes>, scratch: map<string, Bytes>)

  /** The codec's library and the digest of a resource's text. */
  datatype Env = Env(lib: Library, digest: Uri -> string)
  {
    ghost predicate Valid() {
      lib.Valid() && forall u, v :: digest(u) == digest(v) ==> u == v
    }
  }

  predicate IsWorkspace(u: Uri) {
    && u.scheme == "plain-workspace" && u.authority != "" && u.query == "" && u.fragment == ""
    && |u.path| >= 2 && u.path[0] == '/'
  }

  datatype Outcome = Done | Cancelled | Failed

  // ----- reading -----

  function KeyOf(env: Env, s: Backups, u: Uri): string {
    if u in s.storageKeys then s.storageKeys[u] else env.digest(u)
  }

  function SlotOf(env: Env, s: Backups, u: Uri): Slot {
    Slot(u.authority, KeyOf(env, s, u))
  }

  function Home(env: Env, u: Uri): Slot {
    Slot(u.authority, env.digest(u))
  }

  function ContentAt(env: Env, files: map<Slot, Bytes>, slot: Slot): Option<Bytes> {
    if slot !in files then None
    else
      var decoded := Decoded(env.lib, files[slot]);
      if decoded.None? then None else Some(decoded.value.content)
  }

  /** The bytes that `resolve` gives for a resource. */
  function Resolved(env: Env, s: Backups, u: Uri): Option<Bytes> {
    if ScratchIdOf(u).Some? then
      var id := ScratchIdOf(u).value;
      if id in s.scratch then Some(s.scratch[id]) else None
    else if IsWorkspace(u) then ContentAt(env, s.files, SlotOf(env, s, u))
    else None
  }

  predicate HasBackup(s: Backups, u: Uri, versionId: Option<int>) {
    u in s.index && (versionId.None? || s.index[u].versionId == versionId)
  }

  // ----- backing up -----

  /** A call to a store succeeds, or is rejected with nothing done, or is rejected although it took
      effect. */
  datatype Answer = Accepted | Refused | Lost
  {
    predicate Took() { !Refused? }
  }

  /** How the calls made during one backup turn out. */
  datatype Fate = Fate(cancelledFirst: bool, contentOk: bool, cancelledLater: bool, baseline: Option<string>,
                       write: Answer, discard: Answer, undo: Answer)

  datatype Request = Request(identifier: Identifier, content: Bytes, versionId: Option<int>, meta: Option<Object>)
  {
    function Resource(): Uri { identifier.resource }
  }

  function PayloadOf(env: Env, r: Request, fate: Fate): Bytes {
    Line(env.lib, Backup(r.identifier, r.meta, r.content, fate.baseline)) + r.content
  }

  function OldSlot(s: Backups, u: Uri): Slot
    requires u in s.storageKeys
  {
    Slot(if u in s.storageRootIds then s.storageRootIds[u] else u.authority, s.storageKeys[u])
  }

  predicate Migrates(env: Env, s: Backups, u: Uri) {
    u in s.storageKeys && s.storageKeys[u] != env.digest(u)
  }

  function Kept(env: Env, s: Backups, r: Request, files: map<Slot, Bytes>): Backups {
    var u := r.Resource();
    s.(index := s.index[u := Entry(r.identifier, r.versionId)],
       storageKeys := s.storageKeys[u := env.digest(u)],
       storageRootIds := s.storageRootIds[u := u.authority],
       files := files)
  }

  /** What is done to the files: write under the current key, then discard what lay under an older one,
      and if that fails discard the new entry again. */
  function FileEffect(env: Env, s: Backups, r: Request, fate: Fate): (map<Slot, Bytes>, Outcome) {
    var u := r.Resource();
    var payload := PayloadOf(env, r, fate);
    if |payload| > MaxPayloadBytes then (s.files, Failed)
    else
      var written := if fate.write.Took() then s.files[Home(env, u) := payload] else s.files;
      if !fate.write.Accepted? then (written, Failed)
      else if !Migrates(env, s, u) then (written, Done)
      else
        var moved := if fate.discard.Took() then written - {OldSlot(s, u)} else written;
        if fate.discard.Accepted? then (moved, Done)
        else (if fate.undo.Took() then moved - {Home(env, u)} else moved, Failed)
  }

  /** The new state in net terms: what is set optimistically and taken back does not appear. */
  function FileBackedUp(env: Env, s: Backups, r: Request, fate: Fate): (Backups, Outcome) {
    var (files, outcome) := FileEffect(env, s, r, fate);
    (if outcome == Done then Kept(env, s, r, files) else s.(files := files), outcome)
  }

  function ScratchBackedUp(s: Backups, r: Request, id: string, fate: Fate): (Backups, Outcome) {
    if |r.content| > MaxPayloadBytes then (s, Failed)
    else
      var scratch := if fate.write.Took() then s.scratch[id := r.content] else s.scratch;
      if !fate.write.Accepted? then (s.(scratch := scratch), Failed)
      else
        (s.(index := s.index[r.Resource() := Entry(r.identifier, r.versionId)], discarded := s.discarded - {id},
            scratch := scratch), Done)
  }

  function BackedUp(env: Env, s: Backups, r: Request, fate: Fate): (Backups, Outcome) {
    var u := r.Resource();
    if ScratchIdOf(u).None? && !IsWorkspace(u) then (s, Failed)
    else if fate.cancelledFirst then (s, Cancelled)
    else if !fate.contentOk then (s, Failed)
    else if fate.cancelledLater then (s, Cancelled)
    else Stored(env, s, r, fate)
  }

  function Stored(env: Env, s: Backups, r: Request, fate: Fate): (Backups, Outcome) {
    var id := ScratchIdOf(r.Resource());
    if id.Some? then ScratchBackedUp(s, r, id.value, fate) else FileBackedUp(env, s, r, fate)
  }

  lemma ScratchStoredIndex(s: Backups, r: Request, id: string, fate: Fate, index: map<Uri, Entry>)
    ensures ScratchBackedUp(s.(index := index), r, id, fate).1 == ScratchBackedUp(s, r, id, fate).1
    ensures ScratchBackedUp(s.(index := index), r, id, fate).0.(index := s.index) == ScratchBackedUp(s, r, id, fate).0.(index := s.index)
  {
  }

  lemma EffectIgnoresIndex(env: Env, s: Backups, r: Request, fate: Fate, index: map<Uri, Entry>)
    ensures FileEffect(env, s.(index := index), r, fate) == FileEffect(env, s, r, fate)
  {
  }

  /** Storing sets the index entry if it succeeds, and does not look at the index. */
  lemma StoredIndex(env: Env, s: Backups, r: Request, fate: Fate, index: map<Uri, Entry>)
    ensures Stored(env, s.(index := index), r, fate).1 == Stored(env, s, r, fate).1
    ensures Stored(env, s.(index := index), r, fate).0.(index := s.index) == Stored(env, s, r, fate).0.(index := s.index)
    ensures Stored(env, s, r, fate).0.index
         == if Stored(env, s, r, fate).1 == Done then s.index[r.Resource() := Entry(r.identifier, r.versionId)] else s.index
  {
    var id := ScratchIdOf(r.Resource());
    if id.Some? {
      ScratchStoredIndex(s, r, id.value, fate, index);
    } else {
      EffectIgnoresIndex(env, s, r, fate, index);
    }
  }

  // ----- discarding -----

  function Forgotten(s: Backups, u: Uri): Backups {
    s.(index := s.index - {u}, storageKeys := s.storageKeys - {u}, storageRootIds := s.storageRootIds - {u})
  }

  function Discarded(env: Env, s: Backups, u: Uri, answer: Answer): (Backups, Outcome) {
    if ScratchIdOf(u).Some? then
      var id := ScratchIdOf(u).value;
      var scratch := if answer.Took() then s.scratch - {id} else s.scratch;
      if id in s.discarded then (s.(index := s.index - {u}), Done)
      else if !answer.Accepted? then (s.(scratch := scratch), Failed)
      else (Forgotten(s, u).(discarded := s.discarded + {id}, scratch := scratch), Done)
    else if u !in s.storageRootIds && !IsWorkspace(u) then (Forgotten(s, u), Done)
    else
      var rootId := if u in s.storageRootIds then s.storageRootIds[u] else u.authority;
      var files := if answer.Took() then s.files - {Slot(rootId, KeyOf(env, s, u))} else s.files;
      if !answer.Accepted? then (s.(files := files), Failed) else (Forgotten(s, u).(files := files), Done)
  }

  // ----- discarding everything -----

  /** Takes one store's resources out of the index. */
  function WithoutDomain(s: Backups, workspace: bool): Backups {
    var gone := set u | u in s.index && (if workspace then IsWorkspace(u) else ScratchIdOf(u).Some?);
    s.(index := s.index - gone, storageKeys := s.storageKeys - gone, storageRootIds := s.storageRootIds - gone)
  }

  /** Both stores are asked; each one's answer is acted on by itself. */
  function AllDiscarded(s: Backups, files: Answer, scratch: Answer): (Backups, Outcome) {
    var ids := set u | u in s.index && ScratchIdOf(u).Some? :: ScratchIdOf(u).value;
    var s1 := s.(files := if files.Took() then map[] else s.files, scratch := if scratch.Took() then map[] else s.scratch);
    var s2 := if files.Accepted? then WithoutDomain(s1, true) else s1;
    var s3 := if scratch.Accepted? then WithoutDomain(s2.(discarded := s2.discarded + ids), false) else s2;
    (s3, if files.Accepted? && scratch.Accepted? then Done else Failed)
  }

  /** One after the other, up to the first that fails. */
  function DiscardedEach(env: Env, s: Backups, targets: seq<Uri>, answers: seq<Answer>): (Backups, Outcome)
    requires |targets| == |answers|
  {
    if targets == [] then (s, Done)
    else
      var n := |targets| - 1;
      var (before, outcome) := DiscardedEach(env, s, targets[..n], answers[..n]);
      if outcome != Done then (before, outcome) else Discarded(env, before, targets[n], answers[n])
  }

  // ----- reading the stores again -----

  /** The resource that a stored entry is a backup of now: the root that owns it must be open, and
      replaces the authority it was written with. Without a snapshot of the roots it is left as written. */
  function CurrentResource(stored: Uri, rootId: string, roots: Option<set<string>>): Option<Uri> {
    if stored.scheme != "plain-workspace" then None
    else if roots.None? then Some(stored)
    else if rootId !in roots.value then None
    else Some(stored.(authority := rootId))
  }

  function VersionIn(previous: map<Uri, Entry>, u: Uri): Option<int> {
    if u in previous then previous[u].versionId else None
  }

  function FileIndexed(env: Env, s: Backups, previous: map<Uri, Entry>, slot: Slot, roots: Option<set<string>>): Backups {
    if slot !in s.files || Decoded(env.lib, s.files[slot]).None? then s
    else
      var identifier := Decoded(env.lib, s.files[slot]).value.identifier;
      var resource := CurrentResource(identifier.resource, slot.rootId, roots);
      if resource.None? then s
      else
        var u := resource.value;
        s.(index := s.index[u := Entry(Identifier(u, identifier.typeId), VersionIn(previous, u))],
           storageKeys := s.storageKeys[u := slot.key],
           storageRootIds := s.storageRootIds[u := slot.rootId])
  }

  function FilesIndexed(env: Env, s: Backups, previous: map<Uri, Entry>, slots: seq<Slot>, roots: Option<set<string>>): Backups {
    if slots == [] then s
    else FileIndexed(env, FilesIndexed(env, s, previous, slots[..|slots| - 1], roots), previous, slots[|slots| - 1], roots)
  }

  function ScratchIndexed(s: Backups, previous: map<Uri, Entry>, ids: seq<string>): Backups
    requires forall id :: id in ids ==> IsScratchId(id)
  {
    if ids == [] then s
    else
      assert forall id :: id in ids[..|ids| - 1] ==> id in ids;
      var most, id := ScratchIndexed(s, previous, ids[..|ids| - 1]), ids[|ids| - 1];
      OneScratchIndexed(most, previous, id)
  }

  function OneScratchIndexed(s: Backups, previous: map<Uri, Entry>, id: string): Backups
    requires IsScratchId(id)
  {
    var u := ResourceFor(id);
    s.(index := s.index[u := Entry(Identifier(u, ""), VersionIn(previous, u))], discarded := s.discarded - {id})
  }

  /** `slots` and `ids` are the order in which the stores list what they hold. */
  function Reindexed(env: Env, s: Backups, slots: Option<seq<Slot>>, ids: Option<seq<string>>, roots: Option<set<string>>): Backups
    requires ids.Some? ==> forall id :: id in ids.value ==> IsScratchId(id)
  {
    var s1 := if slots.Some? then FilesIndexed(env, WithoutDomain(s, true), s.index, slots.value, roots) else s;
    if ids.Some? then ScratchIndexed(WithoutDomain(s1, false), s.index, ids.value) else s1
  }

  // ----- the service -----

  class PlainWorkingCopyBackupService {
    const env: Env
    var index: map<Uri, Entry>
    var storageKeys: map<Uri, string>
    var storageRootIds: map<Uri, string>
    var discardedScratchIds: set<string>
    var files: map<Slot, Bytes>
    var scratch: map<string, Bytes>

    function State(): Backups
      reads this
    {
      Backups(index, storageKeys, storageRootIds, discardedScratchIds, files, scratch)
    }

    constructor (env: Env, files: map<Slot, Bytes>, scratch: map<string, Bytes>)
      ensures this.env == env && State() == Backups(map[], map[], map[], {}, files, scratch)
    {
      this.env, this.files, this.scratch := env, files, scratch;
      index, storageKeys, storageRootIds, discardedScratchIds := map[], map[], map[], {};
    }

    method RollbackIndex(u: Uri, previous: Option<Entry>)
      modifies this`index
      ensures index == if previous.None? then old(index) - {u} else old(index)[u := previous.value]
    {
      if previous.None? {
        index := index - {u};
      } else {
        index := index[u := previous.value];
      }
    }

    method RollbackStorage(u: Uri, previousKey: Option<string>, previousRootId: Option<string>)
      modifies this`storageKeys, this`storageRootIds
      ensures storageKeys == if previousKey.None? then old(storageKeys) - {u} else old(storageKeys)[u := previousKey.value]
      ensures storageRootIds == if previousRootId.None? then old(storageRootIds) - {u} else old(storageRootIds)[u := previousRootId.value]
    {
      storageKeys := if previousKey.None? then storageKeys - {u} else storageKeys[u := previousKey.value];
      storageRootIds := if previousRootId.None? then storageRootIds - {u} else storageRootIds[u := previousRootId.value];
    }

    /** The index entry is set before anything is sent, and put back if the backup does not succeed. */
    method Backup(r: Request, fate: Fate) returns (outcome: Outcome)
      modifies this
      ensures (State(), outcome) == BackedUp(env, old(State()), r, fate)
    {
      var u := r.Resource();
      if ScratchIdOf(u).None? && !IsWorkspace(u) {
        return Failed;
      }
      var previous := Lookup(index, u);
      index := index[u := Entry(r.identifier, r.versionId)];
      PutBackOver(old(index), u, Entry(r.identifier, r.versionId));
      if fate.cancelledFirst {
        RollbackIndex(u, previous);
        return Cancelled;
      }
      if fate.contentOk && fate.cancelledLater {
        RollbackIndex(u, previous);
        return Cancelled;
      }
      if !fate.contentOk {
        RollbackIndex(u, previous);
        return Failed;
      }
      outcome := Write(r, fate);
      StoredIndex(env, old(State()), r, fate, old(index)[u := Entry(r.identifier, r.versionId)]);
      if outcome == Failed {
        RollbackIndex(u, previous);
      }
    }

    method Write(r: Request, fate: Fate) returns (outcome: Outcome)
      modifies this`files, this`scratch, this`storageKeys, this`storageRootIds, this`discardedScratchIds
      ensures outcome == Stored(env, old(State()), r, fate).1 != Cancelled
      ensures State() == Stored(env, old(State()), r, fate).0.(index := old(index))
    {
      var id := ScratchIdOf(r.Resource());
      if id.Some? {
        outcome := WriteScratch(id.value, r.content, fate.write);
      } else {
        outcome := WriteFile(r, fate);
      }
    }

    method WriteScratch(id: string, bytes: Bytes, write: Answer) returns (outcome: Outcome)
      modifies this`scratch, this`discardedScratchIds
      ensures outcome == if |bytes| > MaxPayloadBytes || !write.Accepted? then Failed else Done
      ensures scratch == if |bytes| <= MaxPayloadBytes && write.Took() then old(scratch)[id := bytes] else old(scratch)
      ensures discardedScratchIds == if outcome == Done then old(discardedScratchIds) - {id} else old(discardedScratchIds)
    {
      if |bytes| > MaxPayloadBytes {
        return Failed;
      }
      if write.Took() {
        scratch := scratch[id := bytes];
      }
      if !write.Accepted? {
        return Failed;
      }
      discardedScratchIds := discardedScratchIds - {id};
      return Done;
    }

    /** Write under the current key, then discard what was stored under an older one; if that fails,
        discard the new entry again and report the first failure. */
    method WriteFile(r: Request, fate: Fate) returns (outcome: Outcome)
      modifies this`files, this`storageKeys, this`storageRootIds
      ensures outcome == FileBackedUp(env, old(State()), r, fate).1
      ensures files == FileBackedUp(env, old(State()), r, fate).0.files
      ensures storageKeys == FileBackedUp(env, old(State()), r, fate).0.storageKeys
      ensures storageRootIds == FileBackedUp(env, old(State()), r, fate).0.storageRootIds
    {
      var u := r.Resource();
      var previousKey, previousRootId := Lookup(storageKeys, u), Lookup(storageRootIds, u);
      var encoded := EncodeBackupPayload(env.lib, BackupCodec.Backup(r.identifier, r.meta, r.content, fate.baseline));
      if encoded.TooLarge? {
        return Failed;
      }
      var wireKey := env.digest(u);
      if fate.write.Took() {
        files := files[Slot(u.authority, wireKey) := encoded.bytes];
      }
      if !fate.write.Accepted? {
        return Failed;
      }
      if previousKey.Some? && previousKey.value != wireKey {
        if fate.discard.Took() {
          files := files - {Slot(if previousRootId.Some? then previousRootId.value else u.authority, previousKey.value)};
        }
        if !fate.discard.Accepted? {
          if fate.undo.Took() {
            files := files - {Slot(u.authority, wireKey)};
          }
          RollbackStorage(u, previousKey, previousRootId);
          PutBack(storageKeys, u);
          PutBack(old(storageRootIds), u);
          return Failed;
        }
      }
      storageKeys := storageKeys[u := wireKey];
      storageRootIds := storageRootIds[u := u.authority];
      return Done;
    }

    method DiscardBackup(u: Uri, answer: Answer) returns (outcome: Outcome)
      modifies this
      ensures (State(), outcome) == Discarded(env, old(State()), u, answer)
    {
      var previous, previousKey, previousRootId := Lookup(index, u), Lookup(storageKeys, u), Lookup(storageRootIds, u);
      if ScratchIdOf(u).Some? {
        var id := ScratchIdOf(u).value;
        if id in discardedScratchIds {
          index := index - {u};
          return Done;
        }
        if answer.Took() {
          scratch := scratch - {id};
        }
        if !answer.Accepted? {
          return Failed;
        }
        discardedScratchIds := discardedScratchIds + {id};
        index, storageKeys, storageRootIds := index - {u}, storageKeys - {u}, storageRootIds - {u};
        return Done;
      }
      index, storageKeys, storageRootIds := index - {u}, storageKeys - {u}, storageRootIds - {u};
      if previousRootId.None? && !IsWorkspace(u) {
        return Done;
      }
      var wireKey := if previousKey.Some? then previousKey.value else env.digest(u);
      if answer.Took() {
        files := files - {Slot(if previousRootId.Some? then previousRootId.value else u.authority, wireKey)};
      }
      if !answer.Accepted? {
        RollbackIndex(u, previous);
        RollbackStorage(u, previousKey, previousRootId);
        PutBack(old(index), u);
        PutBack(old(storageKeys), u);
        PutBack(old(storageRootIds), u);
        return Failed;
      }
      return Done;
    }

    method RemoveIndexedDomain(workspace: bool)
      modifies this`index, this`storageKeys, this`storageRootIds
      ensures State() == WithoutDomain(old(State()), workspace)
    {
      var gone := set u | u in index && (if workspace then IsWorkspace(u) else ScratchIdOf(u).Some?);
      index, storageKeys, storageRootIds := index - gone, storageKeys - gone, storageRootIds - gone;
    }

    method DiscardAllBackups(filesAnswer: Answer, scratchAnswer: Answer) returns (outcome: Outcome)
      modifies this
      ensures (State(), outcome) == AllDiscarded(old(State()), filesAnswer, scratchAnswer)
    {
      var ids := set u | u in index && ScratchIdOf(u).Some? :: ScratchIdOf(u).value;
      files := if filesAnswer.Took() then map[] else files;
      scratch := if scratchAnswer.Took() then map[] else scratch;
      if filesAnswer.Accepted? {
        RemoveIndexedDomain(true);
      }
      if scratchAnswer.Accepted? {
        discardedScratchIds := discardedScratchIds + ids;
        RemoveIndexedDomain(false);
      }
      return if filesAnswer.Accepted? && scratchAnswer.Accepted? then Done else Failed;
    }

    /** `targets` are the indexed resources that are not excepted, in the order of the index. */
    method DiscardBackupsExcept(except: set<Uri>, targets: seq<Uri>, answers: seq<Answer>) returns (outcome: Outcome)
      requires |targets| == |answers| && forall u :: u in targets <==> u in index && u !in except
      modifies this
      ensures (State(), outcome) == DiscardedEach(env, old(State()), targets, answers)
    {
      outcome := Done;
      for i := 0 to |targets|
        invariant outcome == Done
        invariant (State(), outcome) == DiscardedEach(env, old(State()), targets[..i], answers[..i])
      {
        assert targets[..i + 1][..i] == targets[..i] && answers[..i + 1][..i] == answers[..i];
        outcome := DiscardBackup(targets[i], answers[i]);
        if outcome != Done {
          FailureStays(env, old(State()), targets, answers, i + 1);
          return;
        }
      }
      assert targets[..|targets|] == targets && answers[..|answers|] == answers;
    }

    /** `None` stands for a read that failed. */
    method GetBackups(slots: Option<seq<Slot>>, ids: Option<seq<string>>, roots: Option<set<string>>)
      returns (identifiers: set<Identifier>)
      requires ids.Some? ==> forall id :: id in ids.value ==> IsScratchId(id)
      modifies this
      ensures State() == Reindexed(env, old(State()), slots, ids, roots)
      ensures identifiers == set u | u in index :: index[u].identifier
    {
      var previousIndex := index;
      if slots.Some? {
        RemoveIndexedDomain(true);
        IndexFiles(previousIndex, slots.value, roots);
      }
      if ids.Some? {
        RemoveIndexedDomain(false);
        IndexScratch(previousIndex, ids.value);
      }
      return set u | u in index :: index[u].identifier;
    }

    method IndexFiles(previous: map<Uri, Entry>, slots: seq<Slot>, roots: Option<set<string>>)
      modifies this`index, this`storageKeys, this`storageRootIds
      ensures State() == FilesIndexed(env, old(State()), previous, slots, roots)
    {
      ghost var before := State();
      for i := 0 to |slots|
        invariant State() == FilesIndexed(env, before, previous, slots[..i], roots)
      {
        assert slots[..i + 1][..i] == slots[..i];
        IndexFile(previous, slots[i], roots);
      }
      assert slots[..|slots|] == slots;
    }

    method IndexFile(previous: map<Uri, Entry>, slot: Slot, roots: Option<set<string>>)
      modifies this`index, this`storageKeys, this`storageRootIds
      ensures State() == FileIndexed(env, old(State()), previous, slot, roots)
    {
      var bytes := Lookup(files, slot);
      if bytes.None? {
        return;
      }
      var parsed := Decoded(env.lib, bytes.value);
      if parsed.None? {
        return;
      }
      var resource := CurrentResource(parsed.value.identifier.resource, slot.rootId, roots);
      if resource.None? {
        return;
      }
      var u := resource.value;
      index := index[u := Entry(Identifier(u, parsed.value.identifier.typeId), VersionIn(previous, u))];
      storageKeys := storageKeys[u := slot.key];
      storageRootIds := storageRootIds[u := slot.rootId];
    }

    method IndexScratch(previous: map<Uri, Entry>, ids: seq<string>)
      requires forall id :: id in ids ==> IsScratchId(id)
      modifies this`index, this`discardedScratchIds
      ensures State() == ScratchIndexed(old(State()), previous, ids)
    {
      ghost var before := State();
      for i := 0 to |ids|
        invariant forall id :: id in ids[..i] ==> IsScratchId(id)
        invariant State() == ScratchIndexed(before, previous, ids[..i])
      {
        assert ids[..i + 1][..i] == ids[..i];
        assert ids[i] in ids;
        IndexOneScratch(previous, ids[i]);
      }
      assert ids[..|ids|] == ids;
    }

    method IndexOneScratch(previous: map<Uri, Entry>, id: string)
      requires IsScratchId(id)
      modifies this`index, this`discardedScratchIds
      ensures State() == OneScratchIndexed(old(State()), previous, id)
    {
      var u := ResourceFor(id);
      index := index[u := Entry(Identifier(u, ""), VersionIn(previous, u))];
      discardedScratchIds := discardedScratchIds - {id};
    }

    method HasBackupSync(u: Uri, versionId: Option<int>) returns (has: bool)
      ensures has <==> HasBackup(State(), u, versionId)
    {
      if u !in index {
        return false;
      }
      return versionId.None? || index[u].versionId == versionId;
    }

    method Resolve(u: Uri) returns (content: Option<Bytes>)
      ensures content == Resolved(env, State(), u)
    {
      var scratchId := ScratchIdOf(u);
      if scratchId.Some? {
        return Lookup(scratch, scratchId.value);
      }
      if !IsWorkspace(u) {
        return None;
      }
      var key := if u in storageKeys then storageKeys[u] else env.digest(u);
      var entry := Lookup(files, Slot(u.authority, key));
      if entry.None? {
        return None;
      }
      var parsed := Decoded(env.lib, entry.value);
      if parsed.None? {
        return None;
      }
      return Some(parsed.value.content);
    }
  }

  lemma {:induction false} FailureStays(env: Env, s: Backups, targets: seq<Uri>, answers: seq<Answer>, i: nat)
    requires i <= |targets| == |answers| && DiscardedEach(env, s, targets[..i], answers[..i]).1 != Done
    ensures DiscardedEach(env, s, targets, answers) == DiscardedEach(env, s, targets[..i], answers[..i])
    decreases |targets|
  {
    var n := |targets| - 1;
    if i == |targets| {
      assert targets[..i] == targets && answers[..i] == answers;
    } else {
      assert targets[..n][..i] == targets[..i] && answers[..n][..i] == answers[..i];
      FailureStays(env, s, targets[..n], answers[..n], i);
    }
  }

  /** Removing a member and putting it back changes nothing. */
  lemma PutBack<K, V>(m: map<K, V>, k: K)
    ensures k in m ==> (m - {k})[k := m[k]] == m && m[k := m[k]] == m
    ensures k !in m ==> m - {k} == m
  {
  }

  lemma PutBackOver<K, V>(m: map<K, V>, k: K, v: V)
    ensures k in m ==> m[k := v][k := m[k]] == m
    ensures k !in m ==> m[k := v] - {k} == m
  {
  }

  function Lookup<K, V>(m: map<K, V>, k: K): Option<V> {
    if k in m then Some(m[k]) else None
  }
}
