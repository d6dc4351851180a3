/**
 The outbox over whole runs: uploads being copied while others finish, removals, and crashes at any
 point that cut short whatever was not synced and may undo renames not yet made durable.
 */
module OutboxRuns {
  import opened Types
  import opened FileBytes

  // ---- crashes ----

  datatype Name = Draft(u: int) | Entry(file: FileId, hash: Hash)

  /**
   Renames to a name not yet durable: the drafts they took, what the name held in between, and whether
   it held something durable before.
   */
  datatype Rename = Rename(drafts: seq<int>, older: seq<Bytes>, durable: bool)

  datatype Stored = Stored(bytes: Bytes, synced: bool, pending: Option<Rename>)

  type Files = map<Name, Stored>

  /** An upload in progress: what was hashed so far, and whether its copy is synced. */
  datatype Upload = Upload(file: FileId, draft: int, hashed: Bytes, synced: bool)

  datatype Disk = Disk(files: Files, uploads: map<int, Upload>)

  datatype Action =
    | Begin(upload: int, file: FileId, draft: int)
    | Copy(upload: int, chunk: Bytes)
    | Sync(upload: int)
    | Finish(upload: int)
    | SyncDirectory
    | Fail(upload: int)
    | Release(file: FileId, hash: Hash)
    | Crash(after: Files)
    | Prepare

  /** Why a name may hold these bytes after a crash. */
  ghost predicate Left(files: Files, name: Name, bytes: Bytes) {
    (name in files && bytes <= files[name].bytes && (files[name].synced ==> bytes == files[name].bytes))
    || (name in files && files[name].pending.Some? && bytes in files[name].pending.value.older)
    || (name.Draft?
        && exists other <- files :: files[other].pending.Some? && name.u in files[other].pending.value.drafts)
  }

  predicate Durable(stored: Stored) { stored.pending.None? || stored.pending.value.durable }

  /** A crash cuts unsynced files short, keeps or undoes each pending rename, and loses nothing durable. */
  ghost predicate CrashLeaves(files: Files, after: Files) {
    (forall name <- after :: Left(files, name, after[name].bytes) && after[name].synced && after[name].pending.None?)
    && (forall name <- files | Durable(files[name]) :: name in after)
    && forall name <- files | name !in after :: exists u <- files[name].pending.value.drafts :: Draft(u) in after
  }

  /** Syncing the directory makes every rename durable. */
  function Settled(files: Files): Files {
    map name | name in files :: files[name].(pending := None)
  }

  function Over(replaced: Stored, draft: int): Rename {
    if replaced.pending.None? then Rename([draft], [replaced.bytes], true)
    else
      Rename(replaced.pending.value.drafts + [draft], replaced.pending.value.older + [replaced.bytes],
             replaced.pending.value.durable)
  }

  predicate Used(s: Disk, u: int) {
    Draft(u) in s.files || exists upload :: upload in s.uploads && s.uploads[upload].draft == u
  }

  /** An action that does not fit the state does nothing; partials are swept only at startup, before any upload. */
  ghost function Step(s: Disk, action: Action, digest: Bytes -> Hash): Disk {
    match action
    case Begin(upload, file, draft) =>
      if upload in s.uploads || Used(s, draft) then s else
      Disk(s.files[Draft(draft) := Stored([], false, None)], s.uploads[upload := Upload(file, draft, [], false)])
    case Copy(upload, chunk) =>
      if upload !in s.uploads || s.uploads[upload].synced || Draft(s.uploads[upload].draft) !in s.files then s else
      var u := s.uploads[upload];
      Disk(s.files[Draft(u.draft) := Stored(s.files[Draft(u.draft)].bytes + chunk, false, None)],
           s.uploads[upload := u.(hashed := u.hashed + chunk)])
    case Sync(upload) =>
      if upload !in s.uploads || Draft(s.uploads[upload].draft) !in s.files then s else
      var u := s.uploads[upload];
      Disk(s.files[Draft(u.draft) := s.files[Draft(u.draft)].(synced := true)], s.uploads[upload := u.(synced := true)])
    case Finish(upload) =>
      if upload !in s.uploads || !s.uploads[upload].synced || Draft(s.uploads[upload].draft) !in s.files then s else
      var u := s.uploads[upload];
      var name := Entry(u.file, digest(u.hashed));
      var rename := if name in s.files then Over(s.files[name], u.draft) else Rename([u.draft], [], false);
      Disk((s.files - {Draft(u.draft)})[name := s.files[Draft(u.draft)].(pending := Some(rename))],
           s.uploads - {upload})
    case SyncDirectory => s.(files := Settled(s.files))
    case Fail(upload) =>
      if upload !in s.uploads then s else
      Disk(s.files - {Draft(s.uploads[upload].draft)}, s.uploads - {upload})
    case Release(file, hash) => s.(files := s.files - {Entry(file, hash)})
    case Crash(after) => if CrashLeaves(s.files, after) then Disk(after, map[]) else s
    case Prepare =>
      if s.uploads != map[] then s else
      s.(files := map name | name in s.files && name.Entry? :: s.files[name])
  }

  ghost function Run(s: Disk, actions: seq<Action>, digest: Bytes -> Hash): Disk
    decreases |actions|
  {
    if actions == [] then s else Step(Run(s, actions[..|actions| - 1], digest), actions[|actions| - 1], digest)
  }

  const EMPTY: Disk := Disk(map[], map[])

  ghost predicate Whole(stored: Stored, hash: Hash, digest: Bytes -> Hash) {
    stored.synced && digest(stored.bytes) == hash
    && (stored.pending.Some? ==> forall bytes <- stored.pending.value.older :: digest(bytes) == hash)
  }

  ghost predicate EntriesWhole(files: Files, digest: Bytes -> Hash) {
    forall file, hash | Entry(file, hash) in files :: Whole(files[Entry(file, hash)], hash, digest)
  }

  /** Each upload's draft holds exactly what it hashed, synced once it says so, and is its own. */
  ghost predicate UploadsHold(s: Disk) {
    (forall i <- s.uploads :: var u := s.uploads[i];
       Draft(u.draft) in s.files && s.files[Draft(u.draft)].bytes == u.hashed
       && s.files[Draft(u.draft)].pending.None? && (u.synced ==> s.files[Draft(u.draft)].synced))
    && (forall i, j | i in s.uploads && j in s.uploads && i != j :: s.uploads[i].draft != s.uploads[j].draft)
  }

  ghost predicate Inv(s: Disk, digest: Bytes -> Hash) { EntriesWhole(s.files, digest) && UploadsHold(s) }

  lemma CrashKeepsWhole(files: Files, after: Files, digest: Bytes -> Hash)
    requires EntriesWhole(files, digest) && CrashLeaves(files, after)
    ensures EntriesWhole(after, digest)
  {
    forall file, hash | Entry(file, hash) in after ensures Whole(after[Entry(file, hash)], hash, digest) {
      assert Left(files, Entry(file, hash), after[Entry(file, hash)].bytes);
      assert Whole(files[Entry(file, hash)], hash, digest);
    }
  }

  lemma FinishKeepsInv(s: Disk, upload: int, digest: Bytes -> Hash)
    requires Inv(s, digest)
    ensures Inv(Step(s, Finish(upload), digest), digest)
  {
    var next := Step(s, Finish(upload), digest);
    forall file, hash | Entry(file, hash) in next.files ensures Whole(next.files[Entry(file, hash)], hash, digest) {
      if Entry(file, hash) in s.files { assert Whole(s.files[Entry(file, hash)], hash, digest); }
    }
  }

  lemma StepKeepsInv(s: Disk, action: Action, digest: Bytes -> Hash)
    requires Inv(s, digest)
    ensures Inv(Step(s, action, digest), digest)
  {
    var next := Step(s, action, digest);
    match action
    case Finish(upload) => FinishKeepsInv(s, upload, digest);
    case Crash(after) => if CrashLeaves(s.files, after) { CrashKeepsWhole(s.files, after, digest); }
    case _ =>
      forall file, hash | Entry(file, hash) in next.files ensures Whole(next.files[Entry(file, hash)], hash, digest) {
        assert Whole(s.files[Entry(file, hash)], hash, digest);
      }
  }

  /** Whatever is copied, released and crashed, in any order, every complete entry holds bytes with its hash. */
  lemma {:induction false} EntriesAreWhole(actions: seq<Action>, digest: Bytes -> Hash)
    ensures Inv(Run(EMPTY, actions, digest), digest)
    ensures forall file, hash | Entry(file, hash) in Run(EMPTY, actions, digest).files ::
              digest(Run(EMPTY, actions, digest).files[Entry(file, hash)].bytes) == hash
    decreases |actions|
  {
    if actions != [] {
      EntriesAreWhole(actions[..|actions| - 1], digest);
      StepKeepsInv(Run(EMPTY, actions[..|actions| - 1], digest), actions[|actions| - 1], digest);
    }
    assert forall file, hash | Entry(file, hash) in Run(EMPTY, actions, digest).files ::
        Whole(Run(EMPTY, actions, digest).files[Entry(file, hash)], hash, digest);
  }

  /** Once its rename is durable an entry outlives every crash and sweep, until it is released. */
  lemma {:induction false} DurableEntrySurvives(s: Disk, actions: seq<Action>, digest: Bytes -> Hash, file: FileId,
                                                hash: Hash)
    requires Inv(s, digest) && Entry(file, hash) in s.files
    requires Durable(s.files[Entry(file, hash)])
    requires forall a <- actions :: a != Release(file, hash)
    ensures Inv(Run(s, actions, digest), digest) && Entry(file, hash) in Run(s, actions, digest).files
    ensures digest(Run(s, actions, digest).files[Entry(file, hash)].bytes) == hash
    ensures Durable(Run(s, actions, digest).files[Entry(file, hash)])
    decreases |actions|
  {
    if actions == [] {
      assert Whole(s.files[Entry(file, hash)], hash, digest);
    } else {
      var n := |actions| - 1;
      assert actions[n] in actions && forall a <- actions[..n] :: a in actions;
      DurableEntrySurvives(s, actions[..n], digest, file, hash);
      StepKeepsInv(Run(s, actions[..n], digest), actions[n], digest);
      assert Whole(Run(s, actions, digest).files[Entry(file, hash)], hash, digest);
    }
  }

  /** A synced upload, once finished and made durable, is an entry holding exactly what was hashed. */
  lemma FinishedUploadIsDurable(s: Disk, upload: int, digest: Bytes -> Hash)
    requires Inv(s, digest) && upload in s.uploads && s.uploads[upload].synced
    ensures var u := s.uploads[upload]; var name := Entry(u.file, digest(u.hashed));
            var files := Step(Step(s, Finish(upload), digest), SyncDirectory, digest).files;
            name in files && files[name].bytes == u.hashed && Durable(files[name]) && Draft(u.draft) !in files
  {
  }
}
