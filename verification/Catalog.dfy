/**
 The catalog as one value per file: the rows the store keeps about a file, the
 store's operations on them, and what the writer does to them for each command.
 The classes in CatalogWriter are proved to do exactly this to their tables.
 */
module Catalog {
  import opened Types

  datatype Version = Version(hash: Hash, size: nat, observedAt: Stamp)

  datatype Row = Row(path: LogicalPath, pathAt: Stamp, deleted: bool, deletedAt: Stamp, restoredAt: Stamp)

  datatype TagEdge = TagEdge(modifiedAt: Stamp, deleted: bool)

  /** Everything the catalog holds about one file id; versions are in version-number order. */
  datatype Record = Record(row: Option<Row>, versions: seq<Version>, edges: map<TagId, TagEdge>, purged: bool) {

    // ---- store reads ----

    predicate Live() { row.Some? && !row.value.deleted }

    predicate Tombstoned() { row.Some? && row.value.deleted }

    function Latest(): Option<Version> {
      if versions == [] then None else Some(versions[|versions| - 1])
    }

    /** `observed_at` of the latest version, 0 when there is none. */
    function LatestObserved(): Stamp {
      if versions == [] then 0 else versions[|versions| - 1].observedAt
    }

    function LiveTags(): set<TagId> { set tag | tag in edges && !edges[tag].deleted }

    // ---- store writes ----

    function AddFile(path: LogicalPath, pathAt: Stamp): Record {
      this.(row := Some(Row(path, pathAt, false, 0, 0)))
    }

    function RecordVersion(version: Version): Record {
      this.(versions := versions + [version])
    }

    /** The edit half of the three-way comparison: a version newer than the delete revives. */
    function RestoreFile(): Record {
      if Tombstoned() && row.value.deletedAt < LatestObserved()
      then this.(row := Some(row.value.(deleted := false)))
      else this
    }

    /** Whether an explicit restore leaves the file live. */
    predicate RestoreWins(restoredAt: Stamp) {
      row.Some? && row.value.deletedAt < Max(Max(row.value.restoredAt, restoredAt), LatestObserved())
    }

    /** The restore clock only advances; the tombstone goes if the restore or an edit beats it. */
    function ApplyRestore(restoredAt: Stamp): Record {
      if row.None? then this else
      var advanced := row.value.(restoredAt := Max(row.value.restoredAt, restoredAt));
      this.(row := Some(if RestoreWins(restoredAt) then advanced.(deleted := false) else advanced))
    }

    /** A delete wins only against every version and every restore. */
    predicate DeleteWins(deletedAt: Stamp) {
      row.Some? && Max(LatestObserved(), row.value.restoredAt) < deletedAt
    }

    function RemoveFile(deletedAt: Stamp): Record {
      if DeleteWins(deletedAt)
      then this.(row := Some(row.value.(deleted := true, deletedAt := deletedAt)))
      else this
    }

    predicate MoveWins(modifiedAt: Stamp) { row.Some? && row.value.pathAt < modifiedAt }

    function UpdatePath(path: LogicalPath, modifiedAt: Stamp): Record {
      if MoveWins(modifiedAt)
      then this.(row := Some(row.value.(path := path, pathAt := modifiedAt)))
      else this
    }

    /** `tag_file` and `untag_file`: a strictly newer stamp sets the edge, present or not. */
    function SetEdge(tag: TagId, edge: TagEdge): Record {
      if tag !in edges || edges[tag].modifiedAt < edge.modifiedAt
      then this.(edges := edges[tag := edge])
      else this
    }

    function TagAll(tags: seq<TagId>, modifiedAt: Stamp): Record
      decreases |tags|
    {
      if tags == [] then this else SetEdge(tags[0], TagEdge(modifiedAt, false)).TagAll(tags[1..], modifiedAt)
    }

    /** A file a peer created and deleted while we were away: row and version arrive dead. */
    function AddTombstoned(path: LogicalPath, pathAt: Stamp, version: Version, deletedAt: Stamp,
                           restoredAt: Stamp): Record {
      if row.Some? then this else
      this.(row := Some(Row(path, pathAt, true, deletedAt, restoredAt)), versions := versions + [version])
    }

    function RecordPurge(): Record { this.(purged := true) }

    /** Hard delete of every row about the file; the purge itself stays. */
    function Strip(): Record { this.(row := None, versions := [], edges := map[]) }

    // ---- the writer's comparisons ----

    /** Content half of last-writer-wins: strictly newer than the latest version. */
    predicate Supersedes(observedAt: Stamp) {
      versions == [] || versions[|versions| - 1].observedAt < observedAt
    }

    /** Bytes are wanted unless they are the content already held as latest by a live file. */
    predicate NeedsTransfer(hash: Hash) {
      !(versions != [] && versions[|versions| - 1].hash == hash) || Tombstoned()
    }

    /** Recording a version and letting it revive the file. */
    function Accept(version: Version): Record { RecordVersion(version).RestoreFile() }
  }

  const UNKNOWN: Record := Record(None, [], map[], false)

  /** What a change makes the sync directories do. */
  datatype Fanout = Nothing | MoveTo(path: LogicalPath) | Remove | Replace

  /** What applying a change did: the new record, and what left the writer. */
  datatype Outcome = Outcome(record: Record, forward: bool, publish: bool, fanout: Fanout, pull: Option<Placing>)

  function Ignored(r: Record): Outcome { Outcome(r, false, false, Nothing, None) }

  /** Dispatch of one wire or local metadata change on the record of its file. */
  function Handle(r: Record, change: Change): Outcome {
    if r.purged && !change.Purged? then Ignored(r) else
    match change
    case Added(_, path, pathAt, hash, size, observedAt, tags) =>
      if r.row.Some? && !r.Supersedes(observedAt) then Outcome(r, true, false, Nothing, None) else
      var known := if r.row.Some? then r else r.AddFile(path, pathAt).TagAll(tags, pathAt);
      Outcome(known.Accept(Version(hash, size, observedAt)), true, true, Nothing,
              if known.NeedsTransfer(hash) then Some(Create(path, tags)) else None)
    case Changed(_, hash, size, observedAt) =>
      if !r.Supersedes(observedAt) then Outcome(r, true, true, Nothing, None) else
      Outcome(r.Accept(Version(hash, size, observedAt)), true, true, Nothing,
              if r.NeedsTransfer(hash) then Some(Overwrite) else None)
    case Moved(_, path, modifiedAt) =>
      if !r.MoveWins(modifiedAt) then Ignored(r) else
      Outcome(r.UpdatePath(path, modifiedAt), true, true, MoveTo(path), None)
    case Deleted(_, deletedAt) =>
      if r.row.None? || r.row.value.deleted || !r.DeleteWins(deletedAt) then Ignored(r) else
      Outcome(r.RemoveFile(deletedAt), true, true, Remove, None)
    case Restored(_, hash, size, restoredAt) =>
      if r.Live() && r.versions != [] && r.Latest().value.hash == hash
      then Outcome(r, true, false, Nothing, None) else
      Outcome(r.ApplyRestore(restoredAt), true, true, Nothing,
              if r.RestoreWins(restoredAt) then Some(Overwrite) else None)
    case Purged(_) =>
      if r.purged && r.row.None? then Ignored(r) else
      Outcome(r.RecordPurge().Strip(), true, true, Remove, None)
    case Tagged(_, tag, modifiedAt) =>
      Outcome(r.SetEdge(tag, TagEdge(modifiedAt, false)), true, true, Replace, None)
    case Untagged(_, tag, modifiedAt) =>
      Outcome(r.SetEdge(tag, TagEdge(modifiedAt, true)), true, true, Replace, None)
  }

  /** A version recorded on behalf of a peer's manifest. */
  function CatalogFile(r: Record, path: LogicalPath, pathAt: Stamp, version: Version): Record {
    if r.purged || (r.row.Some? && !r.Supersedes(version.observedAt)) then r else
    (if r.row.Some? then r else r.AddFile(path, pathAt)).Accept(version)
  }

  /** A tombstone reconstructed from a peer's manifest. */
  function CatalogTombstone(r: Record, path: LogicalPath, pathAt: Stamp, version: Version, deletedAt: Stamp,
                            restoredAt: Stamp): Record {
    if r.purged then r else r.AddTombstoned(path, pathAt, version, deletedAt, restoredAt)
  }

  /** A file a sync directory reports: created if unknown, else promoted to an edit unless unchanged. */
  function LocalAdd(r: Record, path: LogicalPath, pathAt: Stamp, version: Version, tags: seq<(TagId, Stamp)>): Record {
    if r.row.None? then TagEach(r.AddFile(path, pathAt).RecordVersion(version), tags)
    else if r.versions != [] && r.Latest().value.hash == version.hash then r
    else r.Accept(version)
  }

  function TagEach(r: Record, tags: seq<(TagId, Stamp)>): Record
    decreases |tags|
  {
    if tags == [] then r else TagEach(r.SetEdge(tags[0].0, TagEdge(tags[0].1, false)), tags[1..])
  }

  /** A new file uploaded through the API. Adding a row that exists is a store error: nothing happens. */
  function Upload(r: Record, path: LogicalPath, pathAt: Stamp, version: Version, tags: seq<TagId>): Record {
    if r.row.Some? then r else r.AddFile(path, pathAt).TagAll(tags, pathAt).Accept(version)
  }

  /** Every command of the writer's inbox that can write the record of a file. */
  datatype Command =
    | Meta(change: Change)
    | ManifestFile(path: LogicalPath, pathAt: Stamp, version: Version)
    | ManifestTombstone(path: LogicalPath, pathAt: Stamp, version: Version, deletedAt: Stamp, restoredAt: Stamp)
    | DirectoryAdd(path: LogicalPath, pathAt: Stamp, version: Version, tagStamps: seq<(TagId, Stamp)>)
    | DirectoryEdit(version: Version)
    | UploadNew(path: LogicalPath, pathAt: Stamp, version: Version, tags: seq<TagId>)
    | UploadEdit(version: Version)
    | UserRestore(hash: Hash, size: nat, restoredAt: Stamp)

  function Step(r: Record, command: Command): Record {
    match command
    case Meta(change) => Handle(r, change).record
    case ManifestFile(path, pathAt, version) => CatalogFile(r, path, pathAt, version)
    case ManifestTombstone(path, pathAt, version, deletedAt, restoredAt) =>
      CatalogTombstone(r, path, pathAt, version, deletedAt, restoredAt)
    case DirectoryAdd(path, pathAt, version, tagStamps) => LocalAdd(r, path, pathAt, version, tagStamps)
    case DirectoryEdit(version) => r.Accept(version)
    case UploadNew(path, pathAt, version, tags) => Upload(r, path, pathAt, version, tags)
    case UploadEdit(version) => r.Accept(version)
    case UserRestore(_, _, restoredAt) => r.ApplyRestore(restoredAt)
  }

  function AddedTo(file: FileId, path: LogicalPath, pathAt: Stamp, version: Version, tags: seq<TagId>): Change {
    Added(file, path, pathAt, version.hash, version.size, version.observedAt, tags)
  }

  function EditOf(file: FileId, version: Version): Change {
    Changed(file, version.hash, version.size, version.observedAt)
  }

  function TagEdits(file: FileId, tagStamps: seq<(TagId, Stamp)>): seq<Change> {
    seq(|tagStamps|, i requires 0 <= i < |tagStamps| => Tagged(file, tagStamps[i].0, tagStamps[i].1))
  }

  function TagsOf(tagStamps: seq<(TagId, Stamp)>): seq<TagId> {
    seq(|tagStamps|, i requires 0 <= i < |tagStamps| => tagStamps[i].0)
  }

  /** What a command makes the writer announce to its peers, in order. */
  function Announced(r: Record, file: FileId, command: Command): seq<Change> {
    match command
    case Meta(change) => if Handle(r, change).forward then [change] else []
    case ManifestFile(path, pathAt, version) =>
      if r.purged || (r.row.Some? && !r.Supersedes(version.observedAt)) then []
      else if r.row.None? then [AddedTo(file, path, pathAt, version, [])]
      else [EditOf(file, version)]
    case ManifestTombstone(_, _, _, deletedAt, _) =>
      if r.purged || r.row.Some? then [] else [Deleted(file, deletedAt)]
    case DirectoryAdd(path, pathAt, version, tagStamps) =>
      if r.row.None? then TagEdits(file, tagStamps) + [AddedTo(file, path, pathAt, version, TagsOf(tagStamps))]
      else if r.versions != [] && r.Latest().value.hash == version.hash then []
      else [EditOf(file, version)]
    case DirectoryEdit(version) => [EditOf(file, version)]
    case UploadNew(path, pathAt, version, tags) =>
      if r.row.Some? then [] else [AddedTo(file, path, pathAt, version, tags)]
    case UploadEdit(version) => [EditOf(file, version)]
    case UserRestore(hash, size, restoredAt) =>
      if r.RestoreWins(restoredAt) then [Restored(file, hash, size, restoredAt)] else []
  }

  /** Changes applied to the record of their file in the order they arrive. */
  function Deliver(r: Record, changes: seq<Change>): Record
    decreases |changes|
  {
    if changes == [] then r
    else Handle(Deliver(r, changes[..|changes| - 1]), changes[|changes| - 1]).record
  }

  /** A whole catalog: the record of every file it knows anything about. */
  type Store = map<FileId, Record>

  function RecordOf(store: Store, file: FileId): Record {
    if file in store then store[file] else UNKNOWN
  }

  /** A run of the single writer over one file: commands applied in inbox order. */
  function Run(r: Record, commands: seq<Command>): Record
    decreases |commands|
  {
    if commands == [] then r else Step(Run(r, commands[..|commands| - 1]), commands[|commands| - 1])
  }
}
