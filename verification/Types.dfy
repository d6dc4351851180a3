/** Identifiers, clocks and wire messages shared by every component. */
module Types {
  type FileId = int
  type TagId = int
  type LogicalPath = string
  type Hash = string
  type PeerKey = string
  type DirectoryPath = string

  /** Unix milliseconds stamped on the originating device and never restamped. */
  type Stamp = int

  datatype Option<+T> = None | Some(value: T)

  function Max(a: int, b: int): int { if a < b then b else a }

  predicate Distinct<T(==)>(members: seq<T>) {
    forall i, j :: 0 <= i < j < |members| ==> members[i] != members[j]
  }

  function Tags(tags: seq<TagId>): set<TagId> { set tag | tag in tags }

  /** Where a change came from: a sync directory of this device or a peer. */
  datatype Origin = Local(directory: DirectoryPath) | Peer(key: PeerKey)

  /** The origin of a change made through the API: the empty path names no directory. */
  const LOCAL_ORIGIN: Origin := Local("")

  /** The file-lifecycle and file-tag messages that travel between peers. */
  datatype Change =
    | Added(file: FileId, path: LogicalPath, pathAt: Stamp, hash: Hash, size: nat, observedAt: Stamp, tags: seq<TagId>)
    | Changed(file: FileId, hash: Hash, size: nat, observedAt: Stamp)
    | Moved(file: FileId, path: LogicalPath, modifiedAt: Stamp)
    | Deleted(file: FileId, deletedAt: Stamp)
    | Restored(file: FileId, hash: Hash, size: nat, restoredAt: Stamp)
    | Purged(file: FileId)
    | Tagged(file: FileId, tag: TagId, modifiedAt: Stamp)
    | Untagged(file: FileId, tag: TagId, modifiedAt: Stamp)
  {
    /** Announcements of content: the kinds that may append a version. */
    predicate Announces() { Added? || Changed? }

    /** The kinds a node forwards whether or not they win locally. */
    predicate AlwaysForwarded() { Added? || Changed? || Restored? || Tagged? || Untagged? }
  }

  /** How bytes that arrived over a transfer are to be placed. */
  datatype Placing = Create(path: LogicalPath, tags: seq<TagId>) | Overwrite
}
