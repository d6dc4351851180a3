/**
 What each command does to each fact of a file, one fact at a time: when the row appears and with what, what
 moves the path, what the delete and restore clocks hold, when the file is live, which versions there are and
 what every tag edge is. Stated over the fields of the record alone.
 */
module RecordLaws {
  import opened Types
  import opened Catalog
  import opened CatalogRuns

  /** Newer than every version the end of the chain stands for. */
  predicate Newer(r: Record, observedAt: Stamp) {
    r.versions == [] || r.versions[|r.versions| - 1].observedAt < observedAt
  }

  function LastStamp(r: Record): Stamp { if r.versions == [] then 0 else r.versions[|r.versions| - 1].observedAt }

  predicate Holds(r: Record, hash: Hash) { r.versions != [] && r.versions[|r.versions| - 1].hash == hash }

  // ---- versions ----

  /** The version a command brings, whether or not it is recorded. */
  function Brings(command: Command): Option<Version> {
    match command
    case Meta(Added(_, _, _, hash, size, observedAt, _)) => Some(Version(hash, size, observedAt))
    case Meta(Changed(_, hash, size, observedAt)) => Some(Version(hash, size, observedAt))
    case Meta(_) => None
    case ManifestFile(_, _, version) => Some(version)
    case ManifestTombstone(_, _, version, _, _) => Some(version)
    case DirectoryAdd(_, _, version, _) => Some(version)
    case DirectoryEdit(version) => Some(version)
    case UploadNew(_, _, version, _) => Some(version)
    case UploadEdit(version) => Some(version)
    case UserRestore(_, _, _) => None
  }

  /** Whether it is recorded: news for what peers send, anything but the same content for what is found on disk. */
  predicate Records(r: Record, command: Command) {
    match command
    case Meta(Added(_, _, _, _, _, observedAt, _)) => !r.purged && (r.row.None? || Newer(r, observedAt))
    case Meta(Changed(_, _, _, observedAt)) => !r.purged && Newer(r, observedAt)
    case Meta(_) => false
    case ManifestFile(_, _, version) => !r.purged && (r.row.None? || Newer(r, version.observedAt))
    case ManifestTombstone(_, _, _, _, _) => !r.purged && r.row.None?
    case DirectoryAdd(_, _, version, _) => r.row.None? || !Holds(r, version.hash)
    case DirectoryEdit(_) => true
    case UploadNew(_, _, _, _) => r.row.None?
    case UploadEdit(_) => true
    case UserRestore(_, _, _) => false
  }

  predicate Erases(r: Record, command: Command) {
    command.Meta? && command.change.Purged? && !(r.purged && r.row.None?)
  }

  lemma VersionsAfter(r: Record, command: Command)
    ensures Step(r, command).versions
         == if Erases(r, command) then []
            else if Records(r, command) then r.versions + [Brings(command).value]
            else r.versions
    ensures Records(r, command) ==> Brings(command).Some?
    ensures Step(r, command).purged <==> r.purged || (command.Meta? && command.change.Purged?)
  {
    OnlyEdges(r, command);
    ChainGrows(r, command);
  }

  /** Tags that come with a creation touch nothing but edges. */
  lemma OnlyEdges(r: Record, command: Command)
    ensures command.UploadNew? ==>
              var known := r.AddFile(command.path, command.pathAt);
              known.TagAll(command.tags, command.pathAt)
                == known.(edges := known.TagAll(command.tags, command.pathAt).edges)
    ensures command.DirectoryAdd? ==>
              var known := r.AddFile(command.path, command.pathAt).RecordVersion(command.version);
              TagEach(known, command.tagStamps) == known.(edges := TagEach(known, command.tagStamps).edges)
    ensures command.Meta? && command.change.Added? ==>
              var c := command.change;
              var known := r.AddFile(c.path, c.pathAt);
              known.TagAll(c.tags, c.pathAt) == known.(edges := known.TagAll(c.tags, c.pathAt).edges)
  {
    if command.UploadNew? {
      TagAllKeeps(r.AddFile(command.path, command.pathAt), command.tags, command.pathAt);
    } else if command.DirectoryAdd? {
      TagEachKeeps(r.AddFile(command.path, command.pathAt).RecordVersion(command.version), command.tagStamps);
    } else if command.Meta? && command.change.Added? {
      var c := command.change;
      TagAllKeeps(r.AddFile(c.path, c.pathAt), c.tags, c.pathAt);
    }
  }

  // ---- the row ----

  /** The row a command brings for a file that has none: live with clear clocks, or dead with the manifest's. */
  function Opens(command: Command): Option<Row> {
    match command
    case Meta(Added(_, path, pathAt, _, _, _, _)) => Some(Row(path, pathAt, false, 0, 0))
    case Meta(_) => None
    case ManifestFile(path, pathAt, _) => Some(Row(path, pathAt, false, 0, 0))
    case ManifestTombstone(path, pathAt, _, deletedAt, restoredAt) =>
      Some(Row(path, pathAt, true, deletedAt, restoredAt))
    case DirectoryAdd(path, pathAt, _, _) => Some(Row(path, pathAt, false, 0, 0))
    case UploadNew(path, pathAt, _, _) => Some(Row(path, pathAt, false, 0, 0))
    case DirectoryEdit(_) => None
    case UploadEdit(_) => None
    case UserRestore(_, _, _) => None
  }

  /** A file without a row gets one from a creation or a manifest, and from a peer's only while it is not purged. */
  lemma RowAppears(r: Record, command: Command)
    requires r.row.None?
    ensures Step(r, command).row
         == if r.purged && (command.Meta? || command.ManifestFile? || command.ManifestTombstone?) then None
            else Opens(command)
  {
    OnlyEdges(r, command);
  }

  /** Only a purge takes a row away. */
  lemma RowStays(r: Record, command: Command)
    requires r.row.Some?
    ensures Step(r, command).row.None? <==> command.Meta? && command.change.Purged?
  {
  }

  /** Only a newer move renames, and it moves path and clock together. */
  lemma PathAfter(r: Record, command: Command)
    requires r.row.Some? && Step(r, command).row.Some?
    ensures var now, was := Step(r, command).row.value, r.row.value;
            (now.path, now.pathAt)
              == if command.Meta? && command.change.Moved? && !r.purged && was.pathAt < command.change.modifiedAt
                 then (command.change.path, command.change.modifiedAt) else (was.path, was.pathAt)
  {
  }

  // ---- liveness and its clocks ----

  /** A delete takes effect: the file is live and the stamp beats its content and its restores. */
  predicate Deletes(r: Record, command: Command)
    requires r.row.Some?
  {
    command.Meta? && command.change.Deleted? && !r.purged && !r.row.value.deleted
    && LastStamp(r) < command.change.deletedAt && r.row.value.restoredAt < command.change.deletedAt
  }

  /** The stamp of a restore that is applied: a peer's unless the file is live with that content, a user's always. */
  function RestoredBy(r: Record, command: Command): Option<Stamp>
    requires r.row.Some?
  {
    match command
    case Meta(Restored(_, hash, _, restoredAt)) =>
      if r.purged || (!r.row.value.deleted && Holds(r, hash)) then None else Some(restoredAt)
    case UserRestore(_, _, restoredAt) => Some(restoredAt)
    case _ => None
  }

  /** The two clocks: the delete's is set by a delete that takes effect, the restore's only advances. */
  lemma ClocksAfter(r: Record, command: Command)
    requires r.row.Some? && Step(r, command).row.Some?
    ensures var now, was := Step(r, command).row.value, r.row.value;
            now.deletedAt == (if Deletes(r, command) then command.change.deletedAt else was.deletedAt)
            && now.restoredAt
               == match RestoredBy(r, command)
                  case Some(at) => if was.restoredAt < at then at else was.restoredAt
                  case None => was.restoredAt
  {
  }

  /**
   When a file that has a row is dead: a delete that takes effect kills it; a recorded version revives it if it
   ends the chain newer than the delete, a restore if it, an earlier one or the content is.
   */
  lemma DeadAfter(r: Record, command: Command)
    requires r.row.Some? && Step(r, command).row.Some?
    ensures var now, was := Step(r, command).row.value, r.row.value;
            now.deleted <==>
              Deletes(r, command)
              || (was.deleted
                  && (Records(r, command) ==> Brings(command).value.observedAt <= was.deletedAt)
                  && (RestoredBy(r, command).Some? ==>
                        RestoredBy(r, command).value <= was.deletedAt && was.restoredAt <= was.deletedAt
                        && LastStamp(r) <= was.deletedAt))
  {
    match command
    case Meta(Restored(_, _, _, _)) =>
    case UserRestore(_, _, _) =>
    case Meta(_) =>
    case _ =>
  }

  // ---- a manifest's tombstone ----

  /** Adopted where the file is unknown and unpurged: every clock under its own name, the version last. */
  lemma TombstoneIs(r: Record, path: LogicalPath, pathAt: Stamp, version: Version, deletedAt: Stamp, restoredAt: Stamp)
    requires r.row.None? && !r.purged
    ensures var after := Step(r, ManifestTombstone(path, pathAt, version, deletedAt, restoredAt));
            after.row.Some? && after.row.value.deleted && !after.purged && after.edges == r.edges
            && after.row.value.path == path && after.row.value.pathAt == pathAt
            && after.row.value.deletedAt == deletedAt && after.row.value.restoredAt == restoredAt
            && after.versions == r.versions + [version]
  {
  }

  /** From then on a version brings the file back exactly if it is newer than the delete. */
  lemma TombstoneAgainstVersion(r: Record, path: LogicalPath, pathAt: Stamp, version: Version, deletedAt: Stamp,
                                restoredAt: Stamp, file: FileId, later: Version)
    requires r.row.None? && !r.purged && version.observedAt < later.observedAt
    ensures var dead := Step(r, ManifestTombstone(path, pathAt, version, deletedAt, restoredAt));
            var change := Changed(file, later.hash, later.size, later.observedAt);
            Step(dead, Meta(change)).Live() <==> deletedAt < later.observedAt
  {
    var dead := Step(r, ManifestTombstone(path, pathAt, version, deletedAt, restoredAt));
    TombstoneIs(r, path, pathAt, version, deletedAt, restoredAt);
    DeadAfter(dead, Meta(Changed(file, later.hash, later.size, later.observedAt)));
  }

  /** And a restore exactly if it, the restore the manifest told of, or the version is. */
  lemma TombstoneAgainstRestore(r: Record, path: LogicalPath, pathAt: Stamp, version: Version, deletedAt: Stamp,
                                restoredAt: Stamp, file: FileId, hash: Hash, size: nat, later: Stamp)
    requires r.row.None? && !r.purged
    ensures var dead := Step(r, ManifestTombstone(path, pathAt, version, deletedAt, restoredAt));
            Step(dead, Meta(Restored(file, hash, size, later))).Live() <==>
              deletedAt < later || deletedAt < restoredAt || deletedAt < version.observedAt
  {
    var dead := Step(r, ManifestTombstone(path, pathAt, version, deletedAt, restoredAt));
    TombstoneIs(r, path, pathAt, version, deletedAt, restoredAt);
    DeadAfter(dead, Meta(Restored(file, hash, size, later)));
  }

  // ---- tag edges ----

  /** An edge a command gives a tag of the file; a report of a new file may give a tag several. */
  predicate Offers(r: Record, command: Command, tag: TagId, edge: TagEdge) {
    match command
    case Meta(Tagged(_, own, modifiedAt)) => !r.purged && own == tag && edge == TagEdge(modifiedAt, false)
    case Meta(Untagged(_, own, modifiedAt)) => !r.purged && own == tag && edge == TagEdge(modifiedAt, true)
    case Meta(Added(_, _, pathAt, _, _, _, tags)) =>
      !r.purged && r.row.None? && tag in tags && edge == TagEdge(pathAt, false)
    case UploadNew(_, pathAt, _, tags) => r.row.None? && tag in tags && edge == TagEdge(pathAt, false)
    case DirectoryAdd(_, _, _, tagStamps) => r.row.None? && (tag, edge.modifiedAt) in tagStamps && !edge.deleted
    case _ => false
  }

  function EdgeOf(r: Record, tag: TagId): Option<TagEdge> { if tag in r.edges then Some(r.edges[tag]) else None }

  lemma {:induction false} TagAllEdge(r: Record, tags: seq<TagId>, at: Stamp, tag: TagId)
    ensures EdgeOf(r.TagAll(tags, at), tag)
         == if tag in tags && (tag !in r.edges || r.edges[tag].modifiedAt < at) then Some(TagEdge(at, false))
            else EdgeOf(r, tag)
    decreases |tags|
  {
    if tags != [] {
      TagAllEdge(r.SetEdge(tags[0], TagEdge(at, false)), tags[1..], at, tag);
      assert tags == [tags[0]] + tags[1..];
    }
  }

  /** The edge is the one there was or a newer one offered, and nothing offered is newer still. */
  ghost predicate Newest(now: Option<TagEdge>, was: Option<TagEdge>, r: Record, command: Command, tag: TagId) {
    (now == was
     || (now.Some? && Offers(r, command, tag, now.value)
         && (was.Some? ==> was.value.modifiedAt < now.value.modifiedAt)))
    && forall edge :: Offers(r, command, tag, edge) ==> now.Some? && edge.modifiedAt <= now.value.modifiedAt
  }

  lemma {:induction false} TagEachEdge(r: Record, tagStamps: seq<(TagId, Stamp)>, tag: TagId)
    ensures var now, was := EdgeOf(TagEach(r, tagStamps), tag), EdgeOf(r, tag);
            (now == was
             || (now.Some? && !now.value.deleted && (tag, now.value.modifiedAt) in tagStamps
                 && (was.Some? ==> was.value.modifiedAt < now.value.modifiedAt)))
            && (was.Some? ==> now.Some?)
            && forall pair <- tagStamps :: pair.0 == tag ==> now.Some? && pair.1 <= now.value.modifiedAt
    decreases |tagStamps|
  {
    if tagStamps != [] {
      var first := tagStamps[0];
      TagEachEdge(r.SetEdge(first.0, TagEdge(first.1, false)), tagStamps[1..], tag);
      assert tagStamps == [first] + tagStamps[1..];
    }
  }

  /** What every command leaves of a tag's edge. */
  lemma EdgesAfter(r: Record, command: Command, tag: TagId)
    ensures var now, was := EdgeOf(Step(r, command), tag), EdgeOf(r, tag);
            if Erases(r, command) then now.None? else Newest(now, was, r, command, tag)
  {
    match command
    case Meta(Added(_, path, pathAt, _, _, _, tags)) => TagAllEdge(r.AddFile(path, pathAt), tags, pathAt, tag);
    case UploadNew(path, pathAt, _, tags) => TagAllEdge(r.AddFile(path, pathAt), tags, pathAt, tag);
    case DirectoryAdd(path, pathAt, version, tagStamps) =>
      TagEachEdge(r.AddFile(path, pathAt).RecordVersion(version), tagStamps, tag);
    case Meta(change) => MetaEdges(r, change, tag);
    case _ =>
  }

  lemma MetaEdges(r: Record, change: Change, tag: TagId)
    requires !change.Added?
    ensures var command := Meta(change);
            var now, was := EdgeOf(Step(r, command), tag), EdgeOf(r, tag);
            if Erases(r, command) then now.None? else Newest(now, was, r, command, tag)
  {
  }

  /** The tags a creation carries are on the file under its path's stamp, unless a newer edge was there already. */
  lemma CreationTags(r: Record, command: Command, path: LogicalPath, pathAt: Stamp, tags: seq<TagId>, tag: TagId)
    requires r.row.None?
    requires (command.UploadNew? && (path, pathAt, tags) == (command.path, command.pathAt, command.tags))
             || (command.Meta? && command.change.Added? && !r.purged
                 && (path, pathAt, tags) == (command.change.path, command.change.pathAt, command.change.tags))
    ensures EdgeOf(Step(r, command), tag)
         == if tag in tags && (tag !in r.edges || r.edges[tag].modifiedAt < pathAt) then Some(TagEdge(pathAt, false))
            else EdgeOf(r, tag)
  {
    TagAllEdge(r.AddFile(path, pathAt), tags, pathAt, tag);
  }

  /** So a file nothing was known of carries exactly those tags. */
  lemma CreationTagged(r: Record, command: Command, path: LogicalPath, pathAt: Stamp, tags: seq<TagId>)
    requires r.row.None? && r.edges == map[]
    requires (command.UploadNew? && (path, pathAt, tags) == (command.path, command.pathAt, command.tags))
             || (command.Meta? && command.change.Added? && !r.purged
                 && (path, pathAt, tags) == (command.change.path, command.change.pathAt, command.change.tags))
    ensures Step(r, command).LiveTags() == set tag | tag in tags
  {
    forall tag ensures tag in Step(r, command).LiveTags() <==> tag in tags {
      CreationTags(r, command, path, pathAt, tags, tag);
    }
  }
}
