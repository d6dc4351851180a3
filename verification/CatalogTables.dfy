/**
 The catalog's tables and the store's operations on them, each proved to do to the record of its file
 what Catalog says and to leave every other file alone.
 */
module CatalogTables {
  import opened Types
  import opened Catalog

  /** A set's members in some order. */
  method Enumerate<T>(members: set<T>) returns (all: seq<T>)
    ensures forall x :: x in all <==> x in members
    ensures Distinct(all)
  {
    var left := members;
    all := [];
    while left != {}
      invariant forall x :: x in members <==> x in left || x in all
      invariant forall x <- all :: x !in left
      invariant Distinct(all)
      decreases left
    {
      var x :| x in left;
      left := left - {x};
      all := all + [x];
    }
  }

  class CatalogStore {
    /** `files_v2`, `file_versions_v1` in version order, the file relationships of `entries_v1`, `purged_files_v1`. */
    var files: map<FileId, Row>
    var versions: map<FileId, seq<Version>>
    var entries: map<FileId, map<TagId, TagEdge>>
    var purged: set<FileId>

    constructor ()
      ensures forall id :: RecordOf(id) == UNKNOWN
    {
      files, versions, entries, purged := map[], map[], map[], {};
    }

    function VersionsOf(id: FileId): seq<Version>
      reads this
    {
      if id in versions then versions[id] else []
    }

    function EdgesOf(id: FileId): map<TagId, TagEdge>
      reads this
    {
      if id in entries then entries[id] else map[]
    }

    /** Everything the tables hold about one file. */
    function RecordOf(id: FileId): Record
      reads this
    {
      Record(if id in files then Some(files[id]) else None, VersionsOf(id), EdgesOf(id), id in purged)
    }

    /** The tables as one value. */
    ghost function Snapshot(): Store
      reads this
    {
      map id | id in files.Keys + versions.Keys + entries.Keys + purged :: RecordOf(id)
    }

    /** It misses no file. */
    lemma SnapshotIsWhole()
      ensures forall id :: Catalog.RecordOf(Snapshot(), id) == RecordOf(id)
    {
    }

    /** Only rows about `id` changed. */
    twostate predicate Only(id: FileId)
      reads this
    {
      forall other :: other != id ==> RecordOf(other) == old(RecordOf(other))
    }

    // ---- reads ----

    predicate FileExists(id: FileId)
      reads this
      ensures FileExists(id) <==> RecordOf(id).row.Some?
    {
      id in files
    }

    predicate IsPurged(id: FileId)
      reads this
      ensures IsPurged(id) <==> RecordOf(id).purged
    {
      id in purged
    }

    function LatestVersion(id: FileId): (latest: Option<Version>)
      reads this
      ensures latest == RecordOf(id).Latest()
    {
      var all := VersionsOf(id);
      if all == [] then None else Some(all[|all| - 1])
    }

    /** `deleted`, `deleted_at` and `restored_at` of the row. */
    function DeletionState(id: FileId): (state: Option<Row>)
      reads this
      ensures state == RecordOf(id).row
    {
      if id in files then Some(files[id]) else None
    }

    /** The tags a file carries now, in no particular order. */
    method TagIdsForFile(id: FileId) returns (tags: seq<TagId>)
      ensures Tags(tags) == RecordOf(id).LiveTags()
    {
      tags := Enumerate(RecordOf(id).LiveTags());
    }

    // ---- writes ----

    /** Inserting a row that exists is an error and changes nothing. */
    method AddFile(id: FileId, path: LogicalPath, pathAt: Stamp) returns (ok: bool)
      modifies this
      ensures Only(id) && ok == old(RecordOf(id).row.None?)
      ensures RecordOf(id) == if ok then old(RecordOf(id)).AddFile(path, pathAt) else old(RecordOf(id))
    {
      ok := id !in files;
      if ok { files := files[id := Row(path, pathAt, false, 0, 0)]; }
    }

    /** Says the version's number: one more than the greatest so far. */
    method RecordVersionAt(id: FileId, version: Version) returns (number: nat)
      modifies this
      ensures Only(id) && RecordOf(id) == old(RecordOf(id)).RecordVersion(version)
      ensures number == |RecordOf(id).versions| && RecordOf(id).versions[number - 1] == version
    {
      number := |VersionsOf(id)| + 1;
      versions := versions[id := VersionsOf(id) + [version]];
    }

    method RestoreFile(id: FileId)
      modifies this
      ensures Only(id) && RecordOf(id) == old(RecordOf(id)).RestoreFile()
    {
      if id !in files || !files[id].deleted { return; }
      var latest := LatestVersion(id);
      var observedAt := if latest.Some? then latest.value.observedAt else 0;
      if observedAt <= files[id].deletedAt { return; }
      files := files[id := files[id].(deleted := false)];
    }

    /** Says whether the file is live afterwards. */
    method ApplyRestore(id: FileId, restoredAt: Stamp) returns (live: bool)
      modifies this
      ensures Only(id) && live == old(RecordOf(id)).RestoreWins(restoredAt)
      ensures RecordOf(id) == old(RecordOf(id)).ApplyRestore(restoredAt)
      ensures live ==> RecordOf(id).Live()
    {
      if id !in files { return false; }
      var state := files[id];
      if restoredAt > state.restoredAt {
        files := files[id := state.(restoredAt := restoredAt)];
      }
      var latest := LatestVersion(id);
      var observedAt := if latest.Some? then latest.value.observedAt else 0;
      live := Max(Max(state.restoredAt, restoredAt), observedAt) > state.deletedAt;
      if live && state.deleted {
        files := files[id := files[id].(deleted := false)];
      }
    }

    /** Says whether the path changed. */
    method UpdateFileLogicalPath(id: FileId, path: LogicalPath, modifiedAt: Stamp) returns (moved: bool)
      modifies this
      ensures Only(id) && moved == old(RecordOf(id)).MoveWins(modifiedAt)
      ensures RecordOf(id) == old(RecordOf(id)).UpdatePath(path, modifiedAt)
    {
      moved := id in files && files[id].pathAt < modifiedAt;
      if moved { files := files[id := files[id].(path := path, pathAt := modifiedAt)]; }
    }

    /** Says whether the tombstone was set. */
    method RemoveFile(id: FileId, deletedAt: Stamp) returns (removed: bool)
      modifies this
      ensures Only(id) && removed == old(RecordOf(id)).DeleteWins(deletedAt)
      ensures RecordOf(id) == old(RecordOf(id)).RemoveFile(deletedAt)
    {
      var latest := LatestVersion(id);
      var observedAt := if latest.Some? then latest.value.observedAt else 0;
      var restoredAt := if id in files then files[id].restoredAt else 0;
      if deletedAt <= Max(observedAt, restoredAt) { return false; }
      removed := id in files;
      if removed { files := files[id := files[id].(deleted := true, deletedAt := deletedAt)]; }
    }

    /** Tagging and untagging: an upsert under a strictly newer stamp. */
    method UpsertEntry(tag: TagId, id: FileId, edge: TagEdge)
      modifies this
      ensures Only(id) && RecordOf(id) == old(RecordOf(id)).SetEdge(tag, edge)
    {
      var edges := EdgesOf(id);
      if tag !in edges || edges[tag].modifiedAt < edge.modifiedAt {
        entries := entries[id := edges[tag := edge]];
      }
    }

    /** Nothing happens to a file that has a row; says whether one was made. */
    method AddTombstonedFile(id: FileId, path: LogicalPath, pathAt: Stamp, version: Version, deletedAt: Stamp,
                             restoredAt: Stamp)
      returns (created: bool)
      modifies this
      ensures Only(id) && created == old(RecordOf(id).row.None?)
      ensures RecordOf(id) == old(RecordOf(id)).AddTombstoned(path, pathAt, version, deletedAt, restoredAt)
    {
      created := id !in files;
      if created {
        files := files[id := Row(path, pathAt, true, deletedAt, restoredAt)];
        versions := versions[id := VersionsOf(id) + [version]];
      }
    }

    /** Says whether the id is newly purged. */
    method RecordPurge(id: FileId) returns (recorded: bool)
      modifies this
      ensures Only(id) && recorded == !old(RecordOf(id)).purged
      ensures RecordOf(id) == old(RecordOf(id)).RecordPurge()
    {
      recorded := id !in purged;
      purged := purged + {id};
    }

    method StripPurgedFile(id: FileId)
      modifies this
      ensures Only(id) && RecordOf(id) == old(RecordOf(id)).Strip()
    {
      files := files - {id};
      versions := versions - {id};
      entries := entries - {id};
    }

    /** Startup repair: every purged id is stripped, orphan rows included; no other file is touched. */
    method ReconcilePurgedFiles() returns (removed: nat)
      modifies this
      ensures forall id ::
                RecordOf(id) == if old(RecordOf(id)).purged then old(RecordOf(id)).Strip() else old(RecordOf(id))
      ensures removed == |old(files.Keys * purged)|
    {
      removed := |files.Keys * purged|;
      files := files - purged;
      versions := versions - purged;
      entries := entries - purged;
    }
  }
}
