/**
 What a node announces is enough: when it lets a peer that held the same record arrive at the same
 record, and exactly which commands fall short.
 */
module Announcements {
  import opened Types
  import opened Catalog
  import opened CatalogRuns

  /** A creation's tags are stamped after its path. */
  predicate StampsFollow(command: Command) {
    command.DirectoryAdd? ==> forall tag <- command.tagStamps :: command.pathAt <= tag.1
  }

  /**
   A command falls short when it ingests content of a purged file, records content no newer than the
   latest, adopts a tombstone of a file with no row, or moves the restore clock without reviving the
   file through an announcement a peer would act on.
   */
  predicate Replays(r: Record, command: Command) {
    match command
    case Meta(_) => true
    case ManifestFile(_, _, _) => true
    case ManifestTombstone(_, _, _, _, _) => r.purged || r.row.Some?
    case DirectoryAdd(_, _, version, _) =>
      (r.row.Some? && r.versions != [] && r.Latest().value.hash == version.hash)
      || (!r.purged && (r.row.None? || r.Supersedes(version.observedAt)))
    case DirectoryEdit(version) => !r.purged && r.Supersedes(version.observedAt)
    case UploadNew(_, _, _, _) => r.row.Some? || !r.purged
    case UploadEdit(version) => !r.purged && r.Supersedes(version.observedAt)
    case UserRestore(hash, _, restoredAt) =>
      r.row.None?
      || (restoredAt <= r.row.value.restoredAt && !(r.RestoreWins(restoredAt) && r.row.value.deleted))
      || (r.RestoreWins(restoredAt) && !r.purged
          && !(r.Live() && r.versions != [] && r.Latest().value.hash == hash))
  }

  lemma DeliverOne(r: Record, change: Change)
    ensures Deliver(r, [change]) == Handle(r, change).record
  {
    assert [change][..0] == [];
  }

  lemma {:induction false} ReplayTags(r: Record, file: FileId, tagStamps: seq<(TagId, Stamp)>)
    requires !r.purged
    ensures Deliver(r, TagEdits(file, tagStamps)) == TagEach(r, tagStamps)
    decreases |tagStamps|
  {
    if tagStamps != [] {
      var n := |tagStamps| - 1;
      assert TagEdits(file, tagStamps)[..n] == TagEdits(file, tagStamps[..n]);
      ReplayTags(r, file, tagStamps[..n]);
      TagEachKeeps(r, tagStamps[..n]);
      TagEachLast(r, tagStamps);
    }
  }

  lemma {:induction false} TagEachLast(r: Record, tagStamps: seq<(TagId, Stamp)>)
    requires tagStamps != []
    ensures var n := |tagStamps| - 1;
            TagEach(r, tagStamps) == TagEach(r, tagStamps[..n]).SetEdge(tagStamps[n].0, TagEdge(tagStamps[n].1, false))
    decreases |tagStamps|
  {
    var n := |tagStamps| - 1;
    if n > 0 {
      assert tagStamps[..n][0] == tagStamps[0] && tagStamps[..n][1..] == tagStamps[1..][..n - 1];
      TagEachLast(r.SetEdge(tagStamps[0].0, TagEdge(tagStamps[0].1, false)), tagStamps[1..]);
    }
  }

  /** Tagging moves only edges, so it commutes with adding the row and its first version. */
  lemma {:induction false} TagEachIsEdges(r: Record, s: Record, tagStamps: seq<(TagId, Stamp)>)
    requires r.edges == s.edges
    ensures TagEach(r, tagStamps).edges == TagEach(s, tagStamps).edges
    decreases |tagStamps|
  {
    if tagStamps != [] {
      var edge := TagEdge(tagStamps[0].1, false);
      TagEachIsEdges(r.SetEdge(tagStamps[0].0, edge), s.SetEdge(tagStamps[0].0, edge), tagStamps[1..]);
    }
  }

  lemma {:induction false} EdgesOnlyRise(r: Record, tagStamps: seq<(TagId, Stamp)>, tag: TagId)
    requires tag in r.edges
    ensures tag in TagEach(r, tagStamps).edges && r.edges[tag].modifiedAt <= TagEach(r, tagStamps).edges[tag].modifiedAt
    decreases |tagStamps|
  {
    if tagStamps != [] {
      EdgesOnlyRise(r.SetEdge(tagStamps[0].0, TagEdge(tagStamps[0].1, false)), tagStamps[1..], tag);
    }
  }

  /** The creation's own copy of the tags is older than the edits that went ahead of it. */
  lemma {:induction false} TagsAreNews(r: Record, tagStamps: seq<(TagId, Stamp)>, at: Stamp, i: nat)
    requires i < |tagStamps| && forall tag <- tagStamps :: at <= tag.1
    ensures tagStamps[i].0 in TagEach(r, tagStamps).edges
    ensures at <= TagEach(r, tagStamps).edges[tagStamps[i].0].modifiedAt
    decreases |tagStamps|
  {
    var next := r.SetEdge(tagStamps[0].0, TagEdge(tagStamps[0].1, false));
    assert tagStamps[0] in tagStamps;
    if i == 0 {
      EdgesOnlyRise(next, tagStamps[1..], tagStamps[0].0);
    } else {
      assert forall tag <- tagStamps[1..] :: tag in tagStamps;
      TagsAreNews(next, tagStamps[1..], at, i - 1);
    }
  }

  lemma {:induction false} OldTagsChangeNothing(r: Record, tags: seq<TagId>, at: Stamp)
    requires forall tag <- tags :: tag in r.edges && at <= r.edges[tag].modifiedAt
    ensures r.TagAll(tags, at) == r
    decreases |tags|
  {
    if tags != [] {
      assert tags[0] in tags;
      assert forall tag <- tags[1..] :: tag in tags;
      OldTagsChangeNothing(r, tags[1..], at);
    }
  }

  /** A new file from a tag-based directory: its tag edits travel first, then the creation that carries them again. */
  lemma CreationReplays(r: Record, file: FileId, path: LogicalPath, pathAt: Stamp, version: Version,
                        tagStamps: seq<(TagId, Stamp)>)
    requires r.row.None? && !r.purged && forall tag <- tagStamps :: pathAt <= tag.1
    ensures Deliver(r, TagEdits(file, tagStamps) + [AddedTo(file, path, pathAt, version, TagsOf(tagStamps))])
         == LocalAdd(r, path, pathAt, version, tagStamps)
  {
    var edits, creation := TagEdits(file, tagStamps), AddedTo(file, path, pathAt, version, TagsOf(tagStamps));
    assert (edits + [creation])[..|edits|] == edits;
    ReplayTags(r, file, tagStamps);
    TagEachKeeps(r, tagStamps);
    var tagged := TagEach(r, tagStamps);
    var known := tagged.AddFile(path, pathAt);
    forall tag | tag in TagsOf(tagStamps) ensures tag in known.edges && pathAt <= known.edges[tag].modifiedAt {
      var i :| 0 <= i < |tagStamps| && TagsOf(tagStamps)[i] == tag;
      TagsAreNews(r, tagStamps, pathAt, i);
    }
    OldTagsChangeNothing(known, TagsOf(tagStamps), pathAt);
    TagEachKeeps(r.AddFile(path, pathAt).RecordVersion(version), tagStamps);
    TagEachIsEdges(r, r.AddFile(path, pathAt).RecordVersion(version), tagStamps);
  }

  /** A peer in the same state follows along exactly when the command is one that replays. */
  lemma AnnouncementsReplay(r: Record, file: FileId, command: Command)
    requires StampsFollow(command)
    ensures Deliver(r, Announced(r, file, command)) == Step(r, command) <==> Replays(r, command)
  {
    var announced := Announced(r, file, command);
    if |announced| == 1 { DeliverOne(r, announced[0]); }
    match command
    case DirectoryAdd(path, pathAt, version, tagStamps) =>
      if r.row.None? && !r.purged {
        CreationReplays(r, file, path, pathAt, version, tagStamps);
      } else if r.row.None? {
        PurgedIgnores(r, announced);
        TagEachKeeps(r.AddFile(path, pathAt).RecordVersion(version), tagStamps);
      }
    case UploadNew(path, pathAt, version, tags) => TagAllKeeps(r.AddFile(path, pathAt), tags, pathAt);
    case _ =>
  }

  lemma {:induction false} PurgedIgnores(r: Record, changes: seq<Change>)
    requires r.purged && forall c <- changes :: !c.Purged?
    ensures Deliver(r, changes) == r
    decreases |changes|
  {
    if changes != [] {
      var n := |changes| - 1;
      assert changes[n] in changes && forall c <- changes[..n] :: c in changes;
      PurgedIgnores(r, changes[..n]);
    }
  }

  // ---- the shortfalls ----

  /** Content uploaded for a purged id is kept here and dropped by every peer. */
  lemma PurgedIngestFallsShort(file: FileId, version: Version)
    ensures var command := UploadEdit(version);
            Step(PURGED, command).versions == [version] && Deliver(PURGED, Announced(PURGED, file, command)) == PURGED
  {
    DeliverOne(PURGED, EditOf(file, version));
  }

  /** An edit stamped before the version it replaces is the latest here and superseded at every peer. */
  lemma StaleEditFallsShort(file: FileId, path: LogicalPath, hash: Hash)
    ensures var r := Record(Some(Row(path, 1, false, 0, 0)), [Version("f", 1, 2)], map[], false);
            var command := DirectoryEdit(Version(hash, 1, 1));
            Step(r, command).Latest() == Some(command.version) && Deliver(r, Announced(r, file, command)) == r
  {
    var r := Record(Some(Row(path, 1, false, 0, 0)), [Version("f", 1, 2)], map[], false);
    DeliverOne(r, EditOf(file, Version(hash, 1, 1)));
  }

  /** A tombstone adopted from a manifest goes on as a delete, which a peer that never saw the file drops. */
  lemma TombstoneFallsShort(file: FileId, path: LogicalPath, version: Version)
    ensures var command := ManifestTombstone(path, 1, version, 9, 0);
            Step(UNKNOWN, command).Tombstoned() && Deliver(UNKNOWN, Announced(UNKNOWN, file, command)) == UNKNOWN
  {
    DeliverOne(UNKNOWN, Deleted(file, 9));
  }

  /** A restore that loses moves the clock here and is not announced; one of a live file moves it here only. */
  lemma RestoreFallsShort(file: FileId, path: LogicalPath, hash: Hash)
    ensures var dead := Record(Some(Row(path, 1, true, 9, 0)), [Version(hash, 1, 1)], map[], false);
            var live := Record(Some(Row(path, 1, false, 0, 0)), [Version(hash, 1, 1)], map[], false);
            var command := UserRestore(hash, 1, 5);
            Step(dead, command).row.value.restoredAt == 5 && Announced(dead, file, command) == []
            && Step(live, command).row.value.restoredAt == 5 && Deliver(live, Announced(live, file, command)) == live
  {
    var live := Record(Some(Row(path, 1, false, 0, 0)), [Version(hash, 1, 1)], map[], false);
    DeliverOne(live, Restored(file, hash, 1, 5));
  }
}
