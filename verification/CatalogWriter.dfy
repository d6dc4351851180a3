/**
 The single writer: it owns the catalog, applies one command at a time, and sends what follows to the
 sync directories, the peers and the subscribers. Every method is proved to do to the tables what
 Catalog says and to send exactly what Outgoing says.
 */
module CatalogWriter {
  import opened Types
  import opened Catalog
  import opened CatalogTables
  import opened CatalogRuns
  import opened FileBytes
  import opened Placement
  import opened Outgoing

  /** The late bytes are what the catalog now says the file is. */
  predicate Current(r: Record, hash: Hash) {
    r.Live() && (r.versions != [] ==> r.Latest().value.hash == hash)
  }

  function LatestSize(r: Record): nat { if r.versions != [] then r.Latest().value.size else 0 }

  /** What the arrival of bytes makes the writer send: nothing to peers, and nothing at all if they are outdated. */
  function ArrivalSends(setting: Setting, r: Record, file: FileId, content: Content, hash: Hash, placing: Placing)
    : Sending
  {
    if Current(r, hash)
    then Sending([], Shares(Targets(setting.directories, r, file, placing), content), [],
                 [Changed(file, hash, LatestSize(r), r.LatestObserved())], [])
    else NOTHING_SENT
  }

  class CatalogWriter {
    const database: CatalogStore
    var setting: Setting
    var wire: seq<Envelope>
    var commands: seq<DirectoryCommand>
    var pulls: seq<Pull>
    var events: seq<Change>
    var followUps: seq<FollowUp>

    constructor (database: CatalogStore, setting: Setting)
      ensures this.database == database && this.setting == setting && Sent() == NOTHING_SENT
    {
      this.database, this.setting := database, setting;
      wire, commands, pulls, events, followUps := [], [], [], [], [];
    }

    /** Everything sent so far. */
    function Sent(): Sending
      reads this
    {
      Sending(wire, commands, pulls, events, followUps)
    }

    // ---- what leaves the writer ----

    method ForwardToPeers(change: Change, origin: Origin)
      modifies this`wire
      ensures wire == old(wire) + CopiesOf(setting, origin, change)
    {
      var peers, sessions := setting.peers, setting.sessions;
      for i := 0 to |peers|
        invariant wire == old(wire) + Copies(peers[..i], sessions, origin, change)
      {
        assert peers[..i + 1][..i] == peers[..i];
        if origin == Peer(peers[i]) { continue; }
        if peers[i] !in sessions { continue; }
        if !sessions[peers[i]].outbound { continue; }
        wire := wire + [Envelope(peers[i], change)];
      }
      assert peers[..|peers|] == peers;
    }

    method MoveInDirectories(file: FileId, path: LogicalPath, tags: set<TagId>, origin: Origin)
      modifies this`commands
      ensures commands == old(commands) + MoveTos(Matching(setting.directories, origin, tags), file, path)
    {
      var directories := setting.directories;
      for i := 0 to |directories|
        invariant commands == old(commands) + MoveTos(Matching(directories[..i], origin, tags), file, path)
      {
        assert directories[..i + 1][..i] == directories[..i];
        if FromHere(directories[i], origin) { continue; }
        if directories[i].kind.TagBased? && !ContainsAllTags(directories[i].kind.tags, tags) { continue; }
        commands := commands + [MoveFile(file, PhysicalFor(directories[i].kind, path, file), directories[i].path)];
      }
      assert directories[..|directories|] == directories;
    }

    method RemoveFromDirectories(file: FileId, tags: set<TagId>, origin: Origin)
      modifies this`commands
      ensures commands == old(commands) + Removes(Matching(setting.directories, origin, tags), file)
    {
      var directories := setting.directories;
      for i := 0 to |directories|
        invariant commands == old(commands) + Removes(Matching(directories[..i], origin, tags), file)
      {
        assert directories[..i + 1][..i] == directories[..i];
        if FromHere(directories[i], origin) { continue; }
        if directories[i].kind.TagBased? && !ContainsAllTags(directories[i].kind.tags, tags) { continue; }
        commands := commands + [RemoveFile(file, directories[i].path)];
      }
      assert directories[..|directories|] == directories;
    }

    /** A live file's directories are asked again, and a fetch is left running in case they lack its bytes. */
    method PlanPlacement(file: FileId)
      modifies this`commands, this`followUps
      ensures commands == old(commands) + Replan(database.RecordOf(file), file)
      ensures followUps == old(followUps) + Deferring(database.RecordOf(file), file)
    {
      var state := database.DeletionState(file);
      if state.None? || state.value.deleted { return; }
      var tags := database.TagIdsForFile(file);
      var latest := database.LatestVersion(file);
      commands := commands + [ApplyPlacement(file, state.value.path, Tags(tags))];
      followUps := followUps + [FetchIfDeferred(file, state.value.path, Tags(tags), latest)];
    }

    method PullIfWanted(origin: Origin, file: FileId, hash: Hash, size: nat, placing: Placing)
      modifies this`pulls
      ensures pulls == old(pulls) + PullFor(setting, database.RecordOf(file), origin, file, hash, size, placing)
    {
      var tags := database.TagIdsForFile(file);
      var targets := MaterializeTargets(setting.directories, database.RecordOf(file), tags, file, placing);
      if targets == [] || origin.Local? { return; }
      if origin.key in setting.sessions && setting.sessions[origin.key].commands {
        pulls := pulls + [Pull(origin.key, file, hash, size, placing)];
      }
    }

    // ---- metadata changes ----

    /** The state is what the outcome says, and so is everything sent; nothing is published yet. */
    twostate predicate Took(change: Change, origin: Origin, outcome: Outcome)
      reads this, database
      requires outcome.pull.Some? ==> change.Announces() || change.Restored?
    {
      var file, before := change.file, old(database.RecordOf(change.file));
      database.Only(file) && database.RecordOf(file) == outcome.record
      && setting == old(setting) && events == old(events)
      && wire == old(wire) + (if outcome.forward then CopiesOf(setting, origin, change) else [])
      && commands == old(commands) + Work(setting.directories, before, outcome.record, origin, file, outcome.fanout)
      && pulls == old(pulls) + PullsOf(setting, origin, change, outcome)
      && followUps == old(followUps) + (if outcome.fanout.Replace? then Deferring(outcome.record, file) else [])
    }

    method ApplyAdded(change: Change, origin: Origin) returns (publish: bool)
      requires change.Added? && !database.RecordOf(change.file).purged
      modifies this, database
      ensures Took(change, origin, old(Handle(database.RecordOf(change.file), change)))
      ensures publish == old(Handle(database.RecordOf(change.file), change)).publish
    {
      if !database.FileExists(change.file) {
        AddTagged(change.file, change.path, change.pathAt, change.tags);
      } else {
        var latest := database.LatestVersion(change.file);
        if latest.Some? && change.observedAt <= latest.value.observedAt {
          ForwardToPeers(change, origin);
          return false;
        }
      }
      AcceptAnnounced(change, origin, Create(change.path, change.tags));
      publish := true;
    }

    /**
     The version goes on the record of a file known by now, the announcement on to peers, and the bytes
     are asked for if new.
     */
    method AcceptAnnounced(change: Change, origin: Origin, placing: Placing)
      requires change.Announces()
      modifies this`wire, this`pulls, database
      ensures var file, before := change.file, old(database.RecordOf(change.file));
              database.Only(file)
              && database.RecordOf(file) == before.Accept(Version(change.hash, change.size, change.observedAt))
              && pulls == old(pulls)
                          + if before.NeedsTransfer(change.hash)
                            then PullFor(setting, database.RecordOf(file), origin, file, change.hash, change.size,
                                         placing)
                            else []
      ensures wire == old(wire) + CopiesOf(setting, origin, change)
    {
      var transfer := NeedsTransfer(change.file, change.hash);
      RecordAndRestore(change.file, Version(change.hash, change.size, change.observedAt));
      ForwardToPeers(change, origin);
      if transfer {
        PullIfWanted(origin, change.file, change.hash, change.size, placing);
      }
    }

    method AddTagged(file: FileId, path: LogicalPath, pathAt: Stamp, tags: seq<TagId>)
      requires database.RecordOf(file).row.None?
      modifies database
      ensures database.Only(file)
      ensures database.RecordOf(file) == old(database.RecordOf(file)).AddFile(path, pathAt).TagAll(tags, pathAt)
    {
      var _ := database.AddFile(file, path, pathAt);
      TagAll(file, tags, pathAt);
    }

    /** Tags carried by a creation, all under its stamp. */
    method TagAll(file: FileId, tags: seq<TagId>, modifiedAt: Stamp)
      modifies database
      ensures database.Only(file)
      ensures database.RecordOf(file) == old(database.RecordOf(file)).TagAll(tags, modifiedAt)
    {
      ghost var goal := database.RecordOf(file).TagAll(tags, modifiedAt);
      for i := 0 to |tags|
        invariant database.Only(file)
        invariant database.RecordOf(file).TagAll(tags[i..], modifiedAt) == goal
      {
        assert tags[i..][0] == tags[i] && tags[i..][1..] == tags[i + 1..];
        database.UpsertEntry(tags[i], file, TagEdge(modifiedAt, false));
      }
    }

    method NeedsTransfer(file: FileId, hash: Hash) returns (transfer: bool)
      ensures transfer == database.RecordOf(file).NeedsTransfer(hash)
    {
      var latest := database.LatestVersion(file);
      var state := database.DeletionState(file);
      var sameContent := latest.Some? && latest.value.hash == hash;
      var deleted := state.Some? && state.value.deleted;
      transfer := !sameContent || deleted;
    }

    method RecordAndRestore(file: FileId, version: Version)
      modifies database
      ensures database.Only(file) && database.RecordOf(file) == old(database.RecordOf(file)).Accept(version)
    {
      var _ := database.RecordVersionAt(file, version);
      database.RestoreFile(file);
    }

    method ApplyChanged(change: Change, origin: Origin) returns (publish: bool)
      requires change.Changed? && !database.RecordOf(change.file).purged
      modifies this, database
      ensures Took(change, origin, old(Handle(database.RecordOf(change.file), change)))
      ensures publish == old(Handle(database.RecordOf(change.file), change)).publish
    {
      var latest := database.LatestVersion(change.file);
      if latest.Some? && change.observedAt <= latest.value.observedAt {
        ForwardToPeers(change, origin);
      } else {
        AcceptAnnounced(change, origin, Overwrite);
      }
      publish := true;
    }

    method ApplyMoved(change: Change, origin: Origin) returns (publish: bool)
      requires change.Moved? && !database.RecordOf(change.file).purged
      modifies this, database
      ensures Took(change, origin, old(Handle(database.RecordOf(change.file), change)))
      ensures publish == old(Handle(database.RecordOf(change.file), change)).publish
    {
      var tags := database.TagIdsForFile(change.file);
      var moved := database.UpdateFileLogicalPath(change.file, change.path, change.modifiedAt);
      if !moved { return false; }
      MoveInDirectories(change.file, change.path, Tags(tags), origin);
      ForwardToPeers(change, origin);
      publish := true;
    }

    method ApplyDeleted(change: Change, origin: Origin) returns (publish: bool)
      requires change.Deleted? && !database.RecordOf(change.file).purged
      modifies this, database
      ensures Took(change, origin, old(Handle(database.RecordOf(change.file), change)))
      ensures publish == old(Handle(database.RecordOf(change.file), change)).publish
    {
      var tags := database.TagIdsForFile(change.file);
      var state := database.DeletionState(change.file);
      if state.None? || state.value.deleted { return false; }
      var removed := database.RemoveFile(change.file, change.deletedAt);
      if !removed { return false; }
      RemoveFromDirectories(change.file, Tags(tags), origin);
      ForwardToPeers(change, origin);
      publish := true;
    }

    method ApplyRestored(change: Change, origin: Origin) returns (publish: bool)
      requires change.Restored? && !database.RecordOf(change.file).purged
      modifies this, database
      ensures Took(change, origin, old(Handle(database.RecordOf(change.file), change)))
      ensures publish == old(Handle(database.RecordOf(change.file), change)).publish
    {
      var latest := database.LatestVersion(change.file);
      var state := database.DeletionState(change.file);
      if latest.Some? && latest.value.hash == change.hash && state.Some? && !state.value.deleted {
        ForwardToPeers(change, origin);
        return false;
      }
      var restored := database.ApplyRestore(change.file, change.restoredAt);
      ForwardToPeers(change, origin);
      if restored {
        PullIfWanted(origin, change.file, change.hash, change.size, Overwrite);
      }
      publish := true;
    }

    method ApplyPurged(change: Change, origin: Origin) returns (publish: bool)
      requires change.Purged?
      modifies this, database
      ensures Took(change, origin, old(Handle(database.RecordOf(change.file), change)))
      ensures publish == old(Handle(database.RecordOf(change.file), change)).publish
    {
      var tags := database.TagIdsForFile(change.file);
      var recorded := database.RecordPurge(change.file);
      if !recorded {
        var lingers := database.FileExists(change.file);
        if !lingers { return false; }
      }
      database.StripPurgedFile(change.file);
      RemoveFromDirectories(change.file, Tags(tags), origin);
      ForwardToPeers(change, origin);
      publish := true;
    }

    method ApplyTagEdit(change: Change, origin: Origin) returns (publish: bool)
      requires (change.Tagged? || change.Untagged?) && !database.RecordOf(change.file).purged
      modifies this, database
      ensures Took(change, origin, old(Handle(database.RecordOf(change.file), change)))
      ensures publish == old(Handle(database.RecordOf(change.file), change)).publish
    {
      database.UpsertEntry(change.tag, change.file, TagEdge(change.modifiedAt, change.Untagged?));
      PlanPlacement(change.file);
      ForwardToPeers(change, origin);
      publish := true;
    }

    /** The one dispatch of every metadata change, local or from a peer; one of a purged id is dropped first. */
    method ApplyChange(change: Change, origin: Origin) returns (publish: bool)
      modifies this, database
      ensures Took(change, origin, old(Handle(database.RecordOf(change.file), change)))
      ensures publish == old(Handle(database.RecordOf(change.file), change)).publish
    {
      var purged := database.IsPurged(change.file);
      if purged && !change.Purged? { return false; }
      match change {
        case Added(_, _, _, _, _, _, _) => publish := ApplyAdded(change, origin);
        case Changed(_, _, _, _) => publish := ApplyChanged(change, origin);
        case Moved(_, _, _) => publish := ApplyMoved(change, origin);
        case Deleted(_, _) => publish := ApplyDeleted(change, origin);
        case Restored(_, _, _, _) => publish := ApplyRestored(change, origin);
        case Purged(_) => publish := ApplyPurged(change, origin);
        case Tagged(_, _, _) => publish := ApplyTagEdit(change, origin);
        case Untagged(_, _, _) => publish := ApplyTagEdit(change, origin);
      }
    }

    // ---- whole messages ----

    /** The message did to the tables what Step says, and sent exactly what Sends says. */
    twostate predicate Did(message: Message)
      reads this, database
    {
      database.Only(message.file) && setting == old(setting)
      && database.RecordOf(message.file) == Step(old(database.RecordOf(message.file)), message.command)
      && Sent() == old(Sent()).Plus(Sends(setting, old(database.RecordOf(message.file)), message))
    }

    /** The dispatch, and the change published to subscribers unless the arm says otherwise. */
    method ApplyMetadataChange(change: Change, origin: Origin)
      modifies this, database
      ensures Did(Plain(change.file, Meta(change), origin))
    {
      var publish := ApplyChange(change, origin);
      CopiesOfOne(setting, origin, change, old(Handle(database.RecordOf(change.file), change)).forward);
      if publish { events := events + [change]; }
    }

    method CatalogFile(file: FileId, path: LogicalPath, pathAt: Stamp, version: Version, origin: Origin,
                       pull: Option<Placing>)
      modifies this, database
      ensures Did(Message(file, ManifestFile(path, pathAt, version), origin, NO_CONTENT, pull))
    {
      var purged := database.IsPurged(file);
      if purged { return; }
      var isNew := !database.FileExists(file);
      var latest := database.LatestVersion(file);
      if !isNew && latest.Some? && version.observedAt <= latest.value.observedAt { return; }
      AdoptVersion(file, isNew, path, pathAt, version);
      var change := if isNew then AddedTo(file, path, pathAt, version, []) else EditOf(file, version);
      AnnounceAdopted(file, change, origin, pull);
    }

    method AnnounceAdopted(file: FileId, change: Change, origin: Origin, pull: Option<Placing>)
      requires change.Announces()
      modifies this`wire, this`pulls
      ensures wire == old(wire) + AllCopies(setting, origin, [change])
      ensures pulls == old(pulls)
                       + if pull.None? then []
                         else PullFor(setting, database.RecordOf(file), origin, file, change.hash, change.size,
                                      pull.value)
    {
      if pull.Some? {
        PullIfWanted(origin, file, change.hash, change.size, pull.value);
      }
      ForwardToPeers(change, origin);
      CopiesOfOne(setting, origin, change, true);
    }

    method AdoptVersion(file: FileId, isNew: bool, path: LogicalPath, pathAt: Stamp, version: Version)
      requires isNew <==> database.RecordOf(file).row.None?
      modifies database
      ensures var before := old(database.RecordOf(file));
              database.Only(file)
              && database.RecordOf(file) == (if isNew then before.AddFile(path, pathAt) else before).Accept(version)
    {
      if isNew {
        var _ := database.AddFile(file, path, pathAt);
      }
      RecordAndRestore(file, version);
    }

    method CatalogTombstone(file: FileId, path: LogicalPath, pathAt: Stamp, version: Version, deletedAt: Stamp,
                            restoredAt: Stamp, origin: Origin)
      modifies this, database
      ensures Did(Plain(file, ManifestTombstone(path, pathAt, version, deletedAt, restoredAt), origin))
    {
      TombstoneSends(setting, database.RecordOf(file), file, path, pathAt, version, deletedAt, restoredAt, origin);
      var purged := database.IsPurged(file);
      if purged { return; }
      var created := database.AddTombstonedFile(file, path, pathAt, version, deletedAt, restoredAt);
      if !created { return; }
      ForwardToPeers(Deleted(file, deletedAt), origin);
    }

    /** Bytes that arrive late are placed only for a live file whose latest content they are. */
    method Materialize(file: FileId, content: Content, hash: Hash, placing: Placing)
      modifies this`commands, this`events
      ensures Sent() == old(Sent()).Plus(ArrivalSends(setting, database.RecordOf(file), file, content, hash, placing))
    {
      var state := database.DeletionState(file);
      if state.None? || state.value.deleted { return; }
      var latest := database.LatestVersion(file);
      if latest.Some? && latest.value.hash != hash { return; }
      PlaceLate(file, content, placing);
      var size: nat := if latest.Some? then latest.value.size else 0;
      var observedAt := if latest.Some? then latest.value.observedAt else 0;
      events := events + [Changed(file, hash, size, observedAt)];
    }

    method PlaceLate(file: FileId, content: Content, placing: Placing)
      modifies this`commands
      ensures commands
           == old(commands) + Shares(Targets(setting.directories, database.RecordOf(file), file, placing), content)
    {
      var tags := database.TagIdsForFile(file);
      var targets := MaterializeTargets(setting.directories, database.RecordOf(file), tags, file, placing);
      var shares := PlaceContent(targets, content);
      commands := commands + shares;
    }

    /** A new or edited file in a sync directory of this device, under the tags that were given and ruled. */
    method HandleFileAdded(directory: DirectoryPath, file: FileId, path: LogicalPath, pathAt: Stamp, content: Content,
                           version: Version, tags: seq<TagId>, rules: seq<TagId>, stamps: nat -> Stamp)
      returns (ghost tagStamps: seq<(TagId, Stamp)>)
      modifies this, database
      ensures Tags(TagsOf(tagStamps)) == Tags(tags) + Tags(rules) && tags <= TagsOf(tagStamps)
      ensures Tags(rules) <= Tags(tags) ==> TagsOf(tagStamps) == tags
      ensures forall i :: 0 <= i < |tagStamps| ==> tagStamps[i].1 == stamps(i)
      ensures Did(Message(file, DirectoryAdd(path, pathAt, version, tagStamps), Local(directory), content, None))
    {
      var all := ApplyTagRules(rules, tags);
      var stamped := seq(|all|, i requires 0 <= i < |all| => (all[i], stamps(i)));
      tagStamps := stamped;
      assert TagsOf(tagStamps) == all;
      IngestAdded(file, path, pathAt, content, version, stamped, Local(directory));
    }

    method IngestAdded(file: FileId, path: LogicalPath, pathAt: Stamp, content: Content, version: Version,
                       tagStamps: seq<(TagId, Stamp)>, origin: Origin)
      modifies this, database
      ensures Did(Message(file, DirectoryAdd(path, pathAt, version, tagStamps), origin, content, None))
    {
      if !database.FileExists(file) {
        CreateFromDirectory(file, path, pathAt, content, version, TagsOf(tagStamps), tagStamps, origin);
      } else {
        var latest := database.LatestVersion(file);
        if !(latest.Some? && latest.value.hash == version.hash) {
          EditInDirectory(file, content, version, origin);
        }
      }
    }

    method CreateFromDirectory(file: FileId, path: LogicalPath, pathAt: Stamp, content: Content, version: Version,
                               tags: seq<TagId>, tagStamps: seq<(TagId, Stamp)>, origin: Origin)
      requires database.RecordOf(file).row.None? && TagsOf(tagStamps) == tags
      modifies this, database
      ensures Did(Message(file, DirectoryAdd(path, pathAt, version, tagStamps), origin, content, None))
    {
      CreationSends(setting, database.RecordOf(file), file, path, pathAt, content, version, tagStamps, origin);
      RecordTagged(file, path, pathAt, version, tagStamps, origin);
      var targets := HomePlacements(setting.directories, origin, file, path, Tags(tags));
      DispatchAndForward(targets, content, origin, AddedTo(file, path, pathAt, version, tags));
    }

    method RecordTagged(file: FileId, path: LogicalPath, pathAt: Stamp, version: Version,
                        tagStamps: seq<(TagId, Stamp)>, origin: Origin)
      requires database.RecordOf(file).row.None?
      modifies this`wire, database
      ensures database.Only(file)
      ensures database.RecordOf(file) == LocalAdd(old(database.RecordOf(file)), path, pathAt, version, tagStamps)
      ensures wire == old(wire) + AllCopies(setting, origin, TagEdits(file, tagStamps))
    {
      var _ := database.AddFile(file, path, pathAt);
      var _ := database.RecordVersionAt(file, version);
      TagAndForward(file, tagStamps, origin);
    }

    method EditInDirectory(file: FileId, content: Content, version: Version, origin: Origin)
      modifies this, database
      ensures Did(Message(file, DirectoryEdit(version), origin, content, None))
    {
      RecordAndRestore(file, version);
      var targets := LivePlacements(origin, file);
      DispatchAndForward(targets, content, origin, EditOf(file, version));
      CopiesOfOne(setting, origin, EditOf(file, version), true);
    }

    method LivePlacements(origin: Origin, file: FileId) returns (targets: seq<Placement>)
      ensures targets == LiveTargets(setting.directories, database.RecordOf(file), origin, file)
    {
      var state := database.DeletionState(file);
      if state.None? || state.value.deleted { return []; }
      var tags := database.TagIdsForFile(file);
      targets := PlacementsFor(setting.directories, origin, file, state.value.path, Tags(tags));
    }

    /** Bytes to the directories, metadata to the peers, the change to subscribers. */
    method DispatchAndForward(targets: seq<Placement>, content: Content, origin: Origin, change: Change)
      modifies this`commands, this`wire, this`events
      ensures commands == old(commands) + Shares(targets, content)
      ensures wire == old(wire) + CopiesOf(setting, origin, change)
      ensures events == old(events) + [change]
    {
      var shares := PlaceContent(targets, content);
      commands := commands + shares;
      ForwardToPeers(change, origin);
      events := events + [change];
    }

    method TagAndForward(file: FileId, tagStamps: seq<(TagId, Stamp)>, origin: Origin)
      modifies this`wire, database
      ensures database.Only(file)
      ensures database.RecordOf(file) == TagEach(old(database.RecordOf(file)), tagStamps)
      ensures wire == old(wire) + AllCopies(setting, origin, TagEdits(file, tagStamps))
    {
      ghost var start, before := database.RecordOf(file), wire;
      ghost var sent: seq<Envelope> := [];
      for i := 0 to |tagStamps|
        invariant database.Only(file) && wire == before + sent
        invariant TaggedUpTo(setting, origin, file, tagStamps, i, start, database.RecordOf(file), sent)
      {
        TaggedStep(setting, origin, file, tagStamps, i, start, database.RecordOf(file), sent);
        TagOne(file, tagStamps[i].0, tagStamps[i].1, origin);
        sent := sent + CopiesOf(setting, origin, Tagged(file, tagStamps[i].0, tagStamps[i].1));
      }
      assert tagStamps[..|tagStamps|] == tagStamps;
    }

    method TagOne(file: FileId, tag: TagId, modifiedAt: Stamp, origin: Origin)
      modifies this`wire, database
      ensures database.Only(file)
      ensures database.RecordOf(file) == old(database.RecordOf(file)).SetEdge(tag, TagEdge(modifiedAt, false))
      ensures wire == old(wire) + CopiesOf(setting, origin, Tagged(file, tag, modifiedAt))
    {
      database.UpsertEntry(tag, file, TagEdge(modifiedAt, false));
      ForwardToPeers(Tagged(file, tag, modifiedAt), origin);
    }

    /** A file uploaded through the API: a creation when it comes with a path, an edit otherwise. */
    method AnnounceUpload(file: FileId, path: Option<LogicalPath>, pathAt: Stamp, version: Version, tags: seq<TagId>,
                          rules: seq<TagId>)
      returns (ghost command: Command)
      modifies this, database
      ensures path.None? ==> command == UploadEdit(version)
      ensures path.Some? ==>
                command.UploadNew? && command == UploadNew(path.value, pathAt, version, command.tags)
                && tags <= command.tags && Tags(command.tags) == Tags(tags) + Tags(rules)
                && (Tags(rules) <= Tags(tags) ==> command.tags == tags)
      ensures Did(Plain(file, command, LOCAL_ORIGIN))
    {
      if path.Some? {
        var all := ApplyTagRules(rules, tags);
        command := UploadNew(path.value, pathAt, version, all);
        UploadCreation(file, path.value, pathAt, version, all);
      } else {
        command := UploadEdit(version);
        RecordAndRestore(file, version);
        FinishUpload(file, EditOf(file, version), Overwrite, version);
      }
    }

    method UploadCreation(file: FileId, path: LogicalPath, pathAt: Stamp, version: Version, tags: seq<TagId>)
      modifies this, database
      ensures Did(Plain(file, UploadNew(path, pathAt, version, tags), LOCAL_ORIGIN))
    {
      var added := database.AddFile(file, path, pathAt);
      if !added { return; }
      TagAll(file, tags, pathAt);
      RecordAndRestore(file, version);
      FinishUpload(file, AddedTo(file, path, pathAt, version, tags), Create(path, tags), version);
    }

    /** Announced, fetched from the outbox if some local directory wants it, and published. */
    method FinishUpload(file: FileId, change: Change, placing: Placing, version: Version)
      modifies this`wire, this`followUps, this`events
      ensures wire == old(wire) + AllCopies(setting, LOCAL_ORIGIN, [change])
      ensures events == old(events) + [change]
      ensures followUps == old(followUps)
                           + Fetching(setting.directories, database.RecordOf(file), file, placing, version)
    {
      ForwardToPeers(change, LOCAL_ORIGIN);
      CopiesOfOne(setting, LOCAL_ORIGIN, change, true);
      var cataloged := database.TagIdsForFile(file);
      var targets := MaterializeTargets(setting.directories, database.RecordOf(file), cataloged, file, placing);
      if targets != [] {
        followUps := followUps + [FetchUpload(file, placing, version.hash, version.size)];
      }
      events := events + [change];
    }

    /** A user restore whose bytes were found: announced and placed only if it wins. */
    method ApplyRestore(file: FileId, hash: Hash, size: nat, restoredAt: Stamp) returns (restored: bool)
      modifies this, database
      ensures Did(Plain(file, UserRestore(hash, size, restoredAt), LOCAL_ORIGIN))
      ensures restored == old(database.RecordOf(file)).RestoreWins(restoredAt)
    {
      RestoreSends(setting, database.RecordOf(file), file, hash, size, restoredAt);
      restored := database.ApplyRestore(file, restoredAt);
      if !restored { return; }
      var change := Restored(file, hash, size, restoredAt);
      ForwardToPeers(change, LOCAL_ORIGIN);
      PlanPlacement(file);
      events := events + [change];
    }

    // ---- runs ----

    /** The tables hold exactly this catalog. */
    ghost predicate Mirrors(store: Store)
      reads database
    {
      forall file :: database.RecordOf(file) == RecordOf(store, file)
    }

    /** From that catalog, with that much sent, the messages led here. */
    ghost predicate Through(inbox: seq<Message>, start: Store, sent: Sending)
      reads this, database
    {
      Mirrors(After(start, inbox)) && Sent() == sent.Plus(SendsAll(setting, start, inbox))
    }

    lemma ThroughNothing()
      ensures Through([], database.Snapshot(), Sent())
    {
      database.SnapshotIsWhole();
    }

    /** The messages did to the tables what After says, and sent exactly what SendsAll says. */
    twostate predicate DidAll(inbox: seq<Message>)
      reads this, database
    {
      setting == old(setting)
      && Through(inbox, old(database.Snapshot()), old(Sent()))
    }

    twostate lemma DidOneMore(new inbox: seq<Message>, new start: Store, new sent: Sending, message: Message)
      requires setting == old(setting) && Did(message)
      requires old(Through(inbox, start, sent))
      ensures Through(inbox + [message], start, sent)
    {
      RunLast(setting, start, inbox, message);
      PlusAssociates(sent, SendsAll(setting, start, inbox),
                     Sends(setting, RecordOf(After(start, inbox), message.file), message));
    }

    method HandleMessage(message: Message)
      requires message.WellFormed()
      modifies this, database
      ensures Did(message)
    {
      var Message(file, command, origin, content, pull) := message;
      match command {
        case Meta(change) => ApplyMetadataChange(change, origin);
        case ManifestFile(path, pathAt, version) => CatalogFile(file, path, pathAt, version, origin, pull);
        case ManifestTombstone(path, pathAt, version, deletedAt, restoredAt) =>
          CatalogTombstone(file, path, pathAt, version, deletedAt, restoredAt, origin);
        case DirectoryAdd(path, pathAt, version, tagStamps) =>
          var stamps := (i: nat) => if i < |tagStamps| then tagStamps[i].1 else 0;
          ghost var done := HandleFileAdded(origin.directory, file, path, pathAt, content, version,
                                            TagsOf(tagStamps), [], stamps);
          SameStamps(tagStamps, done);
        case DirectoryEdit(version) => EditInDirectory(file, content, version, origin);
        case UploadNew(path, pathAt, version, tags) =>
          ghost var _ := AnnounceUpload(file, Some(path), pathAt, version, tags, []);
        case UploadEdit(version) =>
          ghost var _ := AnnounceUpload(file, None, 0, version, [], []);
        case UserRestore(hash, size, restoredAt) =>
          var _ := ApplyRestore(file, hash, size, restoredAt);
      }
    }

    lemma SameStamps(a: seq<(TagId, Stamp)>, b: seq<(TagId, Stamp)>)
      requires TagsOf(a) == TagsOf(b) && forall i :: 0 <= i < |b| && i < |a| ==> b[i].1 == a[i].1
      ensures a == b
    {
      assert |TagsOf(a)| == |a| && |TagsOf(b)| == |b|;
      forall i | 0 <= i < |a| ensures a[i] == b[i] {
        assert TagsOf(a)[i] == a[i].0 && TagsOf(b)[i] == b[i].0;
      }
    }

    /** One message more. */
    method HandleNext(message: Message, ghost done: seq<Message>, ghost start: Store, ghost sent: Sending)
      requires message.WellFormed() && Through(done, start, sent)
      modifies this, database
      ensures setting == old(setting) && Through(done + [message], start, sent)
    {
      label Before:
      HandleMessage(message);
      DidOneMore@Before(done, start, sent, message);
    }

    /** One message at a time: tables, copies, directory commands, pulls, events and follow-ups of the whole inbox. */
    method Run(inbox: seq<Message>)
      requires forall i :: 0 <= i < |inbox| ==> inbox[i].WellFormed()
      modifies this, database
      ensures DidAll(inbox)
    {
      ghost var start, sent, done := database.Snapshot(), Sent(), [];
      ThroughNothing();
      for i := 0 to |inbox|
        invariant done == inbox[..i] && setting == old(setting) && Through(done, start, sent)
      {
        HandleNext(inbox[i], done, start, sent);
        done := done + [inbox[i]];
      }
      assert done == inbox;
    }

    /** Changes the writer makes of its own accord, applied one by one as ordinary local changes. */
    method ApplyLocalChanges(changes: seq<Change>)
      modifies this, database
      ensures DidAll(LocalChanges(changes))
    {
      ghost var start, sent, done := database.Snapshot(), Sent(), [];
      ThroughNothing();
      for i := 0 to |changes|
        invariant |done| == i && done == LocalChanges(changes)[..i]
        invariant setting == old(setting) && Through(done, start, sent)
      {
        ApplyNext(changes[i], done, start, sent);
        done := done + [Plain(changes[i].file, Meta(changes[i]), LOCAL_ORIGIN)];
      }
      assert done == LocalChanges(changes);
    }

    /** One local change more. */
    method ApplyNext(change: Change, ghost done: seq<Message>, ghost start: Store, ghost sent: Sending)
      requires Through(done, start, sent)
      modifies this, database
      ensures setting == old(setting)
      ensures Through(done + [Plain(change.file, Meta(change), LOCAL_ORIGIN)], start, sent)
    {
      label Before:
      ApplyMetadataChange(change, LOCAL_ORIGIN);
      DidOneMore@Before(done, start, sent, Plain(change.file, Meta(change), LOCAL_ORIGIN));
    }

    /**
     Purges every listed file that is tombstoned now and touches no other: each purge is announced and
     published once, and the file removed from the directories its tags put it in. A dry run only says which.
     */
    method PurgeDeleted(dryRun: bool) returns (deleted: seq<FileId>)
      modifies this, database
      ensures forall file :: file in deleted <==> old(database.RecordOf(file)).Tombstoned()
                                                  && old(database.RecordOf(file)).versions != []
      ensures forall file :: database.RecordOf(file)
                             == if !dryRun && file in deleted then PURGED else old(database.RecordOf(file))
      ensures Distinct(deleted) && DidAll(if dryRun then [] else LocalChanges(Purges(deleted)))
      ensures Sent() == if dryRun then old(Sent())
                        else old(Sent()).Plus(PurgesSending(setting, old(database.Snapshot()), deleted))
    {
      deleted := DeletedFiles();
      if dryRun {
        ThroughNothing();
        return;
      }
      database.SnapshotIsWhole();
      ghost var start := database.Snapshot();
      ApplyLocalChanges(Purges(deleted));
      PurgesSend(setting, start, deleted);
      forall file ensures database.RecordOf(file) == if file in deleted then PURGED else old(database.RecordOf(file)) {
        PurgesPurge(start, deleted, file);
      }
    }

    method DeletedFiles() returns (deleted: seq<FileId>)
      ensures forall file :: file in deleted <==>
                               database.RecordOf(file).Tombstoned() && database.RecordOf(file).versions != []
      ensures Distinct(deleted)
    {
      var ids := Enumerate(database.files.Keys);
      deleted := [];
      for i := 0 to |ids|
        invariant Distinct(deleted)
        invariant forall file :: file in deleted <==>
                                   file in ids[..i] && database.RecordOf(file).Tombstoned()
                                   && database.RecordOf(file).versions != []
      {
        assert ids[..i + 1] == ids[..i] + [ids[i]];
        var state, latest := database.DeletionState(ids[i]), database.LatestVersion(ids[i]);
        if state.Some? && state.value.deleted && latest.Some? { deleted := deleted + [ids[i]]; }
      }
      assert ids[..|ids|] == ids;
    }
  }

  lemma PlusAssociates(a: Sending, b: Sending, c: Sending)
    ensures a.Plus(b).Plus(c) == a.Plus(b.Plus(c))
  {
  }
}
