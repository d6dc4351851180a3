/**
 Who is told what for each message of the writer: every peer, every sync directory, the announcing peer's
 session, the follow-up fetches and the subscribers. Stated over the configuration, the record and the change,
 field by field, and not by the functions that compute what is sent.
 */
module WriterLaws {
  import opened Types
  import opened Catalog
  import opened FileBytes
  import opened Placement
  import opened Outgoing
  import opened RecordLaws
  import CatalogWriter

  // ---- peers ----

  /** What one peer is sent, in order. */
  function HeardBy(wire: seq<Envelope>, peer: PeerKey): seq<Change>
    decreases |wire|
  {
    if wire == [] then [] else
    var n := |wire| - 1;
    HeardBy(wire[..n], peer) + if wire[n].peer == peer then [wire[n].change] else []
  }

  /** Configured, connected, and not the one it came from. */
  predicate Listens(setting: Setting, origin: Origin, peer: PeerKey) {
    peer in setting.peers && peer in setting.sessions && setting.sessions[peer].outbound
    && !(origin.Peer? && origin.key == peer)
  }

  lemma {:induction false} HeardOfBoth(first: seq<Envelope>, second: seq<Envelope>, peer: PeerKey)
    ensures HeardBy(first + second, peer) == HeardBy(first, peer) + HeardBy(second, peer)
    decreases |second|
  {
    if second == [] {
      assert first + second == first;
    } else {
      var n := |second| - 1;
      HeardOfBoth(first, second[..n], peer);
      assert (first + second)[..|first + second| - 1] == first + second[..n];
    }
  }

  lemma HeardOfOneMore(wire: seq<Envelope>, last: Envelope, peer: PeerKey)
    ensures HeardBy(wire + [last], peer) == HeardBy(wire, peer) + if last.peer == peer then [last.change] else []
  {
    assert (wire + [last])[..|wire|] == wire;
  }

  lemma {:induction false} HeardOfCopies(peers: seq<PeerKey>, sessions: map<PeerKey, Session>, origin: Origin,
                                         change: Change, peer: PeerKey)
    requires Distinct(peers)
    ensures HeardBy(Copies(peers, sessions, origin, change), peer)
         == if Listens(Setting([], peers, sessions), origin, peer) then [change] else []
    decreases |peers|
  {
    if peers != [] {
      var n := |peers| - 1;
      HeardOfCopies(peers[..n], sessions, origin, change, peer);
      assert peer in peers <==> peer in peers[..n] || peer == peers[n];
      assert peers[n] !in peers[..n];
      HeardOfOneMore(Copies(peers[..n], sessions, origin, change), Envelope(peers[n], change), peer);
      if !Reaches(sessions, origin, peers[n]) {
        assert Copies(peers, sessions, origin, change) == Copies(peers[..n], sessions, origin, change);
      }
    }
  }

  lemma HeardOfTurn(setting: Setting, origin: Origin, change: Change, peer: PeerKey)
    requires Distinct(setting.peers)
    ensures HeardBy(CopiesOf(setting, origin, change), peer) == if Listens(setting, origin, peer) then [change] else []
  {
    HeardOfCopies(setting.peers, setting.sessions, origin, change, peer);
  }

  lemma {:induction false} HeardOfAll(setting: Setting, origin: Origin, changes: seq<Change>, peer: PeerKey)
    requires Distinct(setting.peers)
    ensures HeardBy(AllCopies(setting, origin, changes), peer) == if Listens(setting, origin, peer) then changes else []
    decreases |changes|
  {
    if changes != [] {
      var n := |changes| - 1;
      HeardOfAll(setting, origin, changes[..n], peer);
      HeardOfTurn(setting, origin, changes[n], peer);
      HeardOfBoth(AllCopies(setting, origin, changes[..n]), CopiesOf(setting, origin, changes[n]), peer);
      assert changes == changes[..n] + [changes[n]];
    }
  }

  /** The peers that listen, in configuration order. */
  function Listeners(setting: Setting, peers: seq<PeerKey>, origin: Origin): seq<PeerKey>
    decreases |peers|
  {
    if peers == [] then [] else
    var n := |peers| - 1;
    Listeners(setting, peers[..n], origin) + if Listens(setting, origin, peers[n]) then [peers[n]] else []
  }

  /** Each change to each of them, before the next change. */
  function Broadcast(listeners: seq<PeerKey>, changes: seq<Change>): seq<Envelope>
    decreases |changes|
  {
    if changes == [] then [] else
    var n := |changes| - 1;
    Broadcast(listeners, changes[..n])
    + seq(|listeners|, i requires 0 <= i < |listeners| => Envelope(listeners[i], changes[n]))
  }

  lemma {:induction false} CopiesListen(setting: Setting, peers: seq<PeerKey>, origin: Origin, change: Change)
    requires forall peer <- peers :: peer in setting.peers
    ensures var listeners := Listeners(setting, peers, origin);
            Copies(peers, setting.sessions, origin, change)
            == seq(|listeners|, i requires 0 <= i < |listeners| => Envelope(listeners[i], change))
    decreases |peers|
  {
    if peers != [] {
      var n := |peers| - 1;
      assert peers == peers[..n] + [peers[n]];
      CopiesListen(setting, peers[..n], origin, change);
    }
  }

  lemma {:induction false} AllCopiesAre(setting: Setting, origin: Origin, changes: seq<Change>)
    ensures AllCopies(setting, origin, changes) == Broadcast(Listeners(setting, setting.peers, origin), changes)
    decreases |changes|
  {
    if changes != [] {
      var n := |changes| - 1;
      AllCopiesAre(setting, origin, changes[..n]);
      CopiesListen(setting, setting.peers, origin, changes[n]);
    }
  }

  /** Whether a metadata change that reaches a record unpurged, or is a purge, goes on to peers. */
  predicate Forwards(r: Record, change: Change) {
    match change
    case Moved(_, _, modifiedAt) => !r.purged && r.row.Some? && r.row.value.pathAt < modifiedAt
    case Deleted(_, _) => r.row.Some? && Deletes(r, Meta(change))
    case Purged(_) => Erases(r, Meta(change))
    case _ => !r.purged
  }

  /** What a message is to tell peers, in order: the tags of a reported file go ahead of it. */
  function Tells(r: Record, file: FileId, command: Command): seq<Change> {
    match command
    case Meta(change) => if Forwards(r, change) then [change] else []
    case ManifestFile(path, pathAt, version) =>
      if !Records(r, command) then []
      else if r.row.None? then [Added(file, path, pathAt, version.hash, version.size, version.observedAt, [])]
      else [Changed(file, version.hash, version.size, version.observedAt)]
    case ManifestTombstone(_, _, _, deletedAt, _) => if Records(r, command) then [Deleted(file, deletedAt)] else []
    case DirectoryAdd(path, pathAt, version, tagStamps) =>
      if !Records(r, command) then []
      else if r.row.Some? then [Changed(file, version.hash, version.size, version.observedAt)]
      else
        seq(|tagStamps|, i requires 0 <= i < |tagStamps| => Tagged(file, tagStamps[i].0, tagStamps[i].1))
        + [Added(file, path, pathAt, version.hash, version.size, version.observedAt,
                 seq(|tagStamps|, i requires 0 <= i < |tagStamps| => tagStamps[i].0))]
    case DirectoryEdit(version) => [Changed(file, version.hash, version.size, version.observedAt)]
    case UploadNew(path, pathAt, version, tags) =>
      if r.row.Some? then []
      else [Added(file, path, pathAt, version.hash, version.size, version.observedAt, tags)]
    case UploadEdit(version) => [Changed(file, version.hash, version.size, version.observedAt)]
    case UserRestore(hash, size, restoredAt) =>
      if Revives(r, restoredAt) then [Restored(file, hash, size, restoredAt)] else []
  }

  /** A restore leaves the file live: it, an earlier one or the content is newer than the delete. */
  predicate Revives(r: Record, restoredAt: Stamp) {
    r.row.Some?
    && (r.row.value.deletedAt < restoredAt || r.row.value.deletedAt < r.row.value.restoredAt
        || r.row.value.deletedAt < LastStamp(r))
  }

  lemma AnnouncedIs(r: Record, file: FileId, command: Command)
    ensures Announced(r, file, command) == Tells(r, file, command)
  {
  }

  /** Every peer that listens is sent exactly what the message tells, once and in order; no other peer hears of it. */
  lemma PeersHear(setting: Setting, before: Record, message: Message, peer: PeerKey)
    requires Distinct(setting.peers)
    ensures HeardBy(Sends(setting, before, message).wire, peer)
         == if Listens(setting, message.origin, peer) then Tells(before, message.file, message.command) else []
  {
    HeardOfAll(setting, message.origin, Announced(before, message.file, message.command), peer);
    AnnouncedIs(before, message.file, message.command);
  }

  /** And the copies leave change by change, to the listening peers as configured. */
  lemma WireIs(setting: Setting, before: Record, message: Message)
    ensures Sends(setting, before, message).wire
         == Broadcast(Listeners(setting, setting.peers, message.origin), Tells(before, message.file, message.command))
  {
    AllCopiesAre(setting, message.origin, Announced(before, message.file, message.command));
    AnnouncedIs(before, message.file, message.command);
  }

  // ---- sync directories ----

  /** A universal directory takes every file, a tag-based one those with all its tags. */
  predicate Takes(d: SyncDirectory, tags: set<TagId>) {
    match d.kind
    case Universal(_) => true
    case TagBased(required) => forall tag <- required :: tag in tags
  }

  predicate Reports(d: SyncDirectory, origin: Origin) { origin.Local? && origin.directory == d.path }

  /** A universal directory knows a file by its id, a tag-based one by its path. */
  predicate Names(d: SyncDirectory, physical: PhysicalPath, file: FileId, path: LogicalPath) {
    match d.kind
    case Universal(_) => physical == ById(file)
    case TagBased(_) => physical == Named(path)
  }

  function TagsNow(r: Record): set<TagId> { set tag | tag in r.edges && !r.edges[tag].deleted }

  /** Which directory is passed over: none, the one a change is from, or that one if it is tag-based. */
  datatype Skip = Nobody | Reporter(origin: Origin) | TagBasedReporter(origin: Origin) {
    predicate Over(d: SyncDirectory) {
      match this
      case Nobody => false
      case Reporter(origin) => Reports(d, origin)
      case TagBasedReporter(origin) => Reports(d, origin) && d.kind.TagBased?
    }
  }

  /** The configured directories that take a file with these tags and are not passed over, in order. */
  function Picks(directories: seq<SyncDirectory>, skip: Skip, tags: set<TagId>): seq<SyncDirectory>
    decreases |directories|
  {
    if directories == [] then [] else
    var n := |directories| - 1;
    Picks(directories[..n], skip, tags)
    + if !skip.Over(directories[n]) && Takes(directories[n], tags) then [directories[n]] else []
  }

  /** Exactly those, once for each time they are configured. */
  lemma {:induction false} PicksAre(directories: seq<SyncDirectory>, skip: Skip, tags: set<TagId>, d: SyncDirectory)
    ensures d in Picks(directories, skip, tags) <==> d in directories && !skip.Over(d) && Takes(d, tags)
    decreases |directories|
  {
    if directories != [] {
      var n := |directories| - 1;
      PicksAre(directories[..n], skip, tags, d);
      assert directories == directories[..n] + [directories[n]];
    }
  }

  lemma {:induction false} MatchingPicks(directories: seq<SyncDirectory>, origin: Origin, tags: set<TagId>)
    ensures Matching(directories, origin, tags) == Picks(directories, Reporter(origin), tags)
    decreases |directories|
  {
    if directories != [] { MatchingPicks(directories[..|directories| - 1], origin, tags); }
  }

  lemma {:induction false} AnywherePicks(directories: seq<SyncDirectory>, tags: set<TagId>)
    ensures Matching(directories, ANYWHERE, tags) == Picks(directories, Nobody, tags)
    decreases |directories|
  {
    if directories != [] { AnywherePicks(directories[..|directories| - 1], tags); }
  }

  lemma {:induction false} HomesPicks(directories: seq<SyncDirectory>, origin: Origin, tags: set<TagId>)
    ensures Homes(directories, origin, tags) == Picks(directories, TagBasedReporter(origin), tags)
    decreases |directories|
  {
    if directories != [] { HomesPicks(directories[..|directories| - 1], origin, tags); }
  }

  lemma TagsNowAre(r: Record)
    ensures TagsNow(r) == r.LiveTags()
  {
  }

  /** A winning move renames the file in every directory that has it but the one it came from. */
  lemma MovesTold(setting: Setting, before: Record, file: FileId, path: LogicalPath, modifiedAt: Stamp, origin: Origin)
    ensures var commands := Sends(setting, before, Plain(file, Meta(Moved(file, path, modifiedAt)), origin)).commands;
            if !Forwards(before, Moved(file, path, modifiedAt)) then commands == [] else
            var picks := Picks(setting.directories, Reporter(origin), TagsNow(before));
            |commands| == |picks|
            && forall i :: 0 <= i < |picks| ==>
                 commands[i].MoveFile? && commands[i].file == file && commands[i].directory == picks[i].path
                 && Names(picks[i], commands[i].physical, file, path)
  {
    TagsNowAre(before);
    MatchingPicks(setting.directories, origin, before.LiveTags());
  }

  /** A winning delete, and a purge that is news, remove it there, by the tags it had. */
  lemma RemovesTold(setting: Setting, before: Record, change: Change, origin: Origin)
    requires change.Deleted? || change.Purged?
    ensures var commands := Sends(setting, before, Plain(change.file, Meta(change), origin)).commands;
            if !Forwards(before, change) then commands == [] else
            var picks := Picks(setting.directories, Reporter(origin), TagsNow(before));
            |commands| == |picks|
            && forall i :: 0 <= i < |picks| ==> commands[i] == RemoveFile(change.file, picks[i].path)
  {
    TagsNowAre(before);
    MatchingPicks(setting.directories, origin, before.LiveTags());
  }

  /** A tag edit of a live file, and a restore that leaves it live, have its directories asked again by its tags now. */
  lemma ReplacementsTold(setting: Setting, before: Record, message: Message)
    requires match message.command
             case Meta(change) => change.Tagged? || change.Untagged?
             case UserRestore(_, _, _) => true
             case _ => false
    ensures var after, sent := Step(before, message.command), Sends(setting, before, message);
            var acts := match message.command
                        case UserRestore(_, _, restoredAt) => Revives(before, restoredAt)
                        case _ => !before.purged;
            var latest := if after.versions == [] then None else Some(after.versions[|after.versions| - 1]);
            if acts && after.row.Some? && !after.row.value.deleted
            then sent.commands == [ApplyPlacement(message.file, after.row.value.path, TagsNow(after))]
                 && sent.followUps == [FetchIfDeferred(message.file, after.row.value.path, TagsNow(after), latest)]
            else sent.commands == [] && sent.followUps == []
  {
  }

  /** Announcements, manifests and uploads tell the directories nothing: their bytes come later. */
  lemma NothingTold(setting: Setting, before: Record, message: Message)
    requires match message.command
             case Meta(change) => change.Announces() || change.Restored?
             case ManifestFile(_, _, _) => true
             case ManifestTombstone(_, _, _, _, _) => true
             case UploadNew(_, _, _, _) => true
             case UploadEdit(_) => true
             case _ => false
    ensures Sends(setting, before, message).commands == []
  {
  }

  ghost predicate Created(commands: seq<DirectoryCommand>, picks: seq<SyncDirectory>, file: FileId, path: LogicalPath,
                          content: Content)
  {
    |commands| == |picks|
    && forall i :: 0 <= i < |picks| ==>
         commands[i].CreateFile? && commands[i].file == file && commands[i].directory == picks[i].path
         && Names(picks[i], commands[i].physical, file, path) && Passes(commands[i].content, content, i + 1 == |picks|)
  }

  ghost predicate Overwritten(commands: seq<DirectoryCommand>, picks: seq<SyncDirectory>, file: FileId,
                              path: LogicalPath, content: Content)
  {
    |commands| == |picks|
    && forall i :: 0 <= i < |picks| ==>
         commands[i].ChangeFile? && commands[i].file == file && commands[i].directory == picks[i].path
         && commands[i].path == path && Passes(commands[i].content, content, i + 1 == |picks|)
  }

  lemma SharesCreate(picks: seq<SyncDirectory>, file: FileId, path: LogicalPath, content: Content)
    ensures Created(Shares(Creates(picks, file, path), content), picks, file, path, content)
  {
    var targets := Creates(picks, file, path);
    SharesCarry(targets, content);
    forall i | 0 <= i < |picks| ensures Carries(Shares(targets, content)[i], targets[i], content, i + 1 == |picks|) {
    }
  }

  lemma SharesOverwrite(picks: seq<SyncDirectory>, file: FileId, path: LogicalPath, content: Content)
    ensures Overwritten(Shares(Overwrites(picks, file, path), content), picks, file, path, content)
  {
    var targets := Overwrites(picks, file, path);
    SharesCarry(targets, content);
    forall i | 0 <= i < |picks| ensures Carries(Shares(targets, content)[i], targets[i], content, i + 1 == |picks|) {
    }
  }

  /** A new version goes, under the path the catalog has, to every directory of a live file but the one it came from. */
  ghost predicate EditPlaced(commands: seq<DirectoryCommand>, directories: seq<SyncDirectory>, after: Record,
                             file: FileId, content: Content, origin: Origin)
  {
    if after.row.None? || after.row.value.deleted then commands == [] else
    Overwritten(commands, Picks(directories, Reporter(origin), TagsNow(after)), file,
                after.row.value.path, content)
  }

  lemma LiveSharesAre(directories: seq<SyncDirectory>, after: Record, file: FileId, content: Content, origin: Origin)
    ensures EditPlaced(Shares(LiveTargets(directories, after, origin, file), content), directories, after, file,
                       content, origin)
  {
    TagsNowAre(after);
    MatchingPicks(directories, origin, after.LiveTags());
    if after.Live() {
      SharesOverwrite(Matching(directories, origin, after.LiveTags()), file, after.row.value.path, content);
    }
  }

  /** A new file is created in its homes, an edited one overwritten, and one found unchanged left alone. */
  lemma ReportsTold(setting: Setting, before: Record, message: Message)
    requires message.command.DirectoryAdd? || message.command.DirectoryEdit?
    ensures var commands, after := Sends(setting, before, message).commands, Step(before, message.command);
            if message.command.DirectoryAdd? && before.row.None? then
              var tags := set pair | pair in message.command.tagStamps :: pair.0;
              Created(commands, Picks(setting.directories, TagBasedReporter(message.origin), tags), message.file,
                      message.command.path, message.content)
            else if Records(before, message.command) then
              EditPlaced(commands, setting.directories, after, message.file, message.content, message.origin)
            else commands == []
  {
    var directories, after := setting.directories, Step(before, message.command);
    LiveSharesAre(directories, after, message.file, message.content, message.origin);
    if message.command.DirectoryAdd? {
      var tagStamps := message.command.tagStamps;
      var tags := set pair | pair in tagStamps :: pair.0;
      TagsOfPairs(tagStamps);
      HomesPicks(directories, message.origin, tags);
      SharesCreate(Homes(directories, message.origin, tags), message.file, message.command.path, message.content);
    }
  }

  lemma TagsOfPairs(tagStamps: seq<(TagId, Stamp)>)
    ensures Tags(TagsOf(tagStamps)) == set pair | pair in tagStamps :: pair.0
  {
    forall tag ensures tag in Tags(TagsOf(tagStamps)) <==> exists pair <- tagStamps :: pair.0 == tag {
      if pair :| pair in tagStamps && pair.0 == tag {
        var i :| 0 <= i < |tagStamps| && tagStamps[i] == pair;
        assert TagsOf(tagStamps)[i] == tag;
      }
      if tag in TagsOf(tagStamps) {
        var i :| 0 <= i < |tagStamps| && TagsOf(tagStamps)[i] == tag;
        assert tagStamps[i] in tagStamps;
      }
    }
  }

  // ---- bytes ----

  /** Some directory would take the bytes: of a new file by the tags it brings and has, of a known one if it lives. */
  ghost predicate Wanted(directories: seq<SyncDirectory>, after: Record, placing: Placing) {
    match placing
    case Create(_, tags) => exists d <- directories :: Takes(d, (set tag | tag in tags) + TagsNow(after))
    case Overwrite =>
      after.row.Some? && !after.row.value.deleted
      && exists d <- directories :: d.path != "" && Takes(d, TagsNow(after))
  }

  lemma WantedIs(directories: seq<SyncDirectory>, after: Record, file: FileId, placing: Placing)
    ensures Wanted(directories, after, placing) <==> Targets(directories, after, file, placing) != []
  {
    TagsNowAre(after);
    match placing
    case Create(path, tags) =>
      var all := (set tag | tag in tags) + TagsNow(after);
      assert all == Tags(tags) + after.LiveTags();
      AnywherePicks(directories, all);
      SomePicked(directories, Nobody, all);
    case Overwrite =>
      MatchingPicks(directories, LOCAL_ORIGIN, after.LiveTags());
      SomePicked(directories, Reporter(LOCAL_ORIGIN), TagsNow(after));
      forall d ensures Reporter(LOCAL_ORIGIN).Over(d) <==> d.path == "" {
      }
  }

  lemma SomePicked(directories: seq<SyncDirectory>, skip: Skip, tags: set<TagId>)
    ensures Picks(directories, skip, tags) != [] <==> exists d <- directories :: !skip.Over(d) && Takes(d, tags)
  {
    if Picks(directories, skip, tags) != [] { PicksAre(directories, skip, tags, Picks(directories, skip, tags)[0]); }
    if d :| d in directories && !skip.Over(d) && Takes(d, tags) { PicksAre(directories, skip, tags, d); }
  }

  /** The content a message offers to fetch from whoever announced it, and how it is to be placed. */
  datatype Offer = Offer(hash: Hash, size: nat, placing: Placing)

  /** A live file that has the content as its latest needs no bytes. */
  predicate Needs(r: Record, hash: Hash) { !Holds(r, hash) || (r.row.Some? && r.row.value.deleted) }

  /** An announcement offers its bytes if recorded and they are needed, a restore if it wins, a manifest if asked. */
  function Offered(r: Record, message: Message): Option<Offer> {
    match message.command
    case Meta(Added(_, path, _, hash, size, _, tags)) =>
      if Records(r, message.command) && Needs(r, hash) then Some(Offer(hash, size, Create(path, tags))) else None
    case Meta(Changed(_, hash, size, _)) =>
      if Records(r, message.command) && Needs(r, hash) then Some(Offer(hash, size, Overwrite)) else None
    case Meta(Restored(_, hash, size, restoredAt)) =>
      if r.row.Some? && RestoredBy(r, message.command).Some? && Revives(r, restoredAt)
      then Some(Offer(hash, size, Overwrite)) else None
    case ManifestFile(_, _, version) =>
      if Records(r, message.command) && message.pull.Some?
      then Some(Offer(version.hash, version.size, message.pull.value)) else None
    case _ => None
  }

  /** Its sender has a session whose commands are read. */
  predicate CanServe(setting: Setting, origin: Origin) {
    origin.Peer? && origin.key in setting.sessions && setting.sessions[origin.key].commands
  }

  /** Exactly the offered bytes are asked of the announcing peer, and only if it can serve them and they are wanted. */
  lemma PullsAre(setting: Setting, before: Record, message: Message)
    requires message.WellFormed()
    ensures var pulls, offer := Sends(setting, before, message).pulls, Offered(before, message);
            if offer.Some? && CanServe(setting, message.origin)
               && Wanted(setting.directories, Step(before, message.command), offer.value.placing)
            then pulls == [Pull(message.origin.key, message.file, offer.value.hash, offer.value.size,
                                offer.value.placing)]
            else pulls == []
  {
    var offer := Offered(before, message);
    if offer.Some? {
      WantedIs(setting.directories, Step(before, message.command), message.file, offer.value.placing);
    }
    OfferedIs(before, message);
  }

  lemma OfferedIs(r: Record, message: Message)
    ensures match message.command
            case Meta(change) =>
              var pull := Handle(r, change).pull;
              (pull.Some? <==> Offered(r, message).Some?)
              && (pull.Some? ==> (change.Announces() || change.Restored?)
                                 && Offered(r, message) == Some(Offer(change.hash, change.size, pull.value)))
            case _ => true
  {
    OnlyEdges(r, message.command);
  }

  /** An upload is fetched from the outbox exactly if some directory of this device would take it. */
  lemma UploadsFetched(setting: Setting, before: Record, file: FileId, command: Command)
    requires command.UploadNew? || command.UploadEdit?
    ensures var version := Brings(command).value;
            var placing := if command.UploadNew? then Create(command.path, command.tags) else Overwrite;
            Sends(setting, before, Plain(file, command, LOCAL_ORIGIN)).followUps
            == if Records(before, command) && Wanted(setting.directories, Step(before, command), placing)
               then [FetchUpload(file, placing, version.hash, version.size)] else []
  {
    var placing := if command.UploadNew? then Create(command.path, command.tags) else Overwrite;
    WantedIs(setting.directories, Step(before, command), file, placing);
  }

  /** Nothing else leaves a fetch behind. */
  lemma NothingFetched(setting: Setting, before: Record, message: Message)
    requires match message.command
             case Meta(change) => !change.Tagged? && !change.Untagged?
             case UploadNew(_, _, _, _) => false
             case UploadEdit(_) => false
             case UserRestore(_, _, _) => false
             case _ => true
    ensures Sends(setting, before, message).followUps == []
  {
  }

  // ---- bytes that arrive ----

  /** Late bytes are placed, and told to subscribers, only for a live file whose latest content they are. */
  lemma ArrivalsTold(setting: Setting, r: Record, file: FileId, content: Content, hash: Hash, placing: Placing)
    ensures var sent := CatalogWriter.ArrivalSends(setting, r, file, content, hash, placing);
            sent.wire == [] && sent.pulls == [] && sent.followUps == []
            && if r.row.None? || r.row.value.deleted || (r.versions != [] && !Holds(r, hash))
               then sent.commands == [] && sent.events == []
               else
                 var version := if r.versions == [] then Version(hash, 0, 0) else r.versions[|r.versions| - 1];
                 sent.events == [Changed(file, hash, version.size, version.observedAt)]
                 && match placing
                    case Create(path, tags) =>
                      Created(sent.commands,
                              Picks(setting.directories, Nobody, (set tag | tag in tags) + TagsNow(r)), file, path,
                              content)
                    case Overwrite => EditPlaced(sent.commands, setting.directories, r, file, content, LOCAL_ORIGIN)
  {
    TagsNowAre(r);
    match placing
    case Create(path, tags) =>
      var all := (set tag | tag in tags) + TagsNow(r);
      assert all == Tags(tags) + r.LiveTags();
      AnywherePicks(setting.directories, all);
      SharesCreate(Picks(setting.directories, Nobody, all), file, path, content);
    case Overwrite => LiveSharesAre(setting.directories, r, file, content, LOCAL_ORIGIN);
  }

  // ---- subscribers ----

  /** A metadata change subscribers hear of; a superseded creation and a repeated restore are not news. */
  predicate IsNews(r: Record, change: Change) {
    match change
    case Added(_, _, _, _, _, _, _) => Records(r, Meta(change))
    case Restored(_, _, _, _) => !r.purged && (r.row.None? || RestoredBy(r, Meta(change)).Some?)
    case _ => Forwards(r, change)
  }

  /** Subscribers hear of each change once: of a reported file its content, of what peers' manifests bring nothing. */
  lemma EventsAre(setting: Setting, before: Record, message: Message)
    ensures var told := Tells(before, message.file, message.command);
            Sends(setting, before, message).events
            == match message.command
               case Meta(change) => if IsNews(before, change) then [change] else []
               case ManifestFile(_, _, _) => []
               case ManifestTombstone(_, _, _, _, _) => []
               case _ => if told == [] then [] else [told[|told| - 1]]
  {
    AnnouncedIs(before, message.file, message.command);
  }
}
