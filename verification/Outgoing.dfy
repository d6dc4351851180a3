/**
 What leaves the writer for each message of its inbox: copies to peers, commands to sync directories,
 requests for bytes, follow-ups, and events for subscribers.
 */
module Outgoing {
  import opened Types
  import opened Catalog
  import opened CatalogRuns
  import opened FileBytes
  import opened Placement
  import Announcements
  import Network

  /** A peer as the runtime knows it: whether its outbound queue and its session's command queue are open. */
  datatype Session = Session(outbound: bool, commands: bool)

  /** The configured directories and peers, and the peers' sessions. */
  datatype Setting = Setting(directories: seq<SyncDirectory>, peers: seq<PeerKey>, sessions: map<PeerKey, Session>)

  datatype Envelope = Envelope(peer: PeerKey, change: Change)

  /** A request to a peer's session to fetch bytes. */
  datatype Pull = Pull(peer: PeerKey, file: FileId, hash: Hash, size: nat, placing: Placing)

  /**
   Work left running beside the writer: a re-placement that fetches the latest content if the
   directories turn out to lack it, or the fetch of an upload from the outbox.
   */
  datatype FollowUp =
    | FetchIfDeferred(file: FileId, path: LogicalPath, tags: set<TagId>, latest: Option<Version>)
    | FetchUpload(file: FileId, placing: Placing, hash: Hash, size: nat)

  datatype Sending = Sending(
    wire: seq<Envelope>, commands: seq<DirectoryCommand>, pulls: seq<Pull>, events: seq<Change>,
    followUps: seq<FollowUp>)
  {
    function Plus(more: Sending): Sending {
      Sending(wire + more.wire, commands + more.commands, pulls + more.pulls, events + more.events,
              followUps + more.followUps)
    }
  }

  const NOTHING_SENT: Sending := Sending([], [], [], [], [])

  /** An entry of the inbox. A metadata change names its own file; the API and the directories are local. */
  datatype Message = Message(file: FileId, command: Command, origin: Origin, content: Content, pull: Option<Placing>) {
    predicate WellFormed() {
      (command.Meta? ==> command.change.file == file)
      && (command.DirectoryAdd? || command.DirectoryEdit? ==> origin.Local?)
      && (command.UploadNew? || command.UploadEdit? || command.UserRestore? ==> origin == LOCAL_ORIGIN)
    }
  }

  const NO_CONTENT: Content := InMemory([])

  /** A message that carries no bytes and asks for none. */
  function Plain(file: FileId, command: Command, origin: Origin): Message {
    Message(file, command, origin, NO_CONTENT, None)
  }

  // ---- to peers ----

  predicate Reaches(sessions: map<PeerKey, Session>, origin: Origin, peer: PeerKey) {
    origin != Peer(peer) && peer in sessions && sessions[peer].outbound
  }

  /** A copy for every connected peer, in configuration order, but the one the change came from. */
  function Copies(peers: seq<PeerKey>, sessions: map<PeerKey, Session>, origin: Origin, change: Change): seq<Envelope>
    decreases |peers|
  {
    if peers == [] then [] else
    var n := |peers| - 1;
    Copies(peers[..n], sessions, origin, change)
    + if Reaches(sessions, origin, peers[n]) then [Envelope(peers[n], change)] else []
  }

  function CopiesOf(setting: Setting, origin: Origin, change: Change): seq<Envelope> {
    Copies(setting.peers, setting.sessions, origin, change)
  }

  /** The copies of several changes, one change after another. */
  function AllCopies(setting: Setting, origin: Origin, changes: seq<Change>): seq<Envelope>
    decreases |changes|
  {
    if changes == [] then [] else
    var n := |changes| - 1;
    AllCopies(setting, origin, changes[..n]) + CopiesOf(setting, origin, changes[n])
  }

  lemma AllCopiesLast(setting: Setting, origin: Origin, changes: seq<Change>, change: Change)
    ensures AllCopies(setting, origin, changes + [change])
         == AllCopies(setting, origin, changes) + CopiesOf(setting, origin, change)
  {
    assert (changes + [change])[..|changes|] == changes;
  }

  lemma CopiesOfOne(setting: Setting, origin: Origin, change: Change, forward: bool)
    ensures AllCopies(setting, origin, if forward then [change] else [])
         == if forward then CopiesOf(setting, origin, change) else []
  {
    if forward { assert [change][..0] == []; }
  }

  /** Peers configured once get one copy if connected and not the sender, and nobody else gets any. */
  lemma {:induction false} OneCopyEach(peers: seq<PeerKey>, sessions: map<PeerKey, Session>, origin: Origin,
                                       change: Change, peer: PeerKey)
    requires Distinct(peers)
    ensures multiset(Copies(peers, sessions, origin, change))[Envelope(peer, change)]
            == if peer in peers && peer in sessions && sessions[peer].outbound && origin != Peer(peer) then 1 else 0
    decreases |peers|
  {
    if peers != [] {
      var n := |peers| - 1;
      OneCopyEach(peers[..n], sessions, origin, change, peer);
      assert peers == peers[..n] + [peers[n]];
    }
  }

  function OriginOf(sender: Option<Network.Node>, key: Network.Node -> PeerKey): Origin {
    match sender
    case None => LOCAL_ORIGIN
    case Some(u) => Peer(key(u))
  }

  /** On a node whose connected peers are its neighbours, the copies the writer sends are the network's send. */
  lemma CopiesAreSent(channels: map<Network.Link, seq<Change>>, v: Network.Node, sender: Option<Network.Node>,
                      w: Network.Node, key: Network.Node -> PeerKey, setting: Setting, change: Change)
    requires Distinct(setting.peers)
    requires sender.Some? && key(sender.value) == key(w) ==> sender.value == w
    requires (v, w) in channels && key(w) in setting.peers
    requires key(w) in setting.sessions && setting.sessions[key(w)].outbound
    ensures var copies := multiset(CopiesOf(setting, OriginOf(sender, key), change))[Envelope(key(w), change)];
            Network.Sent(channels, v, sender, change)[(v, w)] == channels[(v, w)] + seq(copies, _ => change)
  {
    var origin := OriginOf(sender, key);
    assert Reaches(setting.sessions, origin, key(w)) <==> sender != Some(w);
    OneCopyEach(setting.peers, setting.sessions, origin, change, key(w));
    var copies := multiset(CopiesOf(setting, origin, change))[Envelope(key(w), change)];
    assert copies == if sender != Some(w) then 1 else 0;
    assert seq(copies, _ => change) == if copies == 1 then [change] else [];
    assert channels[(v, w)] + [] == channels[(v, w)];
  }

  /** The first `i` tags are on the record and announced. */
  ghost predicate TaggedUpTo(setting: Setting, origin: Origin, file: FileId, tagStamps: seq<(TagId, Stamp)>, i: nat,
                             start: Record, r: Record, sent: seq<Envelope>)
  {
    i <= |tagStamps|
    && r == TagEach(start, tagStamps[..i])
    && sent == AllCopies(setting, origin, TagEdits(file, tagStamps[..i]))
  }

  lemma TaggedStep(setting: Setting, origin: Origin, file: FileId, tagStamps: seq<(TagId, Stamp)>, i: nat,
                   start: Record, r: Record, sent: seq<Envelope>)
    requires i < |tagStamps| && TaggedUpTo(setting, origin, file, tagStamps, i, start, r, sent)
    ensures TaggedUpTo(setting, origin, file, tagStamps, i + 1, start,
                       r.SetEdge(tagStamps[i].0, TagEdge(tagStamps[i].1, false)),
                       sent + CopiesOf(setting, origin, Tagged(file, tagStamps[i].0, tagStamps[i].1)))
  {
    var change := Tagged(file, tagStamps[i].0, tagStamps[i].1);
    assert tagStamps[..i + 1][..i] == tagStamps[..i];
    Announcements.TagEachLast(start, tagStamps[..i + 1]);
    assert TagEdits(file, tagStamps[..i + 1]) == TagEdits(file, tagStamps[..i]) + [change];
    AllCopiesLast(setting, origin, TagEdits(file, tagStamps[..i]), change);
  }

  // ---- to sync directories ----

  function MoveTos(directories: seq<SyncDirectory>, file: FileId, path: LogicalPath): seq<DirectoryCommand> {
    seq(|directories|, i requires 0 <= i < |directories| =>
      MoveFile(file, PhysicalFor(directories[i].kind, path, file), directories[i].path))
  }

  function Removes(directories: seq<SyncDirectory>, file: FileId): seq<DirectoryCommand> {
    seq(|directories|, i requires 0 <= i < |directories| => RemoveFile(file, directories[i].path))
  }

  /** A live file's directories are re-evaluated against its tags. */
  function Replan(r: Record, file: FileId): seq<DirectoryCommand> {
    if r.Live() then [ApplyPlacement(file, r.row.value.path, r.LiveTags())] else []
  }

  /** What the directories are told; moves and removes go by the tags held before the change. */
  function Work(directories: seq<SyncDirectory>, before: Record, after: Record, origin: Origin, file: FileId,
                fanout: Fanout): seq<DirectoryCommand>
  {
    match fanout
    case Nothing => []
    case MoveTo(path) => MoveTos(Matching(directories, origin, before.LiveTags()), file, path)
    case Remove => Removes(Matching(directories, origin, before.LiveTags()), file)
    case Replace => Replan(after, file)
  }

  /**
   Where the bytes of a reported file go: its homes when new, every live directory when edited, nowhere
   when unchanged.
   */
  function DirectoryShares(directories: seq<SyncDirectory>, before: Record, after: Record, origin: Origin, file: FileId,
                           path: LogicalPath, content: Content, version: Version, tags: set<TagId>)
    : seq<DirectoryCommand>
  {
    if before.row.None? then Shares(Creates(Homes(directories, origin, tags), file, path), content)
    else if before.versions != [] && before.Latest().value.hash == version.hash then []
    else Shares(LiveTargets(directories, after, origin, file), content)
  }

  /** What a command makes the writer tell the sync directories. */
  function Directed(directories: seq<SyncDirectory>, before: Record, file: FileId, command: Command, origin: Origin,
                    content: Content): seq<DirectoryCommand>
  {
    var after := Step(before, command);
    match command
    case Meta(change) => Work(directories, before, after, origin, file, Handle(before, change).fanout)
    case DirectoryAdd(path, _, version, tagStamps) =>
      DirectoryShares(directories, before, after, origin, file, path, content, version, Tags(TagsOf(tagStamps)))
    case DirectoryEdit(_) => Shares(LiveTargets(directories, after, origin, file), content)
    case UserRestore(_, _, restoredAt) => if before.RestoreWins(restoredAt) then Replan(after, file) else []
    case _ => []
  }

  // ---- for bytes ----

  /** Bytes are asked of the announcing peer when a local directory wants them and its session is open. */
  function PullFor(setting: Setting, r: Record, origin: Origin, file: FileId, hash: Hash, size: nat, placing: Placing)
    : seq<Pull>
  {
    if Targets(setting.directories, r, file, placing) != []
       && origin.Peer? && origin.key in setting.sessions && setting.sessions[origin.key].commands
    then [Pull(origin.key, file, hash, size, placing)] else []
  }

  function PullsOf(setting: Setting, origin: Origin, change: Change, outcome: Outcome): seq<Pull>
    requires outcome.pull.Some? ==> change.Announces() || change.Restored?
  {
    if outcome.pull.None? then []
    else PullFor(setting, outcome.record, origin, change.file, change.hash, change.size, outcome.pull.value)
  }

  function PullsBy(setting: Setting, before: Record, message: Message): seq<Pull> {
    match message.command
    case Meta(change) => PullsOf(setting, message.origin, change, Handle(before, change))
    case ManifestFile(_, _, version) =>
      if message.pull.Some? && Recorded(before, message.command).Some?
      then PullFor(setting, Step(before, message.command), message.origin, message.file, version.hash, version.size,
                   message.pull.value)
      else []
    case _ => []
  }

  /** The follow-up of a re-placement; there is none for a dead file. */
  function Deferring(r: Record, file: FileId): seq<FollowUp> {
    if r.Live() then [FetchIfDeferred(file, r.row.value.path, r.LiveTags(), r.Latest())] else []
  }

  /** An upload is fetched from the outbox when some local directory wants it. */
  function Fetching(directories: seq<SyncDirectory>, r: Record, file: FileId, placing: Placing, version: Version)
    : seq<FollowUp>
  {
    if Targets(directories, r, file, placing) != []
    then [FetchUpload(file, placing, version.hash, version.size)]
    else []
  }

  function FollowUpsBy(setting: Setting, before: Record, message: Message): seq<FollowUp> {
    var after := Step(before, message.command);
    match message.command
    case Meta(change) => if Handle(before, change).fanout.Replace? then Deferring(after, message.file) else []
    case UploadNew(path, _, version, tags) =>
      if before.row.Some? then []
      else Fetching(setting.directories, after, message.file, Create(path, tags), version)
    case UploadEdit(version) => Fetching(setting.directories, after, message.file, Overwrite, version)
    case UserRestore(_, _, restoredAt) => if before.RestoreWins(restoredAt) then Deferring(after, message.file) else []
    case _ => []
  }

  // ---- to subscribers ----

  /** Subscribers hear of a content change, not of the tags that went ahead of it. */
  function LastOf(changes: seq<Change>): seq<Change> {
    if changes == [] then [] else [changes[|changes| - 1]]
  }

  /** What subscribers hear: what peers are told of local work, and what a metadata change asks for. */
  function Published(before: Record, file: FileId, command: Command): seq<Change> {
    match command
    case Meta(change) => if Handle(before, change).publish then [change] else []
    case ManifestFile(_, _, _) => []
    case ManifestTombstone(_, _, _, _, _) => []
    case _ => LastOf(Announced(before, file, command))
  }

  // ---- all of it ----

  function Sends(setting: Setting, before: Record, message: Message): Sending {
    var Message(file, command, origin, content, _) := message;
    Sending(AllCopies(setting, origin, Announced(before, file, command)),
            Directed(setting.directories, before, file, command, origin, content),
            PullsBy(setting, before, message),
            Published(before, file, command),
            FollowUpsBy(setting, before, message))
  }

  lemma TombstoneSends(setting: Setting, r: Record, file: FileId, path: LogicalPath, pathAt: Stamp, version: Version,
                       deletedAt: Stamp, restoredAt: Stamp, origin: Origin)
    ensures var message := Plain(file, ManifestTombstone(path, pathAt, version, deletedAt, restoredAt), origin);
            Sends(setting, r, message)
            == if r.purged || r.row.Some? then NOTHING_SENT
               else Sending(CopiesOf(setting, origin, Deleted(file, deletedAt)), [], [], [], [])
  {
    CopiesOfOne(setting, origin, Deleted(file, deletedAt), true);
  }

  lemma RestoreSends(setting: Setting, r: Record, file: FileId, hash: Hash, size: nat, restoredAt: Stamp)
    ensures var after, change := r.ApplyRestore(restoredAt), Restored(file, hash, size, restoredAt);
            Sends(setting, r, Plain(file, UserRestore(hash, size, restoredAt), LOCAL_ORIGIN))
            == if r.RestoreWins(restoredAt)
               then Sending(CopiesOf(setting, LOCAL_ORIGIN, change), Replan(after, file), [], [change],
                            Deferring(after, file))
               else NOTHING_SENT
  {
    CopiesOfOne(setting, LOCAL_ORIGIN, Restored(file, hash, size, restoredAt), true);
  }

  lemma CreationSends(setting: Setting, r: Record, file: FileId, path: LogicalPath, pathAt: Stamp, content: Content,
                      version: Version, tagStamps: seq<(TagId, Stamp)>, origin: Origin)
    requires r.row.None?
    ensures var message := Message(file, DirectoryAdd(path, pathAt, version, tagStamps), origin, content, None);
            var change := AddedTo(file, path, pathAt, version, TagsOf(tagStamps));
            var homes := Homes(setting.directories, origin, Tags(TagsOf(tagStamps)));
            Sends(setting, r, message)
            == Sending(AllCopies(setting, origin, TagEdits(file, tagStamps)) + CopiesOf(setting, origin, change),
                       Shares(Creates(homes, file, path), content), [], [change], [])
  {
    AllCopiesLast(setting, origin, TagEdits(file, tagStamps), AddedTo(file, path, pathAt, version, TagsOf(tagStamps)));
  }

  /** The catalog after a run of messages. */
  function After(start: Store, inbox: seq<Message>): Store
    decreases |inbox|
  {
    if inbox == [] then start else
    var n := |inbox| - 1;
    var before := After(start, inbox[..n]);
    before[inbox[n].file := Step(RecordOf(before, inbox[n].file), inbox[n].command)]
  }

  /** What a run of messages sends, each by the record the ones before it left. */
  function SendsAll(setting: Setting, start: Store, inbox: seq<Message>): Sending
    decreases |inbox|
  {
    if inbox == [] then NOTHING_SENT else
    var n := |inbox| - 1;
    SendsAll(setting, start, inbox[..n])
      .Plus(Sends(setting, RecordOf(After(start, inbox[..n]), inbox[n].file), inbox[n]))
  }

  lemma AfterLast(start: Store, inbox: seq<Message>, last: Message)
    ensures After(start, inbox + [last])
         == After(start, inbox)[last.file := Step(RecordOf(After(start, inbox), last.file), last.command)]
  {
    assert (inbox + [last])[..|inbox|] == inbox;
  }

  lemma RunLast(setting: Setting, start: Store, inbox: seq<Message>, last: Message)
    ensures var before := RecordOf(After(start, inbox), last.file);
            After(start, inbox + [last]) == After(start, inbox)[last.file := Step(before, last.command)]
            && SendsAll(setting, start, inbox + [last])
               == SendsAll(setting, start, inbox).Plus(Sends(setting, before, last))
  {
    assert (inbox + [last])[..|inbox|] == inbox;
  }

  /** The commands of an inbox about one file, in order. */
  function About(inbox: seq<Message>, file: FileId): seq<Command>
    decreases |inbox|
  {
    if inbox == [] then [] else
    var n := |inbox| - 1;
    About(inbox[..n], file) + if inbox[n].file == file then [inbox[n].command] else []
  }

  lemma RunOneMore(r: Record, commands: seq<Command>, last: Command)
    ensures Run(r, commands + [last]) == Step(Run(r, commands), last)
  {
    assert (commands + [last])[..|commands|] == commands;
  }

  lemma AboutLast(inbox: seq<Message>, last: Message, file: FileId)
    ensures About(inbox + [last], file)
         == if last.file == file then About(inbox, file) + [last.command] else About(inbox, file)
  {
    assert (inbox + [last])[..|inbox|] == inbox;
  }

  /** Each file's record goes through the run of the commands about it, whatever else is in the inbox. */
  lemma {:induction false} AfterIsRun(start: Store, inbox: seq<Message>, file: FileId)
    ensures RecordOf(After(start, inbox), file) == Run(RecordOf(start, file), About(inbox, file))
    decreases |inbox|
  {
    if inbox != [] {
      var n := |inbox| - 1;
      AfterIsRun(start, inbox[..n], file);
      assert inbox == inbox[..n] + [inbox[n]];
      AfterLast(start, inbox[..n], inbox[n]);
      AboutLast(inbox[..n], inbox[n], file);
      if inbox[n].file == file { RunOneMore(RecordOf(start, file), About(inbox[..n], file), inbox[n].command); }
    }
  }

  // ---- local metadata changes ----

  /** Changes a command of the API makes and applies itself. */
  function LocalChanges(changes: seq<Change>): seq<Message> {
    seq(|changes|, i requires 0 <= i < |changes| => Plain(changes[i].file, Meta(changes[i]), LOCAL_ORIGIN))
  }

  function Purges(files: seq<FileId>): seq<Change> {
    seq(|files|, i requires 0 <= i < |files| => Purged(files[i]))
  }

  /** The removals of each purged file, by the tags it carried. */
  function PurgeRemoves(directories: seq<SyncDirectory>, start: Store, files: seq<FileId>): seq<DirectoryCommand>
    decreases |files|
  {
    if files == [] then [] else
    var n := |files| - 1;
    PurgeRemoves(directories, start, files[..n])
    + Removes(Matching(directories, LOCAL_ORIGIN, RecordOf(start, files[n]).LiveTags()), files[n])
  }

  lemma LocalChangesLast(changes: seq<Change>, change: Change)
    ensures LocalChanges(changes + [change])
         == LocalChanges(changes) + [Plain(change.file, Meta(change), LOCAL_ORIGIN)]
  {
  }

  lemma PurgeSends(setting: Setting, before: Record, file: FileId)
    requires before.row.Some?
    ensures Sends(setting, before, Plain(file, Meta(Purged(file)), LOCAL_ORIGIN))
         == Sending(CopiesOf(setting, LOCAL_ORIGIN, Purged(file)),
                    Removes(Matching(setting.directories, LOCAL_ORIGIN, before.LiveTags()), file),
                    [], [Purged(file)], [])
    ensures Step(before, Meta(Purged(file))) == PURGED
  {
    CopiesOfOne(setting, LOCAL_ORIGIN, Purged(file), true);
  }

  lemma PurgesLast(files: seq<FileId>)
    requires files != []
    ensures var n := |files| - 1;
            files == files[..n] + [files[n]] && Purges(files) == Purges(files[..n]) + [Purged(files[n])]
            && LocalChanges(Purges(files))
               == LocalChanges(Purges(files[..n])) + [Plain(files[n], Meta(Purged(files[n])), LOCAL_ORIGIN)]
  {
    var n := |files| - 1;
    LocalChangesLast(Purges(files[..n]), Purged(files[n]));
    assert Purges(files) == Purges(files[..n]) + [Purged(files[n])];
  }

  /** Purging files that have a row purges exactly those. */
  lemma {:induction false} PurgesPurge(start: Store, files: seq<FileId>, file: FileId)
    requires forall f <- files :: RecordOf(start, f).row.Some?
    ensures RecordOf(After(start, LocalChanges(Purges(files))), file)
         == if file in files then PURGED else RecordOf(start, file)
    decreases |files|
  {
    if files != [] {
      var n := |files| - 1;
      PurgesLast(files);
      PurgesPurge(start, files[..n], file);
      AfterLast(start, LocalChanges(Purges(files[..n])), Plain(files[n], Meta(Purged(files[n])), LOCAL_ORIGIN));
    }
  }

  /**
   Purging distinct files that have a row announces and publishes each once, and removes each from the
   directories its tags put it in.
   */
  lemma {:induction false} PurgesSend(setting: Setting, start: Store, files: seq<FileId>)
    requires Distinct(files) && forall file <- files :: RecordOf(start, file).row.Some?
    ensures SendsAll(setting, start, LocalChanges(Purges(files))) == PurgesSending(setting, start, files)
    decreases |files|
  {
    if files != [] {
      var n := |files| - 1;
      var last := Plain(files[n], Meta(Purged(files[n])), LOCAL_ORIGIN);
      PurgesLast(files);
      PurgesSend(setting, start, files[..n]);
      PurgesPurge(start, files[..n], files[n]);
      RunLast(setting, start, LocalChanges(Purges(files[..n])), last);
      PurgeSends(setting, RecordOf(start, files[n]), files[n]);
      SendingLast(setting, start, files);
    }
  }

  function PurgesSending(setting: Setting, start: Store, files: seq<FileId>): Sending {
    Sending(AllCopies(setting, LOCAL_ORIGIN, Purges(files)), PurgeRemoves(setting.directories, start, files), [],
            Purges(files), [])
  }

  lemma SendingLast(setting: Setting, start: Store, files: seq<FileId>)
    requires files != []
    ensures var n := |files| - 1;
            var before := RecordOf(start, files[n]);
            PurgesSending(setting, start, files)
              == PurgesSending(setting, start, files[..n])
                   .Plus(Sending(CopiesOf(setting, LOCAL_ORIGIN, Purged(files[n])),
                                 Removes(Matching(setting.directories, LOCAL_ORIGIN, before.LiveTags()), files[n]),
                                 [], [Purged(files[n])], []))
  {
    PurgesLast(files);
    AllCopiesLast(setting, LOCAL_ORIGIN, Purges(files[..|files| - 1]), Purged(files[|files| - 1]));
  }
}
