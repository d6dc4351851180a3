# The replicated catalog of tagsyd, in Dafny

Every device of the system keeps a catalog of files: where each lives logically, its versions, its tags,
whether it is deleted, and which ids are purged for good. Devices are peers joined in a tree; a change made
on one floods to the others. This project models that catalog, the flooding, and how bytes reach disk, and
proves what the system promises about them for every run.

The model has three layers and a few independent kernels.

- **The writer.** `Catalog` gives the record of one file as a value, and what each command does to it;
  `Outgoing` gives what each command sends to peers, sync directories, peer sessions, subscribers and
  follow-up fetches. `CatalogTables` and `CatalogWriter` are the store and the single writer as classes
  whose methods update tables, queues and logs step by step; each is proved to do exactly that, for one
  message and for any inbox. `WriterLoop` adds the loop's other turns: bytes arriving, re-placements, purges
  of everything deleted, removals of duplicates. `RecordLaws` says what each command does to each fact of a
  file, and `WriterLaws` who is told what for each message, both over the fields of the record, the change
  and the configuration alone. `CatalogRuns`, `Lww` and `Announcements` prove what every run of the writer
  keeps.
- **The network.** `Network` is a graph of nodes with a FIFO queue per directed link; a step delivers the
  head of a link or makes a change on a device, exactly as the writer does there. `Convergence`, `Causality`,
  `Flooding`, `Termination` and `PurgeSpread` hold for every interleaving. `Reconciliation` adds peers that
  hand each other the tombstones they hold, and `DeleteRaces` a run that needs it.
- **Bytes to disk.** `FileBytes`, `Placement`, `DiskRuns` (what every sync directory holds, by version), `Replacement`,
  `Outbox`, `OutboxRuns` (crashes) and `OutboxRelease` (the release pass against everything around it).
- **Kernels.** `Clock` (compare-and-swap stamps), `Activity` (gauges), `Duplicates`, `PurgeSync`.

`dafny verify dfyconfig.toml` checks everything.

## Premises

- Stamps name what they stamp: two changes with the same stamp carry the same path, content or tag state, and,
  where a theorem is about one delete of a file, that delete has a stamp of its own (`Convergence.Names`). In
  `Lww` and `Reconciliation`, where there are many deletes, only a delete and a version must not share a stamp.
- Links stay up during a run; a link that is down drops changes.
- In `Convergence` the file is known, live and the same at every node at the start. It may be restored any
  number of times, with stamps later than the delete's, on devices where the delete is settled: the restore
  command demands a tombstone. That a restore never overtakes the delete it answers is then proved, not
  assumed. With several deletes everything but liveness agrees without any of this; for liveness
  `Reconciliation` asks that nobody restores the file and that a device deletes what it holds live.
- In every network theorem a device stamps new content later than the content it holds, since the local paths
  record a version without comparing stamps; it edits only files it knows, and ingests nothing it has purged.
- `Convergence`, `Reconciliation`, `Causality` and `PurgeSpread` need no tree: they hold on any connected graph,
  delivery order in `Causality` on any graph. `Flooding` and `Termination` are where the tree matters.
- Neighbours start from the same purge set, as they do after a manifest exchange (`Causality.Start`). Purges may
  be made at any time during a run.
- A restore that loses where it is made is no step of the network: it is announced to nobody.
- In `DiskRuns` a device's directories have distinct paths, and what a directory reports is what is on its disk.
- In `Duplicates` the members of the planned sets get stamps newer than what they carry and are not purged
  before the command; other files may be in any state.
- Atomic accesses in `Clock` and `Activity` interleave in one total order.

## Where the code falls short of its promises

Each of these has an exact condition and, where the condition is not obvious, a run that shows it.

- A version recorded for an id that has no file row is compared by nothing and removed by no repeated purge:
  `FileMetadataChanged` of an unknown file does this. Arrival order is stamp order exactly when no command is
  overtaken by such a version (`ArrivalKeepsOrder`, `OrphanBreaksOrder`), and a repeated purge repairs drift
  exactly when a file row is part of it (`RepurgeRepairs`, `OrphanVersionSurvivesPurge`).
- Local ingest does not consult the purge set (`PurgeOutranksStep`).
- The already-tombstoned guard ignores a newer delete, so one delivery of several deletes can leave a file
  live that its newest delete outranks (`OnePassSuffices`, `OnePassIsNotEnough`), and a network with nothing in
  flight can hold it dead at one node and live at others (`DeletesNeedReconciling`). Handing on tombstones
  repairs exactly the nodes a told node reaches over nodes that held the file live (`ReconciledIs`).
- A node that has purged a file drops later changes to it unforwarded, so nodes behind it can see a change made
  on top of one they never see (`CausalDelivery`, `PurgeGetsAhead`), and a flood can stop there
  (`FloodExactlyOnce`, `OnlyPurgesDrop`); the purge arrives in its place (`FloodMeetsPurge`).
- The no-op guard on restores forgets a restore of a live file with the same content, and an older delete
  then still wins; the tombstone guard forgets a delete newer than the restore that revives the file
  (`RestoreDeleteCommute`, `RestoreIsForgotten`, `DeleteIsForgotten`).
- What a node announces does not let a peer follow in four cases (`AnnouncementsReplay`): ingest of a purged
  file, an edit older than the latest, a manifest's tombstone, and a restore that loses or that the peer takes
  for a no-op (`PurgedIngestFallsShort`, `StaleEditFallsShort`, `TombstoneFallsShort`, `RestoreFallsShort`).
- A file deleted in a sync directory while a command that places it there is still queued comes back
  (`StaysSettled`, `DeleteRacesChange`).
- Content a sync directory reports while an older version is still queued for it is overwritten by that
  version (`StaysInOrder`, `EditIsOverwritten`).
- A create is skipped by file id, so a directory that tracks the file keeps older bytes, and a move whose
  last target is skipped leaves its source behind (`FanOutIsSafe`, `EveryTargetHolds`, `SkippedTargetIsStale`,
  `ArrivalReaches`, `AdditionLeavesOlder`). A newer version of a known file that arrives as an addition, from
  a peer to which the file was new, is placed by creates (`AdditionsCreate`).
- A re-placement keeps the source path it first found, so a directory asked after the one that gave the file
  up is left without it (`StopsShort`, `ReplacementLosesItsCopy`).
- `Outbox::entries` lists partial copies too, as the content "partial"; releasing one cannot remove it
  (`PartialIsListed`, `RemovalMissesPartials`).
- The release pass acts on readings that may be stale when it removes. It takes the last copy of content that
  is still wanted exactly when an upload was taken for superseded, when content became wanted again after the
  verdict, or when the holder that answered gave its copy up (`VerdictLoses`, `RemovalAfterVerdictLoses`,
  `RemovalAfterProbeLoses`; `UploadRace`, `RevertRacesRemoval`, `HolderDropsCopy`).
- A second purge exchange plans something exactly when a lingering row was of an id the peer had not purged
  (`SecondExchangePlansNothing`, `LingeringRowIsPlanned`).

## Model

| member | source | states |
|---|---|---|
| CatalogTables.CatalogStore.AddFile | tagsyd/src/store/files.rs:196-213 | a fresh row is live with both delete clocks at zero; an existing row is an error and nothing changes; no other file is touched |
| CatalogTables.CatalogStore.RecordVersionAt | tagsyd/src/store/versions.rs:68-113 | the version goes to the end of the chain with its stamp verbatim under the next number, which is the answer; rows of other files stay |
| CatalogTables.CatalogStore.RestoreFile | tagsyd/src/store/files.rs:323-344 | the tombstone goes exactly when the latest version is newer than the delete |
| CatalogTables.CatalogStore.ApplyRestore | tagsyd/src/store/files.rs:360-388 | the restore clock only advances; the answer is whether restore or edit beats the delete, and then the file is live |
| CatalogTables.CatalogStore.UpdateFileLogicalPath | tagsyd/src/store/files.rs:425-440 | path and clock change together and only under a strictly newer stamp; the answer says whether they did |
| CatalogTables.CatalogStore.RemoveFile | tagsyd/src/store/files.rs:464-493 | the tombstone is set exactly when the delete beats every version and restore; history stays |
| CatalogTables.CatalogStore.UpsertEntry | tagsyd/src/store/entries.rs:178-229 | tag and untag set the edge, present or not, only under a strictly newer stamp |
| CatalogTables.CatalogStore.AddTombstonedFile | tagsyd/src/store/files.rs:248-312 | an unknown file arrives dead with its latest version after any orphaned ones; a known one is left alone |
| RecordLaws.RowAppears | tagsyd/src/store/files.rs:196-312 | a file without a row gets one exactly from a creation or a manifest, a peer's only while it is not purged: under the path and clock it came with, live with clear clocks, or dead with the manifest's delete and restore clocks |
| RecordLaws.TombstoneIs | tagsyd/src/store/files.rs:248-312 | an adopted tombstone has the manifest's path, path clock, delete clock and restore clock, and its version last |
| RecordLaws.TombstoneAgainstVersion | tagsyd/src/store/files.rs:323-344 | a later version brings such a file back if and only if it is newer than the delete |
| RecordLaws.TombstoneAgainstRestore | tagsyd/src/store/files.rs:360-388 | a later restore does if and only if it, the restore the manifest told of, or the version is newer than the delete |
| RecordLaws.RowStays | tagsyd/src/store/purged.rs:69-81 | only a purge takes a row away |
| RecordLaws.PathAfter | tagsyd/src/store/files.rs:425-440 | of all commands only a newer move of an unpurged file renames it, path and clock together |
| RecordLaws.ClocksAfter | tagsyd/src/store/files.rs:360-493 | of all commands only a delete that takes effect sets the delete clock, and a restore that is applied advances the restore clock to the maximum |
| RecordLaws.DeadAfter | tagsyd/src/store/files.rs:323-493 | a known file is dead after a command if and only if a delete just took effect, or it was dead and no version recorded nor restore applied now leaves anything newer than the delete |
| RecordLaws.VersionsAfter | tagsyd/src/store/versions.rs:68-113 | a command appends the version it brings exactly where it is news, or not the same content found on disk again, and a purge empties the chain; no command but a purge purges |
| RecordLaws.EdgesAfter | tagsyd/src/store/entries.rs:178-229 | after any command but a purge a tag's edge is the one there was or a newer one the command offers, and nothing offered is newer still |
| RecordLaws.CreationTags | tagsyd/src/catalog/files.rs:160-218 | each tag an announced or uploaded creation carries is put on under the path's stamp unless a newer edge was there; every other edge is as before |
| RecordLaws.CreationTagged | tagsyd/src/catalog/files.rs:1276-1300 | so a file nothing was known of has exactly the tags its creation carries |
| CatalogTables.CatalogStore.RecordPurge | tagsyd/src/store/purged.rs:28-34 | the id joins the purge set; the answer says whether it is new |
| CatalogTables.CatalogStore.StripPurgedFile | tagsyd/src/store/purged.rs:69-81 | row, versions and tag edges of the id go, the purge stays, other files stay |
| CatalogTables.CatalogStore.ReconcilePurgedFiles | tagsyd/src/store/purged.rs:98-123 | every purged id is stripped, orphans included, no other id is touched, and the count is of rows removed |
| CatalogTables.CatalogStore.TagIdsForFile | tagsyd/src/store/entries.rs:302-343 | exactly the tags whose edge is not deleted |
| CatalogWriter.CatalogWriter.ForwardToPeers | tagsyd/src/catalog/forward.rs:39-74 | one copy on the queue of every configured, connected peer but the sender, in configuration order, and nothing else sent |
| Outgoing.OneCopyEach | tagsyd/src/catalog/forward.rs:34-74 | a peer gets exactly one copy if it is configured, its outbound queue is open and it is not the sender, else none |
| WriterLaws.PeersHear | tagsyd/src/catalog/forward.rs:34-74 | for any message a peer that is configured, connected and not its sender is sent exactly what the message tells, in order; every other peer nothing |
| WriterLaws.WireIs | tagsyd/src/catalog/forward.rs:39-74 | the copies leave change by change, each to those peers in configuration order |
| WriterLaws.AnnouncedIs | tagsyd/src/catalog/files.rs:968-1005 | what each message tells, field by field: which metadata goes on, creations with their path, stamps, content and tags after the tag edits, edits with hash, size and stamp, winning restores, adopted deletes |
| WriterLaws.PicksAre | tagsyd/src/catalog/placement.rs:79-83 | a directory is picked if and only if it is configured, not the one passed over, and universal or given all its tags |
| WriterLaws.MovesTold | tagsyd/src/catalog/files.rs:437-470 | a winning move renames the file in exactly the directories that have it but the one it is from, by its id in a universal one and by the new path in a tag-based one |
| WriterLaws.RemovesTold | tagsyd/src/catalog/files.rs:579-605 | a delete that takes effect, and a purge that is news, remove it in exactly the directories that had it but the one it is from |
| WriterLaws.ReplacementsTold | tagsyd/src/catalog/placement.rs:133-211 | a tag edit of a live file, and a restore that leaves it live, ask the directories again by its path and tags now, with a fetch of its latest version to follow if they lack it |
| WriterLaws.NothingTold | tagsyd/src/catalog/files.rs:160-394 | announcements, restores by peers, manifests and uploads tell the directories nothing |
| WriterLaws.ReportsTold | tagsyd/src/catalog/content.rs:54-355 | a new file is created in every directory that takes its tags but a tag-based reporter, under its id or its path; an edit overwrites it everywhere else it belongs; unchanged content goes nowhere; the content is moved only if it was to be and only by the last |
| WriterLaws.ArrivalsTold | tagsyd/src/catalog/files.rs:1104-1216 | bytes that arrive late are placed, by creates or changes as asked, and told to subscribers, exactly for a live file whose latest content they are |
| WriterLaws.PullsAre | tagsyd/src/catalog/files.rs:81-108 | bytes are asked for exactly if a recorded announcement that needs them, a winning restore or a manifest offers them, its sender's session reads commands, and some directory takes the carried and cataloged tags, for a known file only while it lives; the request has the offered hash, size and placing |
| WriterLaws.UploadsFetched | tagsyd/src/catalog/files.rs:1340-1386 | an upload is fetched from the outbox if and only if it is recorded and some directory takes it |
| WriterLaws.NothingFetched | tagsyd/src/catalog/mod.rs:690-724 | no other message leaves a fetch behind |
| WriterLaws.EventsAre | tagsyd/src/catalog/mod.rs:1263-1329 | subscribers hear of metadata that is news, and of local work the content change alone, once each; of what manifests bring, nothing |
| Outgoing.CopiesAreSent | tagsyd/src/catalog/forward.rs:34-74 | what the writer's loop sends a neighbour is what the network model puts on that link |
| CatalogWriter.CatalogWriter.MoveInDirectories | tagsyd/src/catalog/files.rs:437-470 | a move command for exactly the directories that want the tags and are not the origin, each with its own physical path |
| CatalogWriter.CatalogWriter.RemoveFromDirectories | tagsyd/src/catalog/files.rs:579-605 | a remove command for exactly the directories that want the tags held before and are not the origin |
| CatalogWriter.CatalogWriter.PlanPlacement | tagsyd/src/catalog/placement.rs:133-211 | one re-placement of a live file with its path and tags, and one follow-up that fetches the latest content if the directories lack it; neither for a dead file |
| CatalogWriter.CatalogWriter.PullIfWanted | tagsyd/src/catalog/files.rs:81-108 | bytes are asked of the announcing peer exactly when some local directory would take them and its session is open |
| CatalogWriter.CatalogWriter.ApplyAdded | tagsyd/src/catalog/files.rs:160-309 | new file, newer version or superseded announcement: the record, the copies, the pull and the answer of each case |
| CatalogWriter.CatalogWriter.ApplyChanged | tagsyd/src/catalog/files.rs:314-394 | a newer version is recorded and may revive; an older one is only forwarded; bytes are pulled only when they are not the live latest |
| CatalogWriter.CatalogWriter.ApplyMoved | tagsyd/src/catalog/files.rs:395-480 | a losing move changes, moves and forwards nothing; a winning one does all three |
| CatalogWriter.CatalogWriter.ApplyDeleted | tagsyd/src/catalog/files.rs:481-615 | unknown, tombstoned and losing deletes are dropped unforwarded; a winning one tombstones, removes and forwards |
| CatalogWriter.CatalogWriter.ApplyRestored | tagsyd/src/catalog/files.rs:624-704 | forwarded always; applied unless the file is live with that content; bytes pulled only if it wins |
| CatalogWriter.CatalogWriter.ApplyPurged | tagsyd/src/catalog/files.rs:711-810 | a purge that is news, or finds a lingering row, strips, removes and forwards; otherwise nothing |
| CatalogWriter.CatalogWriter.ApplyTagEdit | tagsyd/src/catalog/tagging.rs:151-272 | the edge under its own clock, a re-placement of a live file with the fetch that may follow it, and always forwarded |
| CatalogWriter.CatalogWriter.ApplyChange | tagsyd/src/catalog/files.rs:113-813 | the whole dispatch behind the purge guard: new tables, copies, directory commands and pulls, and no other file touched |
| CatalogWriter.CatalogWriter.ApplyMetadataChange | tagsyd/src/catalog/mod.rs:1263-1329 | the dispatch, and one event to subscribers exactly when the arm asks for it |
| CatalogWriter.CatalogWriter.CatalogFile | tagsyd/src/catalog/files.rs:855-1005 | a manifest version is recorded unless purged or not newer, announced as a creation or an edit, and pulled only if recorded |
| CatalogWriter.CatalogWriter.CatalogTombstone | tagsyd/src/catalog/files.rs:1022-1099 | an unknown, unpurged file is recorded dead and its delete announced; otherwise nothing happens |
| CatalogWriter.CatalogWriter.Materialize | tagsyd/src/catalog/files.rs:1104-1216 | late bytes are queued to their targets, and announced locally, only for a live file whose latest content they are |
| CatalogWriter.CatalogWriter.HandleFileAdded | tagsyd/src/catalog/content.rs:54-304 | given and ruled tags are recorded and announced before the creation that carries them; a known file is edited or left; bytes go to the homes of each case |
| CatalogWriter.CatalogWriter.EditInDirectory | tagsyd/src/catalog/content.rs:305-355 | the version is recorded unguarded, may revive, is announced, and goes to every other live target |
| CatalogWriter.CatalogWriter.AnnounceUpload | tagsyd/src/catalog/files.rs:1222-1386 | creation or edit recorded with its tags, announced and published, and fetched locally exactly when a directory wants it; a creation of a known id does nothing |
| CatalogWriter.CatalogWriter.ApplyRestore | tagsyd/src/catalog/mod.rs:360-453 | a losing restore announces nothing; a winning one announces, re-places and publishes |
| CatalogWriter.CatalogWriter.PurgeDeleted | tagsyd/src/catalog/mod.rs:938-999 | exactly the tombstoned files are purged, live ones untouched; one purge of each announced and published, each removed from the directories its tags put it in; a dry run sends and changes nothing |
| Outgoing.PurgesSend | tagsyd/src/catalog/mod.rs:938-999 | purging distinct files sends one purge of each to each reachable peer and removals by the tags each carried, whatever the others did |
| CatalogWriter.CatalogWriter.Run | tagsyd/src/catalog/mod.rs:1206-1244 | over any inbox of commands that write the catalog, the tables, and everything sent to peers, directories, sessions, subscribers and follow-ups, are what the messages one by one say |
| WriterLoop.Loop | tagsyd/src/catalog/mod.rs:690-1244 | over any turns, arriving bytes, re-placements, purges of everything deleted and removals of duplicates among them, each turn expands on the catalog left before it; tables and everything sent are those of the expansion |
| WriterLoop.LoopIsRun | tagsyd/src/catalog/mod.rs:938-1244 | whatever the turns, each file's record goes through one run of catalog commands |
| WriterLoop.ReplacementSends | tagsyd/src/catalog/mod.rs:690-724 | a re-placement turn asks a live file's directories by its path and tags, and leaves the fetch of its latest version; for a dead file nothing |
| WriterLoop.LoopKeepsPurge | tagsyd/src/catalog/files.rs:133-152 | a purged file without rows stays so through any loop that ingests nothing of it |
| CatalogWriter.CatalogWriter.ApplyLocalChanges | tagsyd/src/catalog/mod.rs:1058-1074 | changes the writer makes itself are applied, announced, placed and published as an inbox of local ones would be |
| Outgoing.AfterIsRun | tagsyd/src/catalog/mod.rs:1206-1244 | over any inbox each file's record goes through exactly the run of the commands about it, whatever is in between |
| Announcements.AnnouncementsReplay | tagsyd/src/catalog/files.rs:968-1005 | a peer in the same state that applies what was announced ends in the same state, if and only if the command is none of the four listed shortfalls |
| Announcements.PurgedIngestFallsShort | tagsyd/src/catalog/files.rs:1308-1338 | an edit uploaded for a purged file is recorded here and ignored by the peer |
| Announcements.StaleEditFallsShort | tagsyd/src/catalog/content.rs:305-355 | an edit stamped older than the latest is recorded here and not by the peer |
| Announcements.TombstoneFallsShort | tagsyd/src/catalog/files.rs:1022-1099 | a file recorded dead from a manifest is announced as a delete the peer drops |
| Announcements.RestoreFallsShort | tagsyd/src/catalog/files.rs:630-657 | a restore of a live file moves the clock here and not at the peer |
| Announcements.CreationReplays | tagsyd/src/catalog/content.rs:92-225 | tag edits that travel ahead of the creation leave the peer with the creator's edges, row and version |
| CatalogRuns.PurgeOutranksStep | tagsyd/src/catalog/files.rs:133-152 | a purged id stays purged and without rows under any command, if and only if the command is not local ingest |
| CatalogRuns.PurgeOutranksRun | tagsyd/src/catalog/files.rs:819-835 | over any run whose ingest respects the purge set, the set only grows and a purged id has no row, version or edge |
| CatalogRuns.PurgeIsFinal | tagsyd/src/catalog/files.rs:711-810 | whatever came before, a purge followed by anything but local ingest ends in the bare purged record |
| CatalogRuns.RepurgeRepairs | tagsyd/src/catalog/files.rs:754-768 | a repeated purge leaves a clean record exactly when it was clean, not yet purged, or its drift includes a row |
| CatalogRuns.OrphanVersionSurvivesPurge | tagsyd/src/catalog/files.rs:1318-1324 | an edit uploaded for a purged id leaves a version a repeated purge does not remove |
| CatalogRuns.ChainGrows | tagsyd/src/store/versions.rs:76-110 | no command rewrites history: the chain grows by what was recorded, or a purge empties it |
| CatalogRuns.EveryVersionWasRecorded | tagsyd/src/store/versions.rs:76-110 | every version in a chain was there at the start or recorded by some command of the run |
| CatalogRuns.ArrivalKeepsOrder | tagsyd/src/catalog/files.rs:26-51 | a chain in stamp order stays so under a command if and only if the command is not overtaken |
| CatalogRuns.OnlyOrphansOvertake | tagsyd/src/catalog/files.rs:899-910 | a guarded command is overtaken only by versions without a row |
| CatalogRuns.OrphanBreaksOrder | tagsyd/src/catalog/files.rs:329-361 | an edit of an unknown file followed by its older creation leaves the older version latest |
| CatalogRuns.PeerRunKeepsOrder | tagsyd/src/catalog/files.rs:219-255 | over any mix of announcements, manifest records and redeliveries of known files, the chain strictly increases in stamp |
| CatalogRuns.LatestIsGreatest | tagsyd/src/catalog/files.rs:26-51 | the highest-numbered version is at least as new as everything offered so far |
| CatalogRuns.RedeliveryChangesNothing | tagsyd/src/catalog/files.rs:899-910 | offering again anything offered before, by announcement or manifest, changes nothing |
| Lww.RedeliveryConverges | tagsyd/src/catalog/files.rs:509-577 | from a file live or dead, any versions and deletes in any order, then every delete again in any order, end in the last-writer-wins join |
| Lww.OnePassSuffices | tagsyd/src/catalog/files.rs:532-539 | from a file live or dead, every order of one delivery reaches the join if and only if no delete that can land first, nor the one it is dead under, is overruled while a newer one outranks every version |
| Lww.OnePassIsNotEnough | tagsyd/src/catalog/files.rs:532-539 | a delete hides a newer one, the version between them revives the file, and it ends live |
| Lww.LatestContent | tagsyd/src/catalog/files.rs:219-255 | the latest content is the one announced under the greatest stamp, or the one that was there when nothing newer was announced |
| Lww.RestoreDeleteCommute | tagsyd/src/catalog/files.rs:509-657 | a restore and a delete give the same liveness in both orders, unless the file was live with that content and the delete wins but is older than the restore, or was dead and the restore wins but is older than the delete |
| Lww.RestoreIsForgotten | tagsyd/src/catalog/files.rs:630-657 | a restore and an older delete that leave the file dead in one order and live in the other |
| Lww.DeleteIsForgotten | tagsyd/src/catalog/files.rs:509-539 | a delete and an older restore of a dead file that leave it live in one order and dead in the other |
| Network.LocalContentIsAnnouncement | tagsyd/src/catalog/files.rs:1249-1340 | a file created here, or edited here with a stamp newer than its latest, is recorded exactly as its announcement would be |
| Network.MadeIsStep | tagsyd/src/catalog/mod.rs:360-453 | a restore, or a change to metadata, made on a device is exactly the writer's own step there and what it announces |
| Network.PopCommutes | tagsyd/src/catalog/forward.rs:39-74 | taking a change off its link before or after handling it leaves the same network |
| Convergence.HandleAdvances | tagsyd/src/catalog/files.rs:113-813 | applying a change, restores included, only raises clocks, to at least what it carries, and whatever raised one is forwarded |
| Convergence.DoKeepsReady | tagsyd/src/catalog/files.rs:616-704 | every step keeps: ahead of a restore in flight to a node that has not settled the delete there is something that settles it |
| Convergence.TakenAdvances | tagsyd/src/catalog/mod.rs:360-453 | so does a restore applied, unguarded, where it is made |
| Convergence.DoKeepsCovered | tagsyd/src/catalog/forward.rs:39-74 | every step keeps, on every link, that the far end is up to date or a change that brings it there is in flight |
| Convergence.QuiescentNodesAgree | tagsyd/src/catalog/files.rs:310-704 | with nothing in flight all nodes show the same path, content and tags, and with one delete the same liveness, however losing moves, deletes and purges were pruned and restores interleaved |
| Convergence.QuiescentStateIsJoin | tagsyd/src/catalog/files.rs:395-704 | and that is the join: greatest move, greatest version, greatest tag edits, purged iff ever purged, and with one delete tombstoned iff it was made and no version or restore beats it |
| Convergence.QuiescentDeleteIsJoin | tagsyd/src/catalog/files.rs:481-704 | with one delete, at quiescence a node is tombstoned if and only if it was made and is newer than every version and restore handled anywhere and those at the start |
| Reconciliation.DeadSomewhere | tagsyd/src/catalog/files.rs:509-577 | with any deletes, at quiescence some node holds the file dead if and only if a delete was made that beats every version and the restore clock |
| Reconciliation.ReconciledIs | tagsyd/src/peer/plan.rs:292-320 | after tombstones are handed on in any order, a node is dead if and only if it was or a told node reaches it over nodes that held the file live; nothing but the tombstone changes |
| Reconciliation.ReconciledAgree | tagsyd/src/peer/plan.rs:292-320 | once every link has carried its tombstones, every node of a connected graph is dead if and only if some node was |
| Reconciliation.DeletesConverge | tagsyd/src/peer/session.rs:697-722 | any deletes, whatever else was in flight and pruned, then a reconciliation of every link: unless the file is purged all nodes show the same, dead if and only if some delete beats every version and the restore clock |
| DeleteRaces.DeletesNeedReconciling | tagsyd/src/catalog/files.rs:532-539 | two deletes and an edit on a line of three, after which with nothing in flight one node is dead and two are live |
| Causality.CausalDelivery | tagsyd/src/catalog/forward.rs:34-74 | in any run, a change made after handling an always-forwarded one is handled by every node only after that one, or after a purge of that one's file, unless the file was purged there from the start |
| Causality.PurgeGetsAhead | tagsyd/src/catalog/files.rs:133-152 | a purge in the middle of a line, after which its far end handles a later change and never the earlier one |
| Causality.ReachesOrPurged | tagsyd/src/catalog/forward.rs:34-74 | on a connected graph, with an always-forwarded change and purges of its file off the links, if one node handled one of them every node did, or had purged the file from the start |
| Causality.DoKeepsFollowed | tagsyd/src/catalog/mod.rs:1206-1244 | every step keeps, on every link: if the near end has handled the change or a purge of its file, the far end has too or one of them is on its way |
| Flooding.OneWayDown | tagsyd/src/catalog/forward.rs:34-38 | every link of a tree leads away from a node or back to it, not both |
| Flooding.UnseenIsClear | tagsyd/src/catalog/forward.rs:39-74 | in any run, a change nobody has handled is queued nowhere and was sent nowhere |
| Flooding.DoKeepsFlooded | tagsyd/src/catalog/forward.rs:39-74 | every step keeps: at most one crossing per connection, downwards, in flight until the far end has it; and whoever handled the change has sent it on if and only if no step dropped it |
| Flooding.DeliveryShrinksLacking | tagsyd/src/catalog/forward.rs:39-74 | each delivery of the change removes exactly its receiver from the nodes lacking it, and no other action does |
| Flooding.FloodExactlyOnce | tagsyd/src/catalog/forward.rs:34-74 | for any change but a purge, in any run: at most once per node and link at any time, and deliveries plus nodes lacking it are the other nodes; once off the links it has reached every node, over n - 1 sends, if and only if no node with neighbours to send it to dropped it |
| Flooding.OnlyPurgesDrop | tagsyd/src/catalog/files.rs:133-152 | an always-forwarded change is dropped exactly where it comes to a node that has purged its file |
| Flooding.FloodMeetsPurge | tagsyd/src/catalog/files.rs:133-152 | so once it and purges are off the links every node has handled it exactly once, or has handled the purge, or had purged the file from the start |
| Termination.BeyondNarrows | tagsyd/src/catalog/forward.rs:34-38 | what lies behind a further link of a tree lies behind this one, and is not its end |
| Termination.DeliveryLowers | tagsyd/src/catalog/forward.rs:39-74 | a delivery, forwarded or pruned, lowers the number of deliveries there can still be |
| Termination.DeliveriesAreBounded | tagsyd/src/catalog/forward.rs:34-74 | over any run deliveries, with those still possible, are at most n - 1 for each time a change was made and sent |
| Termination.AtMostTheOthers | tagsyd/src/catalog/forward.rs:34-74 | no change, move or delete included, is delivered more than n - 1 times; a purge n - 1 times for each node that made it |
| Termination.SettlingEnds | tagsyd/src/catalog/forward.rs:34-74 | once nothing is made any more only so many deliveries are left, in any order |
| Termination.Quiesces | tagsyd/src/catalog/forward.rs:34-74 | from any state deliveries alone lead to an empty network |
| Termination.SettlesAndConverges | tagsyd/src/catalog/files.rs:113-813 | after any run at most n - 1 deliveries for each change made are left, and when they are done every node of the tree holds the join |
| PurgeSpread.DoKeepsSpread | tagsyd/src/catalog/files.rs:711-810 | every step keeps: purged here only if purged at the neighbour or in flight to it, and sent at most once |
| PurgeSpread.ForwardedAtMostOnce | tagsyd/src/catalog/files.rs:754-768 | on clean catalogs and any graph a node puts a purge on each link at most once, and only if it purged the id |
| PurgeSpread.QuiescentUnion | tagsyd/src/catalog/files.rs:729-810 | at quiescence every node of a connected network has purged an id exactly when some node started with it or handled its purge |
| FileBytes.ReadChunkAt | tagsyd/src/file_bytes.rs:107-149 | whatever the short reads, the file-backed loop returns the window and end mark of the in-memory slice; a missing file is an error |
| FileBytes.ChunksReassemble | tagsyd/src/file_bytes.rs:107-149 | chunks of any positive size, concatenated until one is last, give back the content |
| FileBytes.LastOnlyOnFinalChunk | tagsyd/src/file_bytes.rs:117-147 | a chunk is last exactly when it reaches the end; those before are full; those after are empty |
| FileBytes.ReadAllBounded | tagsyd/src/file_bytes.rs:159-177 | the prefix up to the bound, complete exactly when it is everything |
| FileBytes.Content.IntoMove | tagsyd/src/file_bytes.rs:68-86 | same bytes and path, never a copy |
| FileBytes.FileSystem.MaterializeTo | tagsyd/src/file_bytes.rs:205-242 | same result within and across devices; a missing source changes nothing |
| FileBytes.PlacedMeans | tagsyd/src/file_bytes.rs:190-204 | the destination has the bytes, a source survives exactly when it is not moved, other paths stay |
| FileBytes.PlacedNeedsSource | tagsyd/src/file_bytes.rs:205-242 | nothing is placed if and only if a file is to be read and is missing |
| FileBytes.PlacedOntoItself | tagsyd/src/file_bytes.rs:205-242 | a copy onto its own source empties it, a move leaves it |
| Placement.MatchingIsExact | tagsyd/src/catalog/placement.rs:79-83 | a directory is chosen if and only if it is configured, wants the tags and is not the origin |
| Placement.MatchingIsDistinct | tagsyd/src/catalog/placement.rs:513-543 | with distinct paths no directory is chosen twice |
| Placement.HomesAreExact | tagsyd/src/catalog/content.rs:179-204 | a new file goes to every directory that wants its tags but a tag-based one it came from |
| Placement.EffectivePlacementTags | tagsyd/src/catalog/placement.rs:94-102 | the union of both tag lists, the carried ones first and unchanged, nothing repeated that was not |
| Placement.ApplyTagRules | tagsyd/src/catalog/content.rs:28-48 | the caller's tags first and unchanged, then each matching rule's tag once |
| Placement.PlacementsFor | tagsyd/src/catalog/placement.rs:513-543 | one change per matching directory, in configuration order |
| Placement.MaterializeTargets | tagsyd/src/catalog/placement.rs:455-508 | creates by the union of carried and cataloged tags; changes only for a live file |
| Placement.PlaceContent | tagsyd/src/catalog/placement.rs:561-615 | one command a target, in order, with its file, directory and name or path, and the same content, which is a move if and only if it was one and the target is the last |
| Placement.OneMover | tagsyd/src/catalog/placement.rs:579-613 | of the queued commands at most one takes the source away, and it is the last; all place the same bytes |
| Placement.FanOutIsSafe | tagsyd/src/catalog/placement.rs:561-615 | run in queue order, no queued command finds its source gone, all that run leave the same bytes, and the source goes exactly when it was a move with a last target that is not skipped |
| Placement.EveryTargetHolds | tagsyd/src/sync_directories/commands.rs:162-186 | once the queued commands ran every target has the bytes if and only if every skipped one had them |
| Placement.SkippedTargetIsStale | tagsyd/src/sync_directories/commands.rs:162-186 | a target that tracks the file with other bytes keeps them |
| Placement.AdditionsCreate | tagsyd/src/catalog/files.rs:288-308 | a newer version of a live file is placed by creates if and only if it was announced as an addition |
| DiskRuns.StaysInOrder | tagsyd/src/catalog/files.rs:1132-1168 | what directories hold and await stays in version order and genuine under any event, if and only if the event is not a report of content while older content is queued |
| DiskRuns.StepNeverRegresses | tagsyd/src/catalog/files.rs:1152-1168 | no event makes a directory that keeps the file fall back to an older version |
| DiskRuns.StaysSettled | tagsyd/src/catalog/files.rs:579-605 | a dead file stays gone from a directory, held or awaited, under any event if and only if the event is not a delete or purge from that directory while it holds or awaits the file, nor a report from it that leaves the file dead |
| DiskRuns.SettledMeans | tagsyd/src/catalog/files.rs:579-605 | settled means that what is queued cannot leave the directory with bytes of a dead file |
| DiskRuns.NoBytesOfTheDead | tagsyd/src/catalog/files.rs:1132-1150 | at any moment what is queued leaves no universal directory without a vault with bytes of a dead file once it drains, whenever transfers finish |
| DiskRuns.DeleteRacesChange | tagsyd/src/catalog/files.rs:580-586 | a queued change puts a file deleted in its directory back there |
| DiskRuns.LateBytesNeverRegress | tagsyd/src/catalog/files.rs:1104-1216 | over any run, however late transfers finish, the version each directory holds never falls, and all that is held or queued is the content recorded under its number |
| DiskRuns.ArrivedIsVersion | tagsyd/src/catalog/files.rs:1152-1168 | bytes a transfer gets placed are the version of that number in the final chain, with numbers in order of arrival |
| DiskRuns.ArrivalReaches | tagsyd/src/sync_directories/commands.rs:162-186 | once the queue drains a directory that wants the latest content holds it if and only if it came as a change, or the target did not track the file, or had it already |
| DiskRuns.AdditionLeavesOlder | tagsyd/src/sync_directories/commands.rs:162-186 | a newer version placed by a create leaves the older bytes of a directory that tracks the file |
| DiskRuns.EditIsOverwritten | tagsyd/src/catalog/content.rs:305-355 | an edit reported while an older change is queued is overwritten by it |
| DiskRuns.ReplacementLosesItsCopy | tagsyd/src/sync_directories/placement.rs:110-273 | a re-placement that drops its own source leaves a later directory without the file |
| Replacement.StopsShort | tagsyd/src/sync_directories/placement.rs:110-273 | it stops short if and only if the first holder it found when a copy was first needed is to give the file up and a directory asked later needs it |
| Replacement.ReplacedIs | tagsyd/src/sync_directories/placement.rs:110-273 | otherwise the file ends in exactly the directories its tags put it in that had it, or that could copy it from one that keeps it or is asked later |
| Replacement.ExecutedIs | tagsyd/src/sync_directories/commands.rs:147-330 | a create does nothing where the file is tracked, a change overwrites or creates, a removal leaves a vault alone |
| DiskRuns.ReportHolds | tagsyd/src/catalog/content.rs:179-204 | after a report a directory holds the content reported, but for a new file of a universal one |
| Outbox.EntryIsListed | tagsyd/src/outbox.rs:166-181 | a complete entry's name reads back as its id and hash, and is never swept |
| Outbox.SuffixedIsSkipped | tagsyd/src/outbox.rs:166-181 | a name whose content part ends as a partial's is not listed |
| Outbox.ObsoleteIs | tagsyd/src/outbox.rs:202-224 | an entry is no longer needed if and only if its file is purged or dead, or its content is in the history and not its end |
| Outbox.PartialIsListed | tagsyd/src/outbox.rs:172-178 | a partial is listed if and only if its draft name parses as an id |
| Outbox.RemovalMissesPartials | tagsyd/src/outbox.rs:156-163 | no removal of an id and hash hits a partial |
| Outbox.OutboxDirectory.Ingest | tagsyd/src/outbox.rs:89-148 | the entry named by id and hash holds exactly the source and no partial is left; a missing source or a copy that fails midway leaves nothing, a failed rename only the partial |
| Outbox.EntryNamesDiffer | tagsyd/src/outbox.rs:81-84 | entries of different ids or hashes have different names |
| Outbox.OutboxDirectory.Prepare | tagsyd/src/outbox.rs:66-79 | exactly the partials go |
| Outbox.OutboxDirectory.Entries | tagsyd/src/outbox.rs:166-181 | exactly the names that parse |
| Outbox.OutboxDirectory.ReleasePass | tagsyd/src/outbox.rs:226-272 | with catalog and holders as each visit finds them, exactly the listed entries found obsolete or held go; a complete entry stays if and only if no visit to it found that |
| OutboxRuns.EntriesAreWhole | tagsyd/src/outbox.rs:89-148 | with uploads interleaved and crashes anywhere, every complete entry holds bytes with its hash |
| OutboxRuns.DurableEntrySurvives | tagsyd/src/outbox.rs:63-79 | a durable entry outlives every crash and sweep until it is released |
| OutboxRuns.FinishedUploadIsDurable | tagsyd/src/outbox.rs:134-147 | a finished upload is a durable entry with exactly the hashed bytes |
| OutboxRelease.CopiesGo | tagsyd/src/outbox.rs:226-272 | content goes from everywhere only by a removal with no holder left or by the last holder dropping it |
| OutboxRelease.VerdictLoses | tagsyd/src/outbox.rs:202-224 | a removal right after its verdict takes a wanted last copy if and only if nobody else holds it and it is an unannounced upload of a deleted file or of an old content |
| OutboxRelease.ProbesLoseNothing | tagsyd/src/outbox.rs:242-255 | a removal right after a probe that found a holder never takes a last copy |
| OutboxRelease.RemovalAfterVerdictLoses | tagsyd/src/outbox.rs:226-272 | with anything between verdict and removal, it takes a wanted last copy exactly when the content was wanted throughout against the verdict, or an upload or command made it wanted since |
| OutboxRelease.RemovalAfterProbeLoses | tagsyd/src/outbox.rs:242-271 | with anything between probe and removal, it takes a wanted last copy exactly when the last holder gave it up since and nobody took it |
| OutboxRelease.DecisionsAreRead | tagsyd/src/outbox.rs:240-262 | the pass decides on a removal only by such a reading |
| OutboxRelease.UploadRace | tagsyd/src/outbox.rs:216-222 | an edit ends up latest with its bytes nowhere if and only if a pass came while the file was deleted or the content was an old one and nobody else held it |
| OutboxRelease.RevertRacesRemoval | tagsyd/src/outbox.rs:240-271 | a revert uploaded and announced between verdict and removal loses its bytes |
| OutboxRelease.HolderDropsCopy | tagsyd/src/outbox.rs:242-271 | a directory that drops its copy between probe and removal leaves the latest content nowhere |
| Duplicates.FindDuplicateSets | tagsyd/src/catalog/duplicates.rs:49-75 | exactly the classes of two or more live files, members ascending, classes in key order |
| Duplicates.BeforeMeans | tagsyd/src/catalog/duplicates.rs:70-73 | that order is the dictionary's: the first character that differs decides, and a prefix goes first |
| Duplicates.SetsInOrder | tagsyd/src/catalog/duplicates.rs:70-73 | sets come by path, those of one path by hash |
| Duplicates.SetsAreDisjoint | tagsyd/src/catalog/duplicates.rs:49-75 | no file is in two sets |
| Duplicates.PlanDuplicateGroup | tagsyd/src/catalog/duplicates.rs:102-130 | the lowest id is kept, the rest deleted, and the tags merged are those of the deleted that the kept lacks, in order |
| Duplicates.MergedAreMissing | tagsyd/src/catalog/duplicates.rs:102-130 | the survivor gains exactly the tags some member has and it lacks, each once, ascending |
| Duplicates.ListFiles | tagsyd/src/store/files.rs:628-675 | the listing is exactly the live files with a version, each once, with its path and latest hash |
| Duplicates.ListsMeans | tagsyd/src/store/files.rs:628-675 | a file is listed if and only if its row is live and it has a version, under the row's path and the last version's hash |
| Duplicates.PlanDuplicateDeletions | tagsyd/src/catalog/duplicates.rs:80-96 | read from the tables: one such plan per set, in set order, by the tags each member has |
| Duplicates.SurvivorUnderPartialViews | tagsyd/src/catalog/duplicates.rs:10-15 | from whichever part of the files, no plan deletes the lowest id of a class |
| Duplicates.PlanIsCarriedOut | tagsyd/src/catalog/mod.rs:1033-1074 | with winning stamps the duplicates are tombstoned and the survivor lives with the tags of the whole class, whatever else is purged |
| Duplicates.OthersStay | tagsyd/src/catalog/mod.rs:1033-1074 | files no plan names, purged ones included, are left as they are |
| Duplicates.PlanBesidePurge | tagsyd/src/catalog/mod.rs:1033-1074 | two copies beside a purged id meet every premise |
| Duplicates.SecondPlanIsEmpty | tagsyd/src/catalog/duplicates.rs:80-96 | after a full plan there is nothing left to plan |
| Duplicates.DeleteDuplicates | tagsyd/src/catalog/mod.rs:1007-1075 | plans from the writer's own tables; then tables and everything sent are as applying the plans' changes in order says; a dry run changes and sends nothing |
| Duplicates.DeletesGoFirst | tagsyd/src/catalog/mod.rs:1035-1057 | a set's deletes are ahead of its survivor's tags |
| Duplicates.PlansInOrder | tagsyd/src/catalog/mod.rs:1041-1057 | the changes of earlier plans come first |
| PurgeSync.BatchPurgeManifest | tagsyd/src/peer/plan_purge.rs:26-32 | frames of at most the batch size, full but the last, none empty, losing and reordering nothing |
| PurgeSync.PlanPurgeSync | tagsyd/src/peer/plan_purge.rs:49-100 | the entries not purged here, or purged with a row, in order |
| PurgeSync.PlannedInOrder | tagsyd/src/peer/plan_purge.rs:49-100 | in the manifest's order, each acted on as often as it is named |
| PurgeSync.ReceiveIs | tagsyd/src/peer/plan_purge.rs:34-48 | however framed and repeated, receiving purges every id named and touches no other |
| PurgeSync.ExchangeIsUnion | tagsyd/src/peer/plan_purge.rs:1-9 | both ends finish with the union, and ids the peer named have no row |
| PurgeSync.SecondExchangePlansNothing | tagsyd/src/peer/plan_purge.rs:81-97 | a second exchange plans nothing at an end if and only if no lingering row was of an id only that end had purged |
| PurgeSync.LingeringRowIsPlanned | tagsyd/src/peer/plan_purge.rs:81-97 | an upload of a purged id leaves a row that a second exchange plans for |
| PurgeSync.CleanExchangeSettles | tagsyd/src/peer/plan_purge.rs:43-48 | on clean catalogs one exchange settles both ends |
| Clock.StampsIncrease | tagsy-core/src/clock.rs:28-41 | for any threads, failures and wall clock, stamps strictly increase, none is under its reading, none runs ahead by more than the stamps handed out |
| Clock.FailureMeansProgress | tagsy-core/src/clock.rs:34-40 | an exchange fails, other than spuriously, exactly when another call got a stamp since this one looked |
| Activity.TwoIdleSamples | tagsyd/src/activity.rs:36-69 | two idle samples with one count: no message was begun or in hand between the first count read and the second busy read |
| Activity.OneSampleIsNotEnough | tagsyd/src/activity.rs:42-53 | an idle sample can miss a message in hand |
| Activity.TwoIdleSessionSamples | tagsyd/src/activity.rs:88-122 | the same for all peer sessions sharing their counters |
| Activity.SessionRunInv | tagsyd/src/activity.rs:88-122 | the busy counter is the number of busy sessions and never underflows |
| Activity.TotalIsSum | tagsyd/src/activity.rs:130-148 | at every moment the total is the sum of what live reporters added, and no subtraction exceeds it |

## Left out

- SQL, its errors, and the log-and-continue branches: the store's operations are taken as their error-free effect on rows.
- Fixed-width integers: stamps, sizes and counters are unbounded.
- CatalogTables.CatalogStore.TagIdsForFile: tag definitions and tag-to-tag relationships are left out, so a tag is taken as never deleted itself and subtags are not followed.
- CatalogTables.CatalogStore.RecordVersionAt: does not keep the origin column of a version, nor drop the previews of the file.
- Short ids, search and the reply values of API commands.
- Convergence.QuiescentNodesAgree: liveness with one delete takes restores made where the delete is settled only: elsewhere, with the no-op guard, they do not commute with deletes, as `RestoreDeleteCommute` says exactly.
- Reconciliation.DeletesConverge: several deletes of a file that is restored too are left out, for the same reason; a manifest is taken as telling the one tombstone it holds of the file.
- The restore command's availability probe, the missing-content sweep, and choosing which files are broken for a purge: they wait on other actors and peers.
- Connecting, handshakes, the session loop, the transfer receiver and relay, and the file and tag manifest planners.
- The watcher and the parts of the sync-directory actor beyond what one command does to one file: naming collisions, empty parent directories, files sharing bytes.
- Outbox.OutboxDirectory.Ingest: a failing clean-up of a partial, and a directory sync that fails after the rename, are left out; a removal from the outbox is taken as durable.
- BLAKE3, id generation and tag-rule matching: digests, names and matching rules are parameters.
- Weak memory orders: every atomic access is in one total order.
- Placement.FanOutIsSafe: takes the paths a directory resolves to as given, distinct from each other and from the source.
- DiskRuns.NoBytesOfTheDead: follows bytes the daemon places; a file a user puts into the directory by hand is not counted.
- Duplicates.FindDuplicateSets: takes a listing that names each file once, as the primary key of the table makes it.
- Duplicates.PlanIsCarriedOut: the members a plan names get winning stamps and are not purged; nothing is asked of other files.
- DiskRuns.LateBytesNeverRegress: a directory that reports content while older content is queued for it is left out of the run, as `StaysInOrder` says exactly, and so is ingest of a purged file; the new file of a universal directory counts as held once it is placed there.
- Outbox.OutboxDirectory.ReleasePass: within one visit catalog and holders stand still; what happens between its steps is `OutboxRelease`.
- OutboxRelease.RemovalAfterVerdictLoses: follows the entries of one file; a pass over several files visits them one by one.
