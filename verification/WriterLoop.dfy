/**
 The writer's loop: commands that write the catalog, bytes that arrive, re-placements, purges of everything
 deleted and removals of duplicates, one turn after another.
 */
module WriterLoop {
  import opened Types
  import opened Catalog
  import opened CatalogTables
  import opened FileBytes
  import opened Placement
  import opened Outgoing
  import opened CatalogRuns
  import opened Duplicates
  import opened CatalogWriter

  datatype Turn =
    | Process(message: Message)
    | Arrival(file: FileId, content: Content, hash: Hash, placing: Placing)
    | ReconcilePlacement(file: FileId)
    | PurgeAll(dryRun: bool)
    | RemoveDuplicates(dryRun: bool, stamps: Stamps)

  // ---- what a turn comes to ----

  /** The deleted files of a catalog, each once, in whatever order the listing gives them. */
  ghost predicate ListsDeleted(store: Store, deleted: seq<FileId>) {
    Distinct(deleted)
    && forall file :: file in deleted <==> RecordOf(store, file).Tombstoned() && RecordOf(store, file).versions != []
  }

  ghost predicate PlansChanges(store: Store, stamps: Stamps, changes: seq<Change>) {
    exists files, tags, plans ::
      Lists(store, files) && ReadsTags(store, tags, plans) && Plans(files, tags, plans)
      && changes == AllChanges(plans, stamps)
  }

  /** The messages a turn comes to on a catalog: itself, none, or the local changes it makes. */
  ghost predicate Expands(store: Store, turn: Turn, chunk: seq<Message>) {
    match turn
    case Process(message) => chunk == [message]
    case Arrival(_, _, _, _) => chunk == []
    case ReconcilePlacement(_) => chunk == []
    case PurgeAll(dryRun) =>
      if dryRun then chunk == [] else
      exists deleted :: ListsDeleted(store, deleted) && chunk == LocalChanges(Purges(deleted))
    case RemoveDuplicates(dryRun, stamps) =>
      if dryRun then chunk == [] else
      exists changes :: PlansChanges(store, stamps, changes) && chunk == LocalChanges(changes)
  }

  function TurnSends(setting: Setting, store: Store, turn: Turn, chunk: seq<Message>): Sending {
    match turn
    case Arrival(file, content, hash, placing) =>
      ArrivalSends(setting, RecordOf(store, file), file, content, hash, placing)
    case ReconcilePlacement(file) =>
      Sending([], Replan(RecordOf(store, file), file), [], [], Deferring(RecordOf(store, file), file))
    case _ => SendsAll(setting, store, chunk)
  }

  /** A re-placement asks a live file's directories again, with the fetch of its latest version to follow. */
  lemma ReplacementSends(setting: Setting, store: Store, file: FileId)
    ensures var r, sent := RecordOf(store, file), TurnSends(setting, store, ReconcilePlacement(file), []);
            var tags := set tag | tag in r.edges && !r.edges[tag].deleted;
            var latest := if r.versions == [] then None else Some(r.versions[|r.versions| - 1]);
            sent == if r.row.None? || r.row.value.deleted then NOTHING_SENT
                    else Sending([], [ApplyPlacement(file, r.row.value.path, tags)], [], [],
                                 [FetchIfDeferred(file, r.row.value.path, tags, latest)])
  {
    assert RecordOf(store, file).LiveTags()
        == set tag | tag in RecordOf(store, file).edges && !RecordOf(store, file).edges[tag].deleted;
  }

  // ---- a run of turns ----

  function Joined(chunks: seq<seq<Message>>): seq<Message>
    decreases |chunks|
  {
    if chunks == [] then [] else Joined(chunks[..|chunks| - 1]) + chunks[|chunks| - 1]
  }

  /** Each turn expands on the catalog the ones before it left. */
  ghost predicate Unfolds(start: Store, turns: seq<Turn>, chunks: seq<seq<Message>>) {
    |turns| == |chunks| && forall i :: 0 <= i < |turns| ==> UnfoldsAt(start, turns, chunks, i)
  }

  ghost predicate UnfoldsAt(start: Store, turns: seq<Turn>, chunks: seq<seq<Message>>, i: nat)
    requires i < |turns| == |chunks|
  {
    Expands(After(start, Joined(chunks[..i])), turns[i], chunks[i])
  }

  function LoopSends(setting: Setting, start: Store, turns: seq<Turn>, chunks: seq<seq<Message>>): Sending
    requires |turns| == |chunks|
    decreases |turns|
  {
    if turns == [] then NOTHING_SENT else
    var n := |turns| - 1;
    LoopSends(setting, start, turns[..n], chunks[..n])
      .Plus(TurnSends(setting, After(start, Joined(chunks[..n])), turns[n], chunks[n]))
  }

  lemma {:induction false} AfterJoins(start: Store, first: seq<Message>, second: seq<Message>)
    ensures After(start, first + second) == After(After(start, first), second)
    decreases |second|
  {
    if second == [] {
      assert first + second == first;
    } else {
      var n := |second| - 1;
      AfterJoins(start, first, second[..n]);
      assert first + second == first + second[..n] + [second[n]] && second == second[..n] + [second[n]];
      AfterLast(start, first + second[..n], second[n]);
      AfterLast(After(start, first), second[..n], second[n]);
    }
  }

  // ---- catalogs that hold the same ----

  ghost predicate Same(a: Store, b: Store) { forall file :: RecordOf(a, file) == RecordOf(b, file) }

  lemma {:induction false} SameAfter(setting: Setting, a: Store, b: Store, inbox: seq<Message>)
    requires Same(a, b)
    ensures Same(After(a, inbox), After(b, inbox)) && SendsAll(setting, a, inbox) == SendsAll(setting, b, inbox)
    decreases |inbox|
  {
    if inbox != [] {
      var n := |inbox| - 1;
      SameAfter(setting, a, b, inbox[..n]);
      SameStep(After(a, inbox[..n]), After(b, inbox[..n]), inbox[n]);
      assert inbox == inbox[..n] + [inbox[n]];
      RunLast(setting, a, inbox[..n], inbox[n]);
      RunLast(setting, b, inbox[..n], inbox[n]);
    }
  }

  lemma SameStep(a: Store, b: Store, message: Message)
    requires Same(a, b)
    ensures Same(a[message.file := Step(RecordOf(a, message.file), message.command)],
                 b[message.file := Step(RecordOf(b, message.file), message.command)])
  {
    assert RecordOf(a, message.file) == RecordOf(b, message.file);
    var x := a[message.file := Step(RecordOf(a, message.file), message.command)];
    var y := b[message.file := Step(RecordOf(b, message.file), message.command)];
    forall file ensures RecordOf(x, file) == RecordOf(y, file) {
      assert RecordOf(a, file) == RecordOf(b, file);
    }
  }

  lemma SameExpands(a: Store, b: Store, turn: Turn, chunk: seq<Message>)
    requires Same(a, b) && Expands(a, turn, chunk)
    ensures Expands(b, turn, chunk)
  {
    match turn
    case PurgeAll(dryRun) =>
      if !dryRun {
        var deleted :| ListsDeleted(a, deleted) && chunk == LocalChanges(Purges(deleted));
        assert ListsDeleted(b, deleted);
      }
    case RemoveDuplicates(dryRun, stamps) =>
      if !dryRun {
        var changes :| PlansChanges(a, stamps, changes) && chunk == LocalChanges(changes);
        var files, tags, plans :|
          Lists(a, files) && ReadsTags(a, tags, plans) && Plans(files, tags, plans)
          && changes == AllChanges(plans, stamps);
        assert Lists(b, files) && ReadsTags(b, tags, plans);
        assert PlansChanges(b, stamps, changes);
      }
    case _ =>
  }

  // ---- the loop ----

  /** One turn: the tables and everything sent are those of what it expands to. */
  method TakeTurn(writer: CatalogWriter, turn: Turn) returns (ghost chunk: seq<Message>)
    requires turn.Process? ==> turn.message.WellFormed()
    modifies writer, writer.database
    ensures var start := old(writer.database.Snapshot());
            Expands(start, turn, chunk) && writer.setting == old(writer.setting)
            && writer.Mirrors(After(start, chunk))
            && writer.Sent() == old(writer.Sent()).Plus(TurnSends(writer.setting, start, turn, chunk))
  {
    writer.database.SnapshotIsWhole();
    ghost var start := writer.database.Snapshot();
    match turn {
      case Process(message) =>
        writer.Run([message]);
        chunk := [message];
      case Arrival(file, content, hash, placing) =>
        writer.Materialize(file, content, hash, placing);
        chunk := [];
      case ReconcilePlacement(file) =>
        writer.PlanPlacement(file);
        chunk := [];
      case PurgeAll(dryRun) =>
        var deleted := writer.PurgeDeleted(dryRun);
        assert ListsDeleted(start, deleted);
        chunk := if dryRun then [] else LocalChanges(Purges(deleted));
      case RemoveDuplicates(dryRun, stamps) =>
        var plans, files, tags := DeleteDuplicates(writer, dryRun, stamps);
        ghost var changes := AllChanges(plans, stamps);
        assert PlansChanges(start, stamps, changes);
        chunk := if dryRun then [] else LocalChanges(changes);
    }
  }

  /** The turns led from that catalog, with that much sent, to where the writer is. */
  ghost predicate Looped(writer: CatalogWriter, start: Store, sent: Sending, turns: seq<Turn>,
                         chunks: seq<seq<Message>>)
    reads writer, writer.database
  {
    Unfolds(start, turns, chunks) && writer.Mirrors(After(start, Joined(chunks)))
    && writer.Sent() == sent.Plus(LoopSends(writer.setting, start, turns, chunks))
  }

  /** One turn more. */
  method NextTurn(writer: CatalogWriter, turn: Turn, ghost start: Store, ghost sent: Sending, ghost turns: seq<Turn>,
                  ghost chunks: seq<seq<Message>>)
    returns (ghost chunk: seq<Message>)
    requires turn.Process? ==> turn.message.WellFormed()
    requires Looped(writer, start, sent, turns, chunks)
    modifies writer, writer.database
    ensures writer.setting == old(writer.setting) && Looped(writer, start, sent, turns + [turn], chunks + [chunk])
  {
    writer.database.SnapshotIsWhole();
    ghost var before, held, sentBefore := writer.database.Snapshot(), After(start, Joined(chunks)), writer.Sent();
    chunk := TakeTurn(writer, turn);
    SameAfter(writer.setting, before, held, chunk);
    SameExpands(before, held, turn, chunk);
    LoopLast(writer.setting, start, turns, turn, chunks, chunk);
    PlusAssociates(sent, LoopSends(writer.setting, start, turns, chunks),
                   TurnSends(writer.setting, held, turn, chunk));
  }

  lemma LoopLast(setting: Setting, start: Store, turns: seq<Turn>, turn: Turn, chunks: seq<seq<Message>>,
                 chunk: seq<Message>)
    requires Unfolds(start, turns, chunks) && Expands(After(start, Joined(chunks)), turn, chunk)
    ensures Unfolds(start, turns + [turn], chunks + [chunk])
    ensures After(start, Joined(chunks + [chunk])) == After(After(start, Joined(chunks)), chunk)
    ensures LoopSends(setting, start, turns + [turn], chunks + [chunk])
         == LoopSends(setting, start, turns, chunks)
              .Plus(TurnSends(setting, After(start, Joined(chunks)), turn, chunk))
  {
    var moreTurns, moreChunks := turns + [turn], chunks + [chunk];
    assert moreTurns[..|turns|] == turns && moreChunks[..|chunks|] == chunks;
    AfterJoins(start, Joined(chunks), chunk);
    forall i | 0 <= i < |moreTurns| ensures UnfoldsAt(start, moreTurns, moreChunks, i) {
      assert moreChunks[..i] == chunks[..i];
      if i < |turns| { assert UnfoldsAt(start, turns, chunks, i); }
    }
  }

  /**
   The loop over any turns: each expands on the catalog the ones before it left, the tables end as the messages
   so expanded leave them, and exactly what the turns send has been sent.
   */
  method Loop(writer: CatalogWriter, turns: seq<Turn>) returns (ghost chunks: seq<seq<Message>>)
    requires forall i :: 0 <= i < |turns| ==> turns[i].Process? ==> turns[i].message.WellFormed()
    modifies writer, writer.database
    ensures writer.setting == old(writer.setting)
    ensures Looped(writer, old(writer.database.Snapshot()), old(writer.Sent()), turns, chunks)
  {
    writer.database.SnapshotIsWhole();
    ghost var start, sent, done := writer.database.Snapshot(), writer.Sent(), [];
    chunks := [];
    for i := 0 to |turns|
      invariant done == turns[..i] && writer.setting == old(writer.setting) && Looped(writer, start, sent, done, chunks)
    {
      ghost var chunk := NextTurn(writer, turns[i], start, sent, done, chunks);
      chunks, done := chunks + [chunk], done + [turns[i]];
    }
    assert done == turns;
  }

  /** So whatever the turns, each file's record goes through one run of catalog commands. */
  lemma LoopIsRun(start: Store, turns: seq<Turn>, chunks: seq<seq<Message>>, file: FileId)
    requires Unfolds(start, turns, chunks)
    ensures RecordOf(After(start, Joined(chunks)), file)
         == Catalog.Run(RecordOf(start, file), About(Joined(chunks), file))
  {
    AfterIsRun(start, Joined(chunks), file);
  }

  // ---- purges are final for the whole loop ----

  /** A turn that ingests nothing of the file. */
  predicate Respects(turn: Turn, file: FileId) {
    turn.Process? && turn.message.file == file ==> !LocalIngest(turn.message.command)
  }

  predicate NoIngest(inbox: seq<Message>, file: FileId) {
    forall m <- inbox :: m.file == file ==> !LocalIngest(m.command)
  }

  lemma {:induction false} NoIngestAbout(inbox: seq<Message>, file: FileId)
    requires NoIngest(inbox, file)
    ensures forall command <- About(inbox, file) :: !LocalIngest(command)
    decreases |inbox|
  {
    if inbox != [] {
      var n := |inbox| - 1;
      assert inbox == inbox[..n] + [inbox[n]] && inbox[n] in inbox;
      NoIngestAbout(inbox[..n], file);
      AboutLast(inbox[..n], inbox[n], file);
    }
  }

  /** Purging and removing duplicates ingest nothing, so a loop ingests only what it is given to. */
  lemma {:induction false} JoinedNoIngest(start: Store, turns: seq<Turn>, chunks: seq<seq<Message>>, file: FileId,
                                          n: nat)
    requires Unfolds(start, turns, chunks) && n <= |turns| && forall turn <- turns :: Respects(turn, file)
    ensures NoIngest(Joined(chunks[..n]), file)
    decreases n
  {
    if n > 0 {
      JoinedNoIngest(start, turns, chunks, file, n - 1);
      assert chunks[..n][..n - 1] == chunks[..n - 1];
      assert UnfoldsAt(start, turns, chunks, n - 1) && turns[n - 1] in turns;
      ChunkNoIngest(After(start, Joined(chunks[..n - 1])), turns[n - 1], chunks[n - 1], file);
    }
  }

  lemma ChunkNoIngest(store: Store, turn: Turn, chunk: seq<Message>, file: FileId)
    requires Expands(store, turn, chunk) && Respects(turn, file)
    ensures NoIngest(chunk, file)
  {
  }

  /** A purged file without rows stays so through any loop that ingests nothing of it. */
  lemma LoopKeepsPurge(start: Store, turns: seq<Turn>, chunks: seq<seq<Message>>, file: FileId)
    requires Unfolds(start, turns, chunks) && forall turn <- turns :: Respects(turn, file)
    requires RecordOf(start, file) == PURGED
    ensures RecordOf(After(start, Joined(chunks)), file) == PURGED
  {
    assert chunks[..|turns|] == chunks;
    JoinedNoIngest(start, turns, chunks, file, |turns|);
    NoIngestAbout(Joined(chunks), file);
    LoopIsRun(start, turns, chunks, file);
    PurgeOutranksRun(PURGED, About(Joined(chunks), file));
  }
}
