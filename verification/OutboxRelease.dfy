/**
 When a release pass takes the last copy of content that is still wanted. The pass lists the entries once
 and then visits each: it reads a verdict from the catalog, asks the directories, asks the peers, and
 removes. Between any two of these the writer applies commands, uploads come in and holders change; this
 follows one file.
 */
module OutboxRelease {
  import opened Types
  import opened Catalog
  import opened CatalogRuns
  import opened Outbox

  datatype Reason = Unneeded | HeldHere | HeldByPeer

  /** Where the pass is: between entries, past a verdict, past the directories, or about to remove. */
  datatype Stage =
    | Idle
    | Visiting(todo: seq<Hash>)
    | Judged(hash: Hash, todo: seq<Hash>)
    | Asking(hash: Hash, todo: seq<Hash>)
    | Removing(hash: Hash, todo: seq<Hash>, reason: Reason)

  /**
   `pending` are uploads in the outbox whose announcement the writer has not applied; `directories` and
   `peers` are what each of them holds of the file, and `reachable` the peers a probe can ask.
   */
  datatype World = World(
    r: Record, entries: set<Hash>, pending: set<Hash>, directories: seq<Option<Hash>>, peers: map<PeerKey, set<Hash>>,
    reachable: set<PeerKey>, stage: Stage)

  datatype Event =
    | Ingested(hash: Hash)
    | Applied(command: Command)
    | DirectoryHolds(i: nat, content: Option<Hash>)
    | PeerHolds(peer: PeerKey, contents: set<Hash>)
    | Connected(reachable: set<PeerKey>)
    | List(order: seq<Hash>)
    | Judge
    | AskDirectories
    | AskPeers
    | Release

  /** What a read of the file returns: the first directory that holds it answers, whatever it holds. */
  function FirstHeld(directories: seq<Option<Hash>>): Option<Hash> {
    if directories == [] then None
    else if directories[0].Some? then directories[0]
    else FirstHeld(directories[1..])
  }

  predicate PeersAnswer(s: World, hash: Hash) {
    exists peer <- s.reachable :: peer in s.peers && hash in s.peers[peer]
  }

  /** Somebody but the outbox holds the content. */
  predicate Elsewhere(s: World, hash: Hash) {
    Some(hash) in s.directories || exists peer <- s.peers :: hash in s.peers[peer]
  }

  /** The upload whose announcement a command is. */
  function Announces(command: Command): Option<Hash> {
    match command
    case UploadNew(_, _, version, _) => Some(version.hash)
    case UploadEdit(version) => Some(version.hash)
    case _ => None
  }

  function Visit(s: World, event: Event): World {
    match event
    case List(order) =>
      if s.stage.Idle? && (set hash | hash in order) == s.entries then s.(stage := Visiting(order)) else s
    case Judge =>
      if !s.stage.Visiting? then s
      else if s.stage.todo == [] then s.(stage := Idle)
      else
        var hash, todo := s.stage.todo[0], s.stage.todo[1..];
        s.(stage :=
          if CatalogVerdict(s.r, hash) == Obsolete then Removing(hash, todo, Unneeded) else Judged(hash, todo))
    case AskDirectories =>
      if !s.stage.Judged? then s
      else if FirstHeld(s.directories) == Some(s.stage.hash)
      then s.(stage := Removing(s.stage.hash, s.stage.todo, HeldHere))
      else s.(stage := Asking(s.stage.hash, s.stage.todo))
    case AskPeers =>
      if !s.stage.Asking? then s
      else if PeersAnswer(s, s.stage.hash) then s.(stage := Removing(s.stage.hash, s.stage.todo, HeldByPeer))
      else s.(stage := Visiting(s.stage.todo))
    case Release =>
      if !s.stage.Removing? then s
      else s.(entries := s.entries - {s.stage.hash}, stage := Visiting(s.stage.todo))
    case _ => s
  }

  function Happen(s: World, event: Event): World {
    match event
    case Ingested(hash) => s.(entries := s.entries + {hash}, pending := s.pending + {hash})
    case Applied(command) =>
      s.(r := Catalog.Step(s.r, command),
         pending := if Announces(command).Some? then s.pending - {Announces(command).value} else s.pending)
    case DirectoryHolds(i, content) => if i < |s.directories| then s.(directories := s.directories[i := content]) else s
    case PeerHolds(peer, contents) => s.(peers := s.peers[peer := contents])
    case Connected(reachable) => s.(reachable := reachable)
    case _ => Visit(s, event)
  }

  function History(s: World, events: seq<Event>): World
    decreases |events|
  {
    if events == [] then s else Happen(History(s, events[..|events| - 1]), events[|events| - 1])
  }

  // ---- what is wanted, and when it is lost ----

  predicate IsLatest(r: Record, hash: Hash) {
    r.Live() && r.versions != [] && r.Latest().value.hash == hash
  }

  /** The content is the latest of a live file, or an upload still to be recorded, of a file not purged. */
  predicate Wanted(s: World, hash: Hash) {
    !s.r.purged && (hash in s.pending || IsLatest(s.r, hash))
  }

  /** The next removal takes the only copy there is of content that is wanted. */
  predicate TakesLastCopy(s: World) {
    s.stage.Removing? && s.stage.hash in s.entries && Wanted(s, s.stage.hash) && !Elsewhere(s, s.stage.hash)
  }

  /** The copies of content go only by a removal with no holder left, or by the last holder's dropping its own. */
  lemma CopiesGo(s: World, event: Event, hash: Hash)
    requires hash in s.entries || Elsewhere(s, hash)
    ensures var next := Happen(s, event);
            !(hash in next.entries || Elsewhere(next, hash)) <==>
              (event.Release? && s.stage.Removing? && s.stage.hash == hash && !Elsewhere(s, hash))
              || ((event.DirectoryHolds? || event.PeerHolds?) && hash !in s.entries && !Elsewhere(next, hash))
  {
  }

  // ---- a pass nothing interrupts ----

  /** The file is deleted, or the content is in its history without being the latest. */
  predicate Superseded(r: Record, hash: Hash) {
    r.Tombstoned() || ((exists v <- r.versions :: v.hash == hash) && r.Latest().value.hash != hash)
  }

  /**
   A removal right after its verdict takes a last copy exactly when nobody else holds the content and it
   is an upload still to be announced of a deleted file, or of content the file had before.
   */
  lemma VerdictLoses(s: World, hash: Hash, todo: seq<Hash>)
    requires s.stage == Visiting([hash] + todo)
    ensures TakesLastCopy(Happen(s, Judge)) <==>
              hash in s.entries && !Elsewhere(s, hash) && !s.r.purged && hash in s.pending && Superseded(s.r, hash)
  {
    assert ([hash] + todo)[1..] == todo;
  }

  /** A removal right after a probe that found a holder never does. */
  lemma ProbesLoseNothing(s: World)
    requires s.stage.Judged? || s.stage.Asking?
    ensures !TakesLastCopy(Happen(s, AskDirectories)) && !TakesLastCopy(Happen(s, AskPeers))
  {
    if s.stage.Judged? && FirstHeld(s.directories) == Some(s.stage.hash) { FirstIsHeld(s.directories); }
  }

  lemma {:induction false} FirstIsHeld(directories: seq<Option<Hash>>)
    ensures FirstHeld(directories).Some? ==> FirstHeld(directories) in directories
  {
    if directories != [] && directories[0].None? { FirstIsHeld(directories[1..]); }
  }

  // ---- a pass anything may interrupt ----

  predicate UpFrom(flags: seq<bool>, i: nat) { forall j :: i <= j < |flags| ==> flags[j] }

  /** A flag is up at the end exactly when it was up throughout, or rose at some point and stayed up. */
  lemma {:induction false} LastRise(flags: seq<bool>)
    requires flags != []
    ensures flags[|flags| - 1] <==>
              UpFrom(flags, 0) || exists i :: 0 < i < |flags| && !flags[i - 1] && UpFrom(flags, i)
    decreases |flags|
  {
    var n := |flags| - 1;
    if n > 0 && flags[n] {
      if flags[n - 1] {
        LastRise(flags[..n]);
        var i :| 0 <= i < n && UpFrom(flags[..n], i) && (i == 0 || !flags[..n][i - 1]);
        assert forall j :: i <= j < n ==> flags[j] == flags[..n][j];
        assert UpFrom(flags, i);
      } else {
        assert UpFrom(flags, n);
      }
    }
  }

  /** From the point `i` on, the content is wanted at every moment up to the removal. */
  ghost predicate WantedFrom(s: World, events: seq<Event>, hash: Hash, i: nat) {
    forall j :: i <= j <= |events| ==> Wanted(History(s, events[..j]), hash)
  }

  ghost predicate UnheldFrom(s: World, events: seq<Event>, hash: Hash, i: nat) {
    forall j :: i <= j <= |events| ==> !Elsewhere(History(s, events[..j]), hash)
  }

  /** An upload of the content, or a command that makes it the latest of a live file. */
  predicate MakesWanted(s: World, event: Event, hash: Hash) {
    !Wanted(s, hash)
    && ((event == Ingested(hash) && !s.r.purged)
        || (event.Applied? && !Step(s.r, event.command).purged && IsLatest(Step(s.r, event.command), hash)))
  }

  lemma RisesAreExact(s: World, event: Event, hash: Hash)
    requires !Wanted(s, hash)
    ensures Wanted(Happen(s, event), hash) <==> MakesWanted(s, event, hash)
  {
    if event.Applied? && s.r.purged { StaysPurged(s.r, event.command); }
  }

  /** No command takes a purge back. */
  lemma StaysPurged(r: Record, command: Command)
    requires r.purged
    ensures Step(r, command).purged
  {
    match command
    case DirectoryAdd(path, pathAt, version, tagStamps) =>
      TagEachKeeps(r.AddFile(path, pathAt).RecordVersion(version), tagStamps);
    case UploadNew(path, pathAt, version, tags) => TagAllKeeps(r.AddFile(path, pathAt), tags, pathAt);
    case _ =>
  }

  /** A directory or a peer gives up the last copy outside the outbox. */
  predicate DropsLast(s: World, event: Event, hash: Hash) {
    (event.DirectoryHolds? || event.PeerHolds?) && Elsewhere(s, hash) && !Elsewhere(Happen(s, event), hash)
  }

  /** A removal is under way and nothing of the pass happens until it: the events are everybody else's. */
  ghost predicate Interrupted(s: World, events: seq<Event>) {
    s.stage.Removing? && forall e <- events :: !e.Release?
  }

  lemma {:induction false} StageWaits(s: World, events: seq<Event>)
    requires s.stage.Removing? && forall e <- events :: !e.Release?
    ensures History(s, events).stage == s.stage
    decreases |events|
  {
    if events != [] {
      assert events[|events| - 1] in events && forall e <- events[..|events| - 1] :: e in events;
      StageWaits(s, events[..|events| - 1]);
    }
  }

  lemma NextStep(s: World, events: seq<Event>, i: nat)
    requires i < |events|
    ensures History(s, events[..i + 1]) == Happen(History(s, events[..i]), events[i])
  {
    assert events[..i + 1][..i] == events[..i];
  }

  /** What the content's being wanted at the removal goes back to. */
  ghost predicate WantedBy(s: World, events: seq<Event>, hash: Hash) {
    WantedFrom(s, events, hash, 0)
    || exists i :: 0 < i <= |events| && MakesWanted(History(s, events[..i - 1]), events[i - 1], hash)
                   && WantedFrom(s, events, hash, i)
  }

  ghost function WantedFlags(s: World, events: seq<Event>, hash: Hash): seq<bool> {
    seq(|events| + 1, i requires 0 <= i <= |events| => Wanted(History(s, events[..i]), hash))
  }

  lemma WantedFlagsAre(s: World, events: seq<Event>, hash: Hash, i: nat)
    requires i <= |events|
    ensures UpFrom(WantedFlags(s, events, hash), i) <==> WantedFrom(s, events, hash, i)
    ensures WantedFlags(s, events, hash)[|events|] <==> Wanted(History(s, events), hash)
    ensures WantedFrom(s, events, hash, i) ==> Wanted(History(s, events), hash)
  {
    var flags := WantedFlags(s, events, hash);
    assert events[..|events|] == events;
    if UpFrom(flags, i) {
      forall j | i <= j <= |events| ensures Wanted(History(s, events[..j]), hash) {
        assert flags[j];
      }
    }
    if WantedFrom(s, events, hash, i) {
      assert Wanted(History(s, events[..|events|]), hash);
    }
  }

  lemma WantedGoesBack(s: World, events: seq<Event>, hash: Hash)
    ensures Wanted(History(s, events), hash) <==> WantedBy(s, events, hash)
  {
    if Wanted(History(s, events), hash) { WantedComesOf(s, events, hash); }
    if i :| 0 <= i <= |events| && WantedFrom(s, events, hash, i) {
      WantedFlagsAre(s, events, hash, i);
    }
  }

  lemma WantedComesOf(s: World, events: seq<Event>, hash: Hash)
    requires Wanted(History(s, events), hash)
    ensures WantedBy(s, events, hash)
  {
    var flags := WantedFlags(s, events, hash);
    LastRise(flags);
    WantedFlagsAre(s, events, hash, 0);
    if !UpFrom(flags, 0) {
      var i :| 0 < i < |flags| && !flags[i - 1] && UpFrom(flags, i);
      WantedFlagsAre(s, events, hash, i);
      assert flags[i];
      RiseMakesWanted(s, events, hash, i - 1);
    }
  }

  lemma RiseMakesWanted(s: World, events: seq<Event>, hash: Hash, i: nat)
    requires i < |events|
    requires !Wanted(History(s, events[..i]), hash) && Wanted(History(s, events[..i + 1]), hash)
    ensures MakesWanted(History(s, events[..i]), events[i], hash)
  {
    NextStep(s, events, i);
    RisesAreExact(History(s, events[..i]), events[i], hash);
  }

  /** Content with no holder at the removal, though it had one before, was given up by its last holder since. */
  ghost predicate Dropped(s: World, events: seq<Event>, hash: Hash) {
    exists i :: 0 < i <= |events| && DropsLast(History(s, events[..i - 1]), events[i - 1], hash)
                && UnheldFrom(s, events, hash, i)
  }

  ghost function UnheldFlags(s: World, events: seq<Event>, hash: Hash): seq<bool> {
    seq(|events| + 1, i requires 0 <= i <= |events| => !Elsewhere(History(s, events[..i]), hash))
  }

  lemma UnheldFlagsAre(s: World, events: seq<Event>, hash: Hash, i: nat)
    requires i <= |events|
    ensures UpFrom(UnheldFlags(s, events, hash), i) <==> UnheldFrom(s, events, hash, i)
    ensures UnheldFlags(s, events, hash)[|events|] <==> !Elsewhere(History(s, events), hash)
    ensures UnheldFrom(s, events, hash, i) ==> !Elsewhere(History(s, events), hash)
  {
    var flags := UnheldFlags(s, events, hash);
    assert events[..|events|] == events;
    if UpFrom(flags, i) {
      forall j | i <= j <= |events| ensures !Elsewhere(History(s, events[..j]), hash) {
        assert flags[j];
      }
    }
    if UnheldFrom(s, events, hash, i) {
      assert !Elsewhere(History(s, events[..|events|]), hash);
    }
  }

  lemma UnheldGoesBack(s: World, events: seq<Event>, hash: Hash)
    requires Elsewhere(s, hash)
    ensures !Elsewhere(History(s, events), hash) <==> Dropped(s, events, hash)
  {
    var flags := UnheldFlags(s, events, hash);
    LastRise(flags);
    assert events[..0] == [] && !flags[0];
    UnheldFlagsAre(s, events, hash, 0);
    if !Elsewhere(History(s, events), hash) {
      var i :| 0 < i < |flags| && !flags[i - 1] && UpFrom(flags, i);
      UnheldFlagsAre(s, events, hash, i);
      NextStep(s, events, i - 1);
      assert flags[i];
      FallIsDrop(History(s, events[..i - 1]), events[i - 1], hash);
    }
    if i :| 0 < i <= |events| && UnheldFrom(s, events, hash, i) {
      UnheldFlagsAre(s, events, hash, i);
    }
  }

  lemma FallIsDrop(s: World, event: Event, hash: Hash)
    requires Elsewhere(s, hash) && !Elsewhere(Happen(s, event), hash)
    ensures DropsLast(s, event, hash)
  {
  }

  /**
   A verdict, then anything, then the removal: it takes the last copy exactly when the entry is still
   there, nobody holds the content, and either it was an upload the verdict took for superseded and is
   wanted ever since, or something since made it wanted and it has stayed so: a new upload of the same
   content, or a command that made it the live file's latest.
   */
  lemma RemovalAfterVerdictLoses(s: World, events: seq<Event>)
    requires Interrupted(s, events) && s.stage.reason.Unneeded? && CatalogVerdict(s.r, s.stage.hash) == Obsolete
    ensures var hash, end := s.stage.hash, History(s, events);
            TakesLastCopy(end) <==>
              hash in end.entries && !Elsewhere(end, hash)
              && ((!s.r.purged && hash in s.pending && Superseded(s.r, hash) && WantedFrom(s, events, hash, 0))
                  || exists i :: 0 < i <= |events| && MakesWanted(History(s, events[..i - 1]), events[i - 1], hash)
                                 && WantedFrom(s, events, hash, i))
  {
    StageWaits(s, events);
    WantedGoesBack(s, events, s.stage.hash);
    assert events[..0] == [];
    if WantedFrom(s, events, s.stage.hash, 0) {
      assert Wanted(History(s, events[..0]), s.stage.hash);
    }
  }

  /**
   A probe that found a holder, then anything, then the removal: it takes the last copy exactly when the
   entry is still there, the content is wanted, and its last holder gave it up since and nobody took it.
   */
  lemma RemovalAfterProbeLoses(s: World, events: seq<Event>)
    requires Interrupted(s, events)
    requires match s.stage.reason
             case Unneeded => false
             case HeldHere => FirstHeld(s.directories) == Some(s.stage.hash)
             case HeldByPeer => PeersAnswer(s, s.stage.hash)
    ensures var hash, end := s.stage.hash, History(s, events);
            TakesLastCopy(end) <==> hash in end.entries && WantedBy(s, events, hash) && Dropped(s, events, hash)
  {
    StageWaits(s, events);
    FirstIsHeld(s.directories);
    WantedGoesBack(s, events, s.stage.hash);
    UnheldGoesBack(s, events, s.stage.hash);
  }

  /** The readings the two laws start from are what the pass acts on. */
  lemma DecisionsAreRead(s: World, event: Event)
    requires !s.stage.Removing? && Happen(s, event).stage.Removing?
    ensures var next := Happen(s, event);
            (event.Judge? || event.AskDirectories? || event.AskPeers?)
            && match next.stage.reason
               case Unneeded => CatalogVerdict(next.r, next.stage.hash) == Obsolete
               case HeldHere => FirstHeld(next.directories) == Some(next.stage.hash)
               case HeldByPeer => PeersAnswer(next, next.stage.hash)
  {
  }

  // ---- runs that lose ----

  /**
   One case: a pass comes by between an edit's ingest and its announcement. The edit then ends up live and
   latest with its content nowhere exactly when nobody else holds it and the file was deleted at that
   moment, or the content was an old one: an edit of a deleted file, or a revert.
   */
  lemma UploadRace(s: World, version: Version)
    requires s.stage.Idle? && s.entries == {} && !s.r.purged && s.r.row.Some?
    requires s.r.Supersedes(version.observedAt) && s.r.row.value.deletedAt < version.observedAt
    ensures var hash := version.hash;
            var ingested := Happen(s, Ingested(hash));
            var judged := Happen(Happen(ingested, List([hash])), Judge);
            var final := Happen(Happen(judged, Release), Applied(UploadEdit(version)));
            IsLatest(final.r, hash)
            && (hash !in final.entries && !Elsewhere(final, hash) <==> !Elsewhere(s, hash) && Superseded(s.r, hash))
            && (TakesLastCopy(judged) <==> !Elsewhere(s, hash) && Superseded(s.r, hash))
  {
    var hash := version.hash;
    var listed := Happen(Happen(s, Ingested(hash)), List([hash]));
    assert [hash] + [] == [hash];
    VerdictLoses(listed, hash, []);
  }

  /** Another: a revert uploaded again and announced between the verdict on the old entry and its removal. */
  lemma RevertRacesRemoval(path: LogicalPath)
    ensures var r := Record(Some(Row(path, 1, false, 0, 0)), [Version("a", 1, 1), Version("b", 1, 2)], map[], false);
            var s := World(r, {"a"}, {}, [], map[], {}, Visiting(["a"]));
            var removing := Happen(s, Judge);
            var announced := Happen(Happen(removing, Ingested("a")), Applied(UploadEdit(Version("a", 1, 3))));
            var final := Happen(announced, Release);
            !TakesLastCopy(removing) && TakesLastCopy(announced) && IsLatest(final.r, "a") && final.entries == {}
  {
    var r := Record(Some(Row(path, 1, false, 0, 0)), [Version("a", 1, 1), Version("b", 1, 2)], map[], false);
    assert r.versions[0] in r.versions;
  }

  /** And another: a directory held the latest content when asked, and dropped it before the removal. */
  lemma HolderDropsCopy(path: LogicalPath)
    ensures var r := Record(Some(Row(path, 1, false, 0, 0)), [Version("a", 1, 1)], map[], false);
            var s := World(r, {"a"}, {}, [Some("a")], map[], {}, Visiting(["a"]));
            var removing := Happen(Happen(s, Judge), AskDirectories);
            var dropped := Happen(removing, DirectoryHolds(0, None));
            !TakesLastCopy(removing) && TakesLastCopy(dropped) && Happen(dropped, Release).entries == {}
  {
  }
}
