/** What every run of the single writer keeps: purges are final, and arrival order is stamp order. */
module CatalogRuns {
  import opened Types
  import opened Catalog

  // ---- runs ----

  lemma {:induction false} RunConcat(r: Record, first: seq<Command>, second: seq<Command>)
    ensures Run(r, first + second) == Run(Run(r, first), second)
    decreases |second|
  {
    if second == [] {
      assert first + second == first;
    } else {
      var n := |second| - 1;
      assert (first + second)[..|first + second| - 1] == first + second[..n];
      RunConcat(r, first, second[..n]);
    }
  }

  lemma RunTwo(r: Record, first: Command, second: Command)
    ensures Run(r, [first, second]) == Step(Step(r, first), second)
  {
    assert [first, second][..1] == [first];
    assert [first][..0] == [];
    assert Run(r, [first]) == Step(r, first);
  }

  // ---- purge outranks the catalog ----

  /** A purged id keeps no file, version or tag-relationship row. */
  predicate Clean(r: Record) {
    r.purged ==> r.row.None? && r.versions == [] && r.edges == map[]
  }

  const PURGED: Record := Record(None, [], map[], true)

  /** Content ingested on this device: the only writes that do not consult the purge set. */
  predicate LocalIngest(command: Command) {
    command.DirectoryAdd? || command.DirectoryEdit? || command.UploadNew? || command.UploadEdit?
  }

  /** Every purge-guarded command leaves a purged record alone; local ingest never does. */
  lemma PurgeOutranksStep(r: Record, command: Command)
    requires Clean(r)
    ensures r.purged ==> Step(r, command).purged
    ensures Clean(Step(r, command)) <==> !(r.purged && LocalIngest(command))
    ensures r.purged && !LocalIngest(command) ==> Step(r, command) == r
  {
    if command.DirectoryAdd? {
      TagEachKeeps(r.AddFile(command.path, command.pathAt).RecordVersion(command.version), command.tagStamps);
    } else if command.UploadNew? {
      TagAllKeeps(r.AddFile(command.path, command.pathAt), command.tags, command.pathAt);
    } else if command.Meta? && command.change.Added? {
      var c := command.change;
      TagAllKeeps(r.AddFile(c.path, c.pathAt), c.tags, c.pathAt);
    }
  }

  lemma {:induction false} TagAllKeeps(r: Record, tags: seq<TagId>, at: Stamp)
    ensures r.TagAll(tags, at) == r.(edges := r.TagAll(tags, at).edges)
    decreases |tags|
  {
    if tags != [] {
      TagAllKeeps(r.SetEdge(tags[0], TagEdge(at, false)), tags[1..], at);
    }
  }

  lemma {:induction false} TagEachKeeps(r: Record, tags: seq<(TagId, Stamp)>)
    ensures TagEach(r, tags) == r.(edges := TagEach(r, tags).edges)
    decreases |tags|
  {
    if tags != [] {
      TagEachKeeps(r.SetEdge(tags[0].0, TagEdge(tags[0].1, false)), tags[1..]);
    }
  }

  /** Local ingest during the run never names the file once it is purged. */
  ghost predicate IngestRespectsPurge(r: Record, commands: seq<Command>) {
    forall i :: 0 <= i < |commands| && LocalIngest(commands[i]) ==> !Run(r, commands[..i]).purged
  }

  /** Over any run the purge set only grows and a purged id stays without rows. */
  lemma {:induction false} PurgeOutranksRun(r: Record, commands: seq<Command>)
    requires Clean(r) && IngestRespectsPurge(r, commands)
    ensures Clean(Run(r, commands))
    ensures r.purged ==> Run(r, commands) == PURGED
    decreases |commands|
  {
    if commands != [] {
      var n := |commands| - 1;
      forall i | 0 <= i < n && LocalIngest(commands[..n][i])
        ensures !Run(r, commands[..n][..i]).purged
      {
        assert commands[..n][..i] == commands[..i];
      }
      PurgeOutranksRun(r, commands[..n]);
      PurgeOutranksStep(Run(r, commands[..n]), commands[n]);
    }
  }

  /** A purge followed by anything but local ingest ends in the purged record, whatever came before. */
  lemma PurgeIsFinal(r: Record, before: seq<Command>, file: FileId, after: seq<Command>)
    requires Clean(r) && IngestRespectsPurge(r, before)
    requires forall i :: 0 <= i < |after| ==> !LocalIngest(after[i])
    ensures Run(r, before + [Meta(Purged(file))] + after) == PURGED
  {
    PurgeOutranksRun(r, before);
    RunConcat(r, before, [Meta(Purged(file))]);
    RunConcat(r, before + [Meta(Purged(file))], after);
    assert [Meta(Purged(file))][..0] == [];
    assert Run(r, before + [Meta(Purged(file))]) == Run(Run(r, before), [Meta(Purged(file))])
      == Step(Run(Run(r, before), []), Meta(Purged(file))) == PURGED;
    PurgeOutranksRun(PURGED, after);
  }

  /** A repeated purge repairs drift exactly when the drift includes a file row. */
  lemma RepurgeRepairs(r: Record, file: FileId)
    ensures Clean(Handle(r, Purged(file)).record) <==> Clean(r) || !r.purged || r.row.Some?
  {
  }

  /** The drift it misses is reachable: one upload edit of a purged id leaves a version no purge removes. */
  lemma OrphanVersionSurvivesPurge(version: Version, file: FileId)
    ensures var drifted := Run(PURGED, [UploadEdit(version), Meta(Purged(file))]);
            !Clean(drifted) && drifted.versions == [version]
  {
    RunTwo(PURGED, UploadEdit(version), Meta(Purged(file)));
  }

  // ---- arrival order is stamp order ----

  predicate Increasing(versions: seq<Version>) {
    forall i, j :: 0 <= i < j < |versions| ==> versions[i].observedAt < versions[j].observedAt
  }

  /** Versions without a file row are debris no guarded path compares against. */
  predicate Rooted(r: Record) { r.versions != [] ==> r.row.Some? }

  /** The version a command would record at this record, if it would record one. */
  function Recorded(r: Record, command: Command): (version: Option<Version>) {
    match command
    case Meta(Added(_, _, _, hash, size, observedAt, _)) =>
      if r.purged || (r.row.Some? && !r.Supersedes(observedAt)) then None else Some(Version(hash, size, observedAt))
    case Meta(Changed(_, hash, size, observedAt)) =>
      if r.purged || !r.Supersedes(observedAt) then None else Some(Version(hash, size, observedAt))
    case Meta(Purged(_)) => None
    case Meta(_) => None
    case ManifestFile(_, _, version) =>
      if r.purged || (r.row.Some? && !r.Supersedes(version.observedAt)) then None else Some(version)
    case ManifestTombstone(_, _, version, _, _) => if r.purged || r.row.Some? then None else Some(version)
    case DirectoryAdd(_, _, version, _) =>
      if r.row.Some? && r.versions != [] && r.Latest().value.hash == version.hash then None else Some(version)
    case UploadNew(_, _, version, _) => if r.row.Some? then None else Some(version)
    case DirectoryEdit(version) => Some(version)
    case UploadEdit(version) => Some(version)
    case UserRestore(_, _, _) => None
  }

  /** The chain only ever grows by the recorded version, unless the file is purged. */
  lemma ChainGrows(r: Record, command: Command)
    ensures Step(r, command).versions
         == if command.Meta? && command.change.Purged? && !(r.purged && r.row.None?) then []
            else if Recorded(r, command).Some? then r.versions + [Recorded(r, command).value]
            else r.versions
  {
    match command
    case DirectoryAdd(path, pathAt, version, tagStamps) =>
      TagEachKeeps(r.AddFile(path, pathAt).RecordVersion(version), tagStamps);
    case UploadNew(path, pathAt, version, tags) => TagAllKeeps(r.AddFile(path, pathAt), tags, pathAt);
    case Meta(change) =>
      if change.Added? {
        TagAllKeeps(r.AddFile(change.path, change.pathAt), change.tags, change.pathAt);
      }
    case _ =>
  }

  /** Every version in the chain was there at the start or recorded by some command of the run. */
  lemma {:induction false} EveryVersionWasRecorded(r: Record, commands: seq<Command>, version: Version)
    requires version in Run(r, commands).versions
    ensures version in r.versions
            || exists i :: 0 <= i < |commands| && Recorded(Run(r, commands[..i]), commands[i]) == Some(version)
    decreases |commands|
  {
    if commands != [] {
      var n := |commands| - 1;
      ChainGrows(Run(r, commands[..n]), commands[n]);
      if Recorded(Run(r, commands[..n]), commands[n]) != Some(version) {
        EveryVersionWasRecorded(r, commands[..n], version);
        if version !in r.versions {
          var i :| 0 <= i < n && Recorded(Run(r, commands[..n][..i]), commands[..n][i]) == Some(version);
          assert commands[..n][..i] == commands[..i];
        }
      }
    }
  }

  /**
   A command appends a version that is not newer than the chain's end: a local edit with a stale
   stamp, or a creation of a file whose row is missing but whose versions are not.
   */
  predicate Overtaken(r: Record, command: Command) {
    Recorded(r, command).Some? && r.versions != []
    && Recorded(r, command).value.observedAt <= r.LatestObserved()
  }

  /** Guarded commands are overtaken only by orphaned versions. */
  lemma OnlyOrphansOvertake(r: Record, command: Command)
    requires !LocalIngest(command)
    ensures Overtaken(r, command) ==>
              r.row.None? && r.versions != []
              && (command.ManifestFile? || command.ManifestTombstone? || (command.Meta? && command.change.Added?))
  {
  }

  /** Stamp order survives a command exactly when the command is not overtaken. */
  lemma ArrivalKeepsOrder(r: Record, command: Command)
    requires Increasing(r.versions)
    ensures Increasing(Step(r, command).versions) <==> !Overtaken(r, command)
  {
    ChainGrows(r, command);
    var n := |r.versions|;
    var after := Step(r, command).versions;
    if Overtaken(r, command) {
      assert after[n - 1] == r.versions[n - 1] && after[n] == Recorded(r, command).value;
    }
  }

  /** The failing family is reachable from the empty record: an edit of an unknown file, then its older creation. */
  lemma OrphanBreaksOrder(file: FileId, path: LogicalPath, hash: Hash, size: nat, older: Stamp, newer: Stamp)
    requires older < newer
    ensures !Increasing(Run(UNKNOWN, [Meta(Changed(file, hash, size, newer)),
                                      Meta(Added(file, path, older, hash, size, older, []))]).versions)
  {
    var edit, creation := Meta(Changed(file, hash, size, newer)), Meta(Added(file, path, older, hash, size, older, []));
    RunTwo(UNKNOWN, edit, creation);
    var last := Step(Step(UNKNOWN, edit), creation);
    assert last.versions == [Version(hash, size, newer), Version(hash, size, older)];
    assert last.versions[0].observedAt > last.versions[1].observedAt;
  }

  /** Peer traffic in which every edit of content names a file already known (or purged) here. */
  ghost predicate PeerRun(r: Record, commands: seq<Command>) {
    forall i :: 0 <= i < |commands| ==>
      !LocalIngest(commands[i])
      && (commands[i].Meta? && commands[i].change.Changed? ==>
            Run(r, commands[..i]).row.Some? || Run(r, commands[..i]).purged)
  }

  /** The version offered by an announcement or a manifest entry, recorded or not. */
  function Offered(command: Command): (version: Option<Version>) {
    match command
    case Meta(Added(_, _, _, hash, size, observedAt, _)) => Some(Version(hash, size, observedAt))
    case Meta(Changed(_, hash, size, observedAt)) => Some(Version(hash, size, observedAt))
    case ManifestFile(_, _, version) => Some(version)
    case _ => None
  }

  lemma PeerRunPrefix(r: Record, commands: seq<Command>, n: nat)
    requires PeerRun(r, commands) && n <= |commands|
    ensures PeerRun(r, commands[..n])
  {
    forall i | 0 <= i < n
      ensures commands[..n][i] == commands[i] && Run(r, commands[..n][..i]) == Run(r, commands[..i])
    {
      assert commands[..n][..i] == commands[..i];
    }
  }

  /** One guarded command: the chain keeps its order, and what was offered is not newer than its end. */
  lemma GuardedStep(r: Record, command: Command)
    requires Increasing(r.versions) && Rooted(r) && Clean(r) && !LocalIngest(command)
    requires command.Meta? && command.change.Changed? ==> r.row.Some? || r.purged
    ensures var next := Step(r, command);
            Increasing(next.versions) && Rooted(next) && Clean(next) && (r.purged ==> next.purged)
    ensures var next := Step(r, command);
            !next.purged && r.versions != [] ==> next.versions != [] && r.LatestObserved() <= next.LatestObserved()
    ensures var next := Step(r, command);
            !next.purged && Offered(command).Some? ==>
              next.versions != [] && Offered(command).value.observedAt <= next.LatestObserved()
  {
    PurgeOutranksStep(r, command);
    OnlyOrphansOvertake(r, command);
    ArrivalKeepsOrder(r, command);
    ChainGrows(r, command);
    if command.Meta? && command.change.Added? {
      var c := command.change;
      TagAllKeeps(r.AddFile(c.path, c.pathAt), c.tags, c.pathAt);
    }
  }

  /** Over peer traffic the chain stays rooted and strictly increasing. */
  lemma {:induction false} PeerRunKeepsOrder(r: Record, commands: seq<Command>)
    requires Increasing(r.versions) && Rooted(r) && Clean(r) && PeerRun(r, commands)
    ensures var final := Run(r, commands); Increasing(final.versions) && Rooted(final) && Clean(final)
    decreases |commands|
  {
    if commands != [] {
      var n := |commands| - 1;
      PeerRunPrefix(r, commands, n);
      PeerRunKeepsOrder(r, commands[..n]);
      GuardedStep(Run(r, commands[..n]), commands[n]);
    }
  }

  /** The highest-numbered version is at least as new as everything offered so far. */
  lemma {:induction false} LatestIsGreatest(r: Record, commands: seq<Command>, i: nat)
    requires Increasing(r.versions) && Rooted(r) && Clean(r) && PeerRun(r, commands)
    requires i < |commands| && Offered(commands[i]).Some? && !Run(r, commands).purged
    ensures var final := Run(r, commands);
            final.row.Some? && final.versions != []
            && Offered(commands[i]).value.observedAt <= final.LatestObserved()
    decreases |commands|
  {
    var n := |commands| - 1;
    PeerRunPrefix(r, commands, n);
    PeerRunKeepsOrder(r, commands[..n]);
    GuardedStep(Run(r, commands[..n]), commands[n]);
    if i < n {
      LatestIsGreatest(r, commands[..n], i);
    }
  }

  /** Redelivering anything offered earlier in a run, by either route, changes nothing. */
  lemma RedeliveryChangesNothing(r: Record, commands: seq<Command>, i: nat)
    requires Increasing(r.versions) && Rooted(r) && Clean(r) && PeerRun(r, commands)
    requires i < |commands| && Offered(commands[i]).Some?
    ensures Step(Run(r, commands), commands[i]) == Run(r, commands)
  {
    if !Run(r, commands).purged {
      LatestIsGreatest(r, commands, i);
    }
  }
}
