/**
 Which sync directories a file's bytes belong in, and the move-or-copy policy that gets them there over
 the directories' command queue.
 */
module Placement {
  import opened Types
  import opened Catalog
  import opened FileBytes

  datatype SyncType = Universal(keepDeleted: bool) | TagBased(tags: seq<TagId>)

  datatype SyncDirectory = SyncDirectory(path: DirectoryPath, kind: SyncType)

  /** Universal directories name a file by its id, tag-based ones by its logical path. */
  datatype PhysicalPath = ById(file: FileId) | Named(path: LogicalPath)

  function PhysicalFor(kind: SyncType, path: LogicalPath, file: FileId): PhysicalPath {
    if kind.Universal? then ById(file) else Named(path)
  }

  predicate ContainsAllTags(required: seq<TagId>, tags: set<TagId>) {
    forall tag <- required :: tag in tags
  }

  predicate Wants(directory: SyncDirectory, tags: set<TagId>) {
    directory.kind.TagBased? ==> ContainsAllTags(directory.kind.tags, tags)
  }

  predicate FromHere(directory: SyncDirectory, origin: Origin) {
    origin == Local(directory.path)
  }

  /** An origin no directory is. */
  const ANYWHERE: Origin := Peer("")

  /** The directories, in configuration order, that want a file with these tags and that the change is not from. */
  function Matching(directories: seq<SyncDirectory>, origin: Origin, tags: set<TagId>): seq<SyncDirectory>
    decreases |directories|
  {
    if directories == [] then [] else
    var n := |directories| - 1;
    Matching(directories[..n], origin, tags)
    + if !FromHere(directories[n], origin) && Wants(directories[n], tags) then [directories[n]] else []
  }

  ghost predicate DistinctPaths(directories: seq<SyncDirectory>) {
    forall i, j :: 0 <= i < j < |directories| ==> directories[i].path != directories[j].path
  }

  /** Exactly the directories that should have the file get it. */
  lemma {:induction false} MatchingIsExact(directories: seq<SyncDirectory>, origin: Origin, tags: set<TagId>,
                                           d: SyncDirectory)
    ensures d in Matching(directories, origin, tags) <==> d in directories && !FromHere(d, origin) && Wants(d, tags)
    decreases |directories|
  {
    if directories != [] {
      var n := |directories| - 1;
      MatchingIsExact(directories[..n], origin, tags, d);
      assert directories == directories[..n] + [directories[n]];
    }
  }

  /** And each gets it once. */
  lemma {:induction false} MatchingIsDistinct(directories: seq<SyncDirectory>, origin: Origin, tags: set<TagId>)
    requires DistinctPaths(directories)
    ensures DistinctPaths(Matching(directories, origin, tags))
    decreases |directories|
  {
    if directories != [] {
      var n := |directories| - 1;
      var before := Matching(directories[..n], origin, tags);
      MatchingIsDistinct(directories[..n], origin, tags);
      forall d | d in before ensures d.path != directories[n].path {
        MatchingIsExact(directories[..n], origin, tags, d);
      }
    }
  }

  /**
   The directories a file that appeared in one of them is placed in. A tag-based origin already holds it
   under its name; a universal one does not hold it under its id yet.
   */
  function Homes(directories: seq<SyncDirectory>, origin: Origin, tags: set<TagId>): seq<SyncDirectory>
    decreases |directories|
  {
    if directories == [] then [] else
    var n := |directories| - 1;
    Homes(directories[..n], origin, tags)
    + if !(FromHere(directories[n], origin) && directories[n].kind.TagBased?) && Wants(directories[n], tags)
      then [directories[n]] else []
  }

  /** With the tags a tag-based origin gives its files, every directory wanting them has the file afterwards. */
  lemma {:induction false} HomesAreExact(directories: seq<SyncDirectory>, origin: Origin, tags: set<TagId>,
                                         d: SyncDirectory)
    ensures d in Homes(directories, origin, tags) <==>
              d in directories && Wants(d, tags) && !(FromHere(d, origin) && d.kind.TagBased?)
    decreases |directories|
  {
    if directories != [] {
      var n := |directories| - 1;
      HomesAreExact(directories[..n], origin, tags, d);
      assert directories == directories[..n] + [directories[n]];
    }
  }

  datatype Placement =
    | CreateAt(file: FileId, physical: PhysicalPath, directory: DirectoryPath)
    | ChangeAt(file: FileId, path: LogicalPath, directory: DirectoryPath)

  /** What the sync directories are told to do. */
  datatype DirectoryCommand =
    | CreateFile(file: FileId, physical: PhysicalPath, content: Content, directory: DirectoryPath)
    | ChangeFile(file: FileId, path: LogicalPath, content: Content, directory: DirectoryPath)
    | MoveFile(file: FileId, physical: PhysicalPath, directory: DirectoryPath)
    | RemoveFile(file: FileId, directory: DirectoryPath)
    | ApplyPlacement(file: FileId, path: LogicalPath, tags: set<TagId>)

  function IntoCommand(target: Placement, content: Content): DirectoryCommand {
    match target
    case CreateAt(file, physical, directory) => CreateFile(file, physical, content, directory)
    case ChangeAt(file, path, directory) => ChangeFile(file, path, content, directory)
  }

  // ---- tags ----

  /** The union of the carried and the cataloged tags: the carried ones as they come, then the others once each. */
  method EffectivePlacementTags(carried: seq<TagId>, cataloged: seq<TagId>) returns (effective: seq<TagId>)
    ensures carried <= effective && Tags(effective) == Tags(carried) + Tags(cataloged)
    ensures Distinct(carried) ==> Distinct(effective)
    ensures forall i :: |carried| <= i < |effective| ==> effective[i] !in carried
    ensures Distinct(effective[|carried|..])
  {
    effective := carried;
    for i := 0 to |cataloged|
      invariant carried <= effective
      invariant forall tag :: tag in effective <==> tag in carried || tag in cataloged[..i]
      invariant Distinct(carried) ==> Distinct(effective)
      invariant forall k :: |carried| <= k < |effective| ==> effective[k] !in carried
      invariant Distinct(effective[|carried|..])
    {
      if cataloged[i] !in effective {
        effective := effective + [cataloged[i]];
      }
    }
    assert cataloged[..|cataloged|] == cataloged;
    assert forall tag :: tag in Tags(effective) <==> tag in Tags(carried) + Tags(cataloged);
  }

  /** Creation-time rules add each matching tag the caller did not supply, once, after the caller's own. */
  method ApplyTagRules(matching: seq<TagId>, tags: seq<TagId>) returns (all: seq<TagId>)
    ensures tags <= all && Tags(all) == Tags(tags) + Tags(matching)
    ensures Distinct(tags) ==> Distinct(all)
    ensures Tags(matching) <= Tags(tags) ==> all == tags
  {
    all := tags;
    for i := 0 to |matching|
      invariant tags <= all
      invariant forall tag :: tag in all <==> tag in tags || tag in matching[..i]
      invariant Distinct(tags) ==> Distinct(all)
      invariant Tags(matching) <= Tags(tags) ==> all == tags
    {
      if matching[i] !in all {
        assert matching[i] in Tags(matching);
        all := all + [matching[i]];
      }
    }
    assert matching[..|matching|] == matching;
    assert forall tag :: tag in Tags(all) <==> tag in Tags(tags) + Tags(matching);
  }

  // ---- targets ----

  function Creates(directories: seq<SyncDirectory>, file: FileId, path: LogicalPath): seq<Placement> {
    seq(|directories|, i requires 0 <= i < |directories| =>
      CreateAt(file, PhysicalFor(directories[i].kind, path, file), directories[i].path))
  }

  function Overwrites(directories: seq<SyncDirectory>, file: FileId, path: LogicalPath): seq<Placement> {
    seq(|directories|, i requires 0 <= i < |directories| => ChangeAt(file, path, directories[i].path))
  }

  /** A new version of a live file goes to every directory that should hold it but the one it came from. */
  function LiveTargets(directories: seq<SyncDirectory>, r: Record, origin: Origin, file: FileId): seq<Placement> {
    if !r.Live() then [] else Overwrites(Matching(directories, origin, r.LiveTags()), file, r.row.value.path)
  }

  /** Where bytes that arrive over a transfer go, by what the catalog holds now; no directory is their origin. */
  function Targets(directories: seq<SyncDirectory>, r: Record, file: FileId, placing: Placing): seq<Placement> {
    match placing
    case Create(path, tags) => Creates(Matching(directories, ANYWHERE, Tags(tags) + r.LiveTags()), file, path)
    case Overwrite => LiveTargets(directories, r, LOCAL_ORIGIN, file)
  }

  method PlacementsFor(directories: seq<SyncDirectory>, origin: Origin, file: FileId, path: LogicalPath,
                       tags: set<TagId>)
    returns (targets: seq<Placement>)
    ensures targets == Overwrites(Matching(directories, origin, tags), file, path)
  {
    targets := [];
    for i := 0 to |directories|
      invariant targets == Overwrites(Matching(directories[..i], origin, tags), file, path)
    {
      assert directories[..i + 1][..i] == directories[..i];
      if FromHere(directories[i], origin) { continue; }
      if directories[i].kind.TagBased? && !ContainsAllTags(directories[i].kind.tags, tags) { continue; }
      targets := targets + [ChangeAt(file, path, directories[i].path)];
    }
    assert directories[..|directories|] == directories;
  }

  method HomePlacements(directories: seq<SyncDirectory>, origin: Origin, file: FileId, path: LogicalPath,
                        tags: set<TagId>)
    returns (targets: seq<Placement>)
    ensures targets == Creates(Homes(directories, origin, tags), file, path)
  {
    targets := [];
    for i := 0 to |directories|
      invariant targets == Creates(Homes(directories[..i], origin, tags), file, path)
    {
      assert directories[..i + 1][..i] == directories[..i];
      if FromHere(directories[i], origin) && directories[i].kind.TagBased? { continue; }
      if directories[i].kind.TagBased? && !ContainsAllTags(directories[i].kind.tags, tags) { continue; }
      targets := targets + [CreateAt(file, PhysicalFor(directories[i].kind, path, file), directories[i].path)];
    }
    assert directories[..|directories|] == directories;
  }

  method MaterializeTargets(directories: seq<SyncDirectory>, r: Record, cataloged: seq<TagId>, file: FileId,
                            placing: Placing)
    returns (targets: seq<Placement>)
    requires Tags(cataloged) == r.LiveTags()
    ensures targets == Targets(directories, r, file, placing)
  {
    match placing {
      case Create(path, tags) =>
        var effective := EffectivePlacementTags(tags, cataloged);
        targets := [];
        for i := 0 to |directories|
          invariant targets == Creates(Matching(directories[..i], ANYWHERE, Tags(effective)), file, path)
        {
          assert directories[..i + 1][..i] == directories[..i];
          if directories[i].kind.TagBased? && !ContainsAllTags(directories[i].kind.tags, Tags(effective)) { continue; }
          targets := targets + [CreateAt(file, PhysicalFor(directories[i].kind, path, file), directories[i].path)];
        }
        assert directories[..|directories|] == directories;
      case Overwrite =>
        if !r.Live() { return []; }
        targets := PlacementsFor(directories, LOCAL_ORIGIN, file, r.row.value.path, r.LiveTags());
    }
  }

  // ---- move or copy ----

  /** What the `i`th of `n` targets is handed: the content itself if alone, else a copy, with a move last. */
  function Share(content: Content, n: nat, i: nat): Content
    requires i < n
  {
    if n == 1 || content.InMemory? then content
    else if content.FileToMove? && i + 1 == n then content
    else FileToCopy(content.source)
  }

  function Shares(targets: seq<Placement>, content: Content): seq<DirectoryCommand> {
    seq(|targets|, i requires 0 <= i < |targets| => IntoCommand(targets[i], Share(content, |targets|, i)))
  }

  /** A handed-out content is the same content; it takes its source away only if that was asked and nobody follows. */
  predicate Passes(own: Content, content: Content, last: bool) {
    own.Path() == content.Path() && (content.InMemory? ==> own == content)
    && (own.FileToMove? <==> content.FileToMove? && last)
  }

  /** A command does at its target's directory what the target says, with that content. */
  predicate Carries(command: DirectoryCommand, target: Placement, content: Content, last: bool) {
    match target
    case CreateAt(file, physical, directory) =>
      command.CreateFile? && command.file == file && command.physical == physical && command.directory == directory
      && Passes(command.content, content, last)
    case ChangeAt(file, path, directory) =>
      command.ChangeFile? && command.file == file && command.path == path && command.directory == directory
      && Passes(command.content, content, last)
  }

  /** One command a target, in their order. */
  ghost predicate CarriesAll(commands: seq<DirectoryCommand>, targets: seq<Placement>, content: Content) {
    |commands| == |targets|
    && forall i :: 0 <= i < |targets| ==> Carries(commands[i], targets[i], content, i + 1 == |targets|)
  }

  lemma SharesCarry(targets: seq<Placement>, content: Content)
    ensures CarriesAll(Shares(targets, content), targets, content)
  {
  }

  method PlaceContent(targets: seq<Placement>, content: Content) returns (commands: seq<DirectoryCommand>)
    ensures CarriesAll(commands, targets, content) && commands == Shares(targets, content)
  {
    commands := [];
    var moveIntent := content.FileToMove?;
    if |targets| == 1 {
      commands := [IntoCommand(targets[0], content)];
    } else if |targets| > 1 {
      for i := 0 to |targets|
        invariant |commands| == i
        invariant forall k :: 0 <= k < i ==> commands[k] == IntoCommand(targets[k], Share(content, |targets|, k))
      {
        var isLast := i + 1 == |targets|;
        var own: Content;
        match content.Path() {
          case Some(path) => own := if isLast && moveIntent then FileToMove(path) else FileToCopy(path);
          case None => own := content;
        }
        commands := commands + [IntoCommand(targets[i], own)];
      }
    }
    SharesCarry(targets, content);
  }

  /** At most one command takes the source away, and it is the last in the queue. */
  lemma OneMover(commands: seq<DirectoryCommand>, targets: seq<Placement>, content: Content, i: nat)
    requires CarriesAll(commands, targets, content) && i < |commands|
    ensures (commands[i].CreateFile? || commands[i].ChangeFile?)
            && (commands[i].content.FileToMove? <==> content.FileToMove? && i == |commands| - 1)
            && forall files: Files :: commands[i].content.In(files) == content.In(files)
  {
    assert Carries(commands[i], targets[i], content, i + 1 == |targets|);
  }

  // ---- running the queue ----

  /** Where a queued command lands in its directory, and whether the directory tracks the file already. */
  datatype Job = Job(dest: Path, tracked: bool)

  /** A create is skipped in a directory that tracks the file. */
  predicate Skips(command: DirectoryCommand, job: Job) { command.CreateFile? && job.tracked }

  ghost predicate Bear(commands: seq<DirectoryCommand>) {
    forall i :: 0 <= i < |commands| ==> commands[i].CreateFile? || commands[i].ChangeFile?
  }

  /** Commands run in queue order, each placing the content it carries; one whose source is missing fails. */
  function RunJobs(files: Files, commands: seq<DirectoryCommand>, jobs: seq<Job>): Option<Files>
    requires |jobs| <= |commands| && forall i :: 0 <= i < |jobs| ==> commands[i].CreateFile? || commands[i].ChangeFile?
    decreases |jobs|
  {
    if jobs == [] then Some(files) else
    var k := |jobs| - 1;
    match RunJobs(files, commands, jobs[..k])
    case None => None
    case Some(before) =>
      if Skips(commands[k], jobs[k]) then Some(before) else Placed(before, commands[k].content, jobs[k].dest)
  }

  /** Placements land on distinct paths, none of them the source. */
  ghost predicate Separate(content: Content, jobs: seq<Job>) {
    (forall i, j :: 0 <= i < j < |jobs| ==> jobs[i].dest != jobs[j].dest)
    && forall i :: 0 <= i < |jobs| ==> content.Path() != Some(jobs[i].dest)
  }

  predicate Moved(content: Content, commands: seq<DirectoryCommand>, jobs: seq<Job>)
    requires |jobs| <= |commands|
  {
    var n := |commands|;
    content.FileToMove? && n > 0 && |jobs| == n && !Skips(commands[n - 1], jobs[n - 1])
  }

  ghost predicate Written(commands: seq<DirectoryCommand>, jobs: seq<Job>, path: Path)
    requires |jobs| <= |commands|
  {
    exists i :: 0 <= i < |jobs| && !Skips(commands[i], jobs[i]) && jobs[i].dest == path
  }

  /** What a path holds after the jobs: the content where one wrote, nothing at a moved source, else what it held. */
  ghost predicate PathAfter(files: Files, content: Content, commands: seq<DirectoryCommand>, jobs: seq<Job>,
                            after: Files, path: Path)
    requires content.In(files).Some? && |jobs| <= |commands|
  {
    if Written(commands, jobs, path) then path in after && after[path] == content.In(files).value
    else if Some(path) == content.Path() && Moved(content, commands, jobs) then path !in after
    else (path in after <==> path in files) && (path in files ==> path in after && after[path] == files[path])
  }

  lemma {:induction false} JobsDeliver(files: Files, content: Content, targets: seq<Placement>,
                                       commands: seq<DirectoryCommand>, jobs: seq<Job>)
    requires content.In(files).Some? && Separate(content, jobs) && |jobs| <= |commands|
    requires CarriesAll(commands, targets, content) && Bear(commands)
    ensures RunJobs(files, commands, jobs).Some?
    ensures forall path :: PathAfter(files, content, commands, jobs, RunJobs(files, commands, jobs).value, path)
    decreases |jobs|
  {
    if jobs == [] {
      assert forall path :: !Written(commands, jobs, path);
    } else {
      var k := |jobs| - 1;
      JobsDeliver(files, content, targets, commands, jobs[..k]);
      var before := RunJobs(files, commands, jobs[..k]).value;
      SourceStays(files, content, commands, jobs[..k], before);
      OneMover(commands, targets, content, k);
      assert Carries(commands[k], targets[k], content, k + 1 == |targets|);
      JobDelivers(files, content, commands, jobs, before);
    }
  }

  lemma JobDelivers(files: Files, content: Content, commands: seq<DirectoryCommand>, jobs: seq<Job>, before: Files)
    requires content.In(files).Some? && Separate(content, jobs) && 0 < |jobs| <= |commands| && Bear(commands)
    requires var k := |jobs| - 1;
             Passes(commands[k].content, content, k + 1 == |commands|)
             && content.In(before) == content.In(files)
             && (forall path :: PathAfter(files, content, commands, jobs[..k], before, path))
             && RunJobs(files, commands, jobs[..k]) == Some(before)
    ensures var after := RunJobs(files, commands, jobs);
            after.Some? && forall path :: PathAfter(files, content, commands, jobs, after.value, path)
  {
    var k := |jobs| - 1;
    if !Skips(commands[k], jobs[k]) { PlacedMeans(before, commands[k].content, jobs[k].dest); }
    var after := RunJobs(files, commands, jobs).value;
    forall path ensures PathAfter(files, content, commands, jobs, after, path) {
      assert PathAfter(files, content, commands, jobs[..k], before, path);
      WrittenNow(commands, jobs, path);
    }
  }

  /** While jobs remain the source has not been moved: a move is the last job. */
  lemma SourceStays(files: Files, content: Content, commands: seq<DirectoryCommand>, jobs: seq<Job>, after: Files)
    requires content.In(files).Some? && |jobs| < |commands| && Separate(content, jobs)
    requires forall path :: PathAfter(files, content, commands, jobs, after, path)
    ensures content.In(after) == content.In(files)
  {
    if content.Path().Some? {
      assert PathAfter(files, content, commands, jobs, after, content.Path().value);
    }
  }

  lemma WrittenNow(commands: seq<DirectoryCommand>, jobs: seq<Job>, path: Path)
    requires 0 < |jobs| <= |commands|
    ensures var k := |jobs| - 1;
            Written(commands, jobs, path) <==>
              Written(commands, jobs[..k], path) || (!Skips(commands[k], jobs[k]) && jobs[k].dest == path)
  {
    var k := |jobs| - 1;
    if Written(commands, jobs[..k], path) {
      var i :| 0 <= i < k && !Skips(commands[i], jobs[..k][i]) && jobs[..k][i].dest == path;
      assert jobs[i] == jobs[..k][i];
    }
    if Written(commands, jobs, path) {
      var i :| 0 <= i < |jobs| && !Skips(commands[i], jobs[i]) && jobs[i].dest == path;
      assert i < k ==> jobs[..k][i] == jobs[i];
    }
  }

  lemma CarriersBear(commands: seq<DirectoryCommand>, targets: seq<Placement>, content: Content)
    requires CarriesAll(commands, targets, content)
    ensures Bear(commands)
  {
    forall i | 0 <= i < |commands| ensures commands[i].CreateFile? || commands[i].ChangeFile? {
      assert Carries(commands[i], targets[i], content, i + 1 == |targets|);
    }
  }

  /**
   Fan-out is safe. Whatever the number of targets, none of the commands queued for them finds its source
   gone, every one that is run leaves the same bytes where it lands, and nothing else changes, except that
   the source goes away exactly when it was a move, there is a target, and the last one is not skipped.
   */
  lemma FanOutIsSafe(files: Files, content: Content, targets: seq<Placement>, commands: seq<DirectoryCommand>,
                     jobs: seq<Job>)
    requires CarriesAll(commands, targets, content) && |jobs| == |commands|
    requires content.In(files).Some? && Separate(content, jobs)
    ensures Bear(commands)
    ensures var n := |jobs|;
            var after := RunJobs(files, commands, jobs);
            after.Some?
            && (forall i :: 0 <= i < n && !(targets[i].CreateAt? && jobs[i].tracked) ==>
                  jobs[i].dest in after.value && after.value[jobs[i].dest] == content.In(files).value)
            && (content.Path().Some? ==>
                  (content.Path().value in after.value <==>
                     !(content.FileToMove? && n > 0 && !(targets[n - 1].CreateAt? && jobs[n - 1].tracked))))
            && (forall path :: Some(path) != content.Path() ==>
                  (exists i :: 0 <= i < n && !(targets[i].CreateAt? && jobs[i].tracked) && jobs[i].dest == path)
                  || ((path in after.value <==> path in files) && (path in files ==> after.value[path] == files[path])))
  {
    CarriersBear(commands, targets, content);
    JobsDeliver(files, content, targets, commands, jobs);
    var after := RunJobs(files, commands, jobs).value;
    forall i | 0 <= i < |jobs| ensures Skips(commands[i], jobs[i]) <==> targets[i].CreateAt? && jobs[i].tracked {
      assert Carries(commands[i], targets[i], content, i + 1 == |targets|);
    }
    forall i | 0 <= i < |jobs| && !Skips(commands[i], jobs[i])
      ensures jobs[i].dest in after && after[jobs[i].dest] == content.In(files).value
    {
      assert Written(commands, jobs, jobs[i].dest);
      assert PathAfter(files, content, commands, jobs, after, jobs[i].dest);
    }
    if content.Path().Some? {
      assert PathAfter(files, content, commands, jobs, after, content.Path().value);
    }
    forall path | !Written(commands, jobs, path) && Some(path) != content.Path()
      ensures (path in after <==> path in files) && (path in files ==> path in after && after[path] == files[path])
    {
      assert PathAfter(files, content, commands, jobs, after, path);
    }
  }

  /**
   The same bytes end up at every target exactly when every directory that skipped its create held
   them already: a create is skipped by file id, not by content.
   */
  lemma EveryTargetHolds(files: Files, content: Content, targets: seq<Placement>, commands: seq<DirectoryCommand>,
                         jobs: seq<Job>)
    requires CarriesAll(commands, targets, content) && |jobs| == |commands|
    requires content.In(files).Some? && Separate(content, jobs)
    ensures Bear(commands)
    ensures var after := RunJobs(files, commands, jobs);
            after.Some?
            && ((forall i :: 0 <= i < |jobs| ==>
                   jobs[i].dest in after.value && after.value[jobs[i].dest] == content.In(files).value)
                <==>
                (forall i :: 0 <= i < |jobs| && targets[i].CreateAt? && jobs[i].tracked ==>
                   jobs[i].dest in files && files[jobs[i].dest] == content.In(files).value))
  {
    FanOutIsSafe(files, content, targets, commands, jobs);
    var after := RunJobs(files, commands, jobs).value;
    forall i | 0 <= i < |jobs| && targets[i].CreateAt? && jobs[i].tracked
      ensures (jobs[i].dest in after <==> jobs[i].dest in files)
              && (jobs[i].dest in files ==> jobs[i].dest in after && after[jobs[i].dest] == files[jobs[i].dest])
    {
      assert Some(jobs[i].dest) != content.Path();
    }
  }

  /**
   A newer version of a known file is placed by changes when announced as a change, but by creates when
   announced as an addition, as a peer new to the file announces it; and creates are skipped wherever
   the file is tracked.
   */
  lemma AdditionsCreate(r: Record, change: Change, directories: seq<SyncDirectory>)
    requires change.Announces() && r.Live() && !r.purged
    requires r.Supersedes(change.observedAt) && r.NeedsTransfer(change.hash)
    ensures var outcome := Handle(r, change);
            outcome.pull.Some?
            && forall target <- Targets(directories, outcome.record, change.file, outcome.pull.value) ::
                 target.CreateAt? <==> change.Added?
  {
  }

  /** A directory that tracks the file keeps its old bytes, and the move meant to be consumed there stays behind. */
  lemma SkippedTargetIsStale(source: Path, dest: Path, older: Bytes, newer: Bytes, target: Placement)
    requires source != dest && older != newer && target.CreateAt?
    ensures var commands := Shares([target], FileToMove(source));
            Bear(commands)
            && RunJobs(map[source := newer, dest := older], commands, [Job(dest, true)])
               == Some(map[source := newer, dest := older])
  {
    var jobs := [Job(dest, true)];
    SharesCarry([target], FileToMove(source));
    CarriersBear(Shares([target], FileToMove(source)), [target], FileToMove(source));
    assert jobs[..0] == [];
  }
}
