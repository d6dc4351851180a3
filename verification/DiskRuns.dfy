/**
 What is on disk over whole runs. The writer's turns, arriving transfers, users and the directories'
 command queue interleave freely; this follows one file through every sync directory of a device, by the
 version number of the bytes each of them holds.
 */
module DiskRuns {
  import opened Types
  import opened Catalog
  import opened CatalogRuns
  import opened FileBytes
  import opened Placement
  import opened Outgoing
  import opened CatalogWriter

  /** Bytes as the catalog knows them: the number of a version of the file, and its hash. */
  datatype Held = Held(number: nat, hash: Hash)

  /** Which directories track the file, and with which bytes. */
  type Holdings = map<DirectoryPath, Held>

  /** A queued command, with the version its content is of. */
  datatype Queued = Queued(command: DirectoryCommand, bytes: Held)

  predicate Vault(directories: seq<SyncDirectory>, path: DirectoryPath) {
    exists d <- directories :: d.path == path && d.kind == Universal(true)
  }

  // ---- what the directories do with a command ----

  /** A re-placement on its way through the directories: the copy it works from, and whether it goes on. */
  datatype Replacing = Replacing(held: Holdings, source: Option<DirectoryPath>, ok: bool)

  function FirstHolder(directories: seq<SyncDirectory>, held: Holdings): Option<DirectoryPath> {
    if directories == [] then None
    else if directories[0].path in held then Some(directories[0].path)
    else FirstHolder(directories[1..], held)
  }

  /**
   The first `n` directories asked in turn: one that wants the file and lacks it copies the first holder
   found when a copy was first needed, one that holds it and no longer wants it drops it. When the copy
   found has been dropped since, the rest are not asked at all.
   */
  function Replaced(directories: seq<SyncDirectory>, n: nat, tags: set<TagId>, held: Holdings): Replacing
    requires n <= |directories|
  {
    if n == 0 then Replacing(held, None, true) else
    var s := Replaced(directories, n - 1, tags, held);
    var d := directories[n - 1];
    if !s.ok then s
    else if Wants(d, tags) && d.path !in s.held then
      var source := if s.source.Some? then s.source else FirstHolder(directories, s.held);
      if source.None? then s
      else if source.value !in s.held then Replacing(s.held, source, false)
      else Replacing(s.held[d.path := s.held[source.value]], source, true)
    else if !Wants(d, tags) && d.path in s.held then Replacing(s.held - {d.path}, s.source, true)
    else s
  }

  /** A create is skipped where the file is tracked; a vault ignores removals. */
  function Executed(directories: seq<SyncDirectory>, file: FileId, held: Holdings, q: Queued): Holdings {
    match q.command
    case CreateFile(id, _, _, directory) =>
      if id != file || directory in held then held else held[directory := q.bytes]
    case ChangeFile(id, _, _, directory) => if id != file then held else held[directory := q.bytes]
    case MoveFile(_, _, _) => held
    case RemoveFile(id, directory) => if id != file || Vault(directories, directory) then held else held - {directory}
    case ApplyPlacement(id, _, tags) =>
      if id != file then held else Replaced(directories, |directories|, tags, held).held
  }

  function Drained(directories: seq<SyncDirectory>, file: FileId, held: Holdings, queue: seq<Queued>): Holdings
    decreases |queue|
  {
    if queue == [] then held else
    var n := |queue| - 1;
    Executed(directories, file, Drained(directories, file, held, queue[..n]), queue[n])
  }

  lemma {:induction false} DrainedAppends(directories: seq<SyncDirectory>, file: FileId, held: Holdings,
                                          queue: seq<Queued>, more: seq<Queued>)
    ensures Drained(directories, file, held, queue + more)
         == Drained(directories, file, Drained(directories, file, held, queue), more)
    decreases |more|
  {
    if more == [] {
      assert queue + more == queue;
    } else {
      var n := |more| - 1;
      assert (queue + more)[..|queue + more| - 1] == queue + more[..n];
      DrainedAppends(directories, file, held, queue, more[..n]);
    }
  }

  // ---- events ----

  datatype Disk = Disk(r: Record, held: Holdings, queue: seq<Queued>)

  /** A turn of the writer, bytes arriving over a transfer, the next queued command, or a user removing the file. */
  datatype Event =
    | Turn(command: Command, origin: Origin, content: Content)
    | Arrive(content: Content, hash: Hash, placing: Placing)
    | Execute
    | UserRemoves(directory: DirectoryPath)

  function LatestBytes(r: Record): Held {
    Held(|r.versions|, if r.versions == [] then "" else r.Latest().value.hash)
  }

  /** The directory whose own bytes a report of new or edited content is about. */
  function Reported(directories: seq<SyncDirectory>, r: Record, command: Command,
                    origin: Origin): Option<DirectoryPath> {
    if origin.Peer? then None
    else if command.DirectoryEdit? then Some(origin.directory)
    else if command.DirectoryAdd?
            && (r.row.Some? || exists d <- directories :: d.path == origin.directory && d.kind.TagBased?)
    then Some(origin.directory)
    else None
  }

  /** After a report a directory holds what it reported, but for a new file of a universal one: it has no id yet. */
  lemma ReportHolds(directories: seq<SyncDirectory>, file: FileId, s: Disk, command: Command, d: SyncDirectory,
                    content: Content)
    requires DistinctPaths(directories) && d in directories && (command.DirectoryAdd? || command.DirectoryEdit?)
    ensures var next := Happen(directories, file, s, Turn(command, Local(d.path), content));
            var n := |next.r.versions|;
            if command.DirectoryAdd? && s.r.row.None? && d.kind.Universal? then next.held == s.held
            else next.held == s.held[d.path := Held(n, if n == 0 then "" else next.r.versions[n - 1].hash)]
  {
    if x :| x in directories && x.path == d.path && x.kind.TagBased? {
      var i :| 0 <= i < |directories| && directories[i] == x;
      var j :| 0 <= j < |directories| && directories[j] == d;
      assert i == j;
    }
  }

  function Queue(commands: seq<DirectoryCommand>, bytes: Held): seq<Queued> {
    seq(|commands|, i requires 0 <= i < |commands| => Queued(commands[i], bytes))
  }

  function Happen(directories: seq<SyncDirectory>, file: FileId, s: Disk, event: Event): Disk {
    match event
    case Turn(command, origin, content) =>
      var after := Step(s.r, command);
      var reported := Reported(directories, s.r, command, origin);
      Disk(after,
           if reported.Some? then s.held[reported.value := LatestBytes(after)] else s.held,
           s.queue + Queue(Directed(directories, s.r, file, command, origin, content), LatestBytes(after)))
    case Arrive(content, hash, placing) =>
      if !Current(s.r, hash) then s else
      s.(queue :=
        s.queue + Queue(Shares(Targets(directories, s.r, file, placing), content), Held(|s.r.versions|, hash)))
    case Execute =>
      if s.queue == [] then s
      else s.(held := Executed(directories, file, s.held, s.queue[0]), queue := s.queue[1..])
    case UserRemoves(directory) => s.(held := s.held - {directory})
  }

  function History(directories: seq<SyncDirectory>, file: FileId, s: Disk, events: seq<Event>): Disk
    decreases |events|
  {
    if events == [] then s else
    var n := |events| - 1;
    Happen(directories, file, History(directories, file, s, events[..n]), events[n])
  }

  // ---- bytes never regress ----

  predicate Places(q: Queued, file: FileId) {
    (q.command.CreateFile? || q.command.ChangeFile?) && q.command.file == file
  }

  /** The bytes are what the catalog recorded under that number. */
  predicate Genuine(r: Record, bytes: Held) {
    bytes.number <= |r.versions| && (bytes.number > 0 ==> r.versions[bytes.number - 1].hash == bytes.hash)
  }

  /** What is queued is in version order and no older than what is held, and all of it is what it says it is. */
  ghost predicate InOrder(file: FileId, s: Disk) {
    Clean(s.r)
    && (forall i, j :: 0 <= i < j < |s.queue| && Places(s.queue[i], file) && Places(s.queue[j], file) ==>
                         s.queue[i].bytes.number <= s.queue[j].bytes.number)
    && (forall d, i :: d in s.held && 0 <= i < |s.queue| && Places(s.queue[i], file) ==>
                         s.held[d].number <= s.queue[i].bytes.number)
    && (!s.r.purged ==>
          (forall i :: 0 <= i < |s.queue| && Places(s.queue[i], file) ==> Genuine(s.r, s.queue[i].bytes))
          && forall d <- s.held :: Genuine(s.r, s.held[d]))
  }

  /** A directory reports content while an older version is still queued, for it or another. */
  ghost predicate Disturbs(directories: seq<SyncDirectory>, file: FileId, s: Disk, event: Event) {
    event.Turn? && Reported(directories, s.r, event.command, event.origin).Some?
    && exists q <- s.queue :: Places(q, file) && q.bytes.number < |Step(s.r, event.command).versions|
  }

  /** Content ingested of a purged file. */
  predicate Ingests(s: Disk, event: Event) { event.Turn? && LocalIngest(event.command) && s.r.purged }

  lemma {:induction false} ReplacedCopies(directories: seq<SyncDirectory>, n: nat, tags: set<TagId>, held: Holdings,
                                          path: DirectoryPath)
    requires n <= |directories| && DistinctPaths(directories)
    ensures var after := Replaced(directories, n, tags, held).held;
            (path in after ==> exists other :: other in held && after[path] == held[other])
            && (path in after && path in held ==> after[path] == held[path])
            && ((forall i :: 0 <= i < n ==> directories[i].path != path) ==>
                  (path in after <==> path in held))
  {
    if n > 0 {
      var s, d := Replaced(directories, n - 1, tags, held), directories[n - 1];
      ReplacedCopies(directories, n - 1, tags, held, path);
      var source := if s.source.Some? then s.source else FirstHolder(directories, s.held);
      if s.ok && Wants(d, tags) && d.path !in s.held && source.Some? && source.value in s.held {
        ReplacedCopies(directories, n - 1, tags, held, source.value);
      }
    }
  }

  /** Running the next command takes no directory back, and leaves only bytes that were held or in the command. */
  lemma ExecutedCopies(directories: seq<SyncDirectory>, file: FileId, held: Holdings, q: Queued, path: DirectoryPath)
    requires DistinctPaths(directories) && path in Executed(directories, file, held, q)
    ensures var after := Executed(directories, file, held, q);
            (Places(q, file) && after[path] == q.bytes) || exists other :: other in held && after[path] == held[other]
    ensures path in held && !Places(q, file) ==> Executed(directories, file, held, q)[path] == held[path]
  {
    if q.command.ApplyPlacement? { ReplacedCopies(directories, |directories|, q.command.tags, held, path); }
  }

  /** Only content ingested here makes a turn of the writer place bytes. */
  lemma DirectedPlaces(directories: seq<SyncDirectory>, r: Record, file: FileId, command: Command, origin: Origin,
                       content: Content, i: nat)
    requires i < |Directed(directories, r, file, command, origin, content)|
    ensures var c := Directed(directories, r, file, command, origin, content)[i];
            c.CreateFile? || c.ChangeFile? ==> LocalIngest(command)
  {
  }

  /** A chain never loses or changes a version unless the file is purged. */
  lemma ChainKept(r: Record, command: Command)
    requires Clean(r) && (LocalIngest(command) ==> !r.purged)
    ensures var after := Step(r, command);
            Clean(after) && (r.purged ==> after.purged) && (!after.purged ==> r.versions <= after.versions)
    ensures LocalIngest(command) ==> !Step(r, command).purged
  {
    PurgeOutranksStep(r, command);
    ChainGrows(r, command);
    match command
    case DirectoryAdd(path, pathAt, version, tagStamps) =>
      TagEachKeeps(r.AddFile(path, pathAt).RecordVersion(version), tagStamps);
    case UploadNew(path, pathAt, version, tags) => TagAllKeeps(r.AddFile(path, pathAt), tags, pathAt);
    case Meta(change) =>
      if change.Added? { TagAllKeeps(r.AddFile(change.path, change.pathAt), change.tags, change.pathAt); }
    case _ =>
  }

  lemma GenuineKept(r: Record, after: Record, bytes: Held)
    requires Genuine(r, bytes) && r.versions <= after.versions
    ensures Genuine(after, bytes)
  {
  }

  /** Queueing bytes at least as new as everything held or queued keeps the order. */
  lemma AppendInOrder(file: FileId, s: Disk, r: Record, more: seq<Queued>, bytes: Held)
    requires InOrder(file, s) && Clean(r) && (s.r.purged ==> r.purged) && (!r.purged ==> s.r.versions <= r.versions)
    requires forall q <- more :: q.bytes == bytes && (Places(q, file) ==> !r.purged)
    requires !r.purged ==> Genuine(r, bytes) && bytes.number == |r.versions|
    ensures InOrder(file, Disk(r, s.held, s.queue + more))
  {
    var next := Disk(r, s.held, s.queue + more);
    forall i | 0 <= i < |next.queue| && Places(next.queue[i], file) && !r.purged
      ensures Genuine(r, next.queue[i].bytes)
    {
      if i < |s.queue| { GenuineKept(s.r, r, s.queue[i].bytes); } else { assert next.queue[i] in more; }
    }
    forall d | d in s.held && !r.purged ensures Genuine(r, s.held[d]) {
      GenuineKept(s.r, r, s.held[d]);
    }
    forall i | |s.queue| <= i < |next.queue| ensures next.queue[i] in more {
      assert next.queue[i] == more[i - |s.queue|];
    }
  }

  /** A report keeps the order exactly when nothing older is still queued. */
  lemma ReportInOrder(file: FileId, s: Disk, directory: DirectoryPath)
    requires InOrder(file, s) && !s.r.purged
    ensures InOrder(file, s.(held := s.held[directory := LatestBytes(s.r)]))
       <==> forall q <- s.queue :: Places(q, file) ==> q.bytes.number >= |s.r.versions|
  {
    var next := s.(held := s.held[directory := LatestBytes(s.r)]);
    if InOrder(file, next) {
      forall q | q in s.queue && Places(q, file) ensures q.bytes.number >= |s.r.versions| {
        var i :| 0 <= i < |s.queue| && s.queue[i] == q;
        assert next.held[directory].number <= next.queue[i].bytes.number;
      }
    }
    assert forall i :: 0 <= i < |s.queue| ==> s.queue[i] in s.queue;
  }

  lemma ExecuteInOrder(directories: seq<SyncDirectory>, file: FileId, s: Disk)
    requires DistinctPaths(directories) && InOrder(file, s) && s.queue != []
    ensures InOrder(file, Happen(directories, file, s, Execute))
  {
    var q, next := s.queue[0], Happen(directories, file, s, Execute);
    forall d | d in next.held
      ensures forall i :: 0 <= i < |next.queue| && Places(next.queue[i], file) ==>
                            next.held[d].number <= next.queue[i].bytes.number
      ensures !next.r.purged ==> Genuine(next.r, next.held[d])
    {
      ExecutedCopies(directories, file, s.held, q, d);
      assert forall i :: 0 <= i < |next.queue| ==> next.queue[i] == s.queue[i + 1];
    }
  }

  lemma TurnInOrder(directories: seq<SyncDirectory>, file: FileId, s: Disk, event: Event)
    requires event.Turn? && InOrder(file, s) && !Ingests(s, event)
    ensures InOrder(file, Happen(directories, file, s, event)) <==> !Disturbs(directories, file, s, event)
  {
    var Turn(command, origin, content) := event;
    var after := Step(s.r, command);
    var more := Queue(Directed(directories, s.r, file, command, origin, content), LatestBytes(after));
    ChainKept(s.r, command);
    forall q | q in more ensures q.bytes == LatestBytes(after) && (Places(q, file) ==> !after.purged) {
      var i :| 0 <= i < |more| && more[i] == q;
      DirectedPlaces(directories, s.r, file, command, origin, content, i);
    }
    AppendInOrder(file, s, after, more, LatestBytes(after));
    var reported := Reported(directories, s.r, command, origin);
    if reported.Some? {
      var queued := Disk(after, s.held, s.queue + more);
      ReportInOrder(file, queued, reported.value);
      assert forall q <- queued.queue :: q in s.queue || q in more;
      assert forall q <- s.queue :: q in queued.queue;
    }
  }

  /**
   The step law, both ways: what is held and queued stays in version order, and is what the catalog
   says it is, under any event but a report of content made while older content is still queued.
   */
  lemma StaysInOrder(directories: seq<SyncDirectory>, file: FileId, s: Disk, event: Event)
    requires DistinctPaths(directories) && InOrder(file, s) && !Ingests(s, event)
    ensures InOrder(file, Happen(directories, file, s, event)) <==> !Disturbs(directories, file, s, event)
  {
    match event
    case Turn(_, _, _) => TurnInOrder(directories, file, s, event);
    case Arrive(content, hash, placing) =>
      if Current(s.r, hash) {
        var more := Queue(Shares(Targets(directories, s.r, file, placing), content), Held(|s.r.versions|, hash));
        AppendInOrder(file, s, s.r, more, Held(|s.r.versions|, hash));
      }
    case Execute => if s.queue != [] { ExecuteInOrder(directories, file, s); }
    case UserRemoves(_) =>
  }

  /** No event makes a directory that keeps the file fall back to an older version. */
  lemma StepNeverRegresses(directories: seq<SyncDirectory>, file: FileId, s: Disk, event: Event, d: DirectoryPath)
    requires DistinctPaths(directories) && InOrder(file, s) && !Ingests(s, event)
    requires d in s.held && d in Happen(directories, file, s, event).held
    ensures s.held[d].number <= Happen(directories, file, s, event).held[d].number
  {
    match event
    case Turn(command, origin, _) =>
      ChainKept(s.r, command);
      ReportedIngests(directories, s.r, command, origin);
    case Execute => if s.queue != [] { ExecutedCopies(directories, file, s.held, s.queue[0], d); }
    case _ =>
  }

  lemma ReportedIngests(directories: seq<SyncDirectory>, r: Record, command: Command, origin: Origin)
    ensures Reported(directories, r, command, origin).Some? ==> LocalIngest(command)
  {
  }

  /** No ingest after a purge, and no report while older content is queued. */
  ghost predicate Tidy(directories: seq<SyncDirectory>, file: FileId, s: Disk, events: seq<Event>) {
    forall i :: 0 <= i < |events| ==> TidyAt(directories, file, s, events, i)
  }

  ghost predicate TidyAt(directories: seq<SyncDirectory>, file: FileId, s: Disk, events: seq<Event>, i: nat)
    requires i < |events|
  {
    var before := History(directories, file, s, events[..i]);
    !Ingests(before, events[i]) && !Disturbs(directories, file, before, events[i])
  }

  lemma TidyPrefix(directories: seq<SyncDirectory>, file: FileId, s: Disk, events: seq<Event>, n: nat)
    requires Tidy(directories, file, s, events) && n <= |events|
    ensures Tidy(directories, file, s, events[..n])
  {
    forall i | 0 <= i < n ensures TidyAt(directories, file, s, events[..n], i) {
      assert TidyAt(directories, file, s, events, i) && events[..n][..i] == events[..i];
    }
  }

  lemma {:induction false} RunInOrder(directories: seq<SyncDirectory>, file: FileId, s: Disk, events: seq<Event>)
    requires DistinctPaths(directories) && InOrder(file, s) && Tidy(directories, file, s, events)
    ensures InOrder(file, History(directories, file, s, events))
    decreases |events|
  {
    if events != [] {
      var n := |events| - 1;
      TidyPrefix(directories, file, s, events, n);
      assert TidyAt(directories, file, s, events, n);
      RunInOrder(directories, file, s, events[..n]);
      StaysInOrder(directories, file, History(directories, file, s, events[..n]), events[n]);
    }
  }

  /**
   Late bytes never regress disk. However late transfers finish and whatever else happens, at every step
   a directory that keeps the file keeps or raises the version it holds; and at the end everything held
   and queued is the content recorded under its number.
   */
  lemma LateBytesNeverRegress(directories: seq<SyncDirectory>, file: FileId, s: Disk, events: seq<Event>, i: nat,
                              d: DirectoryPath)
    requires DistinctPaths(directories) && InOrder(file, s) && Tidy(directories, file, s, events) && i < |events|
    ensures InOrder(file, History(directories, file, s, events))
    ensures var before := History(directories, file, s, events[..i]);
            var after := History(directories, file, s, events[..i + 1]);
            d in before.held && d in after.held ==> before.held[d].number <= after.held[d].number
  {
    RunInOrder(directories, file, s, events);
    TidyPrefix(directories, file, s, events, i);
    assert TidyAt(directories, file, s, events, i);
    RunInOrder(directories, file, s, events[..i]);
    var before, after := History(directories, file, s, events[..i]), History(directories, file, s, events[..i + 1]);
    assert events[..i + 1][..i] == events[..i];
    if d in before.held && d in after.held {
      StepNeverRegresses(directories, file, before, events[i], d);
    }
  }

  // ---- what a transfer placed is a version of the chain ----

  ghost predicate Orderly(directories: seq<SyncDirectory>, file: FileId, s: Disk, events: seq<Event>) {
    forall i :: 0 <= i < |events| ==> OrderlyAt(directories, file, s, events, i)
  }

  ghost predicate OrderlyAt(directories: seq<SyncDirectory>, file: FileId, s: Disk, events: seq<Event>, i: nat)
    requires i < |events|
  {
    !Ingests(History(directories, file, s, events[..i]), events[i])
  }

  lemma OrderlyPrefix(directories: seq<SyncDirectory>, file: FileId, s: Disk, events: seq<Event>, n: nat)
    requires Orderly(directories, file, s, events) && n <= |events|
    ensures Orderly(directories, file, s, events[..n])
  {
    forall i | 0 <= i < n ensures OrderlyAt(directories, file, s, events[..n], i) {
      assert OrderlyAt(directories, file, s, events, i) && events[..n][..i] == events[..i];
    }
  }

  /** The later record keeps the earlier one's versions, unless the file was purged in between. */
  predicate Grown(before: Record, after: Record) {
    Clean(before) && Clean(after) && (before.purged ==> after.purged)
    && (!after.purged ==> before.versions <= after.versions)
  }

  lemma StepGrows(directories: seq<SyncDirectory>, file: FileId, s: Disk, event: Event)
    requires Clean(s.r) && !Ingests(s, event)
    ensures Grown(s.r, Happen(directories, file, s, event).r)
  {
    if event.Turn? { ChainKept(s.r, event.command); }
  }

  lemma GrownOnwards(a: Record, b: Record, c: Record)
    requires Grown(a, b) && Grown(b, c)
    ensures Grown(a, c)
  {
  }

  lemma LastGrows(directories: seq<SyncDirectory>, file: FileId, s: Disk, events: seq<Event>)
    requires events != [] && Orderly(directories, file, s, events)
    requires Clean(History(directories, file, s, events[..|events| - 1]).r)
    ensures Grown(History(directories, file, s, events[..|events| - 1]).r, History(directories, file, s, events).r)
  {
    assert OrderlyAt(directories, file, s, events, |events| - 1);
    StepGrows(directories, file, History(directories, file, s, events[..|events| - 1]), events[|events| - 1]);
  }

  lemma {:induction false} RunGrows(directories: seq<SyncDirectory>, file: FileId, s: Disk, events: seq<Event>, i: nat)
    requires Clean(s.r) && i <= |events| && Orderly(directories, file, s, events)
    ensures Grown(History(directories, file, s, events[..i]).r, History(directories, file, s, events).r)
    decreases |events|
  {
    if i < |events| {
      var n := |events| - 1;
      OrderlyPrefix(directories, file, s, events, n);
      assert events[..n][..i] == events[..i];
      RunGrows(directories, file, s, events[..n], i);
      LastGrows(directories, file, s, events);
      GrownOnwards(History(directories, file, s, events[..i]).r, History(directories, file, s, events[..n]).r,
                   History(directories, file, s, events).r);
    } else {
      assert events[..i] == events;
      StaysClean(directories, file, s, events);
    }
  }

  lemma {:induction false} StaysClean(directories: seq<SyncDirectory>, file: FileId, s: Disk, events: seq<Event>)
    requires Clean(s.r) && Orderly(directories, file, s, events)
    ensures Clean(History(directories, file, s, events).r)
    decreases |events|
  {
    if events != [] {
      var n := |events| - 1;
      OrderlyPrefix(directories, file, s, events, n);
      StaysClean(directories, file, s, events[..n]);
      LastGrows(directories, file, s, events);
    }
  }

  /**
   The bytes a transfer gets placed are, in the catalog as it is at the end, the version numbered by the
   chain when they arrived, and later arrivals never have a smaller number.
   */
  lemma ArrivedIsVersion(directories: seq<SyncDirectory>, file: FileId, s: Disk, events: seq<Event>, i: nat, j: nat)
    requires Clean(s.r) && i <= j < |events| && Orderly(directories, file, s, events)
    requires events[i].Arrive? && Current(History(directories, file, s, events[..i]).r, events[i].hash)
    requires !History(directories, file, s, events).r.purged
    ensures var n := |History(directories, file, s, events[..i]).r.versions|;
            var final := History(directories, file, s, events).r.versions;
            (n > 0 ==> n <= |final| && final[n - 1].hash == events[i].hash)
            && n <= |History(directories, file, s, events[..j]).r.versions|
  {
    GrowsBetween(directories, file, s, events, i, j);
    GrowsBetween(directories, file, s, events, i, |events|);
    GrowsBetween(directories, file, s, events, j, |events|);
    assert events[..|events|] == events;
  }

  lemma GrowsBetween(directories: seq<SyncDirectory>, file: FileId, s: Disk, events: seq<Event>, i: nat, j: nat)
    requires Clean(s.r) && i <= j <= |events| && Orderly(directories, file, s, events)
    ensures Grown(History(directories, file, s, events[..i]).r, History(directories, file, s, events[..j]).r)
  {
    OrderlyPrefix(directories, file, s, events, j);
    assert events[..j][..i] == events[..i];
    RunGrows(directories, file, s, events[..j], i);
  }

  // ---- when the latest version is reached ----

  /** Bytes put in the first directories of a list, over what they hold or only where they hold nothing. */
  function Spread(held: Holdings, directories: seq<SyncDirectory>, bytes: Held, over: bool): Holdings
    decreases |directories|
  {
    if directories == [] then held else
    var n := |directories| - 1;
    var before := Spread(held, directories[..n], bytes, over);
    if !over && directories[n].path in before then before else before[directories[n].path := bytes]
  }

  lemma {:induction false} SpreadIs(held: Holdings, directories: seq<SyncDirectory>, bytes: Held, over: bool,
                                    d: DirectoryPath)
    requires DistinctPaths(directories)
    ensures var after := Spread(held, directories, bytes, over);
            var named := exists other <- directories :: other.path == d;
            if named && (over || d !in held) then d in after && after[d] == bytes
            else (d in after <==> d in held) && (d in held ==> d in after && after[d] == held[d])
    decreases |directories|
  {
    if directories != [] {
      var n := |directories| - 1;
      SpreadIs(held, directories[..n], bytes, over, d);
      assert directories == directories[..n] + [directories[n]];
    }
  }

  /** The commands, in order, hand the file's bytes to each of the directories, all by creates or all by changes. */
  ghost predicate Hands(commands: seq<DirectoryCommand>, targets: seq<SyncDirectory>, file: FileId, over: bool) {
    |commands| == |targets|
    && forall i :: 0 <= i < |commands| ==>
         commands[i].file == file
         && (if over then commands[i].ChangeFile? && commands[i].directory == targets[i].path
             else commands[i].CreateFile? && commands[i].directory == targets[i].path)
  }

  lemma {:induction false} HandsRun(directories: seq<SyncDirectory>, file: FileId, held: Holdings,
                                    commands: seq<DirectoryCommand>, targets: seq<SyncDirectory>, bytes: Held,
                                    over: bool)
    requires Hands(commands, targets, file, over)
    ensures Drained(directories, file, held, Queue(commands, bytes)) == Spread(held, targets, bytes, over)
    decreases |commands|
  {
    if commands != [] {
      var n := |commands| - 1;
      assert Queue(commands, bytes)[..n] == Queue(commands[..n], bytes);
      HandsRun(directories, file, held, commands[..n], targets[..n], bytes, over);
    }
  }

  /** The tags a placement goes by. */
  function PlacingTags(r: Record, placing: Placing): set<TagId> {
    if placing.Create? then Tags(placing.tags) + r.LiveTags() else r.LiveTags()
  }

  lemma TargetsHand(directories: seq<SyncDirectory>, r: Record, file: FileId, placing: Placing, content: Content)
    requires r.Live()
    ensures Hands(Shares(Targets(directories, r, file, placing), content),
                  Matching(directories, if placing.Create? then ANYWHERE else LOCAL_ORIGIN, PlacingTags(r, placing)),
                  file, placing.Overwrite?)
  {
  }

  /**
   Exactly when a version reaches a directory. Once the queue has drained after current bytes arrived, a
   directory that wants them ends at the latest version if they were placed by a change, or it would not
   have tracked the file, or was there already; else it keeps exactly what it had. Other directories are
   not touched.
   */
  lemma ArrivalReaches(directories: seq<SyncDirectory>, file: FileId, s: Disk, content: Content, hash: Hash,
                       placing: Placing, d: SyncDirectory)
    requires DistinctPaths(directories) && d in directories && d.path != "" && Current(s.r, hash)
    ensures var before := Drained(directories, file, s.held, s.queue);
            var next := Happen(directories, file, s, Arrive(content, hash, placing));
            var after := Drained(directories, file, next.held, next.queue);
            var latest := Held(|s.r.versions|, hash);
            if Wants(d, PlacingTags(s.r, placing)) then
              d.path in after
              && (after[d.path] == latest
                  <==> placing.Overwrite? || d.path !in before || before[d.path] == latest)
              && (after[d.path] == latest || (d.path in before && after[d.path] == before[d.path]))
            else (d.path in after <==> d.path in before) && (d.path in before ==> after[d.path] == before[d.path])
  {
    var latest := Held(|s.r.versions|, hash);
    var before := Drained(directories, file, s.held, s.queue);
    var targets := Matching(directories, if placing.Create? then ANYWHERE else LOCAL_ORIGIN, PlacingTags(s.r, placing));
    ArrivalSpreads(directories, file, s, content, hash, placing);
    MatchingIsDistinct(directories, if placing.Create? then ANYWHERE else LOCAL_ORIGIN, PlacingTags(s.r, placing));
    SpreadIs(before, targets, latest, placing.Overwrite?, d.path);
    MatchingNames(directories, if placing.Create? then ANYWHERE else LOCAL_ORIGIN, PlacingTags(s.r, placing), d);
  }

  lemma ArrivalSpreads(directories: seq<SyncDirectory>, file: FileId, s: Disk, content: Content, hash: Hash,
                       placing: Placing)
    requires Current(s.r, hash)
    ensures var next := Happen(directories, file, s, Arrive(content, hash, placing));
            var origin := if placing.Create? then ANYWHERE else LOCAL_ORIGIN;
            var targets := Matching(directories, origin, PlacingTags(s.r, placing));
            Drained(directories, file, next.held, next.queue)
              == Spread(Drained(directories, file, s.held, s.queue), targets, Held(|s.r.versions|, hash),
                        placing.Overwrite?)
  {
    var commands := Shares(Targets(directories, s.r, file, placing), content);
    var latest := Held(|s.r.versions|, hash);
    DrainedAppends(directories, file, s.held, s.queue, Queue(commands, latest));
    TargetsHand(directories, s.r, file, placing, content);
    HandsRun(directories, file, Drained(directories, file, s.held, s.queue), commands,
             Matching(directories, if placing.Create? then ANYWHERE else LOCAL_ORIGIN, PlacingTags(s.r, placing)),
             latest, placing.Overwrite?);
  }

  lemma MatchingNames(directories: seq<SyncDirectory>, origin: Origin, tags: set<TagId>, d: SyncDirectory)
    requires DistinctPaths(directories) && d in directories
    ensures (exists other <- Matching(directories, origin, tags) :: other.path == d.path) <==>
              !FromHere(d, origin) && Wants(d, tags)
  {
    MatchingIsExact(directories, origin, tags, d);
    forall other | other in Matching(directories, origin, tags) && other.path == d.path ensures other == d {
      MatchingIsExact(directories, origin, tags, other);
    }
  }

  // ---- the runs the conditions exclude ----

  lemma HistoryOfOne(directories: seq<SyncDirectory>, file: FileId, s: Disk, a: Event)
    ensures History(directories, file, s, [a]) == Happen(directories, file, s, a)
  {
    assert [a][..0] == [];
  }

  lemma HistoryOfTwo(directories: seq<SyncDirectory>, file: FileId, s: Disk, a: Event, b: Event)
    ensures History(directories, file, s, [a, b])
         == Happen(directories, file, Happen(directories, file, s, a), b)
  {
    assert [a, b][..1] == [a];
    HistoryOfOne(directories, file, s, a);
  }

  /** A newer version arriving as an addition leaves a directory that tracks the file at the older one for good. */
  lemma AdditionLeavesOlder(file: FileId, path: LogicalPath, content: Content)
    ensures var d := SyncDirectory("d", Universal(false));
            var r := Record(Some(Row(path, 1, false, 0, 0)), [Version("a", 1, 1), Version("b", 1, 2)], map[], false);
            var final := History([d], file, Disk(r, map["d" := Held(1, "a")], []),
                                 [Arrive(content, "b", Create(path, [])), Execute]);
            final.queue == [] && final.held == map["d" := Held(1, "a")]
  {
    var d := SyncDirectory("d", Universal(false));
    var r := Record(Some(Row(path, 1, false, 0, 0)), [Version("a", 1, 1), Version("b", 1, 2)], map[], false);
    var s, arrive := Disk(r, map["d" := Held(1, "a")], []), Arrive(content, "b", Create(path, []));
    HistoryOfTwo([d], file, s, arrive, Execute);
    var tags := Tags([]) + r.LiveTags();
    assert [d][..0] == [] && Matching([d], ANYWHERE, tags) == [d];
    var more := Shares(Targets([d], r, file, Create(path, [])), content);
    assert |more| == 1 && more[0].CreateFile? && more[0].directory == "d";
    assert Happen([d], file, s, arrive).queue == [Queued(more[0], Held(2, "b"))];
  }

  /** An edit reported while an older change is still queued for its directory is overwritten by that change. */
  lemma EditIsOverwritten(file: FileId, path: LogicalPath, content: Content)
    ensures var d := SyncDirectory("d", Universal(false));
            var r := Record(Some(Row(path, 1, false, 0, 0)), [Version("a", 1, 1)], map[], false);
            var change := Queued(ChangeFile(file, path, content, "d"), Held(1, "a"));
            var final := History([d], file, Disk(r, map["d" := Held(1, "a")], [change]),
                                 [Turn(DirectoryEdit(Version("b", 1, 2)), Local("d"), content), Execute]);
            final.queue == [] && final.r.Latest() == Some(Version("b", 1, 2)) && final.held == map["d" := Held(1, "a")]
  {
    var d := SyncDirectory("d", Universal(false));
    var r := Record(Some(Row(path, 1, false, 0, 0)), [Version("a", 1, 1)], map[], false);
    var change := Queued(ChangeFile(file, path, content, "d"), Held(1, "a"));
    var edit := Turn(DirectoryEdit(Version("b", 1, 2)), Local("d"), content);
    var s := Disk(r, map["d" := Held(1, "a")], [change]);
    HistoryOfTwo([d], file, s, edit, Execute);
    EditIsTaken(file, path, content, s);
    assert Executed([d], file, map["d" := Held(2, "b")], change) == map["d" := Held(1, "a")];
  }

  lemma EditIsTaken(file: FileId, path: LogicalPath, content: Content, s: Disk)
    requires s.r == Record(Some(Row(path, 1, false, 0, 0)), [Version("a", 1, 1)], map[], false)
    requires s.held == map["d" := Held(1, "a")]
    ensures var next := Happen([SyncDirectory("d", Universal(false))], file, s,
                               Turn(DirectoryEdit(Version("b", 1, 2)), Local("d"), content));
            next == Disk(next.r, map["d" := Held(2, "b")], s.queue) && next.r.Latest() == Some(Version("b", 1, 2))
  {
    var d := SyncDirectory("d", Universal(false));
    assert [d][..0] == [] && Matching([d], Local("d"), Step(s.r, DirectoryEdit(Version("b", 1, 2))).LiveTags()) == [];
  }

  /**
   A re-placement can drop the copy it works from: a directory asked before the one that gives the file
   up gets it, one asked after is left without although it wants it.
   */
  lemma ReplacementLosesItsCopy(file: FileId, path: LogicalPath, bytes: Held)
    ensures var first := SyncDirectory("a", Universal(false));
            var giving := SyncDirectory("b", TagBased([1]));
            var last := SyncDirectory("c", Universal(false));
            var q := Queued(ApplyPlacement(file, path, {}), bytes);
            Executed([first, giving, last], file, map["b" := bytes], q) == map["a" := bytes]
  {
    var a, b := SyncDirectory("a", Universal(false)), SyncDirectory("b", TagBased([1]));
    var all := [a, b, SyncDirectory("c", Universal(false))];
    var held := map["b" := bytes];
    assert FirstHolder(all, held) == FirstHolder(all[1..], held) == Some("b");
    assert Replaced(all, 0, {}, held) == Replacing(held, None, true);
    assert Replaced(all, 1, {}, held) == Replacing(held["a" := bytes], Some("b"), true);
    assert 1 in [1] && !Wants(all[1], {});
    assert Replaced(all, 2, {}, held).held == map["a" := bytes];
    assert Replaced(all, 2, {}, held) == Replacing(map["a" := bytes], Some("b"), true);
    assert Replaced(all, 3, {}, held) == Replacing(map["a" := bytes], Some("b"), false);
  }

  // ---- bytes of the dead ----

  /** Whether a directory may end up with the file: it holds or is to be given it, and is not told to drop it after. */
  function MayHoldAfter(held: bool, c: DirectoryCommand, file: FileId, d: SyncDirectory): bool {
    if c.file != file then held else
    match c
    case CreateFile(_, _, _, directory) => held || directory == d.path
    case ChangeFile(_, _, _, directory) => held || directory == d.path
    case MoveFile(_, _, _) => held
    case RemoveFile(_, directory) => held && directory != d.path
    case ApplyPlacement(_, _, _) => true
  }

  function MayHold(held: bool, queue: seq<Queued>, file: FileId, d: SyncDirectory): bool
    decreases |queue|
  {
    if queue == [] then held else
    MayHoldAfter(MayHold(held, queue[..|queue| - 1], file, d), queue[|queue| - 1].command, file, d)
  }

  ghost predicate Configured(directories: seq<SyncDirectory>, d: SyncDirectory) {
    DistinctPaths(directories) && d in directories && d.kind == Universal(false)
  }

  lemma OneMayHold(directories: seq<SyncDirectory>, file: FileId, held: Holdings, q: Queued, d: SyncDirectory)
    requires Configured(directories, d)
    ensures d.path in Executed(directories, file, held, q) ==> MayHoldAfter(d.path in held, q.command, file, d)
    ensures MayHoldAfter(d.path in held, q.command, file, d) ==>
              (q.command.ApplyPlacement? && q.command.file == file) || d.path in Executed(directories, file, held, q)
  {
  }

  lemma {:induction false} MayHoldIsMonotone(queue: seq<Queued>, file: FileId, d: SyncDirectory)
    ensures MayHold(false, queue, file, d) ==> MayHold(true, queue, file, d)
    decreases |queue|
  {
    if queue != [] { MayHoldIsMonotone(queue[..|queue| - 1], file, d); }
  }

  /** What may be held bounds what is, and is exactly what is when no re-placement is queued. */
  lemma {:induction false} MayHoldBounds(directories: seq<SyncDirectory>, file: FileId, held: Holdings,
                                         queue: seq<Queued>, d: SyncDirectory)
    requires Configured(directories, d)
    ensures d.path in Drained(directories, file, held, queue) ==> MayHold(d.path in held, queue, file, d)
    ensures (forall q <- queue :: !(q.command.ApplyPlacement? && q.command.file == file)) ==>
              (d.path in Drained(directories, file, held, queue) <==> MayHold(d.path in held, queue, file, d))
    decreases |queue|
  {
    if queue != [] {
      var n := |queue| - 1;
      assert queue[n] in queue && forall q <- queue[..n] :: q in queue;
      MayHoldBounds(directories, file, held, queue[..n], d);
      OneMayHold(directories, file, Drained(directories, file, held, queue[..n]), queue[n], d);
    }
  }

  lemma {:induction false} MayHoldAppends(held: bool, queue: seq<Queued>, more: seq<Queued>, file: FileId,
                                          d: SyncDirectory)
    ensures MayHold(held, queue + more, file, d) == MayHold(MayHold(held, queue, file, d), more, file, d)
    decreases |more|
  {
    if more == [] {
      assert queue + more == queue;
    } else {
      var n := |more| - 1;
      assert (queue + more)[..|queue + more| - 1] == queue + more[..n];
      MayHoldAppends(held, queue, more[..n], file, d);
    }
  }

  /** A directory that may end up with the file may so for a live one. */
  predicate Settled(file: FileId, d: SyncDirectory, s: Disk) {
    MayHold(d.path in s.held, s.queue, file, d) ==> s.r.Live()
  }

  /** A delete or purge that took effect, made in `d` itself: the directory is not told to remove anything. */
  predicate RemovedHere(s: Disk, d: SyncDirectory, event: Event) {
    event.Turn? && FromHere(d, event.origin) && event.command.Meta? && Handle(s.r, event.command.change).fanout.Remove?
  }

  /** Content reported by `d` of a file that stays dead, with no removal on its way. */
  predicate ReportedDead(directories: seq<SyncDirectory>, file: FileId, d: SyncDirectory, s: Disk, event: Event) {
    event.Turn? && Reported(directories, s.r, event.command, event.origin) == Some(d.path)
    && !Step(s.r, event.command).Live() && MayHold(true, s.queue, file, d)
  }

  lemma {:induction false} RemovesRun(held: bool, directories: seq<SyncDirectory>, bytes: Held, file: FileId,
                                      d: SyncDirectory)
    ensures MayHold(held, Queue(Removes(directories, file), bytes), file, d)
        <==> held && forall other <- directories :: other.path != d.path
    decreases |directories|
  {
    if directories != [] {
      var n := |directories| - 1;
      assert Queue(Removes(directories, file), bytes)[..n] == Queue(Removes(directories[..n], file), bytes);
      assert directories == directories[..n] + [directories[n]];
      RemovesRun(held, directories[..n], bytes, file, d);
    }
  }

  lemma {:induction false} MovesRun(held: bool, directories: seq<SyncDirectory>, path: LogicalPath, bytes: Held,
                                    file: FileId, d: SyncDirectory)
    ensures MayHold(held, Queue(MoveTos(directories, file, path), bytes), file, d) == held
    decreases |directories|
  {
    if directories != [] {
      var n := |directories| - 1;
      assert Queue(MoveTos(directories, file, path), bytes)[..n] == Queue(MoveTos(directories[..n], file, path), bytes);
      MovesRun(held, directories[..n], path, bytes, file, d);
    }
  }

  /** A turn that leaves the file dead queues no bytes for it, and if the file was live, it was a delete or purge. */
  lemma DeadTurn(directories: seq<SyncDirectory>, r: Record, command: Command, origin: Origin, content: Content,
                 bytes: Held, file: FileId, d: SyncDirectory, held: bool)
    requires Configured(directories, d) && !Step(r, command).Live() && (command.Meta? ==> command.change.file == file)
    ensures var removes := command.Meta? && Handle(r, command.change).fanout.Remove?;
            MayHold(held, Queue(Directed(directories, r, file, command, origin, content), bytes), file, d)
            == (held && !(removes && !FromHere(d, origin)))
            && (r.Live() ==> removes)
  {
    match command
    case Meta(change) =>
      var outcome := Handle(r, change);
      match outcome.fanout {
        case Remove =>
          MatchingNames(directories, origin, r.LiveTags(), d);
          RemovesRun(held, Matching(directories, origin, r.LiveTags()), bytes, file, d);
        case MoveTo(path) => MovesRun(held, Matching(directories, origin, r.LiveTags()), path, bytes, file, d);
        case _ =>
      }
    case DirectoryAdd(path, pathAt, version, tagStamps) =>
      TagEachKeeps(r.AddFile(path, pathAt).RecordVersion(version), tagStamps);
    case UploadNew(path, pathAt, version, tags) => TagAllKeeps(r.AddFile(path, pathAt), tags, pathAt);
    case _ =>
  }

  lemma RemoveKills(r: Record, change: Change)
    requires Handle(r, change).fanout.Remove?
    ensures !Handle(r, change).record.Live()
  {
  }

  lemma TurnStaysSettled(directories: seq<SyncDirectory>, file: FileId, d: SyncDirectory, s: Disk, event: Event)
    requires event.Turn? && Configured(directories, d) && Settled(file, d, s)
    requires event.command.Meta? ==> event.command.change.file == file
    ensures Settled(file, d, Happen(directories, file, s, event))
       <==> !(RemovedHere(s, d, event) && MayHold(d.path in s.held, s.queue, file, d))
            && !ReportedDead(directories, file, d, s, event)
  {
    var Turn(command, origin, content) := event;
    var after, reported := Step(s.r, command), Reported(directories, s.r, command, origin);
    var more := Queue(Directed(directories, s.r, file, command, origin, content), LatestBytes(after));
    var held := d.path in s.held || reported == Some(d.path);
    MayHoldAppends(held, s.queue, more, file, d);
    if !after.Live() {
      DeadTurn(directories, s.r, command, origin, content, LatestBytes(after), file, d,
               MayHold(held, s.queue, file, d));
    } else if RemovedHere(s, d, event) {
      RemoveKills(s.r, command.change);
    }
  }

  /**
   The step law, both ways: what a directory may end up holding is of a live file, unless the file is
   deleted or purged from within the directory while it holds or awaits the file, or the directory
   reports content that does not revive a deleted file.
   */
  lemma StaysSettled(directories: seq<SyncDirectory>, file: FileId, d: SyncDirectory, s: Disk, event: Event)
    requires Configured(directories, d) && Settled(file, d, s)
    requires event.Turn? && event.command.Meta? ==> event.command.change.file == file
    ensures Settled(file, d, Happen(directories, file, s, event))
       <==> !(RemovedHere(s, d, event) && MayHold(d.path in s.held, s.queue, file, d))
            && !ReportedDead(directories, file, d, s, event)
  {
    match event
    case Turn(_, _, _) => TurnStaysSettled(directories, file, d, s, event);
    case Arrive(_, _, _) =>
    case Execute =>
      if s.queue != [] {
        OneMayHold(directories, file, s.held, s.queue[0], d);
        assert [s.queue[0]][..0] == [] && s.queue == [s.queue[0]] + s.queue[1..];
        MayHoldAppends(d.path in s.held, [s.queue[0]], s.queue[1..], file, d);
        MayHoldIsMonotone(s.queue[1..], file, d);
      }
    case UserRemoves(_) => MayHoldIsMonotone(s.queue, file, d);
  }

  /**
   Deletes made in the directory come when it neither holds nor awaits the file, and none of its reports
   is of a dead file.
   */
  ghost predicate Courteous(directories: seq<SyncDirectory>, file: FileId, d: SyncDirectory, s: Disk,
                            events: seq<Event>) {
    forall i :: 0 <= i < |events| ==> CourteousAt(directories, file, d, s, events, i)
  }

  ghost predicate CourteousAt(directories: seq<SyncDirectory>, file: FileId, d: SyncDirectory, s: Disk,
                              events: seq<Event>, i: nat)
    requires i < |events|
  {
    var before := History(directories, file, s, events[..i]);
    (events[i].Turn? && events[i].command.Meta? ==> events[i].command.change.file == file)
    && !(RemovedHere(before, d, events[i]) && MayHold(d.path in before.held, before.queue, file, d))
    && !ReportedDead(directories, file, d, before, events[i])
  }

  lemma CourteousPrefix(directories: seq<SyncDirectory>, file: FileId, d: SyncDirectory, s: Disk, events: seq<Event>,
                        n: nat)
    requires Courteous(directories, file, d, s, events) && n <= |events|
    ensures Courteous(directories, file, d, s, events[..n])
  {
    forall i | 0 <= i < n ensures CourteousAt(directories, file, d, s, events[..n], i) {
      assert CourteousAt(directories, file, d, s, events, i) && events[..n][..i] == events[..i];
    }
  }

  lemma {:induction false} RunStaysSettled(directories: seq<SyncDirectory>, file: FileId, d: SyncDirectory, s: Disk,
                                           events: seq<Event>)
    requires Configured(directories, d) && Settled(file, d, s) && Courteous(directories, file, d, s, events)
    ensures Settled(file, d, History(directories, file, s, events))
    decreases |events|
  {
    if events != [] {
      var n := |events| - 1;
      CourteousPrefix(directories, file, d, s, events, n);
      RunStaysSettled(directories, file, d, s, events[..n]);
      assert CourteousAt(directories, file, d, s, events, n);
      StaysSettled(directories, file, d, History(directories, file, s, events[..n]), events[n]);
    }
  }

  /**
   At any moment, what is queued leaves no such directory with bytes of a tombstoned, purged or unknown file
   once it has drained; so when the queue is empty none holds any.
   */
  lemma NoBytesOfTheDead(directories: seq<SyncDirectory>, file: FileId, d: SyncDirectory, s: Disk, events: seq<Event>)
    requires Configured(directories, d) && Settled(file, d, s) && Courteous(directories, file, d, s, events)
    ensures var final := History(directories, file, s, events);
            (d.path in Drained(directories, file, final.held, final.queue) ==> final.r.Live())
            && (final.queue == [] && d.path in final.held ==> final.r.Live())
  {
    var final := History(directories, file, s, events);
    RunStaysSettled(directories, file, d, s, events);
    MayHoldBounds(directories, file, final.held, final.queue, d);
  }

  /** A directory is settled exactly when what is queued cannot leave it bytes of a dead file, re-placements apart. */
  lemma SettledMeans(directories: seq<SyncDirectory>, file: FileId, d: SyncDirectory, s: Disk)
    requires Configured(directories, d)
    requires forall q <- s.queue :: !(q.command.ApplyPlacement? && q.command.file == file)
    ensures Settled(file, d, s) <==> (d.path in Drained(directories, file, s.held, s.queue) ==> s.r.Live())
  {
    MayHoldBounds(directories, file, s.held, s.queue, d);
  }

  /** A change still queued puts a file deleted in its directory back there for good. */
  lemma DeleteRacesChange(file: FileId, path: LogicalPath, content: Content)
    ensures var d := SyncDirectory("d", Universal(false));
            var r := Record(Some(Row(path, 1, false, 0, 0)), [Version("a", 1, 1)], map[], false);
            var change := Queued(ChangeFile(file, path, content, "d"), Held(1, "a"));
            var delete := Turn(Meta(Deleted(file, 5)), Local("d"), content);
            var final := History([d], file, Disk(r, map[], [change]), [delete, Execute]);
            final.queue == [] && final.held == map["d" := Held(1, "a")] && final.r.Tombstoned()
  {
    var d := SyncDirectory("d", Universal(false));
    var r := Record(Some(Row(path, 1, false, 0, 0)), [Version("a", 1, 1)], map[], false);
    var change := Queued(ChangeFile(file, path, content, "d"), Held(1, "a"));
    var s, delete := Disk(r, map[], [change]), Turn(Meta(Deleted(file, 5)), Local("d"), content);
    HistoryOfTwo([d], file, s, delete, Execute);
    assert [d][..0] == [] && Matching([d], Local("d"), r.LiveTags()) == [];
    assert Happen([d], file, s, delete).queue == [change];
  }
}
