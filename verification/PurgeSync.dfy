/** Two peers comparing their permanent purge sets on connect, in frames of any size. */
module PurgeSync {
  import opened Types
  import opened Catalog
  import opened CatalogRuns
  import opened CatalogTables

  function Concat(frames: seq<seq<FileId>>): seq<FileId>
    decreases |frames|
  {
    if frames == [] then [] else Concat(frames[..|frames| - 1]) + frames[|frames| - 1]
  }

  /** The manifest cut into frames of at most the batch size, at least one id each, losing and reordering nothing. */
  method BatchPurgeManifest(entries: seq<FileId>, batchSize: nat) returns (frames: seq<seq<FileId>>)
    ensures Concat(frames) == entries
    ensures forall frame <- frames :: 1 <= |frame| <= Max(batchSize, 1)
    ensures forall i :: 0 <= i < |frames| - 1 ==> |frames[i]| == Max(batchSize, 1)
  {
    var size := Max(batchSize, 1);
    frames := [];
    var done := 0;
    while done < |entries|
      invariant done <= |entries| && Concat(frames) == entries[..done]
      invariant forall frame <- frames :: 1 <= |frame| <= size
      invariant forall i :: 0 <= i < |frames| - 1 ==> |frames[i]| == size
      invariant done < |entries| && frames != [] ==> |frames[|frames| - 1]| == size
      decreases |entries| - done
    {
      var next := if done + size < |entries| then done + size else |entries|;
      assert (frames + [entries[done..next]])[..|frames|] == frames;
      assert entries[..next] == entries[..done] + entries[done..next];
      frames := frames + [entries[done..next]];
      done := next;
    }
    assert entries[..|entries|] == entries;
  }

  /** An id is worth applying when it is not purged here, or is and its row lingers. */
  predicate Acts(r: Record) { !r.purged || r.row.Some? }

  function Planned(entries: seq<FileId>, acting: iset<FileId>): seq<FileId>
    decreases |entries|
  {
    if entries == [] then [] else
    var n := |entries| - 1;
    Planned(entries[..n], acting) + if entries[n] in acting then [entries[n]] else []
  }

  method PlanPurgeSync(entries: seq<FileId>, database: CatalogStore) returns (toPurge: seq<FileId>)
    ensures toPurge == Planned(entries, iset file | Acts(database.RecordOf(file)))
  {
    toPurge := [];
    for i := 0 to |entries|
      invariant toPurge == Planned(entries[..i], iset file | Acts(database.RecordOf(file)))
    {
      assert entries[..i + 1][..i] == entries[..i];
      var purged := database.IsPurged(entries[i]);
      if !purged {
        toPurge := toPurge + [entries[i]];
        continue;
      }
      var lingers := database.FileExists(entries[i]);
      if lingers { toPurge := toPurge + [entries[i]]; }
    }
    assert entries[..|entries|] == entries;
  }

  lemma {:induction false} PlannedIsExact(entries: seq<FileId>, acting: iset<FileId>, file: FileId)
    ensures file in Planned(entries, acting) <==> file in entries && file in acting
    decreases |entries|
  {
    if entries != [] {
      var n := |entries| - 1;
      PlannedIsExact(entries[..n], acting, file);
      assert entries == entries[..n] + [entries[n]];
    }
  }

  /** In the manifest's order, each as often as it is named. */
  lemma {:induction false} PlannedInOrder(entries: seq<FileId>, acting: iset<FileId>, i: nat, file: FileId)
    requires i <= |entries|
    ensures Planned(entries[..i], acting) <= Planned(entries, acting)
    ensures multiset(Planned(entries, acting))[file] == if file in acting then multiset(entries)[file] else 0
    decreases |entries|
  {
    if entries != [] {
      var n := |entries| - 1;
      assert entries == entries[..n] + [entries[n]];
      PlannedInOrder(entries[..n], acting, if i <= n then i else n, file);
      if i <= n { assert entries[..n][..i] == entries[..i]; } else { assert entries[..i] == entries; }
    }
  }

  // ---- applying a peer's manifest ----

  function Purge(store: Store, file: FileId): Store {
    store[file := Handle(RecordOf(store, file), Purged(file)).record]
  }

  function PurgeAll(store: Store, files: seq<FileId>): Store
    decreases |files|
  {
    if files == [] then store else Purge(PurgeAll(store, files[..|files| - 1]), files[|files| - 1])
  }

  ghost function Acting(store: Store): iset<FileId> { iset file | Acts(RecordOf(store, file)) }

  ghost function Plan(store: Store, entries: seq<FileId>): seq<FileId> { Planned(entries, Acting(store)) }

  /** Each frame is planned against the catalog as the frames before it left it. */
  ghost function Receive(store: Store, frames: seq<seq<FileId>>): Store
    decreases |frames|
  {
    if frames == [] then store else
    var before := Receive(store, frames[..|frames| - 1]);
    PurgeAll(before, Plan(before, frames[|frames| - 1]))
  }

  lemma {:induction false} PurgeAllIs(store: Store, files: seq<FileId>, file: FileId)
    ensures RecordOf(PurgeAll(store, files), file)
         == if file in files then Handle(RecordOf(store, file), Purged(file)).record else RecordOf(store, file)
    decreases |files|
  {
    if files != [] {
      var n := |files| - 1;
      PurgeAllIs(store, files[..n], file);
      assert files == files[..n] + [files[n]];
    }
  }

  /** Whatever the framing and the repetitions, receiving purges every id named and touches no other. */
  lemma {:induction false} ReceiveIs(store: Store, frames: seq<seq<FileId>>, file: FileId)
    ensures RecordOf(Receive(store, frames), file)
         == if file in Concat(frames) then Handle(RecordOf(store, file), Purged(file)).record else RecordOf(store, file)
    decreases |frames|
  {
    if frames != [] {
      var n := |frames| - 1;
      var before := Receive(store, frames[..n]);
      ReceiveIs(store, frames[..n], file);
      PurgeAllIs(before, Plan(before, frames[n]), file);
      PlannedIsExact(frames[n], Acting(before), file);
      assert file in Concat(frames) <==> file in Concat(frames[..n]) || file in frames[n];
    }
  }

  /** The frames carry the whole purge set of a store, in any order and cut. */
  ghost predicate Manifest(store: Store, frames: seq<seq<FileId>>) {
    forall file :: file in Concat(frames) <==> RecordOf(store, file).purged
  }

  ghost predicate AllClean(store: Store) {
    forall file :: Clean(RecordOf(store, file))
  }

  /** A purged id whose row lingers, and which the peer's manifest did not name. */
  ghost predicate Lingers(store: Store, peer: Store, file: FileId) {
    RecordOf(store, file).purged && RecordOf(store, file).row.Some? && !RecordOf(peer, file).purged
  }

  /** Both ends finish with the union, and every id the peer named is left clean of its row. */
  lemma ExchangeIsUnion(a: Store, b: Store, fromA: seq<seq<FileId>>, fromB: seq<seq<FileId>>, file: FileId)
    requires Manifest(a, fromA) && Manifest(b, fromB)
    ensures var a', b' := RecordOf(Receive(a, fromB), file), RecordOf(Receive(b, fromA), file);
            (a'.purged <==> RecordOf(a, file).purged || RecordOf(b, file).purged) && (b'.purged <==> a'.purged)
            && (RecordOf(b, file).purged ==> a'.row.None?) && (RecordOf(a, file).purged ==> b'.row.None?)
            && (!a'.purged ==> a' == RecordOf(a, file) && b' == RecordOf(b, file))
  {
    ReceiveIs(a, fromB, file);
    ReceiveIs(b, fromA, file);
  }

  lemma SecondPlanIs(a: Store, b: Store, fromA: seq<seq<FileId>>, fromB: seq<seq<FileId>>, again: seq<seq<FileId>>,
                     file: FileId)
    requires Manifest(a, fromA) && Manifest(b, fromB) && Manifest(Receive(b, fromA), again)
    ensures file in Plan(Receive(a, fromB), Concat(again)) <==> Lingers(a, b, file)
  {
    var a' := Receive(a, fromB);
    PlannedIsExact(Concat(again), Acting(a'), file);
    assert file in Acting(a') <==> Acts(RecordOf(a', file));
    assert file in Concat(again) <==> RecordOf(Receive(b, fromA), file).purged;
    ExchangeIsUnion(a, b, fromA, fromB, file);
    ReceiveIs(a, fromB, file);
  }

  /**
   A second exchange of the new manifests plans nothing at an end exactly when no lingering row of an
   id the other end had not purged was missed by the first.
   */
  lemma SecondExchangePlansNothing(a: Store, b: Store, fromA: seq<seq<FileId>>, fromB: seq<seq<FileId>>,
                                   again: seq<seq<FileId>>)
    requires Manifest(a, fromA) && Manifest(b, fromB) && Manifest(Receive(b, fromA), again)
    ensures Plan(Receive(a, fromB), Concat(again)) == [] <==> forall file :: !Lingers(a, b, file)
  {
    var plan := Plan(Receive(a, fromB), Concat(again));
    if plan != [] {
      assert plan[0] in plan;
      SecondPlanIs(a, b, fromA, fromB, again, plan[0]);
    }
    if file :| Lingers(a, b, file) {
      SecondPlanIs(a, b, fromA, fromB, again, file);
    }
  }

  lemma ReceiveKeepsClean(store: Store, frames: seq<seq<FileId>>)
    requires AllClean(store)
    ensures AllClean(Receive(store, frames))
  {
    forall file ensures Clean(RecordOf(Receive(store, frames), file)) {
      assert Clean(RecordOf(store, file));
      ReceiveIs(store, frames, file);
    }
  }

  /** On clean catalogs one exchange settles everything, at both ends. */
  lemma CleanExchangeSettles(a: Store, b: Store, fromA: seq<seq<FileId>>, fromB: seq<seq<FileId>>,
                             againA: seq<seq<FileId>>, againB: seq<seq<FileId>>)
    requires AllClean(a) && AllClean(b) && Manifest(a, fromA) && Manifest(b, fromB)
    requires Manifest(Receive(a, fromB), againA) && Manifest(Receive(b, fromA), againB)
    ensures AllClean(Receive(a, fromB)) && AllClean(Receive(b, fromA))
    ensures Plan(Receive(a, fromB), Concat(againB)) == [] && Plan(Receive(b, fromA), Concat(againA)) == []
  {
    ReceiveKeepsClean(a, fromB);
    ReceiveKeepsClean(b, fromA);
    CleanNeverLingers(a, b);
    CleanNeverLingers(b, a);
    SecondExchangePlansNothing(a, b, fromA, fromB, againB);
    SecondExchangePlansNothing(b, a, fromB, fromA, againA);
  }

  lemma CleanNeverLingers(a: Store, b: Store)
    requires AllClean(a)
    ensures forall file :: !Lingers(a, b, file)
  {
    forall file ensures !Lingers(a, b, file) {
      assert Clean(RecordOf(a, file));
    }
  }

  /** The lingering row is reachable: a creation uploaded for a purged id, after which every exchange plans it again. */
  lemma LingeringRowIsPlanned(file: FileId, path: LogicalPath, version: Version)
    ensures var a: Store, b: Store := map[file := Step(PURGED, UploadNew(path, 1, version, []))], map[];
            Manifest(a, [[file]]) && Manifest(b, []) && Manifest(Receive(b, [[file]]), [[file]])
            && Lingers(a, b, file) && file in Plan(Receive(a, []), Concat([[file]]))
  {
    var a: Store, b: Store := map[file := Step(PURGED, UploadNew(path, 1, version, []))], map[];
    TagAllKeeps(PURGED.AddFile(path, 1), [], 1);
    assert [[file]][..0] == [] && Concat([[file]]) == [] + [file];
    forall other ensures other in Concat([[file]]) <==> RecordOf(a, other).purged
                 ensures other in Concat([[file]]) <==> RecordOf(Receive(b, [[file]]), other).purged
    {
      ReceiveIs(b, [[file]], other);
    }
    SecondPlanIs(a, b, [[file]], [], [[file]], file);
  }
}
