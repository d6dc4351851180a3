/**
 Deletes against versions of one known file at one node. The already-tombstoned guard makes delivery
 order matter when several deletes are in flight: this module says exactly when, and that one
 redelivery of the deletes repairs it.
 */
module Lww {
  import opened Types
  import opened Catalog

  lemma {:induction false} DeliverConcat(r: Record, first: seq<Change>, second: seq<Change>)
    ensures Deliver(r, first + second) == Deliver(Deliver(r, first), second)
    decreases |second|
  {
    if second == [] {
      assert first + second == first;
    } else {
      assert (first + second)[..|first + second| - 1] == first + second[..|second| - 1];
      DeliverConcat(r, first, second[..|second| - 1]);
    }
  }

  /** Announcements and deletes, nothing else. */
  ghost predicate Traffic(changes: seq<Change>) {
    forall c <- changes :: c.Announces() || c.Deleted?
  }

  /** A known file with at least one version, live or dead under a delete that beats what it holds. */
  predicate Known(r: Record) {
    r.row.Some? && r.versions != [] && !r.purged
    && (r.Tombstoned() ==> Max(r.LatestObserved(), r.row.value.restoredAt) < r.row.value.deletedAt)
  }

  /** No delete carries the stamp of a version, nor does the tombstone there is. */
  ghost predicate DistinctStamps(r: Record, changes: seq<Change>) {
    (forall d <- changes | d.Deleted? ::
       d.deletedAt != r.LatestObserved()
       && forall c <- changes | c.Announces() :: c.observedAt != d.deletedAt)
    && (r.Tombstoned() ==> forall c <- changes | c.Announces() :: c.observedAt != r.row.value.deletedAt)
  }

  /** The greatest content stamp among the starting version and the announcements. */
  function Greatest(start: Stamp, changes: seq<Change>): Stamp
    decreases |changes|
  {
    if changes == [] then start else
    var last := changes[|changes| - 1];
    var rest := Greatest(start, changes[..|changes| - 1]);
    if last.Announces() then Max(rest, last.observedAt) else rest
  }

  lemma {:induction false} GreatestBounds(start: Stamp, changes: seq<Change>)
    ensures start <= Greatest(start, changes)
    ensures forall c <- changes | c.Announces() :: c.observedAt <= Greatest(start, changes)
    ensures Greatest(start, changes) == start
         || exists c <- changes :: c.Announces() && c.observedAt == Greatest(start, changes)
    decreases |changes|
  {
    if changes != [] {
      var n := |changes| - 1;
      GreatestBounds(start, changes[..n]);
      assert changes == changes[..n] + [changes[n]];
      assert changes[n] in changes;
    }
  }

  /** A delete there is: one delivered, or the one the file is dead under. */
  ghost predicate DeletedBy(r: Record, changes: seq<Change>, deletedAt: Stamp) {
    (exists d <- changes :: d.Deleted? && d.deletedAt == deletedAt)
    || (r.Tombstoned() && r.row.value.deletedAt == deletedAt)
  }

  /** The last-writer-wins join: live unless some delete is newer than every version and the restore clock. */
  ghost predicate Dead(r: Record, changes: seq<Change>)
    requires r.row.Some?
  {
    exists at :: DeletedBy(r, changes, at) && Max(Greatest(r.LatestObserved(), changes), r.row.value.restoredAt) < at
  }

  /** The record holds the join of everything in `changes`. */
  ghost predicate Joined(start: Record, changes: seq<Change>, r: Record)
    requires start.row.Some?
  {
    r.row.Some? && r.versions != []
    && r.LatestObserved() == Greatest(start.LatestObserved(), changes)
    && (r.Tombstoned() <==> Dead(start, changes))
  }

  /** What any delivery order establishes, whether or not liveness is right yet. */
  ghost predicate Progress(start: Record, changes: seq<Change>, r: Record)
    requires start.row.Some?
  {
    !r.purged && r.row.Some? && r.versions != []
    && r.LatestObserved() == Greatest(start.LatestObserved(), changes)
    && r.row.value.restoredAt == start.row.value.restoredAt
    && (r.Tombstoned() ==>
          Max(r.LatestObserved(), r.row.value.restoredAt) < r.row.value.deletedAt
          && DeletedBy(start, changes, r.row.value.deletedAt))
  }

  lemma {:induction false} DeliveryProgresses(start: Record, changes: seq<Change>)
    requires Known(start) && Traffic(changes) && DistinctStamps(start, changes)
    ensures Progress(start, changes, Deliver(start, changes))
    decreases |changes|
  {
    if changes != [] {
      var n := |changes| - 1;
      var before, last := Deliver(start, changes[..n]), changes[n];
      DeliveryProgresses(start, changes[..n]);
      assert changes == changes[..n] + [last] && last in changes;
      assert before.Tombstoned() ==> DeletedBy(start, changes, before.row.value.deletedAt);
      if last.Deleted? { assert DeletedBy(start, changes, last.deletedAt); }
    }
  }

  /** The latest content is the one that was there or was announced under the greatest stamp. */
  lemma {:induction false} LatestContent(start: Record, changes: seq<Change>)
    requires Known(start) && Traffic(changes) && DistinctStamps(start, changes)
    ensures var r := Deliver(start, changes);
            r.LatestObserved() == Greatest(start.LatestObserved(), changes)
            && (r.Latest() == start.Latest()
                || exists c <- changes ::
                     c.Announces() && c.observedAt == Greatest(start.LatestObserved(), changes)
                     && r.Latest() == Some(Version(c.hash, c.size, c.observedAt)))
    decreases |changes|
  {
    DeliveryProgresses(start, changes);
    if changes != [] {
      var n := |changes| - 1;
      LatestContent(start, changes[..n]);
      DeliveryProgresses(start, changes[..n]);
      assert changes == changes[..n] + [changes[n]] && changes[n] in changes;
      var before := Deliver(start, changes[..n]);
      LatestStep(before, changes[n]);
      if before.Latest() != start.Latest() {
        var c :| c in changes[..n] && c.Announces() && before.Latest() == Some(Version(c.hash, c.size, c.observedAt));
        assert c in changes;
      }
    }
  }

  lemma LatestStep(r: Record, last: Change)
    requires !r.purged && r.row.Some? && r.versions != [] && (last.Announces() || last.Deleted?)
    ensures var after := Handle(r, last).record;
            if last.Announces() && r.LatestObserved() < last.observedAt
            then after.Latest() == Some(Version(last.hash, last.size, last.observedAt))
            else after.Latest() == r.Latest()
  {
  }

  // ---- redelivery closes the gap ----

  ghost predicate DeletesOf(deletes: seq<Change>, changes: seq<Change>) {
    (forall d <- deletes :: d.Deleted? && d in changes) && (forall c <- changes | c.Deleted? :: c in deletes)
  }

  /** Redelivering deletes moves nothing but the tombstone, and each one settles it. */
  lemma {:induction false} DeletesSettle(start: Record, changes: seq<Change>, r: Record, deletes: seq<Change>)
    requires Known(start) && Progress(start, changes, r)
    requires forall d <- deletes :: d.Deleted? && d in changes
    ensures Progress(start, changes, Deliver(r, deletes))
    ensures r.Tombstoned() ==> Deliver(r, deletes).Tombstoned()
    ensures forall d <- deletes | Max(r.LatestObserved(), start.row.value.restoredAt) < d.deletedAt ::
              Deliver(r, deletes).Tombstoned()
    decreases |deletes|
  {
    if deletes != [] {
      var n := |deletes| - 1;
      DeletesSettle(start, changes, r, deletes[..n]);
      assert deletes == deletes[..n] + [deletes[n]] && deletes[n] in deletes;
    }
  }

  /** Any number of versions and deletes in any order, then every delete again in any order: the join. */
  lemma RedeliveryConverges(start: Record, changes: seq<Change>, deletes: seq<Change>)
    requires Known(start) && Traffic(changes) && DistinctStamps(start, changes) && DeletesOf(deletes, changes)
    ensures Joined(start, changes, Deliver(start, changes + deletes))
  {
    var middle := Deliver(start, changes);
    DeliveryProgresses(start, changes);
    DeliverConcat(start, changes, deletes);
    DeletesSettle(start, changes, middle, deletes);
    var final := Deliver(middle, deletes);
    if Dead(start, changes) {
      var at :| DeletedBy(start, changes, at)
                && Max(Greatest(start.LatestObserved(), changes), start.row.value.restoredAt) < at;
      if d :| d in changes && d.Deleted? && d.deletedAt == at {
        assert d in deletes;
      } else {
        StaysUnder(start, changes);
      }
    }
  }

  /** A tombstone newer than every version stays, whatever else is delivered. */
  lemma {:induction false} StaysUnder(start: Record, changes: seq<Change>)
    requires Known(start) && Traffic(changes) && start.Tombstoned()
    requires Greatest(start.LatestObserved(), changes) < start.row.value.deletedAt
    ensures var r := Deliver(start, changes);
            r.Tombstoned() && !r.purged && r.row.value.deletedAt == start.row.value.deletedAt
    decreases |changes|
  {
    if changes != [] {
      var n := |changes| - 1;
      StaysUnder(start, changes[..n]);
      assert changes == changes[..n] + [changes[n]] && changes[n] in changes;
      GreatestBounds(start.LatestObserved(), changes);
    }
  }

  // ---- exactly when one pass is enough ----

  /** A delete that can be the first to land: the tombstone there is, or any that wins at the start. */
  ghost predicate Early(start: Record, changes: seq<Change>, at: Stamp)
    requires start.row.Some?
  {
    DeletedBy(start, changes, at)
    && if start.Tombstoned() then at == start.row.value.deletedAt
       else Max(start.LatestObserved(), start.row.value.restoredAt) < at
  }

  /**
   The trap: a delete that can land first and is overruled by a version, while a newer delete outranks
   every version. It shields the file from the newer one.
   */
  ghost predicate Shielded(start: Record, changes: seq<Change>)
    requires start.row.Some?
  {
    Dead(start, changes)
    && exists at :: Early(start, changes, at) && at < Greatest(start.LatestObserved(), changes)
  }

  lemma {:induction false} GreatestOfSame(start: Stamp, first: seq<Change>, second: seq<Change>)
    requires forall c :: c in first <==> c in second
    ensures Greatest(start, first) == Greatest(start, second)
  {
    GreatestBounds(start, first);
    GreatestBounds(start, second);
  }

  lemma SubTraffic(start: Record, all: seq<Change>, changes: seq<Change>)
    requires Traffic(all) && DistinctStamps(start, all) && forall c <- changes :: c in all
    ensures Traffic(changes) && DistinctStamps(start, changes)
    ensures Greatest(start.LatestObserved(), changes) <= Greatest(start.LatestObserved(), all)
  {
    GreatestBounds(start.LatestObserved(), all);
    GreatestBounds(start.LatestObserved(), changes);
  }

  /** Without the trap, a delete that ever lands is newer than every version there is. */
  lemma UnshieldedBeatsAll(start: Record, all: seq<Change>, changes: seq<Change>)
    requires Known(start) && Traffic(all) && DistinctStamps(start, all) && !Shielded(start, all) && Dead(start, all)
    requires forall c <- changes :: c in all
    requires Deliver(start, changes).Tombstoned()
    ensures Greatest(start.LatestObserved(), all) < Deliver(start, changes).row.value.deletedAt
  {
    SubTraffic(start, all, changes);
    DeliveryProgresses(start, changes);
    GreatestBounds(start.LatestObserved(), changes);
    GreatestBounds(start.LatestObserved(), all);
    var at := Deliver(start, changes).row.value.deletedAt;
    assert DeletedBy(start, all, at);
    if start.Tombstoned() {
      assert Early(start, all, start.row.value.deletedAt);
      StaysUnder(start, changes);
    } else {
      assert Early(start, all, at);
    }
  }

  /** So once the decisive delete is delivered, the file is tombstoned and stays so. */
  lemma {:induction false} UnshieldedStays(start: Record, all: seq<Change>, changes: seq<Change>, decisive: Change)
    requires Known(start) && Traffic(all) && DistinctStamps(start, all) && !Shielded(start, all) && Dead(start, all)
    requires forall c <- changes :: c in all
    requires !start.Tombstoned() && decisive in changes && decisive.Deleted?
    requires Max(Greatest(start.LatestObserved(), all), start.row.value.restoredAt) < decisive.deletedAt
    ensures Deliver(start, changes).Tombstoned()
    decreases |changes|
  {
    var n := |changes| - 1;
    assert changes == changes[..n] + [changes[n]] && changes[n] in changes;
    var before := Deliver(start, changes[..n]);
    SubTraffic(start, all, changes[..n]);
    DeliveryProgresses(start, changes[..n]);
    GreatestBounds(start.LatestObserved(), all);
    if decisive in changes[..n] {
      UnshieldedStays(start, all, changes[..n], decisive);
    }
    if before.Tombstoned() {
      UnshieldedBeatsAll(start, all, changes[..n]);
    }
    LastStays(before, changes[n], Greatest(start.LatestObserved(), all), decisive);
  }

  lemma LastStays(before: Record, last: Change, greatest: Stamp, decisive: Change)
    requires !before.purged && before.row.Some? && before.versions != [] && (last.Announces() || last.Deleted?)
    requires before.Tombstoned() ==> greatest < before.row.value.deletedAt
    requires before.Tombstoned() || last == decisive
    requires last.Announces() ==> last.observedAt <= greatest
    requires before.LatestObserved() <= greatest
    requires decisive.Deleted? && Max(greatest, before.row.value.restoredAt) < decisive.deletedAt
    ensures Handle(before, last).record.Tombstoned()
  {
  }

  function Only(changes: seq<Change>, deletes: bool): seq<Change>
    decreases |changes|
  {
    if changes == [] then [] else
    (if changes[0].Deleted? == deletes then [changes[0]] else []) + Only(changes[1..], deletes)
  }

  lemma {:induction false} OnlySplits(changes: seq<Change>)
    ensures multiset(Only(changes, true) + Only(changes, false)) == multiset(changes)
    ensures forall c <- Only(changes, true) :: c.Deleted?
    ensures forall c <- Only(changes, false) :: !c.Deleted?
    decreases |changes|
  {
    if changes != [] {
      OnlySplits(changes[1..]);
      assert changes == [changes[0]] + changes[1..];
    }
  }

  lemma SameMembers(first: seq<Change>, second: seq<Change>)
    requires multiset(first) == multiset(second)
    ensures forall c :: c in first <==> c in second
  {
    forall c ensures c in first <==> c in second {
      assert c in first <==> c in multiset(first);
      assert c in second <==> c in multiset(second);
    }
  }

  /** While tombstoned, further deletes are dropped unread. */
  lemma {:induction false} DeletesDropped(r: Record, deletes: seq<Change>)
    requires r.Tombstoned() && !r.purged && forall d <- deletes :: d.Deleted?
    ensures Deliver(r, deletes) == r
    decreases |deletes|
  {
    if deletes != [] {
      assert deletes[|deletes| - 1] in deletes;
      DeletesDropped(r, deletes[..|deletes| - 1]);
    }
  }

  /** One chosen delete first, then the other deletes, then everything else. */
  lemma DeleteFirst(changes: seq<Change>, d: Change) returns (others: seq<Change>, versions: seq<Change>)
    requires d in changes && d.Deleted?
    ensures multiset([d] + others + versions) == multiset(changes)
    ensures (forall c <- others :: c.Deleted?) && (forall c <- versions :: !c.Deleted? && c in changes)
  {
    var deletes := Only(changes, true);
    versions := Only(changes, false);
    OnlySplits(changes);
    SameMembers(deletes + versions, changes);
    assert d in deletes + versions && d !in versions;
    var k :| 0 <= k < |deletes| && deletes[k] == d;
    others := deletes[..k] + deletes[k + 1..];
    ToFront(deletes, k);
    assert [d] + others + versions == ([d] + others) + versions;
  }

  lemma ToFront(changes: seq<Change>, k: nat)
    requires k < |changes|
    ensures multiset([changes[k]] + (changes[..k] + changes[k + 1..])) == multiset(changes)
  {
    assert changes == changes[..k] + [changes[k]] + changes[k + 1..];
  }

  /** The order that springs the trap: the shielding delete, the other deletes, then the versions. */
  lemma ShieldedOrder(start: Record, changes: seq<Change>) returns (order: seq<Change>)
    requires Known(start) && Traffic(changes) && DistinctStamps(start, changes) && Shielded(start, changes)
    ensures multiset(order) == multiset(changes)
    ensures !Joined(start, order, Deliver(start, order))
  {
    var at :| Early(start, changes, at) && at < Greatest(start.LatestObserved(), changes);
    if start.Tombstoned() {
      var deletes, versions := Only(changes, true), Only(changes, false);
      OnlySplits(changes);
      order := deletes + versions;
      SameOrder(start, changes, order);
      StaysRevived(start, deletes, versions);
    } else {
      var d :| d in changes && d.Deleted? && d.deletedAt == at;
      var others, versions := DeleteFirst(changes, d);
      order := [d] + others + versions;
      SameOrder(start, changes, order);
      StaysShielded(start, d, others, versions);
    }
  }

  /** An order of the same changes has the same versions, stamps and join. */
  lemma SameOrder(start: Record, changes: seq<Change>, order: seq<Change>)
    requires start.row.Some? && Traffic(changes) && DistinctStamps(start, changes)
    requires multiset(order) == multiset(changes)
    ensures (forall c :: c in order <==> c in changes) && Traffic(order) && DistinctStamps(start, order)
    ensures Greatest(start.LatestObserved(), order) == Greatest(start.LatestObserved(), changes)
    ensures Dead(start, order) <==> Dead(start, changes)
  {
    SameMembers(order, changes);
    GreatestOfSame(start.LatestObserved(), order, changes);
    assert forall at :: DeletedBy(start, order, at) <==> DeletedBy(start, changes, at);
  }

  /** The same where the file was dead to begin with. */
  lemma StaysRevived(start: Record, deletes: seq<Change>, versions: seq<Change>)
    requires Known(start) && start.Tombstoned() && forall c <- deletes :: c.Deleted?
    requires forall c <- versions :: c.Announces()
    requires Traffic(deletes + versions) && DistinctStamps(start, deletes + versions)
    requires start.row.value.deletedAt < Greatest(start.LatestObserved(), deletes + versions)
    ensures !Deliver(start, deletes + versions).Tombstoned()
  {
    DeliverConcat(start, deletes, versions);
    DeletesDropped(start, deletes);
    VersionsOnlyRevive(start, versions);
    DeliveryProgresses(start, deletes + versions);
  }

  /** After that order the file is live. */
  lemma StaysShielded(start: Record, d: Change, others: seq<Change>, versions: seq<Change>)
    requires Known(start) && start.Live() && d.Deleted?
    requires Max(start.LatestObserved(), start.row.value.restoredAt) < d.deletedAt
    requires forall c <- others :: c.Deleted?
    requires forall c <- versions :: c.Announces()
    requires Traffic([d] + others + versions) && DistinctStamps(start, [d] + others + versions)
    requires d.deletedAt < Greatest(start.LatestObserved(), [d] + others + versions)
    ensures !Deliver(start, [d] + others + versions).Tombstoned()
  {
    var order := [d] + others + versions;
    assert [d][..0] == [];
    var first := Deliver(start, [d]);
    assert first == Handle(Deliver(start, []), d).record;
    DeliverConcat(start, [d] + others, versions);
    DeliverConcat(start, [d], others);
    DeletesDropped(first, others);
    VersionsOnlyRevive(first, versions);
    DeliveryProgresses(start, order);
  }

  /** Announcements never set a tombstone or move its stamp. */
  lemma {:induction false} VersionsOnlyRevive(r: Record, versions: seq<Change>)
    requires r.row.Some? && !r.purged && forall c <- versions :: c.Announces()
    ensures var after := Deliver(r, versions);
            !after.purged && after.row.Some?
            && (after.Tombstoned() ==> after.row.value.deletedAt == r.row.value.deletedAt)
    decreases |versions|
  {
    if versions != [] {
      assert versions[|versions| - 1] in versions;
      VersionsOnlyRevive(r, versions[..|versions| - 1]);
    }
  }

  /** Every delivery order of a set of changes reaches the join exactly when the trap is absent. */
  lemma OnePassSuffices(start: Record, changes: seq<Change>)
    requires Known(start) && Traffic(changes) && DistinctStamps(start, changes)
    ensures (forall order: seq<Change> ::
               multiset(order) == multiset(changes) ==> Joined(start, order, Deliver(start, order)))
            <==> !Shielded(start, changes)
  {
    if Shielded(start, changes) {
      var order := ShieldedOrder(start, changes);
      assert multiset(order) == multiset(changes) && !Joined(start, order, Deliver(start, order));
    } else {
      forall order: seq<Change> | multiset(order) == multiset(changes)
        ensures Joined(start, order, Deliver(start, order))
      {
        SameOrder(start, changes, order);
        DeliveryProgresses(start, order);
        if Dead(start, order) { UnshieldedDies(start, changes, order); }
      }
    }
  }

  lemma UnshieldedDies(start: Record, all: seq<Change>, order: seq<Change>)
    requires Known(start) && Traffic(all) && DistinctStamps(start, all) && !Shielded(start, all) && Dead(start, all)
    requires (forall c :: c in order <==> c in all) && Traffic(order)
    requires Greatest(start.LatestObserved(), order) == Greatest(start.LatestObserved(), all)
    ensures Deliver(start, order).Tombstoned()
  {
    var at :| DeletedBy(start, all, at)
              && Max(Greatest(start.LatestObserved(), all), start.row.value.restoredAt) < at;
    if start.Tombstoned() {
      assert Early(start, all, start.row.value.deletedAt);
      GreatestBounds(start.LatestObserved(), order);
      StaysUnder(start, order);
    } else {
      var d :| d in all && d.Deleted? && d.deletedAt == at;
      UnshieldedStays(start, all, order, d);
    }
  }

  /** A run in the trap: the first delete hides the file from the second, and the version between them revives it. */
  lemma OnePassIsNotEnough(file: FileId, path: LogicalPath)
    ensures var start := Record(Some(Row(path, 1, false, 0, 0)), [Version("f", 1, 1)], map[], false);
            var changes := [Deleted(file, 2), Deleted(file, 4), Changed(file, "g", 1, 3)];
            Known(start) && Traffic(changes) && DistinctStamps(start, changes) && Shielded(start, changes)
            && Deliver(start, changes).Live() && !Joined(start, changes, Deliver(start, changes))
  {
    var start := Record(Some(Row(path, 1, false, 0, 0)), [Version("f", 1, 1)], map[], false);
    var changes := [Deleted(file, 2), Deleted(file, 4), Changed(file, "g", 1, 3)];
    EndsLive(start, changes);
    GreatestBounds(1, changes);
    assert changes[0] in changes && changes[1] in changes && changes[2] in changes;
    assert DeletedBy(start, changes, 4) && Early(start, changes, 2);
  }

  lemma EndsLive(start: Record, changes: seq<Change>)
    requires |changes| == 3 && start.Live() && !start.purged && start.row.value.restoredAt == 0
    requires start.LatestObserved() == 1 && start.versions != []
    requires var file := changes[0].file;
             changes == [Deleted(file, 2), Deleted(file, 4), Changed(file, "g", 1, 3)]
    ensures Deliver(start, changes).Live()
  {
    assert changes[..2] == [changes[0], changes[1]];
    DeliverTwo(start, changes[0], changes[1]);
  }

  // ---- restores and the no-op guard ----

  /**
   When a restore and a delete commute. The no-op guard forgets a restore of a file that is live with the same
   content, and an older delete then still wins; the tombstone guard forgets a delete of a dead file, newer
   though it be than the restore that revives it.
   */
  lemma RestoreDeleteCommute(r: Record, file: FileId, hash: Hash, size: nat, restoredAt: Stamp, deletedAt: Stamp)
    requires Known(r) && restoredAt != deletedAt
    ensures var restore, delete := Restored(file, hash, size, restoredAt), Deleted(file, deletedAt);
            Deliver(r, [restore, delete]).Live() == Deliver(r, [delete, restore]).Live()
            <==> if r.Live() then !(r.Latest().value.hash == hash && r.DeleteWins(deletedAt) && deletedAt < restoredAt)
                 else !(r.RestoreWins(restoredAt)
                        && Max(Max(r.row.value.restoredAt, restoredAt), r.LatestObserved()) < deletedAt)
  {
    DeliverTwo(r, Restored(file, hash, size, restoredAt), Deleted(file, deletedAt));
    DeliverTwo(r, Deleted(file, deletedAt), Restored(file, hash, size, restoredAt));
    RestoreFirst(r, file, hash, size, restoredAt, deletedAt);
    DeleteFirstThen(r, file, hash, size, restoredAt, deletedAt);
  }

  lemma RestoreFirst(r: Record, file: FileId, hash: Hash, size: nat, restoredAt: Stamp, deletedAt: Stamp)
    requires Known(r)
    ensures var restored := Handle(r, Restored(file, hash, size, restoredAt)).record;
            Handle(restored, Deleted(file, deletedAt)).record.Live() <==>
              if r.Live() && r.Latest().value.hash == hash then !r.DeleteWins(deletedAt)
              else (r.Live() || r.RestoreWins(restoredAt))
                   && deletedAt <= Max(Max(r.row.value.restoredAt, restoredAt), r.LatestObserved())
  {
    var restored := Handle(r, Restored(file, hash, size, restoredAt)).record;
    if r.Live() && r.Latest().value.hash == hash {
      assert restored == r;
    } else {
      assert restored == r.ApplyRestore(restoredAt);
    }
  }

  lemma DeleteFirstThen(r: Record, file: FileId, hash: Hash, size: nat, restoredAt: Stamp, deletedAt: Stamp)
    requires Known(r)
    ensures var deleted := Handle(r, Deleted(file, deletedAt)).record;
            Handle(deleted, Restored(file, hash, size, restoredAt)).record.Live() <==>
              if r.Tombstoned() then r.RestoreWins(restoredAt)
              else !r.DeleteWins(deletedAt) || deletedAt < restoredAt
  {
    var deleted := Handle(r, Deleted(file, deletedAt)).record;
    assert deleted == if r.Live() && r.DeleteWins(deletedAt) then r.RemoveFile(deletedAt) else r;
  }

  /** The forgotten restore: announced first it is a no-op and the older delete lands; announced second it wins. */
  lemma RestoreIsForgotten(file: FileId, path: LogicalPath, hash: Hash)
    ensures var r := Record(Some(Row(path, 1, false, 0, 0)), [Version(hash, 1, 1)], map[], false);
            Deliver(r, [Restored(file, hash, 1, 5), Deleted(file, 3)]).Tombstoned()
            && Deliver(r, [Deleted(file, 3), Restored(file, hash, 1, 5)]).Live()
  {
    var r := Record(Some(Row(path, 1, false, 0, 0)), [Version(hash, 1, 1)], map[], false);
    DeliverTwo(r, Restored(file, hash, 1, 5), Deleted(file, 3));
    DeliverTwo(r, Deleted(file, 3), Restored(file, hash, 1, 5));
  }

  /** The forgotten delete: announced first to a dead file it is dropped and the older restore wins. */
  lemma DeleteIsForgotten(file: FileId, path: LogicalPath, hash: Hash)
    ensures var r := Record(Some(Row(path, 1, true, 2, 0)), [Version(hash, 1, 1)], map[], false);
            Deliver(r, [Deleted(file, 7), Restored(file, hash, 1, 5)]).Live()
            && Deliver(r, [Restored(file, hash, 1, 5), Deleted(file, 7)]).Tombstoned()
  {
    var r := Record(Some(Row(path, 1, true, 2, 0)), [Version(hash, 1, 1)], map[], false);
    DeliverTwo(r, Restored(file, hash, 1, 5), Deleted(file, 7));
    DeliverTwo(r, Deleted(file, 7), Restored(file, hash, 1, 5));
  }

  lemma DeliverTwo(r: Record, first: Change, second: Change)
    ensures Deliver(r, [first, second]) == Handle(Handle(r, first).record, second).record
  {
    assert [first, second][..1] == [first] && [first][..0] == [];
    assert Deliver(r, [first]) == Handle(r, first).record;
  }
}
