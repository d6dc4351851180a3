/**
 Removing duplicate files: live files sharing a logical path and latest content hash are grouped, the
 lowest id of each group survives and takes over the tags of the others.
 */
module Duplicates {
  import opened Types
  import opened Catalog
  import opened CatalogTables
  import opened Outgoing
  import opened CatalogRuns
  import Writer = CatalogWriter

  datatype FileInfo = FileInfo(file: FileId, path: LogicalPath, hash: Hash, deleted: bool)

  /** What makes files duplicates of each other. */
  type Key = (LogicalPath, Hash)

  datatype DuplicateSet = DuplicateSet(path: LogicalPath, hash: Hash, files: seq<FileId>) {
    function Key(): Key { (path, hash) }
  }

  datatype DuplicatePlan = DuplicatePlan(
    path: LogicalPath, hash: Hash, kept: FileId, deleted: seq<FileId>, tagsMerged: seq<TagId>)

  // ---- order ----

  predicate Before(a: string, b: string) {
    b != [] && (a == [] || a[0] < b[0] || (a[0] == b[0] && Before(a[1..], b[1..])))
  }

  /** The order of dictionaries: the first character that differs decides, and a prefix goes first. */
  lemma {:induction false} BeforeMeans(a: string, b: string)
    ensures Before(a, b) <==>
              (a < b) || exists i :: 0 <= i < |a| && i < |b| && a[..i] == b[..i] && a[i] < b[i]
    decreases |a|
  {
    if a != [] && b != [] {
      assert a == [a[0]] + a[1..] && b == [b[0]] + b[1..];
      if a[0] == b[0] {
        BeforeMeans(a[1..], b[1..]);
        if i :| 0 <= i < |a[1..]| && i < |b[1..]| && a[1..][..i] == b[1..][..i] && a[1..][i] < b[1..][i] {
          assert a[..i + 1] == [a[0]] + a[1..][..i] && b[..i + 1] == [b[0]] + b[1..][..i];
          assert a[i + 1] < b[i + 1];
        }
        if i :| 0 <= i < |a| && i < |b| && a[..i] == b[..i] && a[i] < b[i] {
          assert a[1..][..i - 1] == a[..i][1..] && b[1..][..i - 1] == b[..i][1..];
          assert a[1..][i - 1] < b[1..][i - 1];
        }
      } else if a[0] < b[0] {
        assert a[..0] == b[..0];
      } else {
        forall i | 0 <= i < |a| && i < |b| && a[..i] == b[..i] ensures a[i] >= b[i] {
          if i > 0 { SameFirst(a, b, i); }
        }
      }
    }
  }

  lemma SameFirst(a: string, b: string, i: nat)
    requires 0 < i < |a| && i < |b| && a[..i] == b[..i]
    ensures a[0] == b[0]
  {
    assert a[..i][0] == a[0] && b[..i][0] == b[0];
  }

  lemma {:induction false} BeforeIsStrict(a: string, b: string)
    ensures !(Before(a, b) && Before(b, a)) && !Before(a, a)
    ensures Before(a, b) || Before(b, a) || a == b
  {
    if a != [] && b != [] {
      BeforeIsStrict(a[1..], b[1..]);
      assert a == [a[0]] + a[1..] && b == [b[0]] + b[1..];
    }
    if a != [] { BeforeIsStrict(a[1..], a[1..]); }
  }

  lemma {:induction false} BeforeIsTransitive(a: string, b: string, c: string)
    requires Before(a, b) && Before(b, c)
    ensures Before(a, c)
  {
    if a != [] && a[0] == b[0] && b[0] == c[0] { BeforeIsTransitive(a[1..], b[1..], c[1..]); }
  }

  /** By logical path, then by content hash. */
  predicate KeyBefore(a: Key, b: Key) {
    Before(a.0, b.0) || (a.0 == b.0 && Before(a.1, b.1))
  }

  lemma KeyOrder(a: Key, b: Key, c: Key)
    ensures KeyBefore(a, b) || KeyBefore(b, a) || a == b
    ensures KeyBefore(a, b) && KeyBefore(b, c) ==> KeyBefore(a, c)
  {
    BeforeIsStrict(a.0, b.0);
    BeforeIsStrict(a.1, b.1);
    if Before(a.0, b.0) && Before(b.0, c.0) { BeforeIsTransitive(a.0, b.0, c.0); }
    if Before(a.1, b.1) && Before(b.1, c.1) { BeforeIsTransitive(a.1, b.1, c.1); }
  }

  predicate Ascending(ids: seq<int>) { forall i, j :: 0 <= i < j < |ids| ==> ids[i] < ids[j] }

  /** Distinct ids in ascending order. */
  method SortIds(ids: seq<int>) returns (sorted: seq<int>)
    requires Distinct(ids)
    ensures Ascending(sorted) && forall id :: id in sorted <==> id in ids
    ensures |sorted| == |ids|
  {
    sorted := [];
    for i := 0 to |ids|
      invariant Ascending(sorted) && |sorted| == i
      invariant forall id :: id in sorted <==> id in ids[..i]
    {
      sorted := InsertId(sorted, ids[i]);
    }
    assert ids[..|ids|] == ids;
  }

  method InsertId(ids: seq<int>, id: int) returns (next: seq<int>)
    requires Ascending(ids) && id !in ids
    ensures Ascending(next) && |next| == |ids| + 1 && forall x :: x in next <==> x in ids || x == id
  {
    var at := 0;
    while at < |ids| && ids[at] < id
      invariant at <= |ids| && forall k :: 0 <= k < at ==> ids[k] < id
    {
      at := at + 1;
    }
    next := ids[..at] + [id] + ids[at..];
  }

  predicate KeysAscend(sets: seq<DuplicateSet>) {
    forall i, j :: 0 <= i < j < |sets| ==> KeyBefore(sets[i].Key(), sets[j].Key())
  }

  method InsertSet(sets: seq<DuplicateSet>, s: DuplicateSet) returns (next: seq<DuplicateSet>)
    requires KeysAscend(sets) && forall other <- sets :: other.Key() != s.Key()
    ensures KeysAscend(next) && forall x :: x in next <==> x in sets || x == s
  {
    var at := 0;
    while at < |sets| && KeyBefore(sets[at].Key(), s.Key())
      invariant at <= |sets| && forall k :: 0 <= k < at ==> KeyBefore(sets[k].Key(), s.Key())
    {
      at := at + 1;
    }
    forall k | at <= k < |sets| ensures KeyBefore(s.Key(), sets[k].Key()) {
      assert sets[at] in sets;
      KeyOrder(s.Key(), sets[at].Key(), sets[k].Key());
    }
    next := sets[..at] + [s] + sets[at..];
  }

  // ---- grouping ----

  /** The live members of a class in a listing. */
  ghost predicate Member(files: seq<FileInfo>, key: Key, file: FileId) {
    exists info :: info in files && !info.deleted && info.file == file && (info.path, info.hash) == key
  }

  /** A listing names each file once. */
  predicate Listing(files: seq<FileInfo>) {
    forall i, j :: 0 <= i < j < |files| ==> files[i].file != files[j].file
  }

  ghost predicate Grouped(files: seq<FileInfo>, groups: map<Key, seq<FileId>>) {
    (forall key <- groups :: groups[key] != [] && Distinct(groups[key]))
    && forall key, file :: Member(files, key, file) <==> key in groups && file in groups[key]
  }

  lemma GroupOne(files: seq<FileInfo>, i: nat, groups: map<Key, seq<FileId>>)
    requires Listing(files) && i < |files| && Grouped(files[..i], groups)
    ensures var info, key := files[i], (files[i].path, files[i].hash);
            Grouped(files[..i + 1],
                    if info.deleted then groups
                    else groups[key := (if key in groups then groups[key] else []) + [info.file]])
  {
    var info, key := files[i], (files[i].path, files[i].hash);
    var before, after := files[..i], files[..i + 1];
    assert after == before + [info];
    assert forall x <- before :: x.file != info.file;
    assert !Member(before, key, info.file);
    forall k, f ensures Member(after, k, f) <==> Member(before, k, f) || (!info.deleted && k == key && f == info.file) {
      if !info.deleted && k == key && f == info.file { assert info in after; }
      if Member(before, k, f) {
        var x :| x in before && !x.deleted && x.file == f && (x.path, x.hash) == k;
        assert x in after;
      }
    }
  }

  method GroupFiles(files: seq<FileInfo>) returns (groups: map<Key, seq<FileId>>)
    requires Listing(files)
    ensures Grouped(files, groups)
  {
    groups := map[];
    for i := 0 to |files|
      invariant Grouped(files[..i], groups)
    {
      GroupOne(files, i, groups);
      if files[i].deleted { continue; }
      var key := (files[i].path, files[i].hash);
      groups := groups[key := (if key in groups then groups[key] else []) + [files[i].file]];
    }
    assert files[..|files|] == files;
  }

  /** Exactly the classes of two or more, each once with exactly its members in order, the classes in key order. */
  ghost predicate DuplicateSets(files: seq<FileInfo>, sets: seq<DuplicateSet>) {
    KeysAscend(sets)
    && (forall s <- sets ::
          Ascending(s.files) && |s.files| >= 2 && forall f :: f in s.files <==> Member(files, s.Key(), f))
    && forall key, f, g ::
         Member(files, key, f) && Member(files, key, g) && f != g ==> exists s <- sets :: s.Key() == key
  }

  method FindDuplicateSets(files: seq<FileInfo>) returns (sets: seq<DuplicateSet>)
    requires Listing(files)
    ensures DuplicateSets(files, sets)
  {
    var groups := GroupFiles(files);
    var keys := Enumerate(groups.Keys);
    sets := [];
    for i := 0 to |keys|
      invariant KeysAscend(sets)
      invariant forall s <- sets :: Collected(files, groups, s) && s.Key() in keys[..i]
      invariant forall k <- keys[..i] | |groups[k]| >= 2 :: exists s <- sets :: s.Key() == k
    {
      var key := keys[i];
      assert keys[..i + 1] == keys[..i] + [key];
      if |groups[key]| < 2 { continue; }
      var sorted := SortIds(groups[key]);
      var s := DuplicateSet(key.0, key.1, sorted);
      ghost var before := sets;
      sets := InsertSet(sets, s);
      assert s in sets && forall x <- before :: x in sets;
    }
    assert keys[..|keys|] == keys;
    forall key, f, g | Member(files, key, f) && Member(files, key, g) && f != g
      ensures exists s <- sets :: s.Key() == key
    {
      assert key in groups && f in groups[key] && g in groups[key];
      assert |groups[key]| >= 2;
    }
  }

  ghost predicate Collected(files: seq<FileInfo>, groups: map<Key, seq<FileId>>, s: DuplicateSet) {
    Ascending(s.files) && |s.files| >= 2 && forall f :: f in s.files <==> Member(files, s.Key(), f)
  }

  /** The sets are ordered by path, and those of one path by hash. */
  lemma SetsInOrder(files: seq<FileInfo>, sets: seq<DuplicateSet>, i: nat, j: nat)
    requires DuplicateSets(files, sets) && i < j < |sets|
    ensures Before(sets[i].path, sets[j].path) || (sets[i].path == sets[j].path && Before(sets[i].hash, sets[j].hash))
  {
  }

  /** No file is in two sets. */
  lemma SetsAreDisjoint(files: seq<FileInfo>, sets: seq<DuplicateSet>, i: nat, j: nat, file: FileId)
    requires Listing(files) && DuplicateSets(files, sets) && i < |sets| && j < |sets|
    requires file in sets[i].files && file in sets[j].files
    ensures i == j
  {
    assert sets[i] in sets && sets[j] in sets;
    assert Member(files, sets[i].Key(), file) && Member(files, sets[j].Key(), file);
    var x :| x in files && !x.deleted && x.file == file && (x.path, x.hash) == sets[i].Key();
    var y :| y in files && !y.deleted && y.file == file && (y.path, y.hash) == sets[j].Key();
    var a :| 0 <= a < |files| && files[a] == x;
    var b :| 0 <= b < |files| && files[b] == y;
    assert a == b;
    if i != j {
      KeyIrreflexive(sets[i].Key());
    }
  }

  lemma KeyIrreflexive(key: Key)
    ensures !KeyBefore(key, key)
  {
    BeforeIsStrict(key.0, key.0);
    BeforeIsStrict(key.1, key.1);
  }

  // ---- planning ----

  function TagsIn(tags: map<FileId, set<TagId>>, file: FileId): set<TagId> {
    if file in tags then tags[file] else {}
  }

  /** Keep the lowest id, delete the rest, and give the survivor every tag of theirs it lacks. */
  ghost predicate PlanOf(s: DuplicateSet, tags: map<FileId, set<TagId>>, plan: DuplicatePlan)
    requires s.files != []
  {
    plan.path == s.path && plan.hash == s.hash
    && s.files == [plan.kept] + plan.deleted
    && Ascending(plan.tagsMerged)
    && forall tag :: tag in plan.tagsMerged <==>
                       tag !in TagsIn(tags, plan.kept) && exists file <- plan.deleted :: tag in TagsIn(tags, file)
  }

  method PlanDuplicateGroup(s: DuplicateSet, tags: map<FileId, set<TagId>>) returns (plan: DuplicatePlan)
    requires |s.files| >= 2
    ensures PlanOf(s, tags, plan)
  {
    var kept, deleted := s.files[0], s.files[1..];
    var keptTags := TagsIn(tags, kept);
    var merged := set file, tag | file in deleted && tag in TagsIn(tags, file) && tag !in keptTags :: tag;
    var members := Enumerate(merged);
    var sorted := SortIds(members);
    plan := DuplicatePlan(s.path, s.hash, kept, deleted, sorted);
  }

  ghost predicate Plans(files: seq<FileInfo>, tags: map<FileId, set<TagId>>, plans: seq<DuplicatePlan>) {
    exists sets :: PlannedFrom(files, tags, sets, plans)
  }

  ghost predicate PlannedFrom(files: seq<FileInfo>, tags: map<FileId, set<TagId>>, sets: seq<DuplicateSet>,
                              plans: seq<DuplicatePlan>)
  {
    DuplicateSets(files, sets) && |sets| == |plans| && forall i :: 0 <= i < |sets| ==> PlanOf(sets[i], tags, plans[i])
  }

  /** What a plan says of the class it is for, whatever else the listing holds. */
  lemma PlanFacts(files: seq<FileInfo>, tags: map<FileId, set<TagId>>, plans: seq<DuplicatePlan>, i: nat)
    requires Plans(files, tags, plans) && i < |plans|
    ensures var plan := plans[i]; var key := (plan.path, plan.hash);
            Member(files, key, plan.kept)
            && (forall f :: f in plan.deleted <==> Member(files, key, f) && f != plan.kept)
            && (forall f <- plan.deleted :: plan.kept < f)
  {
    var sets: seq<DuplicateSet> :| PlannedFrom(files, tags, sets, plans);
    var s, plan := sets[i], plans[i];
    assert s in sets && PlanOf(s, tags, plan);
    assert s.files[0] == plan.kept && s.files[1..] == plan.deleted;
    assert plan.kept in s.files;
    forall f ensures f in s.files <==> f == plan.kept || f in plan.deleted {
    }
    forall f | f in plan.deleted ensures plan.kept < f {
      var k :| 0 <= k < |plan.deleted| && plan.deleted[k] == f;
      assert s.files[k + 1] == f;
    }
  }

  /** The survivor gains exactly the tags some member has and it lacks, each once, in ascending order. */
  lemma MergedAreMissing(files: seq<FileInfo>, tags: map<FileId, set<TagId>>, plans: seq<DuplicatePlan>, i: nat,
                         tag: TagId)
    requires Plans(files, tags, plans) && i < |plans|
    ensures var plan := plans[i];
            (tag in plan.tagsMerged <==>
               (exists f :: Member(files, (plan.path, plan.hash), f) && f in tags && tag in tags[f])
               && !(plan.kept in tags && tag in tags[plan.kept]))
            && forall j, k :: 0 <= j < k < |plan.tagsMerged| ==> plan.tagsMerged[j] < plan.tagsMerged[k]
  {
    var plan := plans[i];
    PlanFacts(files, tags, plans, i);
    var sets: seq<DuplicateSet> :| PlannedFrom(files, tags, sets, plans);
    assert PlanOf(sets[i], tags, plan);
    if tag in plan.tagsMerged {
      var f :| f in plan.deleted && tag in TagsIn(tags, f);
      assert Member(files, (plan.path, plan.hash), f);
    }
  }

  /**
   Whichever part of the files a device sees, no plan it makes deletes the lowest id of a class: so
   devices planning at the same time from different views cannot between them delete every copy.
   */
  lemma SurvivorUnderPartialViews(all: seq<FileInfo>, view: seq<FileInfo>, tags: map<FileId, set<TagId>>,
                                  plans: seq<DuplicatePlan>, key: Key, lowest: FileId, i: nat)
    requires Listing(all) && (forall info <- view :: info in all) && Plans(view, tags, plans) && i < |plans|
    requires Member(all, key, lowest) && forall f :: Member(all, key, f) ==> lowest <= f
    ensures lowest !in plans[i].deleted
  {
    PlanFacts(view, tags, plans, i);
    var mine := (plans[i].path, plans[i].hash);
    if lowest in plans[i].deleted {
      ViewMember(all, view, mine, lowest);
      ViewMember(all, view, mine, plans[i].kept);
      OneClass(all, mine, key, lowest);
    }
  }

  lemma ViewMember(all: seq<FileInfo>, view: seq<FileInfo>, key: Key, file: FileId)
    requires (forall info <- view :: info in all) && Member(view, key, file)
    ensures Member(all, key, file)
  {
  }

  /** A file has one path and one latest hash. */
  lemma OneClass(files: seq<FileInfo>, key: Key, other: Key, file: FileId)
    requires Listing(files) && Member(files, key, file) && Member(files, other, file)
    ensures key == other
  {
    var x :| x in files && !x.deleted && x.file == file && (x.path, x.hash) == key;
    var y :| y in files && !y.deleted && y.file == file && (y.path, y.hash) == other;
    var i :| 0 <= i < |files| && files[i] == x;
    var j :| 0 <= j < |files| && files[j] == y;
  }

  // ---- applying ----

  /** The stamp drawn for the delete of a file, or for its edit of a tag. */
  type Stamps = (FileId, Option<TagId>) -> Stamp

  function InfoOf(file: FileId, r: Record): FileInfo
    requires r.Live() && r.versions != []
  {
    FileInfo(file, r.row.value.path, r.Latest().value.hash, false)
  }

  /** The live files of a catalog, as the planner is given them. */
  ghost predicate Lists(store: Store, files: seq<FileInfo>) {
    Listing(files)
    && (forall info <- files :: !info.deleted)
    && (forall info <- files ::
          var r := RecordOf(store, info.file); r.Live() && r.versions != [] && info == InfoOf(info.file, r))
    && forall file :: RecordOf(store, file).Live() && RecordOf(store, file).versions != [] ==>
                        InfoOf(file, RecordOf(store, file)) in files
  }

  /** A listing has every live file with a version, under its path and the hash of its latest version, and no other. */
  lemma ListsMeans(store: Store, files: seq<FileInfo>, file: FileId)
    requires Lists(store, files)
    ensures var r := RecordOf(store, file);
            (exists info <- files :: info.file == file)
            <==> r.row.Some? && !r.row.value.deleted && r.versions != []
    ensures forall info <- files :: info.file == file ==>
              var r := RecordOf(store, file);
              r.row.Some? && r.versions != [] && info.path == r.row.value.path
              && info.hash == r.versions[|r.versions| - 1].hash
  {
    var r := RecordOf(store, file);
    if r.Live() && r.versions != [] { assert InfoOf(file, r) in files && InfoOf(file, r).file == file; }
  }

  /** The tags of every file the plans name were read from the catalog. */
  ghost predicate ReadsTags(store: Store, tags: map<FileId, set<TagId>>, plans: seq<DuplicatePlan>) {
    forall plan, file ::
      plan in plans && Planning(plan, file) ==> TagsIn(tags, file) == RecordOf(store, file).LiveTags()
  }

  ghost predicate Planning(plan: DuplicatePlan, file: FileId) { file == plan.kept || file in plan.deleted }

  /** The catalog once the changes have been applied as local ones. */
  function ApplyAll(store: Store, changes: seq<Change>): Store {
    After(store, LocalChanges(changes))
  }

  lemma ApplyAllLast(store: Store, changes: seq<Change>, last: Change)
    ensures var before := ApplyAll(store, changes);
            ApplyAll(store, changes + [last]) == before[last.file := Handle(RecordOf(before, last.file), last).record]
  {
    LocalChangesLast(changes, last);
    RunLast(Setting([], [], map[]), store, LocalChanges(changes), Plain(last.file, Meta(last), LOCAL_ORIGIN));
  }

  /** The changes a device makes of its plans, plan by plan: the deletes first, then the survivor's new tags. */
  function ChangesOf(plan: DuplicatePlan, stamps: Stamps): seq<Change> {
    seq(|plan.deleted|, i requires 0 <= i < |plan.deleted| => Deleted(plan.deleted[i], stamps(plan.deleted[i], None)))
    + seq(|plan.tagsMerged|, i requires 0 <= i < |plan.tagsMerged| =>
        Tagged(plan.kept, plan.tagsMerged[i], stamps(plan.kept, Some(plan.tagsMerged[i]))))
  }

  function AllChanges(plans: seq<DuplicatePlan>, stamps: Stamps): seq<Change>
    decreases |plans|
  {
    if plans == [] then [] else AllChanges(plans[..|plans| - 1], stamps) + ChangesOf(plans[|plans| - 1], stamps)
  }

  /** Plan by plan: the changes of the first plans come first. */
  lemma {:induction false} PlansInOrder(plans: seq<DuplicatePlan>, stamps: Stamps, i: nat)
    requires i <= |plans|
    ensures AllChanges(plans[..i], stamps) <= AllChanges(plans, stamps)
    decreases |plans|
  {
    if i < |plans| {
      assert plans[..|plans| - 1][..i] == plans[..i];
      PlansInOrder(plans[..|plans| - 1], stamps, i);
    } else {
      assert plans[..i] == plans;
    }
  }

  /** The stamps drawn for an unpurged file beat everything its record holds. */
  ghost predicate Winning(r: Record, file: FileId, stamps: Stamps) {
    !r.purged && (r.row.Some? ==> Max(r.LatestObserved(), r.row.value.restoredAt) < stamps(file, None))
    && forall tag <- r.edges :: r.edges[tag].modifiedAt < stamps(file, Some(tag))
  }

  /** A delete or a tag of a live file, with the winning stamp drawn for it. */
  ghost predicate Drawn(store: Store, stamps: Stamps, change: Change) {
    RecordOf(store, change.file).Live() && Winning(RecordOf(store, change.file), change.file, stamps)
    && ((change.Deleted? && change.deletedAt == stamps(change.file, None))
        || (change.Tagged? && change.modifiedAt == stamps(change.file, Some(change.tag))))
  }

  /** The record of a file once some of the changes have been applied, in any order. */
  ghost predicate Applied(r: Record, next: Record, file: FileId, changes: seq<Change>, stamps: Stamps) {
    next.versions == r.versions && next.purged == r.purged
    && next.row
       == (if Deleted(file, stamps(file, None)) in changes then r.RemoveFile(stamps(file, None)).row else r.row)
    && forall tag ::
         if Tagged(file, tag, stamps(file, Some(tag))) in changes
         then tag in next.edges && next.edges[tag] == TagEdge(stamps(file, Some(tag)), false)
         else
           (tag in next.edges <==> tag in r.edges)
           && (tag in r.edges ==> tag in next.edges && next.edges[tag] == r.edges[tag])
  }

  lemma ApplyOne(store: Store, r: Record, next: Record, file: FileId, changes: seq<Change>, change: Change,
                 stamps: Stamps)
    requires r == RecordOf(store, file) && Applied(r, next, file, changes, stamps) && Drawn(store, stamps, change)
    ensures var after := if change.file == file then Handle(next, change).record else next;
            Applied(r, after, file, changes + [change], stamps)
  {
    var after := if change.file == file then Handle(next, change).record else next;
    forall tag
      ensures if Tagged(file, tag, stamps(file, Some(tag))) in changes + [change]
              then tag in after.edges && after.edges[tag] == TagEdge(stamps(file, Some(tag)), false)
              else
                (tag in after.edges <==> tag in r.edges)
                && (tag in r.edges ==> tag in after.edges && after.edges[tag] == r.edges[tag])
    {
    }
  }

  lemma {:induction false} ApplyAllIs(store: Store, changes: seq<Change>, stamps: Stamps, file: FileId)
    requires forall c <- changes :: Drawn(store, stamps, c)
    ensures Applied(RecordOf(store, file), RecordOf(ApplyAll(store, changes), file), file, changes, stamps)
    decreases |changes|
  {
    if changes != [] {
      var n := |changes| - 1;
      assert changes[n] in changes && forall c <- changes[..n] :: c in changes;
      assert changes == changes[..n] + [changes[n]];
      ApplyAllIs(store, changes[..n], stamps, file);
      ApplyAllLast(store, changes[..n], changes[n]);
      var before := RecordOf(ApplyAll(store, changes[..n]), file);
      ApplyOne(store, RecordOf(store, file), before, file, changes[..n], changes[n], stamps);
    }
  }

  /** Which changes come of the plans. */
  ghost predicate Planned(plans: seq<DuplicatePlan>, stamps: Stamps, change: Change) {
    (change.Deleted? && change.deletedAt == stamps(change.file, None)
     && exists plan <- plans :: change.file in plan.deleted)
    || (change.Tagged? && change.modifiedAt == stamps(change.file, Some(change.tag))
        && exists plan <- plans :: change.file == plan.kept && change.tag in plan.tagsMerged)
  }

  lemma {:induction false} AllChangesAre(plans: seq<DuplicatePlan>, stamps: Stamps, change: Change)
    ensures change in AllChanges(plans, stamps) <==> Planned(plans, stamps, change)
    decreases |plans|
  {
    if plans != [] {
      var n := |plans| - 1;
      var plan := plans[n];
      AllChangesAre(plans[..n], stamps, change);
      assert plans == plans[..n] + [plan];
      PlanChangesAre(plan, stamps, change);
    }
  }

  lemma PlanChangesAre(plan: DuplicatePlan, stamps: Stamps, change: Change)
    ensures change in ChangesOf(plan, stamps) <==>
              (change.Deleted? && change.deletedAt == stamps(change.file, None) && change.file in plan.deleted)
              || (change.Tagged? && change.modifiedAt == stamps(change.file, Some(change.tag))
                  && change.file == plan.kept && change.tag in plan.tagsMerged)
  {
    var changes := ChangesOf(plan, stamps);
    if change.Deleted? && change.deletedAt == stamps(change.file, None) && change.file in plan.deleted {
      var i :| 0 <= i < |plan.deleted| && plan.deleted[i] == change.file;
      assert changes[i] == change;
    }
    if change.Tagged? && change.modifiedAt == stamps(change.file, Some(change.tag))
       && change.file == plan.kept && change.tag in plan.tagsMerged
    {
      var i :| 0 <= i < |plan.tagsMerged| && plan.tagsMerged[i] == change.tag;
      assert changes[|plan.deleted| + i] == change;
    }
  }

  /** Everything a device's full plan needs: what it saw, what it planned, and stamps that win on the files it names. */
  ghost predicate Deduplicates(store: Store, files: seq<FileInfo>, tags: map<FileId, set<TagId>>,
                               plans: seq<DuplicatePlan>, stamps: Stamps)
  {
    Lists(store, files) && ReadsTags(store, tags, plans) && Plans(files, tags, plans)
    && forall plan, file :: plan in plans && Planning(plan, file) ==> Winning(RecordOf(store, file), file, stamps)
  }

  lemma PlansAreDrawn(store: Store, files: seq<FileInfo>, tags: map<FileId, set<TagId>>, plans: seq<DuplicatePlan>,
                      stamps: Stamps, file: FileId)
    requires Deduplicates(store, files, tags, plans, stamps)
    ensures var changes := AllChanges(plans, stamps);
            Applied(RecordOf(store, file), RecordOf(ApplyAll(store, changes), file), file, changes, stamps)
  {
    forall c | c in AllChanges(plans, stamps) ensures Drawn(store, stamps, c) {
      AllChangesAre(plans, stamps, c);
      var plan :| plan in plans && Planning(plan, c.file);
      var i :| 0 <= i < |plans| && plans[i] == plan;
      PlanFacts(files, tags, plans, i);
      assert Member(files, (plan.path, plan.hash), c.file);
    }
    ApplyAllIs(store, AllChanges(plans, stamps), stamps, file);
  }

  lemma DeletedAreGone(store: Store, files: seq<FileInfo>, tags: map<FileId, set<TagId>>, plans: seq<DuplicatePlan>,
                       stamps: Stamps, i: nat, f: FileId)
    requires Deduplicates(store, files, tags, plans, stamps) && i < |plans| && f in plans[i].deleted
    ensures RecordOf(ApplyAll(store, AllChanges(plans, stamps)), f).Tombstoned()
  {
    PlanFacts(files, tags, plans, i);
    PlansAreDrawn(store, files, tags, plans, stamps, f);
    AllChangesAre(plans, stamps, Deleted(f, stamps(f, None)));
    assert Member(files, (plans[i].path, plans[i].hash), f);
    assert plans[i] in plans && Planning(plans[i], f);
  }

  lemma KeptStays(store: Store, files: seq<FileInfo>, tags: map<FileId, set<TagId>>, plans: seq<DuplicatePlan>,
                  stamps: Stamps, i: nat)
    requires Deduplicates(store, files, tags, plans, stamps) && i < |plans|
    ensures RecordOf(ApplyAll(store, AllChanges(plans, stamps)), plans[i].kept).Live()
  {
    PlanFacts(files, tags, plans, i);
    PlansAreDrawn(store, files, tags, plans, stamps, plans[i].kept);
    KeptIsKept(files, tags, plans, i, stamps);
  }

  /** Deleted members are gone, and the survivor carries the tags of the whole class. */
  lemma PlanIsCarriedOut(store: Store, files: seq<FileInfo>, tags: map<FileId, set<TagId>>, plans: seq<DuplicatePlan>,
                         stamps: Stamps, i: nat)
    requires Deduplicates(store, files, tags, plans, stamps) && i < |plans|
    ensures var after := ApplyAll(store, AllChanges(plans, stamps));
            var key := (plans[i].path, plans[i].hash);
            (forall f <- plans[i].deleted :: RecordOf(after, f).Tombstoned())
            && RecordOf(after, plans[i].kept).Live()
            && forall tag :: tag in RecordOf(after, plans[i].kept).LiveTags() <==>
                               exists f :: Member(files, key, f) && tag in RecordOf(store, f).LiveTags()
  {
    var after := ApplyAll(store, AllChanges(plans, stamps));
    forall f | f in plans[i].deleted ensures RecordOf(after, f).Tombstoned() {
      DeletedAreGone(store, files, tags, plans, stamps, i, f);
    }
    KeptStays(store, files, tags, plans, stamps, i);
    forall tag
      ensures tag in RecordOf(after, plans[i].kept).LiveTags() <==>
                exists f :: Member(files, (plans[i].path, plans[i].hash), f) && tag in RecordOf(store, f).LiveTags()
    {
      KeptTags(store, files, tags, plans, stamps, i, tag);
    }
  }

  /** Files no plan names are left as they are, purged ones included. */
  lemma OthersStay(store: Store, files: seq<FileInfo>, tags: map<FileId, set<TagId>>, plans: seq<DuplicatePlan>,
                   stamps: Stamps, file: FileId)
    requires Deduplicates(store, files, tags, plans, stamps) && forall plan <- plans :: !Planning(plan, file)
    ensures RecordOf(ApplyAll(store, AllChanges(plans, stamps)), file) == RecordOf(store, file)
  {
    var changes := AllChanges(plans, stamps);
    PlansAreDrawn(store, files, tags, plans, stamps, file);
    forall c | c in changes ensures c.file != file {
      AllChangesAre(plans, stamps, c);
    }
    NoneApplied(RecordOf(store, file), RecordOf(ApplyAll(store, changes), file), file, changes, stamps);
  }

  lemma NoneApplied(r: Record, next: Record, file: FileId, changes: seq<Change>, stamps: Stamps)
    requires Applied(r, next, file, changes, stamps) && forall c <- changes :: c.file != file
    ensures next == r
  {
    forall tag ensures tag in next.edges <==> tag in r.edges
               ensures tag in r.edges ==> tag in next.edges && next.edges[tag] == r.edges[tag]
    {
      assert Tagged(file, tag, stamps(file, Some(tag))) !in changes;
    }
    assert next.edges == r.edges;
  }

  /** No plan deletes what another keeps. */
  lemma KeptIsKept(files: seq<FileInfo>, tags: map<FileId, set<TagId>>, plans: seq<DuplicatePlan>, i: nat,
                   stamps: Stamps)
    requires Listing(files) && Plans(files, tags, plans) && i < |plans|
    ensures Deleted(plans[i].kept, stamps(plans[i].kept, None)) !in AllChanges(plans, stamps)
  {
    var kept := plans[i].kept;
    AllChangesAre(plans, stamps, Deleted(kept, stamps(kept, None)));
    if plan :| plan in plans && kept in plan.deleted {
      var j :| 0 <= j < |plans| && plans[j] == plan;
      SamePlan(files, tags, plans, i, j, kept);
    }
  }

  /** Plans that have a file in common are the same plan. */
  lemma SamePlan(files: seq<FileInfo>, tags: map<FileId, set<TagId>>, plans: seq<DuplicatePlan>, i: nat, j: nat,
                 file: FileId)
    requires Listing(files) && Plans(files, tags, plans) && i < |plans| && j < |plans|
    requires file == plans[i].kept && (file == plans[j].kept || file in plans[j].deleted)
    ensures i == j && file !in plans[j].deleted
  {
    PlanFacts(files, tags, plans, i);
    PlanFacts(files, tags, plans, j);
    OneClass(files, (plans[i].path, plans[i].hash), (plans[j].path, plans[j].hash), file);
    var sets: seq<DuplicateSet> :| PlannedFrom(files, tags, sets, plans);
    assert PlanOf(sets[i], tags, plans[i]) && PlanOf(sets[j], tags, plans[j]);
    KeyIrreflexive(sets[i].Key());
  }

  lemma KeptTags(store: Store, files: seq<FileInfo>, tags: map<FileId, set<TagId>>, plans: seq<DuplicatePlan>,
                 stamps: Stamps, i: nat, tag: TagId)
    requires Deduplicates(store, files, tags, plans, stamps) && i < |plans|
    ensures tag in RecordOf(ApplyAll(store, AllChanges(plans, stamps)), plans[i].kept).LiveTags() <==>
              exists f :: Member(files, (plans[i].path, plans[i].hash), f) && tag in RecordOf(store, f).LiveTags()
  {
    var plan, key := plans[i], (plans[i].path, plans[i].hash);
    var edit := Tagged(plan.kept, tag, stamps(plan.kept, Some(tag)));
    PlansAreDrawn(store, files, tags, plans, stamps, plan.kept);
    AllChangesAre(plans, stamps, edit);
    MergedTags(store, files, tags, plans, i, tag);
    if p :| p in plans && p.kept == plan.kept && tag in p.tagsMerged {
      var j :| 0 <= j < |plans| && plans[j] == p;
      SamePlan(files, tags, plans, i, j, plan.kept);
    }
  }

  lemma MergedTags(store: Store, files: seq<FileInfo>, tags: map<FileId, set<TagId>>, plans: seq<DuplicatePlan>, i: nat,
                   tag: TagId)
    requires Lists(store, files) && ReadsTags(store, tags, plans) && Plans(files, tags, plans) && i < |plans|
    ensures tag in plans[i].tagsMerged || tag in RecordOf(store, plans[i].kept).LiveTags() <==>
              exists f :: Member(files, (plans[i].path, plans[i].hash), f) && tag in RecordOf(store, f).LiveTags()
  {
    var plan, key := plans[i], (plans[i].path, plans[i].hash);
    PlanFacts(files, tags, plans, i);
    var sets: seq<DuplicateSet> :| PlannedFrom(files, tags, sets, plans);
    assert PlanOf(sets[i], tags, plan);
    forall f | Member(files, key, f) ensures TagsIn(tags, f) == RecordOf(store, f).LiveTags() {
      assert plan in plans && Planning(plan, f);
    }
    if tag in plan.tagsMerged {
      var f :| f in plan.deleted && tag in TagsIn(tags, f);
      assert Member(files, key, f) && tag in RecordOf(store, f).LiveTags();
    }
  }

  /** Once a plan is carried out there is nothing left to plan. */
  lemma SecondPlanIsEmpty(store: Store, files: seq<FileInfo>, tags: map<FileId, set<TagId>>, plans: seq<DuplicatePlan>,
                          stamps: Stamps, files': seq<FileInfo>, tags': map<FileId, set<TagId>>,
                          plans': seq<DuplicatePlan>)
    requires Deduplicates(store, files, tags, plans, stamps)
    requires Lists(ApplyAll(store, AllChanges(plans, stamps)), files') && Plans(files', tags', plans')
    ensures plans' == []
  {
    if plans' != [] {
      PlanFacts(files', tags', plans', 0);
      var key, f := (plans'[0].path, plans'[0].hash), plans'[0].kept;
      var g := SecondMember(files', tags', plans');
      WasMember(store, files, tags, plans, stamps, files', key, f);
      WasMember(store, files, tags, plans, stamps, files', key, g);
      OneOfTwoGoes(store, files, tags, plans, stamps, key, f, g);
    }
  }

  /** Of two members of a class, the full plan deletes at least one. */
  lemma OneOfTwoGoes(store: Store, files: seq<FileInfo>, tags: map<FileId, set<TagId>>, plans: seq<DuplicatePlan>,
                     stamps: Stamps, key: Key, f: FileId, g: FileId)
    requires Deduplicates(store, files, tags, plans, stamps) && Member(files, key, f) && Member(files, key, g) && f != g
    ensures var after := ApplyAll(store, AllChanges(plans, stamps));
            RecordOf(after, f).Tombstoned() || RecordOf(after, g).Tombstoned()
  {
    var i := PlanFor(files, tags, plans, key, f, g);
    PlanFacts(files, tags, plans, i);
    PlanIsCarriedOut(store, files, tags, plans, stamps, i);
  }

  lemma PlanFor(files: seq<FileInfo>, tags: map<FileId, set<TagId>>, plans: seq<DuplicatePlan>, key: Key, f: FileId,
                g: FileId) returns (i: nat)
    requires Plans(files, tags, plans) && Member(files, key, f) && Member(files, key, g) && f != g
    ensures i < |plans| && (plans[i].path, plans[i].hash) == key
  {
    var sets: seq<DuplicateSet> :| PlannedFrom(files, tags, sets, plans);
    var s :| s in sets && s.Key() == key;
    i :| 0 <= i < |sets| && sets[i] == s;
    assert PlanOf(sets[i], tags, plans[i]);
  }

  lemma SecondMember(files: seq<FileInfo>, tags: map<FileId, set<TagId>>, plans: seq<DuplicatePlan>) returns (g: FileId)
    requires Plans(files, tags, plans) && plans != []
    ensures Member(files, (plans[0].path, plans[0].hash), g) && g != plans[0].kept
  {
    var sets: seq<DuplicateSet> :| PlannedFrom(files, tags, sets, plans);
    assert sets[0] in sets && PlanOf(sets[0], tags, plans[0]);
    g := plans[0].deleted[0];
    PlanFacts(files, tags, plans, 0);
  }

  /** Applying a plan revives nothing and moves nothing, so what is a live member after it was one before. */
  lemma WasMember(store: Store, files: seq<FileInfo>, tags: map<FileId, set<TagId>>, plans: seq<DuplicatePlan>,
                  stamps: Stamps, files': seq<FileInfo>, key: Key, f: FileId)
    requires Deduplicates(store, files, tags, plans, stamps)
    requires Lists(ApplyAll(store, AllChanges(plans, stamps)), files') && Member(files', key, f)
    ensures Member(files, key, f) && RecordOf(ApplyAll(store, AllChanges(plans, stamps)), f).Live()
  {
    var r, next := RecordOf(store, f), RecordOf(ApplyAll(store, AllChanges(plans, stamps)), f);
    PlansAreDrawn(store, files, tags, plans, stamps, f);
    StillLive(r, next, f, AllChanges(plans, stamps), stamps);
    assert InfoOf(f, r) in files;
  }

  lemma StillLive(r: Record, next: Record, file: FileId, changes: seq<Change>, stamps: Stamps)
    requires Applied(r, next, file, changes, stamps) && next.Live()
    ensures r.Live() && r.row.value.path == next.row.value.path && r.versions == next.versions
  {
  }

  // ---- the command ----

  /** The listing so far, of these ids. */
  ghost predicate ListedUpTo(store: Store, ids: seq<FileId>, files: seq<FileInfo>) {
    Listing(files)
    && (forall info <- files :: info.file in ids && ListedAs(RecordOf(store, info.file), info))
    && forall id <- ids :: RecordOf(store, id).Live() && RecordOf(store, id).versions != [] ==>
                             InfoOf(id, RecordOf(store, id)) in files
  }

  predicate ListedAs(r: Record, info: FileInfo) {
    !info.deleted && r.Live() && r.versions != [] && info == InfoOf(info.file, r)
  }

  lemma ListOne(store: Store, ids: seq<FileId>, id: FileId, files: seq<FileInfo>)
    requires ListedUpTo(store, ids, files) && id !in ids
    ensures var r := RecordOf(store, id);
            ListedUpTo(store, ids + [id], if r.Live() && r.versions != [] then files + [InfoOf(id, r)] else files)
  {
    assert forall info <- files :: info.file != id;
  }

  /** The live files with a version, read from the tables. */
  method ListFiles(database: CatalogStore) returns (files: seq<FileInfo>)
    ensures Lists(database.Snapshot(), files)
  {
    database.SnapshotIsWhole();
    ghost var store := database.Snapshot();
    var ids := Enumerate(database.files.Keys);
    files := [];
    for i := 0 to |ids|
      invariant ListedUpTo(store, ids[..i], files)
    {
      assert ids[..i + 1] == ids[..i] + [ids[i]] && ids[i] !in ids[..i];
      ListOne(store, ids[..i], ids[i], files);
      var state, latest := database.DeletionState(ids[i]), database.LatestVersion(ids[i]);
      if state.Some? && !state.value.deleted && latest.Some? {
        files := files + [FileInfo(ids[i], state.value.path, latest.value.hash, false)];
      }
    }
    assert ids[..|ids|] == ids;
    assert forall file :: RecordOf(store, file).Live() ==> file in ids;
  }

  /** The members' tags, set by set. */
  method ReadMembers(database: CatalogStore, sets: seq<DuplicateSet>) returns (tags: map<FileId, set<TagId>>)
    ensures forall s, file :: s in sets && file in s.files ==> TagsIn(tags, file) == database.RecordOf(file).LiveTags()
  {
    tags := map[];
    for i := 0 to |sets|
      invariant forall file <- tags :: tags[file] == database.RecordOf(file).LiveTags()
      invariant forall s, file :: s in sets[..i] && file in s.files ==> file in tags
    {
      assert sets[..i + 1] == sets[..i] + [sets[i]];
      tags := ReadSet(database, sets[i].files, tags);
    }
    assert sets[..|sets|] == sets;
  }

  method ReadSet(database: CatalogStore, files: seq<FileId>, before: map<FileId, set<TagId>>)
    returns (tags: map<FileId, set<TagId>>)
    requires forall file <- before :: before[file] == database.RecordOf(file).LiveTags()
    ensures forall file <- tags :: tags[file] == database.RecordOf(file).LiveTags()
    ensures forall file :: file in before || file in files ==> file in tags
  {
    tags := before;
    for i := 0 to |files|
      invariant forall file <- tags :: tags[file] == database.RecordOf(file).LiveTags()
      invariant forall file :: file in before || file in files[..i] ==> file in tags
    {
      assert files[..i + 1] == files[..i] + [files[i]];
      var own := database.TagIdsForFile(files[i]);
      tags := tags[files[i] := Tags(own)];
    }
    assert files[..|files|] == files;
  }

  /** The listing, the members' tags, and one plan per set, in set order. */
  method PlanDuplicateDeletions(database: CatalogStore)
    returns (plans: seq<DuplicatePlan>, ghost files: seq<FileInfo>, ghost tags: map<FileId, set<TagId>>)
    ensures Lists(database.Snapshot(), files) && ReadsTags(database.Snapshot(), tags, plans)
    ensures Plans(files, tags, plans)
  {
    var listed := ListFiles(database);
    var sets := FindDuplicateSets(listed);
    var read := ReadMembers(database, sets);
    plans := [];
    for i := 0 to |sets|
      invariant |plans| == i && forall k :: 0 <= k < i ==> PlanOf(sets[k], read, plans[k])
    {
      assert sets[i] in sets;
      var plan := PlanDuplicateGroup(sets[i], read);
      plans := plans + [plan];
    }
    files, tags := listed, read;
    assert PlannedFrom(files, tags, sets, plans);
    database.SnapshotIsWhole();
    forall plan, file | plan in plans && Planning(plan, file)
      ensures TagsIn(read, file) == RecordOf(database.Snapshot(), file).LiveTags()
    {
      var k :| 0 <= k < |plans| && plans[k] == plan;
      assert PlanOf(sets[k], read, plan) && sets[k] in sets && file in [plan.kept] + plan.deleted;
    }
  }

  /**
   The command as the writer runs it: plans read from its own tables, then every change applied, announced,
   placed and published as an ordinary local one. A dry run changes and sends nothing.
   */
  method DeleteDuplicates(writer: Writer.CatalogWriter, dryRun: bool, stamps: Stamps)
    returns (plans: seq<DuplicatePlan>, ghost files: seq<FileInfo>, ghost tags: map<FileId, set<TagId>>)
    modifies writer, writer.database
    ensures var start := old(writer.database.Snapshot());
            Lists(start, files) && ReadsTags(start, tags, plans) && Plans(files, tags, plans)
    ensures writer.DidAll(if dryRun then [] else LocalChanges(AllChanges(plans, stamps)))
  {
    plans, files, tags := PlanDuplicateDeletions(writer.database);
    if dryRun {
      writer.database.SnapshotIsWhole();
      return;
    }
    writer.ApplyLocalChanges(AllChanges(plans, stamps));
  }

  /** Within the queue every duplicate of a set goes before the survivor gains a tag. */
  lemma DeletesGoFirst(plan: DuplicatePlan, stamps: Stamps, i: nat, j: nat)
    requires i < |ChangesOf(plan, stamps)| && j < |ChangesOf(plan, stamps)|
    requires ChangesOf(plan, stamps)[i].Deleted? && ChangesOf(plan, stamps)[j].Tagged?
    ensures i < j
  {
  }

  lemma TwoCopies(path: LogicalPath, hash: Hash)
    ensures var files := [FileInfo(1, path, hash, false), FileInfo(2, path, hash, false)];
            DuplicateSets(files, [DuplicateSet(path, hash, [1, 2])])
            && Plans(files, map[], [DuplicatePlan(path, hash, 1, [2], [])])
  {
    var files := [FileInfo(1, path, hash, false), FileInfo(2, path, hash, false)];
    var plan := DuplicatePlan(path, hash, 1, [2], []);
    var sets := [DuplicateSet(path, hash, [1, 2])];
    assert files[0] in files && files[1] in files;
    forall key, f ensures Member(files, key, f) <==> key == (path, hash) && (f == 1 || f == 2) {
      if key == (path, hash) && (f == 1 || f == 2) { assert files[f - 1] in files; }
    }
    assert sets[0] in sets && DuplicateSets(files, sets);
    assert PlanOf(sets[0], map[], plan);
    assert PlannedFrom(files, map[], sets, [plan]);
  }

  /** Two copies of a file beside a purged id: the plan keeps the lower id, and all its premises hold. */
  lemma PlanBesidePurge(path: LogicalPath, hash: Hash)
    ensures var copy := Record(Some(Row(path, 1, false, 0, 0)), [Version(hash, 1, 1)], map[], false);
            var store: Store := map[1 := copy, 2 := copy, 3 := PURGED];
            var files := [FileInfo(1, path, hash, false), FileInfo(2, path, hash, false)];
            Deduplicates(store, files, map[], [DuplicatePlan(path, hash, 1, [2], [])], (file, tag) => 5)
  {
    var copy := Record(Some(Row(path, 1, false, 0, 0)), [Version(hash, 1, 1)], map[], false);
    var store: Store := map[1 := copy, 2 := copy, 3 := PURGED];
    var files := [FileInfo(1, path, hash, false), FileInfo(2, path, hash, false)];
    TwoCopies(path, hash);
    TwoListed(path, hash, copy, store);
  }

  lemma TwoListed(path: LogicalPath, hash: Hash, copy: Record, store: Store)
    requires copy.Live() && copy.row.value.path == path && copy.versions == [Version(hash, 1, 1)]
    requires store == map[1 := copy, 2 := copy, 3 := PURGED]
    ensures Lists(store, [FileInfo(1, path, hash, false), FileInfo(2, path, hash, false)])
  {
    var files := [FileInfo(1, path, hash, false), FileInfo(2, path, hash, false)];
    assert files[0] in files && files[1] in files;
    forall file | RecordOf(store, file).Live() && RecordOf(store, file).versions != []
      ensures InfoOf(file, RecordOf(store, file)) in files
    {
      assert file == 1 || file == 2;
    }
  }
}
