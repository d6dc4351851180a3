/**
 Several deletes of one file. The already-tombstoned guard drops a delete where another one got first, so
 once the links are empty some nodes may hold the file dead and others live. Peers that reconnect compare
 manifests and hand on the tombstones they hold: this module says exactly which nodes end dead, and that a
 reconciliation of every link brings all of them to the join.
 */
module Reconciliation {
  import opened Types
  import opened Catalog
  import opened Network
  import opened CatalogRuns
  import opened Convergence
  import Causality

  // ---- what a run with several deletes leaves behind ----

  /** Which stamps are those of deletes: no version and no restore shares one. */
  type Deletes = Stamp -> bool

  predicate Fair(deletes: Deletes, change: Change) {
    !change.Restored?
    && (change.Deleted? ==> deletes(change.deletedAt))
    && (change.Announces() ==> !deletes(change.observedAt))
  }

  /** What a delete has to beat. */
  function Beaten(r: Record): Stamp
    requires r.row.Some?
  {
    Max(r.LatestObserved(), r.row.value.restoredAt)
  }

  /** A known file never restored since the start, dead only under a delete newer than all it holds. */
  predicate Dated(deletes: Deletes, restoredAt: Stamp, r: Record) {
    !r.purged ==>
      r.row.Some? && r.versions != [] && r.row.value.restoredAt == restoredAt && !deletes(r.LatestObserved())
      && (r.Tombstoned() ==> Beaten(r) < r.row.value.deletedAt && deletes(r.row.value.deletedAt))
  }

  /** The delete still holds here, or a newer version has overruled it, or the file is purged. */
  predicate Settled(r: Record, deletedAt: Stamp) {
    r.purged || deletedAt < r.LatestObserved() || (r.Tombstoned() && r.row.value.deletedAt == deletedAt)
  }

  /** Fair changes keep a record dated and every delete settled that was; one that wins settles itself. */
  lemma HandleKeepsDated(deletes: Deletes, restoredAt: Stamp, r: Record, change: Change)
    requires Dated(deletes, restoredAt, r) && Fair(deletes, change)
    ensures var after := Handle(r, change).record;
            Dated(deletes, restoredAt, after)
            && (forall deletedAt :: deletes(deletedAt) && Settled(r, deletedAt) ==> Settled(after, deletedAt))
            && (after.Tombstoned() && !after.purged ==>
                  change == Deleted(change.file, after.row.value.deletedAt)
                  || (r.Tombstoned() && !r.purged && after.row.value.deletedAt == r.row.value.deletedAt))
            && (change.Deleted? && (r.purged || (r.Live() && r.DeleteWins(change.deletedAt))) ==>
                  Settled(after, change.deletedAt))
  {
    if !r.purged {
      match change
      case Added(_, _, _, hash, size, observedAt, _) =>
        if r.Supersedes(observedAt) { AcceptKeepsDated(deletes, restoredAt, r, Version(hash, size, observedAt)); }
      case Changed(_, hash, size, observedAt) =>
        if r.Supersedes(observedAt) { AcceptKeepsDated(deletes, restoredAt, r, Version(hash, size, observedAt)); }
      case _ =>
    }
  }

  lemma AcceptKeepsDated(deletes: Deletes, restoredAt: Stamp, r: Record, version: Version)
    requires Dated(deletes, restoredAt, r) && !r.purged && !deletes(version.observedAt)
    requires r.Supersedes(version.observedAt)
    ensures var after := r.Accept(version);
            Dated(deletes, restoredAt, after)
            && (forall deletedAt :: deletes(deletedAt) && Settled(r, deletedAt) ==> Settled(after, deletedAt))
            && (after.Tombstoned() ==> r.Tombstoned() && after.row.value.deletedAt == r.row.value.deletedAt)
  {
  }

  /** A tombstone is of a delete somebody made, and every delete made is settled somewhere. */
  ghost predicate Accounted(g: Graph, s: Net, file: FileId, deletes: Deletes, restoredAt: Stamp) {
    Shaped(g, s) && WellFormed(g)
    && (forall v <- g.nodes :: Dated(deletes, restoredAt, Network.At(s, v, file)) && TombstoneSeen(s, file, v))
    && (forall l <- g.links :: FairQueue(s, file, deletes, s.queue[l]))
    && forall deletedAt | Seen(s, Deleted(file, deletedAt)) ::
         deletes(deletedAt) && SettledSomewhere(s, file, deletedAt)
  }

  ghost predicate FairQueue(s: Net, file: FileId, deletes: Deletes, queue: seq<Change>) {
    forall c <- queue | c.file == file :: Fair(deletes, c) && Seen(s, c)
  }

  ghost predicate TombstoneSeen(s: Net, file: FileId, v: Node)
    requires v in s.store
  {
    var r := Network.At(s, v, file);
    r.Tombstoned() && !r.purged ==> Seen(s, Deleted(file, r.row.value.deletedAt))
  }

  ghost predicate SettledSomewhere(s: Net, file: FileId, deletedAt: Stamp) {
    exists v :: SettledAt(s, file, deletedAt, v)
  }

  predicate SettledAt(s: Net, file: FileId, deletedAt: Stamp, v: Node) {
    v in s.store && Settled(Network.At(s, v, file), deletedAt)
  }

  /** A change a device makes to this file: no restore, and a delete only of a live file, newer than what it holds. */
  ghost predicate FairlyMade(g: Graph, s: Net, file: FileId, deletes: Deletes, action: Action)
    requires Shaped(g, s)
  {
    action.Originate? && action.change.file == file && Enabled(g, s, action) ==>
      var r := Network.At(s, action.at, file);
      Fair(deletes, action.change)
      && (action.change.Deleted? ==> r.purged || (r.Live() && r.DeleteWins(action.change.deletedAt)))
  }

  /** A turn that handles this file as the handler would; a delete it handles wins here or was handled before. */
  ghost predicate TurnOf(s: Net, file: FileId, deletes: Deletes, v: Node, change: Change, outcome: Outcome)
    requires v in s.store
  {
    change.file == file ==>
      var r := Network.At(s, v, file);
      Fair(deletes, change) && outcome == Handle(r, change)
      && (change.Deleted? ==> Seen(s, change) || r.purged || (r.Live() && r.DeleteWins(change.deletedAt)))
  }

  lemma TurnSees(s: Net, v: Node, sender: Option<Node>, change: Change, outcome: Outcome, c: Change)
    requires v in s.store && v in s.log
    ensures Seen(Turn(s, v, sender, change, outcome), c) <==> Seen(s, c) || c == change
  {
    var next := Turn(s, v, sender, change, outcome);
    if Seen(s, c) {
      var w :| w in s.log && c in s.log[w];
      assert c in next.log[w];
    }
    assert change in next.log[v];
  }

  lemma TurnSettles(g: Graph, s: Net, file: FileId, deletes: Deletes, restoredAt: Stamp, v: Node, sender: Option<Node>,
                    change: Change, outcome: Outcome, deletedAt: Stamp)
    requires Accounted(g, s, file, deletes, restoredAt) && v in g.nodes && TurnOf(s, file, deletes, v, change, outcome)
    requires Seen(Turn(s, v, sender, change, outcome), Deleted(file, deletedAt))
    ensures deletes(deletedAt) && SettledSomewhere(Turn(s, v, sender, change, outcome), file, deletedAt)
  {
    var next := Turn(s, v, sender, change, outcome);
    TurnSees(s, v, sender, change, outcome, Deleted(file, deletedAt));
    if change.file == file { HandleKeepsDated(deletes, restoredAt, Network.At(s, v, file), change); }
    if Seen(s, Deleted(file, deletedAt)) {
      assert SettledSomewhere(s, file, deletedAt);
      var w :| SettledAt(s, file, deletedAt, w);
      assert SettledAt(next, file, deletedAt, w);
    } else {
      assert SettledAt(next, file, deletedAt, v);
    }
  }

  lemma TurnKeepsAccounted(g: Graph, s: Net, file: FileId, deletes: Deletes, restoredAt: Stamp, v: Node,
                           sender: Option<Node>, change: Change, outcome: Outcome)
    requires Accounted(g, s, file, deletes, restoredAt) && v in g.nodes && TurnOf(s, file, deletes, v, change, outcome)
    ensures Accounted(g, Turn(s, v, sender, change, outcome), file, deletes, restoredAt)
  {
    var next := Turn(s, v, sender, change, outcome);
    TurnKeepsShape(g, s, v, sender, change, outcome);
    forall deletedAt | Seen(next, Deleted(file, deletedAt))
      ensures deletes(deletedAt) && SettledSomewhere(next, file, deletedAt)
    {
      TurnSettles(g, s, file, deletes, restoredAt, v, sender, change, outcome, deletedAt);
    }
    forall l | l in g.links ensures FairQueue(next, file, deletes, next.queue[l]) {
      TurnKeepsFair(g, s, file, deletes, v, sender, change, outcome, l);
    }
    forall w | w in g.nodes
      ensures Dated(deletes, restoredAt, Network.At(next, w, file)) && TombstoneSeen(next, file, w)
    {
      TurnKeepsDated(g, s, file, deletes, restoredAt, v, sender, change, outcome, w);
    }
  }

  lemma TurnKeepsFair(g: Graph, s: Net, file: FileId, deletes: Deletes, v: Node, sender: Option<Node>, change: Change,
                      outcome: Outcome, l: Link)
    requires Shaped(g, s) && v in g.nodes && TurnOf(s, file, deletes, v, change, outcome) && l in g.links
    requires FairQueue(s, file, deletes, s.queue[l])
    ensures var next := Turn(s, v, sender, change, outcome);
            l in next.queue && FairQueue(next, file, deletes, next.queue[l])
  {
    var next := Turn(s, v, sender, change, outcome);
    forall c | c in next.queue[l] && c.file == file ensures Fair(deletes, c) && Seen(next, c) {
      TurnSees(s, v, sender, change, outcome, c);
      assert c in s.queue[l] || c == change;
    }
  }

  lemma TurnKeepsDated(g: Graph, s: Net, file: FileId, deletes: Deletes, restoredAt: Stamp, v: Node,
                       sender: Option<Node>, change: Change, outcome: Outcome, w: Node)
    requires Accounted(g, s, file, deletes, restoredAt) && v in g.nodes && TurnOf(s, file, deletes, v, change, outcome)
    requires w in g.nodes && w in Turn(s, v, sender, change, outcome).store
    ensures var next := Turn(s, v, sender, change, outcome);
            Dated(deletes, restoredAt, Network.At(next, w, file)) && TombstoneSeen(next, file, w)
  {
    var r := Network.At(Turn(s, v, sender, change, outcome), w, file);
    assert TombstoneSeen(s, file, w);
    if w == v && change.file == file { HandleKeepsDated(deletes, restoredAt, Network.At(s, v, file), change); }
    if r.Tombstoned() && !r.purged { TurnSees(s, v, sender, change, outcome, Deleted(file, r.row.value.deletedAt)); }
  }

  lemma PopKeepsAccounted(g: Graph, s: Net, file: FileId, deletes: Deletes, restoredAt: Stamp, l: Link)
    requires Accounted(g, s, file, deletes, restoredAt) && l in g.links && s.queue[l] != []
    ensures Accounted(g, Popped(s, l), file, deletes, restoredAt)
  {
    var next := Popped(s, l);
    assert forall c :: Seen(next, c) <==> Seen(s, c);
    forall deletedAt | Seen(next, Deleted(file, deletedAt))
      ensures deletes(deletedAt) && SettledSomewhere(next, file, deletedAt)
    {
      assert SettledSomewhere(s, file, deletedAt);
      var w :| SettledAt(s, file, deletedAt, w);
      assert SettledAt(next, file, deletedAt, w);
    }
    forall v | v in g.nodes
      ensures Dated(deletes, restoredAt, Network.At(next, v, file)) && TombstoneSeen(next, file, v)
    {
      assert TombstoneSeen(s, file, v);
    }
    forall k | k in g.links ensures FairQueue(next, file, deletes, next.queue[k]) {
      assert FairQueue(s, file, deletes, s.queue[k]);
    }
  }

  lemma HandleKeepsAccounted(g: Graph, s: Net, file: FileId, deletes: Deletes, restoredAt: Stamp, v: Node,
                             sender: Option<Node>, change: Change)
    requires Accounted(g, s, file, deletes, restoredAt) && v in g.nodes
    requires change.file == file ==>
               var r := Network.At(s, v, file);
               Fair(deletes, change)
               && (change.Deleted? ==> Seen(s, change) || r.purged || (r.Live() && r.DeleteWins(change.deletedAt)))
    ensures Accounted(g, HandleAt(s, v, sender, change), file, deletes, restoredAt)
  {
    TurnKeepsAccounted(g, s, file, deletes, restoredAt, v, sender, change, Taken(s, v, sender, change));
  }

  lemma DeliverKeepsAccounted(g: Graph, s: Net, file: FileId, deletes: Deletes, restoredAt: Stamp, l: Link)
    requires Accounted(g, s, file, deletes, restoredAt) && l in g.links && s.queue[l] != []
    ensures Accounted(g, Do(g, s, Deliver(l.0, l.1)), file, deletes, restoredAt)
  {
    var head := s.queue[l][0];
    assert FairQueue(s, file, deletes, s.queue[l]) && head in s.queue[l];
    HandleKeepsAccounted(g, s, file, deletes, restoredAt, l.1, Some(l.0), head);
    DoIsPopped(g, s, l);
    PopKeepsAccounted(g, HandleAt(s, l.1, Some(l.0), head), file, deletes, restoredAt, l);
  }

  lemma DoKeepsAccounted(g: Graph, s: Net, file: FileId, deletes: Deletes, restoredAt: Stamp, action: Action)
    requires Accounted(g, s, file, deletes, restoredAt) && FairlyMade(g, s, file, deletes, action)
    ensures Accounted(g, Do(g, s, action), file, deletes, restoredAt)
  {
    if Enabled(g, s, action) {
      match action
      case Originate(v, change) => HandleKeepsAccounted(g, s, file, deletes, restoredAt, v, None, change);
      case Deliver(u, v) => DeliverKeepsAccounted(g, s, file, deletes, restoredAt, (u, v));
    }
  }

  /** Every change made to the file during the run is made fairly. */
  ghost predicate FairRun(g: Graph, s: Net, file: FileId, deletes: Deletes, actions: seq<Action>)
    requires Shaped(g, s)
    decreases |actions|
  {
    actions == []
    || (FairRun(g, s, file, deletes, actions[..|actions| - 1])
        && FairlyMade(g, RunNet(g, s, actions[..|actions| - 1]), file, deletes, actions[|actions| - 1]))
  }

  lemma {:induction false} RunKeepsAccounted(g: Graph, s: Net, file: FileId, deletes: Deletes, restoredAt: Stamp,
                                             actions: seq<Action>)
    requires Accounted(g, s, file, deletes, restoredAt) && FairRun(g, s, file, deletes, actions)
    ensures Accounted(g, RunNet(g, s, actions), file, deletes, restoredAt)
    decreases |actions|
  {
    if actions != [] {
      var n := |actions| - 1;
      RunKeepsAccounted(g, s, file, deletes, restoredAt, actions[..n]);
      DoKeepsAccounted(g, RunNet(g, s, actions[..n]), file, deletes, restoredAt, actions[n]);
    }
  }

  /** The premises of a run with several deletes: no one delete is singled out, and delete stamps are delete stamps. */
  ghost predicate Begins(g: Graph, s: Net, file: FileId, names: Names, start: Record, deletes: Deletes,
                         actions: seq<Action>)
  {
    Start(g, s, file, names, start) && names.delete.None? && !deletes(start.LatestObserved())
    && Premises(g, s, file, names, actions) && FairRun(g, s, file, deletes, actions)
  }

  lemma BeginsAccounted(g: Graph, s: Net, file: FileId, names: Names, start: Record, deletes: Deletes,
                        actions: seq<Action>)
    requires Begins(g, s, file, names, start, deletes, actions)
    ensures Accounted(g, RunNet(g, s, actions), file, deletes, start.row.value.restoredAt)
  {
    forall v | v in g.nodes
      ensures Dated(deletes, start.row.value.restoredAt, Network.At(s, v, file)) && TombstoneSeen(s, file, v)
    {
      assert Network.At(s, v, file) == start;
    }
    assert forall c :: !Seen(s, c);
    RunKeepsAccounted(g, s, file, deletes, start.row.value.restoredAt, actions);
  }

  /** A delete beats every version there is anywhere, and the restore clock. */
  ghost predicate Wins(s: Net, file: FileId, r: Record, deletedAt: Stamp)
    requires r.row.Some?
  {
    Seen(s, Deleted(file, deletedAt)) && Beaten(r) < deletedAt
  }

  /**
   Once the links are empty every node holds the same content, path and tags; a file is dead somewhere
   exactly when a delete that beats all content was made, though it need not be dead everywhere.
   */
  lemma DeadSomewhere(g: Graph, s: Net, file: FileId, names: Names, start: Record, deletes: Deletes,
                      actions: seq<Action>, v: Node)
    requires Begins(g, s, file, names, start, deletes, actions) && Quiescent(g, RunNet(g, s, actions)) && v in g.nodes
    requires !Network.At(RunNet(g, s, actions), v, file).purged
    ensures var mid := RunNet(g, s, actions);
            var r := Network.At(mid, v, file);
            r.row.Some? && !r.purged
            && ((exists deletedAt :: Wins(mid, file, r, deletedAt)) <==>
                  exists u :: u in g.nodes && Network.At(mid, u, file).Tombstoned())
  {
    var mid := RunNet(g, s, actions);
    var r := Network.At(mid, v, file);
    BeginsAccounted(g, s, file, names, start, deletes, actions);
    if u :| u in g.nodes && Network.At(mid, u, file).Tombstoned() {
      SameBeaten(g, s, file, names, start, deletes, actions, u, v);
      assert TombstoneSeen(mid, file, u);
      assert Wins(mid, file, r, Network.At(mid, u, file).row.value.deletedAt);
    }
    if deletedAt :| Wins(mid, file, r, deletedAt) {
      assert SettledSomewhere(mid, file, deletedAt);
      var u :| SettledAt(mid, file, deletedAt, u);
      SameBeaten(g, s, file, names, start, deletes, actions, u, v);
      assert Network.At(mid, u, file).Tombstoned();
    }
  }

  lemma SameBeaten(g: Graph, s: Net, file: FileId, names: Names, start: Record, deletes: Deletes, actions: seq<Action>,
                   u: Node, v: Node)
    requires Begins(g, s, file, names, start, deletes, actions) && Quiescent(g, RunNet(g, s, actions))
    requires u in g.nodes && v in g.nodes && !Network.At(RunNet(g, s, actions), v, file).purged
    ensures var a, b := Network.At(RunNet(g, s, actions), u, file), Network.At(RunNet(g, s, actions), v, file);
            !a.purged && a.row.Some? && a.versions != [] && b.row.Some?
            && Beaten(a) == Beaten(b) && a.LatestObserved() == b.LatestObserved()
  {
    BeginsAccounted(g, s, file, names, start, deletes, actions);
    SameClocks(g, s, file, names, start, actions, Content, u, v);
    QuiescentNodesAgree(g, s, file, names, start, actions, u, v);
    assert Dated(deletes, start.row.value.restoredAt, Network.At(RunNet(g, s, actions), u, file));
    assert Dated(deletes, start.row.value.restoredAt, Network.At(RunNet(g, s, actions), v, file));
  }

  // ---- peers hand on their tombstones ----

  /** A step of the network, or a manifest from one peer telling another that it holds the file dead. */
  datatype Event = Step(action: Action) | Told(from: Node, to: Node)

  ghost predicate Tells(g: Graph, s: Net, file: FileId, event: Event)
    requires Shaped(g, s)
  {
    event.Told? && (event.from, event.to) in g.links && event.from in g.nodes && event.to in g.nodes
    && Network.At(s, event.from, file).Tombstoned()
  }

  ghost function Next(g: Graph, s: Net, file: FileId, event: Event): (next: Net)
    requires Shaped(g, s)
    ensures Shaped(g, next)
  {
    match event
    case Step(action) => Do(g, s, action)
    case Told(u, v) =>
      if !Tells(g, s, file, event) then s else
      HandleAt(s, v, Some(u), Deleted(file, Network.At(s, u, file).row.value.deletedAt))
  }

  ghost function Reconcile(g: Graph, s: Net, file: FileId, events: seq<Event>): (final: Net)
    requires Shaped(g, s)
    ensures Shaped(g, final)
    decreases |events|
  {
    if events == [] then s else
    Next(g, Reconcile(g, s, file, events[..|events| - 1]), file, events[|events| - 1])
  }

  /** Nobody makes changes to this file meanwhile. */
  ghost predicate Undisturbed(file: FileId, events: seq<Event>) {
    forall e <- events :: e.Step? && e.action.Originate? ==> e.action.change.file != file
  }

  ghost predicate NoneInFlight(g: Graph, s: Net, file: FileId)
    requires Shaped(g, s)
  {
    forall l <- g.links, c <- s.queue[l] :: c.file != file
  }

  /** Every node knows the file with one stamp to beat, each tombstone beats it, and no change of it is in flight. */
  ghost predicate Base(g: Graph, s: Net, file: FileId, beaten: Stamp) {
    Shaped(g, s) && WellFormed(g) && NoneInFlight(g, s, file)
    && forall v <- g.nodes :: Stands(Network.At(s, v, file), beaten)
  }

  predicate Stands(r: Record, beaten: Stamp) {
    !r.purged && r.row.Some? && Beaten(r) == beaten && (r.Tombstoned() ==> beaten < r.row.value.deletedAt)
  }

  /** The record as it was, or with a winning delete on top. */
  predicate Marked(was: Record, r: Record, beaten: Stamp) {
    Stands(r, beaten)
    && (r == was || (was.Live() && r.Tombstoned() && r == was.RemoveFile(r.row.value.deletedAt)))
  }

  /** What is in flight is a winning delete from a node that went dead since; a node that did tells its neighbours. */
  ghost predicate Passing(file: FileId, beaten: Stamp, dead: bool, far: bool, queue: seq<Change>) {
    (forall c <- queue | c.file == file :: c.Deleted? && beaten < c.deletedAt && dead)
    && (dead ==> far || exists c <- queue :: c.file == file)
  }

  lemma PassingAdvances(file: FileId, beaten: Stamp, dead: bool, far: bool, queue: seq<Change>, change: Change,
                        dead': bool, far': bool, queue': seq<Change>)
    requires Passing(file, beaten, dead, far, queue) && (dead ==> dead') && (far ==> far')
    requires queue' == queue
             || (queue' == queue + [change]
                 && (change.file == file ==> change.Deleted? && beaten < change.deletedAt && dead'))
    requires dead' && !dead ==> far' || (queue' == queue + [change] && change.file == file)
    ensures Passing(file, beaten, dead', far', queue')
  {
    if queue' == queue + [change] {
      assert change in queue' && forall c <- queue :: c in queue';
    }
  }

  lemma PassingPops(file: FileId, beaten: Stamp, dead: bool, far: bool, queue: seq<Change>)
    requires Passing(file, beaten, dead, far, queue) && queue != [] && (queue[0].file == file ==> far)
    ensures Passing(file, beaten, dead, far, queue[1..])
  {
    assert queue == [queue[0]] + queue[1..];
  }

  predicate WentDead(was: Net, s: Net, file: FileId, v: Node)
    requires v in was.store && v in s.store
  {
    Network.At(was, v, file).Live() && Network.At(s, v, file).Tombstoned()
  }

  ghost predicate PassingOn(was: Net, s: Net, file: FileId, beaten: Stamp, l: Link)
    requires l.0 in was.store && l.0 in s.store && l.1 in s.store && l in s.queue
  {
    Passing(file, beaten, WentDead(was, s, file, l.0), Network.At(s, l.1, file).Tombstoned(), s.queue[l])
  }

  predicate MarkedAt(was: Net, s: Net, file: FileId, beaten: Stamp, v: Node)
    requires v in was.store && v in s.store
  {
    Marked(Network.At(was, v, file), Network.At(s, v, file), beaten)
  }

  ghost predicate Spreading(g: Graph, was: Net, s: Net, file: FileId, beaten: Stamp) {
    Shaped(g, was) && Shaped(g, s) && WellFormed(g)
    && (forall v <- g.nodes :: MarkedAt(was, s, file, beaten, v))
    && forall l <- g.links :: PassingOn(was, s, file, beaten, l)
  }

  /** A turn over another file, or over a winning delete of this one from a node that holds it dead. */
  ghost predicate Hears(s: Net, file: FileId, beaten: Stamp, sender: Option<Node>, change: Change) {
    change.file == file ==>
      change.Deleted? && beaten < change.deletedAt
      && sender.Some? && sender.value in s.store && Network.At(s, sender.value, file).Tombstoned()
  }

  lemma HearingMarks(r: Record, file: FileId, beaten: Stamp, deletedAt: Stamp)
    requires Stands(r, beaten) && beaten < deletedAt
    ensures var outcome := Handle(r, Deleted(file, deletedAt));
            Stands(outcome.record, beaten) && outcome.record.Tombstoned()
            && (if r.Tombstoned() then outcome.record == r && !outcome.forward
                else outcome.record == r.RemoveFile(deletedAt) && outcome.record.row.value.deletedAt == deletedAt
                     && outcome.forward)
  {
  }

  lemma TurnKeepsMarked(g: Graph, was: Net, s: Net, file: FileId, beaten: Stamp, v: Node, sender: Option<Node>,
                        change: Change, w: Node)
    requires Spreading(g, was, s, file, beaten) && v in g.nodes && w in g.nodes
    requires Hears(s, file, beaten, sender, change)
    ensures var next := HandleAt(s, v, sender, change);
            w in next.store && MarkedAt(was, next, file, beaten, w)
            && (Network.At(next, w, file).Tombstoned() <==>
                  Network.At(s, w, file).Tombstoned() || (w == v && change.file == file))
  {
    assert MarkedAt(was, s, file, beaten, w);
    if change.file == file && w == v {
      HearingMarks(Network.At(s, v, file), file, beaten, change.deletedAt);
    }
  }

  lemma TurnKeepsPassing(g: Graph, was: Net, s: Net, file: FileId, beaten: Stamp, v: Node, sender: Option<Node>,
                         change: Change, l: Link)
    requires Spreading(g, was, s, file, beaten) && v in g.nodes && l in g.links
    requires Hears(s, file, beaten, sender, change)
    requires Shaped(g, HandleAt(s, v, sender, change))
    ensures PassingOn(was, HandleAt(s, v, sender, change), file, beaten, l)
  {
    var next := HandleAt(s, v, sender, change);
    assert PassingOn(was, s, file, beaten, l);
    TurnKeepsMarked(g, was, s, file, beaten, v, sender, change, l.0);
    TurnKeepsMarked(g, was, s, file, beaten, v, sender, change, l.1);
    Causality.SentOn(s, v, sender, change, Taken(s, v, sender, change), l);
    if change.file == file { SendsIfNews(g, was, s, file, beaten, v, sender, change); }
    PassingAdvances(file, beaten, WentDead(was, s, file, l.0), Network.At(s, l.1, file).Tombstoned(), s.queue[l],
                    change, WentDead(was, next, file, l.0), Network.At(next, l.1, file).Tombstoned(), next.queue[l]);
  }

  /** A winning delete is sent on exactly where it is news, and there the node goes dead of it. */
  lemma SendsIfNews(g: Graph, was: Net, s: Net, file: FileId, beaten: Stamp, v: Node, sender: Option<Node>,
                    change: Change)
    requires Spreading(g, was, s, file, beaten) && v in g.nodes && Hears(s, file, beaten, sender, change)
    requires change.file == file
    ensures Taken(s, v, sender, change).forward <==> Network.At(s, v, file).Live()
    ensures Network.At(s, v, file).Live() ==> WentDead(was, HandleAt(s, v, sender, change), file, v)
  {
    assert MarkedAt(was, s, file, beaten, v);
    HearingMarks(Network.At(s, v, file), file, beaten, change.deletedAt);
  }

  lemma TurnKeepsSpreading(g: Graph, was: Net, s: Net, file: FileId, beaten: Stamp, v: Node, sender: Option<Node>,
                           change: Change)
    requires Spreading(g, was, s, file, beaten) && v in g.nodes && Hears(s, file, beaten, sender, change)
    ensures Spreading(g, was, HandleAt(s, v, sender, change), file, beaten)
  {
    var next := HandleAt(s, v, sender, change);
    TurnKeepsShape(g, s, v, sender, change, Taken(s, v, sender, change));
    forall w | w in g.nodes ensures MarkedAt(was, next, file, beaten, w) {
      TurnKeepsMarked(g, was, s, file, beaten, v, sender, change, w);
    }
    forall l | l in g.links ensures PassingOn(was, next, file, beaten, l) {
      TurnKeepsPassing(g, was, s, file, beaten, v, sender, change, l);
    }
  }

  lemma PopKeepsSpreading(g: Graph, was: Net, s: Net, file: FileId, beaten: Stamp, l: Link)
    requires Spreading(g, was, s, file, beaten) && l in g.links && s.queue[l] != []
    requires s.queue[l][0].file == file ==> Network.At(s, l.1, file).Tombstoned()
    ensures Spreading(g, was, Popped(s, l), file, beaten)
  {
    PopKeepsShape(g, s, l);
    forall k | k in g.links ensures PassingOn(was, Popped(s, l), file, beaten, k) {
      PopKeepsPassing(g, was, s, file, beaten, l, k);
    }
    forall v | v in g.nodes ensures MarkedAt(was, Popped(s, l), file, beaten, v) {
      PopKeepsMarked(g, was, s, file, beaten, l, v);
    }
  }

  lemma PopKeepsShape(g: Graph, s: Net, l: Link)
    requires Shaped(g, s) && l in g.links && s.queue[l] != []
    ensures Shaped(g, Popped(s, l))
  {
  }

  lemma PopKeepsMarked(g: Graph, was: Net, s: Net, file: FileId, beaten: Stamp, l: Link, v: Node)
    requires Spreading(g, was, s, file, beaten) && l in g.links && s.queue[l] != [] && v in g.nodes
    ensures v in Popped(s, l).store && MarkedAt(was, Popped(s, l), file, beaten, v)
  {
    assert MarkedAt(was, s, file, beaten, v);
  }

  lemma PopKeepsPassing(g: Graph, was: Net, s: Net, file: FileId, beaten: Stamp, l: Link, k: Link)
    requires Spreading(g, was, s, file, beaten) && l in g.links && s.queue[l] != [] && k in g.links
    requires s.queue[l][0].file == file ==> Network.At(s, l.1, file).Tombstoned()
    requires Shaped(g, Popped(s, l))
    ensures PassingOn(was, Popped(s, l), file, beaten, k)
  {
    assert PassingOn(was, s, file, beaten, k);
    if k == l {
      PassingPops(file, beaten, WentDead(was, s, file, k.0), Network.At(s, k.1, file).Tombstoned(), s.queue[k]);
    }
  }

  lemma HeadIsHeard(g: Graph, was: Net, s: Net, file: FileId, beaten: Stamp, l: Link)
    requires Spreading(g, was, s, file, beaten) && l in g.links && s.queue[l] != []
    ensures Hears(s, file, beaten, Some(l.0), s.queue[l][0])
  {
    assert PassingOn(was, s, file, beaten, l) && s.queue[l][0] in s.queue[l];
  }

  lemma NextKeepsSpreading(g: Graph, was: Net, s: Net, file: FileId, beaten: Stamp, event: Event)
    requires Spreading(g, was, s, file, beaten) && Undisturbed(file, [event])
    ensures Spreading(g, was, Next(g, s, file, event), file, beaten)
  {
    assert event in [event];
    match event
    case Step(Originate(v, change)) =>
      if Enabled(g, s, event.action) { TurnKeepsSpreading(g, was, s, file, beaten, v, None, change); }
    case Step(Deliver(u, v)) =>
      if Enabled(g, s, event.action) { DeliverKeepsSpreading(g, was, s, file, beaten, (u, v)); }
    case Told(u, v) =>
      if Tells(g, s, file, event) {
        assert MarkedAt(was, s, file, beaten, u);
        var delete := Deleted(file, Network.At(s, u, file).row.value.deletedAt);
        TurnKeepsSpreading(g, was, s, file, beaten, v, Some(u), delete);
      }
  }

  lemma DeliverKeepsSpreading(g: Graph, was: Net, s: Net, file: FileId, beaten: Stamp, l: Link)
    requires Spreading(g, was, s, file, beaten) && l in g.links && s.queue[l] != []
    ensures Spreading(g, was, Do(g, s, Deliver(l.0, l.1)), file, beaten)
  {
    var head := s.queue[l][0];
    HeadIsHeard(g, was, s, file, beaten, l);
    TurnKeepsSpreading(g, was, s, file, beaten, l.1, Some(l.0), head);
    TurnKeepsMarked(g, was, s, file, beaten, l.1, Some(l.0), head, l.1);
    DoIsPopped(g, s, l);
    PopKeepsSpreading(g, was, HandleAt(s, l.1, Some(l.0), head), file, beaten, l);
  }

  /** The nodes that were told. */
  ghost function ToldNodes(g: Graph, s: Net, file: FileId, events: seq<Event>): set<Node>
    requires Shaped(g, s)
    decreases |events|
  {
    if events == [] then {} else
    var n := |events| - 1;
    var told := ToldNodes(g, s, file, events[..n]);
    if Tells(g, Reconcile(g, s, file, events[..n]), file, events[n]) then told + {events[n].to} else told
  }

  /** A walk over nodes that held the file live. */
  ghost predicate LiveWalk(g: Graph, was: Net, file: FileId, p: seq<Node>) {
    Walk(g, p) && forall x <- p :: x in was.store && Network.At(was, x, file).Live()
  }

  ghost predicate LiveJoined(g: Graph, was: Net, file: FileId, u: Node, v: Node) {
    exists p :: LiveWalk(g, was, file, p) && p[0] == u && p[|p| - 1] == v
  }

  ghost predicate Reached(g: Graph, was: Net, file: FileId, told: set<Node>, v: Node) {
    exists w <- told :: LiveJoined(g, was, file, w, v)
  }

  /** Who was told holds the file dead, and whoever went dead was told or has it from a node that was. */
  ghost predicate Traced(g: Graph, was: Net, s: Net, file: FileId, told: set<Node>)
    requires Shaped(g, was) && Shaped(g, s)
  {
    (forall w <- told :: w in g.nodes && Network.At(s, w, file).Tombstoned())
    && forall v <- g.nodes | WentDead(was, s, file, v) :: Reached(g, was, file, told, v)
  }

  lemma ReachedOnwards(g: Graph, was: Net, file: FileId, told: set<Node>, u: Node, v: Node)
    requires Reached(g, was, file, told, u) && (u, v) in g.links && v in g.nodes
    requires v in was.store && Network.At(was, v, file).Live()
    ensures Reached(g, was, file, told, v)
  {
    var w :| w in told && LiveJoined(g, was, file, w, u);
    var p :| LiveWalk(g, was, file, p) && p[0] == w && p[|p| - 1] == u;
    var q := p + [v];
    assert LiveWalk(g, was, file, q) && q[0] == w && q[|q| - 1] == v;
  }

  lemma ReachedByMore(g: Graph, was: Net, file: FileId, told: set<Node>, more: set<Node>, v: Node)
    requires Reached(g, was, file, told, v) && told <= more
    ensures Reached(g, was, file, more, v)
  {
    var w :| w in told && LiveJoined(g, was, file, w, v);
    assert w in more;
  }

  lemma ToldIsReached(g: Graph, was: Net, file: FileId, told: set<Node>, v: Node)
    requires v in told && v in g.nodes && v in was.store && Network.At(was, v, file).Live()
    ensures Reached(g, was, file, told, v)
  {
    assert LiveWalk(g, was, file, [v]) && [v][0] == v;
    assert LiveJoined(g, was, file, v, v);
  }

  /** What was dead is dead under the same delete. */
  lemma StaysDead(g: Graph, was: Net, s: Net, file: FileId, beaten: Stamp, v: Node)
    requires Spreading(g, was, s, file, beaten) && v in g.nodes
    ensures Network.At(s, v, file).Tombstoned() <==> Network.At(was, v, file).Tombstoned() || WentDead(was, s, file, v)
    ensures Network.At(s, v, file).Tombstoned() ==> beaten < Network.At(s, v, file).row.value.deletedAt
  {
    assert MarkedAt(was, s, file, beaten, v);
  }

  /** What comes over a link comes from a node gone dead. */
  lemma HeadIsFresh(g: Graph, was: Net, s: Net, file: FileId, beaten: Stamp, l: Link)
    requires Spreading(g, was, s, file, beaten) && l in g.links && s.queue[l] != [] && s.queue[l][0].file == file
    ensures WentDead(was, s, file, l.0)
  {
    assert PassingOn(was, s, file, beaten, l) && s.queue[l][0] in s.queue[l];
  }

  /** With nothing in flight the neighbours of a node gone dead are dead. */
  lemma NeighboursDead(g: Graph, was: Net, s: Net, file: FileId, beaten: Stamp, l: Link)
    requires Spreading(g, was, s, file, beaten) && NoneInFlight(g, s, file) && l in g.links
    requires WentDead(was, s, file, l.0)
    ensures Network.At(s, l.1, file).Tombstoned()
  {
    assert PassingOn(was, s, file, beaten, l);
  }

  /** A turn at `v` that hears of the delete from a neighbour gone dead, or is told. */
  lemma TurnKeepsTraced(g: Graph, was: Net, s: Net, file: FileId, beaten: Stamp, told: set<Node>, more: set<Node>,
                        v: Node, sender: Option<Node>, change: Change)
    requires Spreading(g, was, s, file, beaten) && Traced(g, was, s, file, told) && v in g.nodes
    requires Hears(s, file, beaten, sender, change) && told <= more <= told + {v}
    requires v in more && v !in told ==> change.file == file
    requires change.file == file ==> v in more || ((sender.value, v) in g.links && WentDead(was, s, file, sender.value))
    requires Shaped(g, HandleAt(s, v, sender, change))
    ensures Traced(g, was, HandleAt(s, v, sender, change), file, more)
  {
    var next := HandleAt(s, v, sender, change);
    forall w | w in more ensures w in g.nodes && Network.At(next, w, file).Tombstoned() {
      TurnKeepsMarked(g, was, s, file, beaten, v, sender, change, w);
    }
    forall w | w in g.nodes && WentDead(was, next, file, w) ensures Reached(g, was, file, more, w) {
      TurnKeepsMarked(g, was, s, file, beaten, v, sender, change, w);
      if WentDead(was, s, file, w) {
        ReachedByMore(g, was, file, told, more, w);
      } else if v in more {
        ToldIsReached(g, was, file, more, v);
      } else {
        ReachedByMore(g, was, file, told, more, sender.value);
        ReachedOnwards(g, was, file, more, sender.value, v);
      }
    }
  }

  lemma NextKeepsTraced(g: Graph, was: Net, s: Net, file: FileId, beaten: Stamp, told: set<Node>, event: Event)
    requires Spreading(g, was, s, file, beaten) && Traced(g, was, s, file, told) && Undisturbed(file, [event])
    ensures Traced(g, was, Next(g, s, file, event), file, if Tells(g, s, file, event) then told + {event.to} else told)
  {
    assert event in [event];
    match event
    case Step(Originate(v, change)) =>
      if Enabled(g, s, event.action) { OtherKeepsTraced(g, was, s, file, beaten, told, v, change); }
    case Step(Deliver(u, v)) =>
      if Enabled(g, s, event.action) { DeliverKeepsTraced(g, was, s, file, beaten, told, (u, v)); }
    case Told(u, v) =>
      if Tells(g, s, file, event) { ToldKeepsTraced(g, was, s, file, beaten, told, u, v); }
  }

  lemma ToldKeepsTraced(g: Graph, was: Net, s: Net, file: FileId, beaten: Stamp, told: set<Node>, u: Node, v: Node)
    requires Spreading(g, was, s, file, beaten) && Traced(g, was, s, file, told) && Tells(g, s, file, Told(u, v))
    ensures Traced(g, was, Next(g, s, file, Told(u, v)), file, told + {v})
  {
    var delete := Deleted(file, Network.At(s, u, file).row.value.deletedAt);
    StaysDead(g, was, s, file, beaten, u);
    ToldIsTurn(g, s, file, u, v);
    TurnKeepsTraced(g, was, s, file, beaten, told, told + {v}, v, Some(u), delete);
  }

  lemma ToldIsTurn(g: Graph, s: Net, file: FileId, u: Node, v: Node)
    requires Shaped(g, s) && Tells(g, s, file, Told(u, v))
    ensures Next(g, s, file, Told(u, v))
         == HandleAt(s, v, Some(u), Deleted(file, Network.At(s, u, file).row.value.deletedAt))
  {
  }

  lemma OtherKeepsTraced(g: Graph, was: Net, s: Net, file: FileId, beaten: Stamp, told: set<Node>, v: Node,
                         change: Change)
    requires Spreading(g, was, s, file, beaten) && Traced(g, was, s, file, told) && v in g.nodes && change.file != file
    ensures Shaped(g, HandleAt(s, v, None, change)) && Traced(g, was, HandleAt(s, v, None, change), file, told)
  {
    TurnKeepsShape(g, s, v, None, change, Taken(s, v, None, change));
    TurnKeepsTraced(g, was, s, file, beaten, told, told, v, None, change);
  }

  lemma DeliverKeepsTraced(g: Graph, was: Net, s: Net, file: FileId, beaten: Stamp, told: set<Node>, l: Link)
    requires Spreading(g, was, s, file, beaten) && Traced(g, was, s, file, told) && l in g.links && s.queue[l] != []
    ensures Traced(g, was, Do(g, s, Deliver(l.0, l.1)), file, told)
  {
    var head := s.queue[l][0];
    HeadIsHeard(g, was, s, file, beaten, l);
    if head.file == file { HeadIsFresh(g, was, s, file, beaten, l); }
    TurnKeepsShape(g, s, l.1, Some(l.0), head, Taken(s, l.1, Some(l.0), head));
    TurnKeepsTraced(g, was, s, file, beaten, told, told, l.1, Some(l.0), head);
    DoIsPopped(g, s, l);
    SameStoreTraced(g, was, HandleAt(s, l.1, Some(l.0), head), Do(g, s, Deliver(l.0, l.1)), file, told);
  }

  lemma SameStoreTraced(g: Graph, was: Net, s: Net, next: Net, file: FileId, told: set<Node>)
    requires Shaped(g, was) && Shaped(g, s) && Shaped(g, next) && Traced(g, was, s, file, told) && next.store == s.store
    ensures Traced(g, was, next, file, told)
  {
    forall v | v in g.nodes && WentDead(was, next, file, v) ensures Reached(g, was, file, told, v) {
      assert WentDead(was, s, file, v);
    }
  }

  lemma {:induction false} ReconcileKeeps(g: Graph, s: Net, file: FileId, beaten: Stamp, events: seq<Event>)
    requires Base(g, s, file, beaten) && Undisturbed(file, events)
    ensures Spreading(g, s, Reconcile(g, s, file, events), file, beaten)
    ensures Traced(g, s, Reconcile(g, s, file, events), file, ToldNodes(g, s, file, events))
    decreases |events|
  {
    if events == [] {
      BaseSpreads(g, s, file, beaten);
    } else {
      var n := |events| - 1;
      UndisturbedPrefix(file, events);
      ReconcileKeeps(g, s, file, beaten, events[..n]);
      var before := Reconcile(g, s, file, events[..n]);
      NextKeepsSpreading(g, s, before, file, beaten, events[n]);
      NextKeepsTraced(g, s, before, file, beaten, ToldNodes(g, s, file, events[..n]), events[n]);
    }
  }

  lemma BaseSpreads(g: Graph, s: Net, file: FileId, beaten: Stamp)
    requires Base(g, s, file, beaten)
    ensures Spreading(g, s, s, file, beaten) && Traced(g, s, s, file, {})
  {
    forall v | v in g.nodes ensures MarkedAt(s, s, file, beaten, v) {
      assert Stands(Network.At(s, v, file), beaten);
    }
    forall l | l in g.links ensures PassingOn(s, s, file, beaten, l) {
      assert forall c <- s.queue[l] :: c.file != file;
    }
  }

  lemma WalkEnds(g: Graph, p: seq<Node>)
    requires Walk(g, p) && |p| > 1
    ensures Walk(g, p[..|p| - 1]) && (p[|p| - 2], p[|p| - 1]) in g.links
  {
    assert forall x <- p[..|p| - 1] :: x in p;
  }

  /** With nothing in flight, along a walk of once live nodes a dead one leaves none live. */
  lemma {:induction false} DeadAlong(g: Graph, was: Net, s: Net, file: FileId, beaten: Stamp, p: seq<Node>)
    requires Spreading(g, was, s, file, beaten) && NoneInFlight(g, s, file) && LiveWalk(g, was, file, p)
    requires p[0] in g.nodes && Network.At(s, p[0], file).Tombstoned()
    ensures p[|p| - 1] in g.nodes && Network.At(s, p[|p| - 1], file).Tombstoned()
    decreases |p|
  {
    if |p| > 1 {
      WalkEnds(g, p);
      assert forall x <- p[..|p| - 1] :: x in p;
      DeadAlong(g, was, s, file, beaten, p[..|p| - 1]);
      assert p[|p| - 2] in p && p[|p| - 1] in p;
      NeighboursDead(g, was, s, file, beaten, (p[|p| - 2], p[|p| - 1]));
    }
  }

  /**
   Exactly who ends dead once nothing is in flight: whoever was, and whoever a told node reaches over nodes
   that held the file live. Nobody else changes, and nothing but the tombstone changes.
   */
  lemma ReconciledIs(g: Graph, s: Net, file: FileId, beaten: Stamp, events: seq<Event>, v: Node)
    requires Base(g, s, file, beaten) && Undisturbed(file, events) && v in g.nodes
    requires NoneInFlight(g, Reconcile(g, s, file, events), file)
    ensures var final := Reconcile(g, s, file, events);
            MarkedAt(s, final, file, beaten, v)
            && (Network.At(final, v, file).Tombstoned() <==>
                  Network.At(s, v, file).Tombstoned() || Reached(g, s, file, ToldNodes(g, s, file, events), v))
  {
    var final, told := Reconcile(g, s, file, events), ToldNodes(g, s, file, events);
    ReconcileKeeps(g, s, file, beaten, events);
    assert MarkedAt(s, final, file, beaten, v);
    if Reached(g, s, file, told, v) {
      var w :| w in told && LiveJoined(g, s, file, w, v);
      var p :| LiveWalk(g, s, file, p) && p[0] == w && p[|p| - 1] == v;
      DeadAlong(g, s, final, file, beaten, p);
    }
    if Network.At(final, v, file).Tombstoned() && !Network.At(s, v, file).Tombstoned() {
      assert WentDead(s, final, file, v);
    }
  }

  // ---- a reconciliation of every link ----

  /** Over every link a node that held the file dead has said so. */
  ghost predicate EveryLinkTold(g: Graph, s: Net, file: FileId, events: seq<Event>)
    requires Shaped(g, s) && WellFormed(g)
  {
    forall l <- g.links | Network.At(s, l.0, file).Tombstoned() :: Told(l.0, l.1) in events
  }

  lemma {:induction false} ToldWas(g: Graph, s: Net, file: FileId, beaten: Stamp, events: seq<Event>, u: Node, v: Node)
    requires Base(g, s, file, beaten) && Undisturbed(file, events)
    requires (u, v) in g.links && Network.At(s, u, file).Tombstoned() && Told(u, v) in events
    ensures v in ToldNodes(g, s, file, events)
    decreases |events|
  {
    var n := |events| - 1;
    assert events == events[..n] + [events[n]];
    UndisturbedPrefix(file, events);
    if Told(u, v) in events[..n] {
      ToldWas(g, s, file, beaten, events[..n], u, v);
    } else {
      ReconcileKeeps(g, s, file, beaten, events[..n]);
      StaysDead(g, s, Reconcile(g, s, file, events[..n]), file, beaten, u);
    }
  }

  lemma UndisturbedPrefix(file: FileId, events: seq<Event>)
    requires Undisturbed(file, events) && events != []
    ensures Undisturbed(file, events[..|events| - 1]) && Undisturbed(file, [events[|events| - 1]])
  {
    assert events[|events| - 1] in events && forall e <- events[..|events| - 1] :: e in events;
  }

  /** Then along any walk a dead node leaves none live, whatever the nodes held before. */
  lemma {:induction false} AllDeadAlong(g: Graph, s: Net, final: Net, file: FileId, beaten: Stamp, told: set<Node>,
                                        p: seq<Node>)
    requires Spreading(g, s, final, file, beaten) && NoneInFlight(g, final, file) && Traced(g, s, final, file, told)
    requires forall l <- g.links | Network.At(s, l.0, file).Tombstoned() :: l.1 in told
    requires Walk(g, p) && Network.At(final, p[0], file).Tombstoned()
    ensures Network.At(final, p[|p| - 1], file).Tombstoned()
    decreases |p|
  {
    if |p| > 1 {
      var l := (p[|p| - 2], p[|p| - 1]);
      WalkEnds(g, p);
      AllDeadAlong(g, s, final, file, beaten, told, p[..|p| - 1]);
      DeadOver(g, s, final, file, beaten, told, l);
    }
  }

  lemma DeadOver(g: Graph, s: Net, final: Net, file: FileId, beaten: Stamp, told: set<Node>, l: Link)
    requires Spreading(g, s, final, file, beaten) && NoneInFlight(g, final, file) && Traced(g, s, final, file, told)
    requires l in g.links && (Network.At(s, l.0, file).Tombstoned() ==> l.1 in told)
    requires Network.At(final, l.0, file).Tombstoned()
    ensures Network.At(final, l.1, file).Tombstoned()
  {
    StaysDead(g, s, final, file, beaten, l.0);
    if WentDead(s, final, file, l.0) { NeighboursDead(g, s, final, file, beaten, l); }
  }

  /** Nobody is told unless somebody was dead. */
  lemma {:induction false} NoneTold(g: Graph, s: Net, file: FileId, beaten: Stamp, events: seq<Event>)
    requires Base(g, s, file, beaten) && Undisturbed(file, events)
    requires forall u <- g.nodes :: !Network.At(s, u, file).Tombstoned()
    ensures ToldNodes(g, s, file, events) == {}
    decreases |events|
  {
    if events != [] {
      var n := |events| - 1;
      UndisturbedPrefix(file, events);
      NoneTold(g, s, file, beaten, events[..n]);
      ReconcileKeeps(g, s, file, beaten, events[..n]);
      if Tells(g, Reconcile(g, s, file, events[..n]), file, events[n]) {
        StaysDead(g, s, Reconcile(g, s, file, events[..n]), file, beaten, events[n].from);
      }
    }
  }

  /** On a connected graph every node ends dead exactly when some node was. */
  lemma ReconciledAgree(g: Graph, s: Net, file: FileId, beaten: Stamp, events: seq<Event>, v: Node)
    requires Base(g, s, file, beaten) && Undisturbed(file, events) && EveryLinkTold(g, s, file, events)
    requires Connected(g) && NoneInFlight(g, Reconcile(g, s, file, events), file) && v in g.nodes
    ensures Network.At(Reconcile(g, s, file, events), v, file).Tombstoned() <==>
              exists u :: u in g.nodes && Network.At(s, u, file).Tombstoned()
  {
    var final, told := Reconcile(g, s, file, events), ToldNodes(g, s, file, events);
    ReconcileKeeps(g, s, file, beaten, events);
    if u :| u in g.nodes && Network.At(s, u, file).Tombstoned() {
      forall l | l in g.links && Network.At(s, l.0, file).Tombstoned() ensures l.1 in told {
        ToldWas(g, s, file, beaten, events, l.0, l.1);
      }
      StaysDead(g, s, final, file, beaten, u);
      assert Linked(g, u, v);
      var p :| Joins(g, p, u, v);
      AllDeadAlong(g, s, final, file, beaten, told, p);
    } else {
      NoneTold(g, s, file, beaten, events);
      StaysDead(g, s, final, file, beaten, v);
    }
  }

  // ---- several deletes converge ----

  lemma QuietIsBase(g: Graph, s: Net, file: FileId, names: Names, start: Record, deletes: Deletes, actions: seq<Action>,
                    v: Node)
    requires Begins(g, s, file, names, start, deletes, actions) && Quiescent(g, RunNet(g, s, actions)) && v in g.nodes
    requires !Network.At(RunNet(g, s, actions), v, file).purged
    ensures var r := Network.At(RunNet(g, s, actions), v, file);
            r.row.Some? && Base(g, RunNet(g, s, actions), file, Beaten(r))
  {
    var mid := RunNet(g, s, actions);
    BeginsAccounted(g, s, file, names, start, deletes, actions);
    SameBeaten(g, s, file, names, start, deletes, actions, v, v);
    var beaten := Beaten(Network.At(mid, v, file));
    forall u | u in g.nodes ensures Stands(Network.At(mid, u, file), beaten) {
      SameBeaten(g, s, file, names, start, deletes, actions, u, v);
      assert Dated(deletes, start.row.value.restoredAt, Network.At(mid, u, file));
    }
  }

  /** A winning delete on top leaves everything else users see. */
  lemma MarkedIsAlike(was: Record, r: Record, beaten: Stamp)
    requires Marked(was, r, beaten) && was.versions != []
    ensures r.versions != [] && Observe(was).Alike(Observe(r)) && Beaten(was) == Beaten(r)
  {
  }

  /**
   However many deletes were made, with whatever else was in flight and pruned: once the links are empty, a
   reconciliation of every link, in any order and among any traffic about other files, ends with all nodes
   showing the same file, dead exactly when some delete beats every version there is and the restore clock.
   */
  lemma DeletesConverge(g: Graph, s: Net, file: FileId, names: Names, start: Record, deletes: Deletes,
                        actions: seq<Action>, events: seq<Event>, u: Node, v: Node)
    requires Begins(g, s, file, names, start, deletes, actions) && Quiescent(g, RunNet(g, s, actions))
    requires u in g.nodes && v in g.nodes && !Network.At(RunNet(g, s, actions), v, file).purged
    requires Undisturbed(file, events) && EveryLinkTold(g, RunNet(g, s, actions), file, events)
    requires NoneInFlight(g, Reconcile(g, RunNet(g, s, actions), file, events), file)
    ensures var mid := RunNet(g, s, actions);
            var final := Reconcile(g, mid, file, events);
            var a, b := Network.At(final, u, file), Network.At(final, v, file);
            !a.purged && a.row.Some? && a.versions != [] && !b.purged && b.row.Some? && b.versions != []
            && Observe(a) == Observe(b)
            && (b.Tombstoned() <==> exists deletedAt :: Wins(mid, file, b, deletedAt))
  {
    var mid := RunNet(g, s, actions);
    var r, q := Network.At(mid, v, file), Network.At(mid, u, file);
    QuietIsBase(g, s, file, names, start, deletes, actions, v);
    DeadSomewhere(g, s, file, names, start, deletes, actions, v);
    SameBeaten(g, s, file, names, start, deletes, actions, u, v);
    SameBeaten(g, s, file, names, start, deletes, actions, v, v);
    QuiescentNodesAgree(g, s, file, names, start, actions, u, v);
    ReconcileKeeps(g, mid, file, Beaten(r), events);
    var final := Reconcile(g, mid, file, events);
    assert MarkedAt(mid, final, file, Beaten(r), u) && MarkedAt(mid, final, file, Beaten(r), v);
    MarkedIsAlike(q, Network.At(final, u, file), Beaten(r));
    MarkedIsAlike(r, Network.At(final, v, file), Beaten(r));
    ReconciledAgree(g, mid, file, Beaten(r), events, u);
    ReconciledAgree(g, mid, file, Beaten(r), events, v);
    assert forall deletedAt ::
             Wins(mid, file, r, deletedAt) <==> Wins(mid, file, Network.At(final, v, file), deletedAt);
  }
}
