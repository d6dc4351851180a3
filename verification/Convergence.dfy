/**
 Pruned flooding still converges. Every fact about a file is a clock that only rises; a node forwards
 whatever raised one of its clocks; so on any connected graph, once the links are empty all nodes hold
 the same clocks, although moves, deletes and purges that lose are dropped where they lose.
 */
module Convergence {
  import opened Types
  import opened Catalog
  import opened Network
  import opened CatalogRuns

  /** A clock reading: nothing yet, a stamp, or purged, which outranks every stamp. */
  datatype Clock = Bottom | Stamped(at: Stamp) | Top

  predicate Leq(a: Clock, b: Clock) {
    a.Bottom? || b.Top? || (a.Stamped? && b.Stamped? && a.at <= b.at)
  }

  /**
   The independent facts of a file; `Delete(d)` is whether the delete stamped `d` is settled, `Revive(d)`
   whether something has beaten it.
   */
  datatype Lens = Path | Content | Delete(d: Stamp) | Revive(d: Stamp) | Edge(tag: TagId) | Purge {
    /** The lens is about the one delete there is, or about no delete. */
    predicate Fits(d: Option<Stamp>) { Delete? || Revive? ==> Some(this.d) == d }
  }

  function Reading(lens: Lens, r: Record): Clock {
    if r.purged then Top else
    match lens
    case Path => if r.row.Some? then Stamped(r.row.value.pathAt) else Bottom
    case Content => if r.versions != [] then Stamped(r.LatestObserved()) else Bottom
    case Delete(d) =>
      if r.row.Some? && (r.row.value.deleted || d <= Max(r.LatestObserved(), r.row.value.restoredAt))
      then Stamped(0) else Bottom
    case Revive(d) =>
      if r.row.Some? && d < Max(r.LatestObserved(), r.row.value.restoredAt) then Stamped(0) else Bottom
    case Edge(tag) => if tag in r.edges then Stamped(r.edges[tag].modifiedAt) else Bottom
    case Purge => Bottom
  }

  function Carried(lens: Lens, change: Change): Clock {
    if change.Purged? then Top else
    match lens
    case Path => if change.Moved? then Stamped(change.modifiedAt) else Bottom
    case Content => if change.Announces() then Stamped(change.observedAt) else Bottom
    case Delete(d) =>
      if (change.Deleted? && change.deletedAt == d) || (change.Announces() && d <= change.observedAt)
      then Stamped(0) else Bottom
    case Revive(d) =>
      if (change.Restored? && d < change.restoredAt) || (change.Announces() && d < change.observedAt)
      then Stamped(0) else Bottom
    case Edge(tag) =>
      if (change.Tagged? || change.Untagged?) && change.tag == tag then Stamped(change.modifiedAt) else Bottom
    case Purge => Bottom
  }

  /**
   The traffic of one file. With `Some(d)` there is no delete but the one stamped `d`, restores are stamped
   later, and no version is stamped `d`; with `None` there may be any number of deletes and restores.
   */
  predicate Allowed(d: Option<Stamp>, change: Change) {
    d.Some? ==>
      (change.Deleted? ==> change.deletedAt == d.value)
      && (change.Restored? ==> d.value < change.restoredAt)
      && (change.Announces() ==> change.observedAt != d.value)
  }

  /** A file known here, whose tombstone, if any, is the one delete's; or a purged one. */
  predicate Sound(d: Option<Stamp>, r: Record) {
    Clean(r) && (r.purged || (r.row.Some? && r.versions != []))
    && (d.Some? && !r.purged ==> r.LatestObserved() != d.value && r.row.value.restoredAt != d.value)
    && (d.Some? && r.Tombstoned() ==>
          r.row.value.deletedAt == d.value && Max(r.LatestObserved(), r.row.value.restoredAt) < d.value)
  }

  /** A restore is only ripe where the delete is settled: there is nothing to restore before. */
  predicate Ripe(d: Option<Stamp>, r: Record, change: Change) {
    d.Some? && change.Restored? ==> Reading(Delete(d.value), r) != Bottom
  }

  /** Settled and not beaten is tombstoned. */
  lemma TombstonedIs(d: Stamp, r: Record)
    requires Sound(Some(d), r) && !r.purged
    ensures r.Tombstoned() <==> Reading(Delete(d), r) == Stamped(0) && Reading(Revive(d), r) == Bottom
  {
  }

  /** An outcome only raises clocks, to at least what the change carries, and forwards what raised one. */
  predicate Advances(lens: Lens, d: Option<Stamp>, r: Record, change: Change, outcome: Outcome) {
    Sound(d, outcome.record)
    && Leq(Reading(lens, r), Reading(lens, outcome.record))
    && Leq(Carried(lens, change), Reading(lens, outcome.record))
    && (Reading(lens, outcome.record) != Reading(lens, r) ==>
          outcome.forward && Reading(lens, outcome.record) == Carried(lens, change))
  }

  lemma HandleAdvances(lens: Lens, d: Option<Stamp>, r: Record, change: Change)
    requires Sound(d, r) && Allowed(d, change) && lens.Fits(d) && Ripe(d, r, change)
    ensures Advances(lens, d, r, change, Handle(r, change))
  {
    if !r.purged {
      match change
      case Added(_, _, _, hash, size, observedAt, _) =>
        AcceptAdvances(lens, d, r, change, Version(hash, size, observedAt));
      case Changed(_, hash, size, observedAt) =>
        AcceptAdvances(lens, d, r, change, Version(hash, size, observedAt));
      case Moved(_, _, _) => PrunedAdvances(lens, d, r, change);
      case Deleted(_, _) => PrunedAdvances(lens, d, r, change);
      case Restored(_, _, _, _) => RestoreAdvances(lens, d, r, change);
      case _ => EdgeAdvances(lens, d, r, change);
    }
  }

  lemma EdgeAdvances(lens: Lens, d: Option<Stamp>, r: Record, change: Change)
    requires Sound(d, r) && lens.Fits(d) && !r.purged && (change.Tagged? || change.Untagged? || change.Purged?)
    ensures Advances(lens, d, r, change, Handle(r, change))
  {
  }

  lemma PrunedAdvances(lens: Lens, d: Option<Stamp>, r: Record, change: Change)
    requires Sound(d, r) && Allowed(d, change) && lens.Fits(d) && !r.purged
    requires change.Moved? || change.Deleted?
    ensures Advances(lens, d, r, change, Handle(r, change))
  {
  }

  /** Recorded or forgotten by the no-op guard, a ripe restore leaves the delete beaten. */
  lemma RestoreAdvances(lens: Lens, d: Option<Stamp>, r: Record, change: Change)
    requires Sound(d, r) && Allowed(d, change) && lens.Fits(d) && !r.purged && Ripe(d, r, change) && change.Restored?
    ensures Advances(lens, d, r, change, Handle(r, change))
  {
  }

  lemma AcceptAdvances(lens: Lens, d: Option<Stamp>, r: Record, change: Change, version: Version)
    requires Sound(d, r) && Allowed(d, change) && !r.purged && lens.Fits(d)
    requires change.Announces() && version == Version(change.hash, change.size, change.observedAt)
    ensures !r.Supersedes(version.observedAt) ==> Leq(Carried(lens, change), Reading(lens, r))
    ensures r.Supersedes(version.observedAt) ==>
      var after := r.Accept(version);
      Sound(d, after) && Leq(Reading(lens, r), Reading(lens, after)) && Leq(Carried(lens, change), Reading(lens, after))
      && (Reading(lens, after) != Reading(lens, r) ==> Reading(lens, after) == Carried(lens, change))
  {
  }

  /** A restore made here and not lost, and any other change made here, does the same. */
  lemma TakenAdvances(lens: Lens, d: Option<Stamp>, s: Net, v: Node, sender: Option<Node>, change: Change)
    requires v in s.store && Sound(d, Network.At(s, v, change.file)) && Allowed(d, change) && lens.Fits(d)
    requires Ripe(d, Network.At(s, v, change.file), change)
    requires sender.None? && change.Restored? ==> Network.At(s, v, change.file).RestoreWins(change.restoredAt)
    ensures Advances(lens, d, Network.At(s, v, change.file), change, Taken(s, v, sender, change))
  {
    var r := Network.At(s, v, change.file);
    if sender.Some? || !change.Restored? {
      HandleAdvances(lens, d, r, change);
    } else {
      MadeAdvances(lens, d, r, change);
    }
  }

  lemma MadeAdvances(lens: Lens, d: Option<Stamp>, r: Record, change: Change)
    requires Sound(d, r) && Allowed(d, change) && lens.Fits(d) && Ripe(d, r, change)
    requires change.Restored? && r.RestoreWins(change.restoredAt)
    ensures Advances(lens, d, r, change, Made(r, change))
  {
  }

  // ---- the invariant of every link ----

  function At(lens: Lens, s: Net, v: Node, file: FileId): Clock
    requires v in s.store
  {
    Reading(lens, Network.At(s, v, file))
  }

  /**
   The far end of a link is up to date or a change that brings it there is in flight, and nothing in
   flight is ahead of the node that sent it.
   */
  ghost predicate LinkCovered(lens: Lens, file: FileId, d: Option<Stamp>, near: Clock, far: Clock, queue: seq<Change>) {
    (Leq(near, far) || exists c <- queue :: c.file == file && Carried(lens, c) == near)
    && forall c <- queue | c.file == file :: Allowed(d, c) && Leq(Carried(lens, c), near)
  }

  /** Either end may rise; the near end only by what is now in flight or by what the far end sent it. */
  lemma LinkAdvances(lens: Lens, file: FileId, d: Option<Stamp>, near: Clock, far: Clock, queue: seq<Change>,
                     near': Clock, far': Clock, queue': seq<Change>)
    requires LinkCovered(lens, file, d, near, far, queue)
    requires Leq(near, near') && Leq(far, far')
    requires forall c <- queue :: c in queue'
    requires forall c <- queue' | c.file == file && c !in queue :: Allowed(d, c) && Leq(Carried(lens, c), near')
    requires near' != near ==>
               Leq(near', far') || exists c <- queue' :: c.file == file && Carried(lens, c) == near'
    ensures LinkCovered(lens, file, d, near', far', queue')
  {
    if near' == near && !Leq(near, far) {
      var c :| c in queue && c.file == file && Carried(lens, c) == near;
      assert c in queue';
    }
  }

  /** Dropping a handled change from the front of a link uncovers nothing: the far end has what it carried. */
  lemma LinkPops(lens: Lens, file: FileId, d: Option<Stamp>, near: Clock, far: Clock, queue: seq<Change>)
    requires LinkCovered(lens, file, d, near, far, queue) && queue != []
    requires queue[0].file == file ==> Leq(Carried(lens, queue[0]), far)
    ensures LinkCovered(lens, file, d, near, far, queue[1..])
  {
    assert queue == [queue[0]] + queue[1..];
  }

  ghost predicate NodeCovered(s: Net, file: FileId, d: Option<Stamp>, lens: Lens, v: Node)
    requires v in s.store && v in s.log
  {
    Sound(d, Network.At(s, v, file))
    && forall c <- s.log[v] | c.file == file :: Leq(Carried(lens, c), At(lens, s, v, file))
  }

  ghost predicate Covered(g: Graph, s: Net, file: FileId, d: Option<Stamp>, lens: Lens)
  {
    Shaped(g, s) && WellFormed(g)
    && (forall v <- g.nodes :: NodeCovered(s, file, d, lens, v))
    && forall l <- g.links :: LinkCovered(lens, file, d, At(lens, s, l.0, file), At(lens, s, l.1, file), s.queue[l])
  }

  /** The turn is one the handler could take on this file. */
  ghost predicate TurnOf(s: Net, file: FileId, d: Option<Stamp>, lens: Lens, v: Node, sender: Option<Node>,
                         change: Change, outcome: Outcome)
    requires v in s.store
  {
    (sender.Some? ==> sender.value in s.store)
    && (change.file == file ==>
          Allowed(d, change) && Advances(lens, d, Network.At(s, v, file), change, outcome)
          && (sender.Some? ==> Leq(Carried(lens, change), At(lens, s, sender.value, file))))
  }

  lemma TurnKeepsNode(g: Graph, s: Net, file: FileId, d: Option<Stamp>, lens: Lens, v: Node, sender: Option<Node>,
                      change: Change, outcome: Outcome, w: Node)
    requires Shaped(g, s) && v in g.nodes && w in g.nodes && TurnOf(s, file, d, lens, v, sender, change, outcome)
    requires NodeCovered(s, file, d, lens, w)
    ensures var next := Turn(s, v, sender, change, outcome);
            NodeCovered(next, file, d, lens, w) && Leq(At(lens, s, w, file), At(lens, next, w, file))
    ensures At(lens, Turn(s, v, sender, change, outcome), w, file) != At(lens, s, w, file) ==>
              w == v && change.file == file && outcome.forward
              && Carried(lens, change) == At(lens, Turn(s, v, sender, change, outcome), w, file)
  {
    var next := Turn(s, v, sender, change, outcome);
    if w != v {
      assert next.store[w] == s.store[w] && next.log[w] == s.log[w];
    } else if change.file != file {
      assert Network.At(next, w, file) == Network.At(s, w, file);
    } else {
      assert Network.At(next, w, file) == outcome.record;
      forall c | c in s.log[w] && c.file == file ensures Leq(Carried(lens, c), At(lens, next, w, file)) {
        LeqTransitive(Carried(lens, c), At(lens, s, w, file), At(lens, next, w, file));
      }
    }
  }

  lemma SentOn(s: Net, v: Node, sender: Option<Node>, change: Change, outcome: Outcome, l: Link)
    requires v in s.store && v in s.log && l in s.queue
    ensures var queue, queue' := s.queue[l], Turn(s, v, sender, change, outcome).queue[l];
            forall c ::
              c in queue' <==> c in queue || (c == change && outcome.forward && l.0 == v && sender != Some(l.1))
  {
  }

  lemma TurnKeepsLink(g: Graph, s: Net, file: FileId, d: Option<Stamp>, lens: Lens, v: Node, sender: Option<Node>,
                      change: Change, outcome: Outcome, l: Link)
    requires Covered(g, s, file, d, lens) && v in g.nodes && l in g.links
    requires TurnOf(s, file, d, lens, v, sender, change, outcome)
    ensures var next := Turn(s, v, sender, change, outcome);
            LinkCovered(lens, file, d, At(lens, next, l.0, file), At(lens, next, l.1, file), next.queue[l])
  {
    var next := Turn(s, v, sender, change, outcome);
    TurnKeepsNode(g, s, file, d, lens, v, sender, change, outcome, l.0);
    TurnKeepsNode(g, s, file, d, lens, v, sender, change, outcome, l.1);
    var near, far := At(lens, s, l.0, file), At(lens, s, l.1, file);
    var near', far' := At(lens, next, l.0, file), At(lens, next, l.1, file);
    SentOn(s, v, sender, change, outcome, l);
    LinkAdvances(lens, file, d, near, far, s.queue[l], near', far', next.queue[l]);
  }

  lemma TurnKeepsCovered(g: Graph, s: Net, file: FileId, d: Option<Stamp>, lens: Lens, v: Node, sender: Option<Node>,
                         change: Change, outcome: Outcome)
    requires Covered(g, s, file, d, lens) && v in g.nodes && TurnOf(s, file, d, lens, v, sender, change, outcome)
    ensures Covered(g, Turn(s, v, sender, change, outcome), file, d, lens)
  {
    var next := Turn(s, v, sender, change, outcome);
    TurnKeepsShape(g, s, v, sender, change, outcome);
    forall l | l in g.links
      ensures LinkCovered(lens, file, d, At(lens, next, l.0, file), At(lens, next, l.1, file), next.queue[l])
    {
      TurnKeepsLink(g, s, file, d, lens, v, sender, change, outcome, l);
    }
    forall w | w in g.nodes ensures NodeCovered(next, file, d, lens, w) {
      TurnKeepsNode(g, s, file, d, lens, v, sender, change, outcome, w);
    }
  }

  lemma PopKeepsCovered(g: Graph, s: Net, file: FileId, d: Option<Stamp>, lens: Lens, l: Link)
    requires Covered(g, s, file, d, lens) && l in g.links && s.queue[l] != []
    requires s.queue[l][0].file == file ==> Leq(Carried(lens, s.queue[l][0]), At(lens, s, l.1, file))
    ensures Covered(g, Popped(s, l), file, d, lens)
  {
    var next := Popped(s, l);
    assert next.store == s.store && next.log == s.log;
    forall k | k in g.links
      ensures LinkCovered(lens, file, d, At(lens, next, k.0, file), At(lens, next, k.1, file), next.queue[k])
    {
      var near, far := At(lens, s, k.0, file), At(lens, s, k.1, file);
      assert LinkCovered(lens, file, d, near, far, s.queue[k]);
      if k == l {
        LinkPops(lens, file, d, near, far, s.queue[k]);
      }
    }
    forall w | w in g.nodes ensures NodeCovered(next, file, d, lens, w) {
      assert NodeCovered(s, file, d, lens, w);
    }
  }

  /** What the action makes a node handle of this file is ripe there. */
  ghost predicate RipeAt(g: Graph, s: Net, file: FileId, d: Option<Stamp>, action: Action)
    requires Shaped(g, s)
  {
    Enabled(g, s, action) ==>
      match action
      case Originate(v, change) => change.file == file ==> Ripe(d, Network.At(s, v, file), change)
      case Deliver(u, v) =>
        v in g.nodes && (s.queue[(u, v)][0].file == file ==> Ripe(d, Network.At(s, v, file), s.queue[(u, v)][0]))
  }

  lemma DoKeepsCovered(g: Graph, s: Net, file: FileId, d: Option<Stamp>, lens: Lens, action: Action)
    requires Covered(g, s, file, d, lens) && lens.Fits(d) && RipeAt(g, s, file, d, action)
    requires action.Originate? && action.change.file == file ==> Allowed(d, action.change)
    ensures Covered(g, Do(g, s, action), file, d, lens)
  {
    if Enabled(g, s, action) {
      match action
      case Originate(v, change) => HandleKeepsCovered(g, s, file, d, lens, v, None, change);
      case Deliver(u, v) =>
        var l := (u, v);
        assert s.queue[l][0] in s.queue[l];
        HandleKeepsCovered(g, s, file, d, lens, v, Some(u), s.queue[l][0]);
        DeliverKeepsCovered(g, s, file, d, lens, l, Taken(s, v, Some(u), s.queue[l][0]));
    }
  }

  lemma HandleKeepsCovered(g: Graph, s: Net, file: FileId, d: Option<Stamp>, lens: Lens, v: Node, sender: Option<Node>,
                           change: Change)
    requires Covered(g, s, file, d, lens) && lens.Fits(d) && v in g.nodes
    requires sender.Some? ==> sender.value in g.nodes
    requires change.file == file ==>
      Allowed(d, change) && Ripe(d, Network.At(s, v, file), change)
      && (sender.Some? ==> Leq(Carried(lens, change), At(lens, s, sender.value, file)))
      && (sender.None? && change.Restored? ==> Network.At(s, v, file).RestoreWins(change.restoredAt))
    ensures TurnOf(s, file, d, lens, v, sender, change, Taken(s, v, sender, change))
    ensures Covered(g, HandleAt(s, v, sender, change), file, d, lens)
  {
    if change.file == file {
      assert NodeCovered(s, file, d, lens, v);
      TakenAdvances(lens, d, s, v, sender, change);
    }
    TurnKeepsCovered(g, s, file, d, lens, v, sender, change, Taken(s, v, sender, change));
  }

  lemma DeliverKeepsCovered(g: Graph, s: Net, file: FileId, d: Option<Stamp>, lens: Lens, l: Link, outcome: Outcome)
    requires Covered(g, s, file, d, lens) && l in g.links && s.queue[l] != []
    requires TurnOf(s, file, d, lens, l.1, Some(l.0), s.queue[l][0], outcome)
    ensures Covered(g, Turn(Popped(s, l), l.1, Some(l.0), s.queue[l][0], outcome), file, d, lens)
  {
    var turned := Turn(s, l.1, Some(l.0), s.queue[l][0], outcome);
    TurnKeepsCovered(g, s, file, d, lens, l.1, Some(l.0), s.queue[l][0], outcome);
    TurnKeepsNode(g, s, file, d, lens, l.1, Some(l.0), s.queue[l][0], outcome, l.1);
    PopCommutes(g, s, l, outcome);
    PopKeepsCovered(g, turned, file, d, lens, l);
  }

  // ---- a restore never overtakes the delete it answers ----

  /** The change settles the delete: it is the delete, a newer version, or a purge. */
  predicate Settles(file: FileId, d: Stamp, change: Change) {
    change.file == file && Carried(Delete(d), change) != Bottom
  }

  predicate Restores(file: FileId, change: Change) { change.file == file && change.Restored? }

  /** Ahead of every restore in flight there is something that settles the delete, unless the far end has it settled. */
  ghost predicate Preceded(file: FileId, d: Stamp, far: Clock, queue: seq<Change>) {
    far != Bottom
    || forall j :: 0 <= j < |queue| && Restores(file, queue[j]) ==> exists i :: 0 <= i < j && Settles(file, d, queue[i])
  }

  /** Every link carries restores that way, and what was handled before this step was ripe. */
  ghost predicate Ready(g: Graph, s: Net, file: FileId, d: Stamp) {
    Covered(g, s, file, Some(d), Delete(d))
    && forall l <- g.links :: Preceded(file, d, At(Delete(d), s, l.1, file), s.queue[l])
  }

  lemma PrecededAppends(file: FileId, d: Stamp, far: Clock, queue: seq<Change>, change: Change)
    requires Preceded(file, d, far, queue)
    requires Restores(file, change) && far == Bottom ==> exists c <- queue :: Settles(file, d, c)
    ensures Preceded(file, d, far, queue + [change])
  {
    var next := queue + [change];
    if far == Bottom {
      forall j | 0 <= j < |next| && Restores(file, next[j])
        ensures exists i :: 0 <= i < j && Settles(file, d, next[i])
      {
        if j < |queue| {
          var i :| 0 <= i < j && Settles(file, d, queue[i]);
          assert Settles(file, d, next[i]);
        } else {
          var c :| c in queue && Settles(file, d, c);
          var i :| 0 <= i < |queue| && queue[i] == c;
          assert Settles(file, d, next[i]);
        }
      }
    }
  }

  lemma PrecededPops(file: FileId, d: Stamp, far: Clock, queue: seq<Change>)
    requires Preceded(file, d, far, queue) && queue != [] && (Settles(file, d, queue[0]) ==> far != Bottom)
    ensures Preceded(file, d, far, queue[1..])
  {
    var rest := queue[1..];
    if far == Bottom {
      forall j | 0 <= j < |rest| && Restores(file, rest[j])
        ensures exists i :: 0 <= i < j && Settles(file, d, rest[i])
      {
        assert Restores(file, queue[j + 1]);
        var i :| 0 <= i < j + 1 && Settles(file, d, queue[i]);
        assert Settles(file, d, rest[i - 1]);
      }
    }
  }

  lemma TurnKeepsPreceded(g: Graph, s: Net, file: FileId, d: Stamp, v: Node, sender: Option<Node>, change: Change,
                          outcome: Outcome, l: Link)
    requires Ready(g, s, file, d) && v in g.nodes && l in g.links
    requires TurnOf(s, file, Some(d), Delete(d), v, sender, change, outcome)
    requires change.file == file ==> Ripe(Some(d), Network.At(s, v, file), change)
    ensures var next := Turn(s, v, sender, change, outcome);
            Preceded(file, d, At(Delete(d), next, l.1, file), next.queue[l])
  {
    var next := Turn(s, v, sender, change, outcome);
    TurnKeepsNode(g, s, file, Some(d), Delete(d), v, sender, change, outcome, l.1);
    var near, far, far' := At(Delete(d), s, l.0, file), At(Delete(d), s, l.1, file), At(Delete(d), next, l.1, file);
    assert LinkCovered(Delete(d), file, Some(d), near, far, s.queue[l]) && Preceded(file, d, far, s.queue[l]);
    PrecededAdvances(file, d, near, far, far', s.queue[l], change, next.queue[l]);
  }

  /** A rise of the far end, and a change the near end sends once it has the delete settled, keep the order. */
  lemma PrecededAdvances(file: FileId, d: Stamp, near: Clock, far: Clock, far': Clock, queue: seq<Change>,
                         change: Change, queue': seq<Change>)
    requires LinkCovered(Delete(d), file, Some(d), near, far, queue) && Preceded(file, d, far, queue) && Leq(far, far')
    requires queue' == queue || (queue' == queue + [change] && (Restores(file, change) ==> near != Bottom))
    ensures Preceded(file, d, far', queue')
  {
    if queue' != queue && far' == Bottom {
      if Restores(file, change) {
        var c :| c in queue && c.file == file && Carried(Delete(d), c) == near;
        assert Settles(file, d, c);
      }
      PrecededAppends(file, d, far', queue, change);
    }
  }

  lemma PopKeepsPreceded(g: Graph, s: Net, file: FileId, d: Stamp, l: Link)
    requires Ready(g, s, file, d) && l in g.links && s.queue[l] != []
    requires Settles(file, d, s.queue[l][0]) ==> At(Delete(d), s, l.1, file) != Bottom
    ensures var next := Popped(s, l);
            forall k <- g.links :: Preceded(file, d, At(Delete(d), next, k.1, file), next.queue[k])
  {
    var next := Popped(s, l);
    forall k | k in g.links ensures Preceded(file, d, At(Delete(d), next, k.1, file), next.queue[k]) {
      assert Preceded(file, d, At(Delete(d), s, k.1, file), s.queue[k]);
      if k == l { PrecededPops(file, d, At(Delete(d), s, k.1, file), s.queue[k]); }
    }
  }

  /** So what arrives is ripe, once what is made is: restores are made where the delete was applied. */
  lemma ReadyIsRipe(g: Graph, s: Net, file: FileId, d: Stamp, action: Action)
    requires Ready(g, s, file, d)
    requires action.Originate? && Enabled(g, s, action) && action.change.file == file ==>
               Ripe(Some(d), Network.At(s, action.at, file), action.change)
    ensures RipeAt(g, s, file, Some(d), action)
  {
    if Enabled(g, s, action) && action.Deliver? {
      var l := (action.from, action.to);
      assert Preceded(file, d, At(Delete(d), s, l.1, file), s.queue[l]);
    }
  }

  lemma TurnKeepsReady(g: Graph, s: Net, file: FileId, d: Stamp, v: Node, sender: Option<Node>, change: Change,
                       outcome: Outcome)
    requires Ready(g, s, file, d) && v in g.nodes && TurnOf(s, file, Some(d), Delete(d), v, sender, change, outcome)
    requires change.file == file ==> Ripe(Some(d), Network.At(s, v, file), change)
    ensures Ready(g, Turn(s, v, sender, change, outcome), file, d)
  {
    TurnKeepsCovered(g, s, file, Some(d), Delete(d), v, sender, change, outcome);
    forall l | l in g.links
      ensures var next := Turn(s, v, sender, change, outcome);
              Preceded(file, d, At(Delete(d), next, l.1, file), next.queue[l])
    {
      TurnKeepsPreceded(g, s, file, d, v, sender, change, outcome, l);
    }
  }

  lemma DoKeepsReady(g: Graph, s: Net, file: FileId, d: Stamp, action: Action)
    requires Ready(g, s, file, d) && RipeAt(g, s, file, Some(d), action)
    requires action.Originate? && action.change.file == file ==> Allowed(Some(d), action.change)
    ensures Ready(g, Do(g, s, action), file, d)
  {
    DoKeepsCovered(g, s, file, Some(d), Delete(d), action);
    if Enabled(g, s, action) {
      match action
      case Originate(v, change) =>
        HandleKeepsCovered(g, s, file, Some(d), Delete(d), v, None, change);
        TurnKeepsReady(g, s, file, d, v, None, change, Taken(s, v, None, change));
      case Deliver(u, v) => DeliverKeepsReady(g, s, file, d, (u, v));
    }
  }

  lemma DoIsPopped(g: Graph, s: Net, l: Link)
    requires Shaped(g, s) && WellFormed(g) && l in g.links && s.queue[l] != []
    ensures var turned := HandleAt(s, l.1, Some(l.0), s.queue[l][0]);
            turned.queue[l] == s.queue[l] && Do(g, s, Deliver(l.0, l.1)) == Popped(turned, l)
  {
    PopCommutes(g, s, l, Taken(s, l.1, Some(l.0), s.queue[l][0]));
  }

  lemma DeliverKeepsReady(g: Graph, s: Net, file: FileId, d: Stamp, l: Link)
    requires Ready(g, s, file, d) && l in g.links && s.queue[l] != [] && RipeAt(g, s, file, Some(d), Deliver(l.0, l.1))
    ensures var next := Do(g, s, Deliver(l.0, l.1));
            forall k <- g.links :: Preceded(file, d, At(Delete(d), next, k.1, file), next.queue[k])
  {
    DoIsPopped(g, s, l);
    HeadKeepsReady(g, s, file, d, l);
    PopKeepsPreceded(g, HandleAt(s, l.1, Some(l.0), s.queue[l][0]), file, d, l);
  }

  lemma HeadKeepsReady(g: Graph, s: Net, file: FileId, d: Stamp, l: Link)
    requires Ready(g, s, file, d) && l in g.links && s.queue[l] != [] && RipeAt(g, s, file, Some(d), Deliver(l.0, l.1))
    ensures var turned := HandleAt(s, l.1, Some(l.0), s.queue[l][0]);
            Ready(g, turned, file, d)
            && (Settles(file, d, s.queue[l][0]) ==> At(Delete(d), turned, l.1, file) != Bottom)
  {
    var head := s.queue[l][0];
    var outcome := Taken(s, l.1, Some(l.0), head);
    assert head in s.queue[l];
    HandleKeepsCovered(g, s, file, Some(d), Delete(d), l.1, Some(l.0), head);
    TurnKeepsReady(g, s, file, d, l.1, Some(l.0), head, outcome);
  }

  // ---- stamps name what they stamp ----

  /**
   The premise that stamps are distinct: `delete` is the stamp of the one delete of the file, if it is to
   be one, and every other stamp determines the path, content or edge state it was given to.
   */
  datatype Names = Names(
    delete: Option<Stamp>, path: Stamp -> LogicalPath, content: Stamp -> (Hash, nat), edge: (TagId, Stamp) -> bool)

  predicate NamedChange(names: Names, change: Change) {
    Allowed(names.delete, change)
    && (change.Moved? ==> change.path == names.path(change.modifiedAt))
    && (change.Announces() ==>
          (change.hash, change.size) == names.content(change.observedAt))
    && (change.Tagged? ==> !names.edge(change.tag, change.modifiedAt))
    && (change.Untagged? ==> names.edge(change.tag, change.modifiedAt))
  }

  ghost predicate NamedRecord(names: Names, r: Record) {
    !r.purged ==>
      r.row.Some? && r.versions != []
      && r.row.value.path == names.path(r.row.value.pathAt)
      && (names.delete.Some? ==> r.row.value.restoredAt != names.delete.value)
      && (r.Latest().value.hash, r.Latest().value.size) == names.content(r.LatestObserved())
      && (names.delete.Some? ==> r.LatestObserved() != names.delete.value)
      && forall tag <- r.edges :: r.edges[tag].deleted == names.edge(tag, r.edges[tag].modifiedAt)
  }

  lemma HandleKeepsNames(names: Names, r: Record, change: Change)
    requires NamedRecord(names, r) && NamedChange(names, change)
    ensures NamedRecord(names, Handle(r, change).record) && NamedRecord(names, Made(r, change).record)
  {
  }

  ghost predicate Named(g: Graph, s: Net, file: FileId, names: Names) {
    Shaped(g, s)
    && (forall v <- g.nodes :: NamedRecord(names, Network.At(s, v, file)))
    && forall l <- g.links, c <- s.queue[l] | c.file == file :: NamedChange(names, c)
  }

  lemma TurnKeepsNamed(g: Graph, s: Net, file: FileId, names: Names, v: Node, sender: Option<Node>, change: Change,
                       outcome: Outcome)
    requires Named(g, s, file, names) && v in g.nodes
    requires change.file == file ==> NamedChange(names, change) && NamedRecord(names, outcome.record)
    ensures Named(g, Turn(s, v, sender, change, outcome), file, names)
  {
    var next := Turn(s, v, sender, change, outcome);
    TurnKeepsShape(g, s, v, sender, change, outcome);
    forall l, c | l in g.links && c in next.queue[l] && c.file == file ensures NamedChange(names, c) {
      assert c in s.queue[l] || c == change;
    }
  }

  lemma DoKeepsNamed(g: Graph, s: Net, file: FileId, names: Names, action: Action)
    requires Named(g, s, file, names)
    requires action.Originate? && action.change.file == file ==> NamedChange(names, action.change)
    ensures Named(g, Do(g, s, action), file, names)
  {
    if Enabled(g, s, action) {
      match action
      case Originate(v, change) =>
        if change.file == file { HandleKeepsNames(names, Network.At(s, v, file), change); }
        TurnKeepsNamed(g, s, file, names, v, None, change, Taken(s, v, None, change));
      case Deliver(u, v) =>
        if v in g.nodes {
          var head, popped := s.queue[(u, v)][0], Popped(s, (u, v));
          assert head in s.queue[(u, v)];
          assert forall l <- g.links, c <- popped.queue[l] :: c in s.queue[l];
          if head.file == file { HandleKeepsNames(names, Network.At(s, v, file), head); }
          TurnKeepsNamed(g, popped, file, names, v, Some(u), head, Taken(popped, v, Some(u), head));
        }
    }
  }

  // ---- where every reading came from ----

  /** The clock is the one the file started with, or one a handled change carried. */
  ghost predicate Sourced(s: Net, file: FileId, lens: Lens, start: Record, clock: Clock) {
    clock == Reading(lens, start) || exists c :: Seen(s, c) && c.file == file && Carried(lens, c) == clock
  }

  ghost predicate AllSourced(g: Graph, s: Net, file: FileId, lens: Lens, start: Record) {
    Shaped(g, s)
    && forall v <- g.nodes ::
         Leq(Reading(lens, start), At(lens, s, v, file)) && Sourced(s, file, lens, start, At(lens, s, v, file))
  }

  lemma LeqTransitive(a: Clock, b: Clock, c: Clock)
    requires Leq(a, b) && Leq(b, c)
    ensures Leq(a, c)
  {
  }

  lemma TurnKeepsSourced(g: Graph, s: Net, file: FileId, d: Option<Stamp>, lens: Lens, start: Record, v: Node,
                         sender: Option<Node>, change: Change, outcome: Outcome)
    requires AllSourced(g, s, file, lens, start) && v in g.nodes
    requires change.file == file ==> Advances(lens, d, Network.At(s, v, file), change, outcome)
    ensures AllSourced(g, Turn(s, v, sender, change, outcome), file, lens, start)
  {
    var next := Turn(s, v, sender, change, outcome);
    TurnKeepsShape(g, s, v, sender, change, outcome);
    assert change in next.log[v] && Seen(next, change);
    forall w | w in g.nodes
      ensures Leq(Reading(lens, start), At(lens, next, w, file))
      ensures Sourced(next, file, lens, start, At(lens, next, w, file))
    {
      if At(lens, next, w, file) == At(lens, s, w, file) {
        if At(lens, s, w, file) != Reading(lens, start) {
          var c :| Seen(s, c) && c.file == file && Carried(lens, c) == At(lens, s, w, file);
          var x :| x in s.log && c in s.log[x];
          assert c in next.log[x] && Seen(next, c);
        }
      } else {
        LeqTransitive(Reading(lens, start), At(lens, s, v, file), At(lens, next, v, file));
      }
    }
  }

  lemma HandleKeepsSourced(g: Graph, s: Net, file: FileId, d: Option<Stamp>, lens: Lens, start: Record, v: Node,
                           sender: Option<Node>, change: Change)
    requires AllSourced(g, s, file, lens, start) && lens.Fits(d) && v in g.nodes
    requires Sound(d, Network.At(s, v, file))
    requires change.file == file ==> Allowed(d, change) && Ripe(d, Network.At(s, v, file), change)
    requires sender.None? && change.Restored? ==> Network.At(s, v, change.file).RestoreWins(change.restoredAt)
    ensures AllSourced(g, HandleAt(s, v, sender, change), file, lens, start)
  {
    if change.file == file { TakenAdvances(lens, d, s, v, sender, change); }
    TurnKeepsSourced(g, s, file, d, lens, start, v, sender, change, Taken(s, v, sender, change));
  }

  lemma DoKeepsSourced(g: Graph, s: Net, file: FileId, d: Option<Stamp>, lens: Lens, start: Record, action: Action)
    requires Covered(g, s, file, d, lens) && AllSourced(g, s, file, lens, start) && lens.Fits(d)
    requires RipeAt(g, s, file, d, action)
    requires action.Originate? && action.change.file == file ==> Allowed(d, action.change)
    ensures AllSourced(g, Do(g, s, action), file, lens, start)
  {
    if Enabled(g, s, action) {
      match action
      case Originate(v, change) =>
        assert NodeCovered(s, file, d, lens, v);
        HandleKeepsSourced(g, s, file, d, lens, start, v, None, change);
      case Deliver(u, v) =>
        var l := (u, v);
        assert s.queue[l][0] in s.queue[l];
        assert NodeCovered(s, file, d, lens, v);
        HandleKeepsSourced(g, s, file, d, lens, start, v, Some(u), s.queue[l][0]);
        PopCommutes(g, s, l, Taken(s, v, Some(u), s.queue[l][0]));
        PopKeepsSourced(g, HandleAt(s, v, Some(u), s.queue[l][0]), file, lens, start, l);
    }
  }

  lemma PopKeepsSourced(g: Graph, s: Net, file: FileId, lens: Lens, start: Record, l: Link)
    requires AllSourced(g, s, file, lens, start) && l in g.links && s.queue[l] != []
    ensures AllSourced(g, Popped(s, l), file, lens, start)
  {
    assert forall c :: Seen(Popped(s, l), c) <==> Seen(s, c);
  }

  // ---- runs ----

  /** Every node starts with the same live, known file, nothing is in flight, and every two nodes are joined. */
  ghost predicate Start(g: Graph, s: Net, file: FileId, names: Names, start: Record) {
    WellFormed(g) && Connected(g) && Fresh(g, s)
    && (forall v <- g.nodes :: Network.At(s, v, file) == start)
    && start.Live() && !start.purged && NamedRecord(names, start)
  }

  /**
   Whatever else happens, the changes made to this file respect the premise on stamps, and a restore is
   made where the delete is settled: the restore command demands a tombstone, and only a newer edit or a
   purge can come before the restore is applied.
   */
  ghost predicate Premises(g: Graph, s: Net, file: FileId, names: Names, actions: seq<Action>)
    requires Shaped(g, s)
  {
    forall i :: 0 <= i < |actions| ==> PremiseAt(g, s, file, names, actions, i)
  }

  ghost predicate PremiseAt(g: Graph, s: Net, file: FileId, names: Names, actions: seq<Action>, i: nat)
    requires Shaped(g, s) && i < |actions|
  {
    Premise(g, RunNet(g, s, actions[..i]), file, names, actions[i])
  }

  ghost predicate Premise(g: Graph, s: Net, file: FileId, names: Names, action: Action)
    requires Shaped(g, s)
  {
    action.Originate? && action.change.file == file ==>
      NamedChange(names, action.change)
      && (Enabled(g, s, action) ==> Ripe(names.delete, Network.At(s, action.at, file), action.change))
  }

  lemma PremisesPrefix(g: Graph, s: Net, file: FileId, names: Names, actions: seq<Action>)
    requires Shaped(g, s) && Premises(g, s, file, names, actions) && actions != []
    ensures var n := |actions| - 1;
            Premises(g, s, file, names, actions[..n]) && Premise(g, RunNet(g, s, actions[..n]), file, names, actions[n])
  {
    var n := |actions| - 1;
    assert PremiseAt(g, s, file, names, actions, n);
    forall i | 0 <= i < n ensures PremiseAt(g, s, file, names, actions[..n], i) {
      assert actions[..n][..i] == actions[..i];
      assert PremiseAt(g, s, file, names, actions, i);
    }
  }

  ghost predicate Kept(g: Graph, s: Net, file: FileId, names: Names, start: Record, lens: Lens) {
    (names.delete.Some? ==> Ready(g, s, file, names.delete.value))
    && Covered(g, s, file, names.delete, lens) && Named(g, s, file, names) && AllSourced(g, s, file, lens, start)
  }

  lemma StartKept(g: Graph, s: Net, file: FileId, names: Names, start: Record, lens: Lens)
    requires Start(g, s, file, names, start)
    ensures Kept(g, s, file, names, start, lens)
  {
    NamedIsSound(names, start, lens);
    StartCovered(g, s, file, names.delete, start, lens);
    if names.delete.Some? {
      NamedIsSound(names, start, Delete(names.delete.value));
      StartCovered(g, s, file, names.delete, start, Delete(names.delete.value));
    }
    StartSourced(g, s, file, start, lens);
  }

  lemma StartCovered(g: Graph, s: Net, file: FileId, d: Option<Stamp>, start: Record, lens: Lens)
    requires WellFormed(g) && Fresh(g, s) && Sound(d, start) && forall v <- g.nodes :: Network.At(s, v, file) == start
    requires Leq(Reading(lens, start), Reading(lens, start))
    ensures Covered(g, s, file, d, lens)
  {
    forall v | v in g.nodes ensures NodeCovered(s, file, d, lens, v) {
    }
  }

  lemma StartSourced(g: Graph, s: Net, file: FileId, start: Record, lens: Lens)
    requires Fresh(g, s) && forall v <- g.nodes :: Network.At(s, v, file) == start
    requires Leq(Reading(lens, start), Reading(lens, start))
    ensures AllSourced(g, s, file, lens, start)
  {
  }

  lemma NamedIsSound(names: Names, start: Record, lens: Lens)
    requires NamedRecord(names, start) && start.Live() && !start.purged
    ensures Sound(names.delete, start) && Leq(Reading(lens, start), Reading(lens, start))
  {
  }

  lemma AnythingIsRipe(g: Graph, s: Net, file: FileId, action: Action)
    requires Shaped(g, s) && WellFormed(g)
    ensures RipeAt(g, s, file, None, action)
  {
  }

  lemma DoKeeps(g: Graph, s: Net, file: FileId, names: Names, start: Record, lens: Lens, action: Action)
    requires Kept(g, s, file, names, start, lens) && lens.Fits(names.delete) && Premise(g, s, file, names, action)
    ensures Kept(g, Do(g, s, action), file, names, start, lens)
  {
    if names.delete.Some? {
      ReadyIsRipe(g, s, file, names.delete.value, action);
      DoKeepsReady(g, s, file, names.delete.value, action);
    } else {
      AnythingIsRipe(g, s, file, action);
    }
    DoKeepsCovered(g, s, file, names.delete, lens, action);
    DoKeepsNamed(g, s, file, names, action);
    DoKeepsSourced(g, s, file, names.delete, lens, start, action);
  }

  lemma {:induction false} RunKeeps(g: Graph, s: Net, file: FileId, names: Names, start: Record, actions: seq<Action>,
                                    lens: Lens)
    requires Start(g, s, file, names, start) && Premises(g, s, file, names, actions) && lens.Fits(names.delete)
    ensures Kept(g, RunNet(g, s, actions), file, names, start, lens)
    decreases |actions|
  {
    if actions == [] {
      StartKept(g, s, file, names, start, lens);
    } else {
      var n := |actions| - 1;
      PremisesPrefix(g, s, file, names, actions);
      RunKeeps(g, s, file, names, start, actions[..n], lens);
      DoKeeps(g, RunNet(g, s, actions[..n]), file, names, start, lens, actions[n]);
    }
  }

  /** With nothing in flight, the clock at the end of a walk is at least the clock at its start. */
  lemma {:induction false} WalkCarries(g: Graph, s: Net, file: FileId, d: Option<Stamp>, lens: Lens, p: seq<Node>)
    requires Covered(g, s, file, d, lens) && Quiescent(g, s) && Walk(g, p)
    ensures Leq(At(lens, s, p[0], file), At(lens, s, p[|p| - 1], file))
    decreases |p|
  {
    if |p| > 1 {
      var q := p[..|p| - 1];
      WalkCarries(g, s, file, d, lens, q);
      assert (p[|p| - 2], p[|p| - 1]) in g.links;
      LeqTransitive(At(lens, s, p[0], file), At(lens, s, q[|q| - 1], file), At(lens, s, p[|p| - 1], file));
    }
  }

  /** What users see of a file. */
  datatype Observable =
    | Gone
    | Shown(path: LogicalPath, pathAt: Stamp, deleted: bool, latest: Version, edges: map<TagId, TagEdge>)
  {
    /** The same in everything but whether the file is deleted. */
    predicate Alike(other: Observable) {
      if Gone? then other.Gone? else other.Shown? && other == this.(deleted := other.deleted)
    }
  }

  function Observe(r: Record): Observable
    requires r.purged || (r.row.Some? && r.versions != [])
  {
    if r.purged then Gone
    else Shown(r.row.value.path, r.row.value.pathAt, r.row.value.deleted, r.Latest().value, r.edges)
  }

  lemma SameClocks(g: Graph, s: Net, file: FileId, names: Names, start: Record, actions: seq<Action>, lens: Lens,
                   u: Node, v: Node)
    requires Start(g, s, file, names, start) && Premises(g, s, file, names, actions) && lens.Fits(names.delete)
    requires Quiescent(g, RunNet(g, s, actions)) && u in g.nodes && v in g.nodes
    ensures At(lens, RunNet(g, s, actions), u, file) == At(lens, RunNet(g, s, actions), v, file)
  {
    RunKeeps(g, s, file, names, start, actions, lens);
    assert Linked(g, u, v) && Linked(g, v, u);
    var there :| Joins(g, there, u, v);
    var back :| Joins(g, back, v, u);
    WalkCarries(g, RunNet(g, s, actions), file, names.delete, lens, there);
    WalkCarries(g, RunNet(g, s, actions), file, names.delete, lens, back);
  }

  /** Equal clocks and distinct stamps leave nothing to differ in. */
  lemma ClocksDetermine(names: Names, a: Record, b: Record)
    requires Sound(names.delete, a) && Sound(names.delete, b) && NamedRecord(names, a) && NamedRecord(names, b)
    requires forall lens: Lens | lens.Fits(names.delete) :: Reading(lens, a) == Reading(lens, b)
    ensures Observe(a).Alike(Observe(b)) && (names.delete.Some? ==> Observe(a) == Observe(b))
  {
    assert Reading(Purge, a) == Reading(Purge, b);
    if !a.purged {
      assert Reading(Path, a) == Reading(Path, b);
      assert Reading(Content, a) == Reading(Content, b);
      if names.delete.Some? {
        assert Reading(Delete(names.delete.value), a) == Reading(Delete(names.delete.value), b);
        assert Reading(Revive(names.delete.value), a) == Reading(Revive(names.delete.value), b);
        TombstonedIs(names.delete.value, a);
        TombstonedIs(names.delete.value, b);
      }
      forall tag ensures tag in a.edges <==> tag in b.edges
                 ensures tag in a.edges && tag in b.edges ==> a.edges[tag] == b.edges[tag]
      {
        assert Reading(Edge(tag), a) == Reading(Edge(tag), b);
      }
      assert a.edges == b.edges;
    }
  }

  /**
   Tree-wide convergence (on any connected graph): any interleaving of announcements, moves, tag edits,
   purges, one delete of a known file and any restores of it, pruned or not, leaves every node showing
   the same file once nothing is in flight. With several deletes all but liveness agrees.
   */
  lemma QuiescentNodesAgree(g: Graph, s: Net, file: FileId, names: Names, start: Record, actions: seq<Action>, u: Node,
                            v: Node)
    requires Start(g, s, file, names, start) && Premises(g, s, file, names, actions)
    requires Quiescent(g, RunNet(g, s, actions)) && u in g.nodes && v in g.nodes
    ensures var final := RunNet(g, s, actions);
            var a, b := Network.At(final, u, file), Network.At(final, v, file);
            Sound(names.delete, a) && Sound(names.delete, b)
            && Observe(a).Alike(Observe(b)) && (names.delete.Some? ==> Observe(a) == Observe(b))
  {
    var final := RunNet(g, s, actions);
    var a, b := Network.At(final, u, file), Network.At(final, v, file);
    QuiescentRecord(g, s, file, names, start, actions, u);
    QuiescentRecord(g, s, file, names, start, actions, v);
    forall lens: Lens | lens.Fits(names.delete) ensures Reading(lens, a) == Reading(lens, b) {
      SameClocks(g, s, file, names, start, actions, lens, u, v);
    }
    ClocksDetermine(names, a, b);
  }

  /** The clock of a node is the greatest there is: the starting one and every one carried by a handled change. */
  ghost predicate IsGreatest(s: Net, file: FileId, lens: Lens, start: Record, clock: Clock) {
    Leq(Reading(lens, start), clock)
    && (forall c | Seen(s, c) && c.file == file :: Leq(Carried(lens, c), clock))
    && Sourced(s, file, lens, start, clock)
  }

  lemma QuiescentClockIsGreatest(g: Graph, s: Net, file: FileId, names: Names, start: Record, actions: seq<Action>,
                                 lens: Lens, v: Node)
    requires Start(g, s, file, names, start) && Premises(g, s, file, names, actions) && lens.Fits(names.delete)
    requires Quiescent(g, RunNet(g, s, actions)) && v in g.nodes
    ensures IsGreatest(RunNet(g, s, actions), file, lens, start, At(lens, RunNet(g, s, actions), v, file))
  {
    var final := RunNet(g, s, actions);
    RunKeeps(g, s, file, names, start, actions, lens);
    forall c | Seen(final, c) && c.file == file ensures Leq(Carried(lens, c), At(lens, final, v, file)) {
      var w :| w in final.log && c in final.log[w];
      assert NodeCovered(final, file, names.delete, lens, w);
      SameClocks(g, s, file, names, start, actions, lens, w, v);
    }
  }

  lemma QuiescentRecord(g: Graph, s: Net, file: FileId, names: Names, start: Record, actions: seq<Action>, v: Node)
    requires Start(g, s, file, names, start) && Premises(g, s, file, names, actions) && v in g.nodes
    ensures NamedRecord(names, Network.At(RunNet(g, s, actions), v, file))
    ensures Sound(names.delete, Network.At(RunNet(g, s, actions), v, file))
  {
    RunKeeps(g, s, file, names, start, actions, Purge);
    assert NodeCovered(RunNet(g, s, actions), file, names.delete, Purge, v);
  }

  /** Nothing beats the delete: not the version or restore the file started with, nor any handled since. */
  ghost predicate Unbeaten(s: Net, file: FileId, d: Stamp, start: Record)
    requires start.row.Some?
  {
    Max(start.LatestObserved(), start.row.value.restoredAt) < d
    && forall c | Seen(s, c) && c.file == file ::
         (c.Announces() ==> c.observedAt <= d) && (c.Restored? ==> c.restoredAt <= d)
  }

  /** The file is tombstoned everywhere exactly when the delete was made and nothing beats it. */
  lemma QuiescentDeleteIsJoin(g: Graph, s: Net, file: FileId, names: Names, start: Record, actions: seq<Action>,
                              v: Node, d: Stamp)
    requires Start(g, s, file, names, start) && Premises(g, s, file, names, actions) && names.delete == Some(d)
    requires Quiescent(g, RunNet(g, s, actions)) && v in g.nodes && !Network.At(RunNet(g, s, actions), v, file).purged
    ensures var final := RunNet(g, s, actions);
            Network.At(final, v, file).Tombstoned()
            <==> Seen(final, Deleted(file, d)) && Unbeaten(final, file, d, start)
  {
    var final := RunNet(g, s, actions);
    var r := Network.At(final, v, file);
    QuiescentRecord(g, s, file, names, start, actions, v);
    QuiescentClockIsGreatest(g, s, file, names, start, actions, Delete(d), v);
    QuiescentClockIsGreatest(g, s, file, names, start, actions, Revive(d), v);
    NamedIsSound(names, start, Content);
    TombstonedIs(d, r);
    if Seen(final, Deleted(file, d)) && Unbeaten(final, file, d, start) {
      MadeDeleteSettles(final, file, d, start, r);
    }
    if r.Tombstoned() {
      QuiescentClockIsGreatest(g, s, file, names, start, actions, Content, v);
      TombstonedUnbeaten(final, file, d, start, r);
      OnlyDeletesSettle(final, file, d, start, r);
    }
  }

  lemma MadeDeleteSettles(s: Net, file: FileId, d: Stamp, start: Record, r: Record)
    requires Sound(Some(d), r) && !r.purged && Sound(Some(d), start) && !start.purged
    requires IsGreatest(s, file, Delete(d), start, Reading(Delete(d), r))
    requires IsGreatest(s, file, Revive(d), start, Reading(Revive(d), r))
    requires Seen(s, Deleted(file, d)) && Unbeaten(s, file, d, start)
    ensures r.Tombstoned()
  {
    assert Leq(Carried(Delete(d), Deleted(file, d)), Reading(Delete(d), r));
    TombstonedIs(d, r);
  }

  lemma TombstonedUnbeaten(s: Net, file: FileId, d: Stamp, start: Record, r: Record)
    requires Sound(Some(d), r) && !r.purged && Sound(Some(d), start) && !start.purged && r.Tombstoned()
    requires IsGreatest(s, file, Revive(d), start, Reading(Revive(d), r))
    ensures Unbeaten(s, file, d, start)
  {
    TombstonedIs(d, r);
    forall c | Seen(s, c) && c.file == file
      ensures (c.Announces() ==> c.observedAt <= d) && (c.Restored? ==> c.restoredAt <= d)
    {
      assert Leq(Carried(Revive(d), c), Reading(Revive(d), r));
    }
  }

  lemma OnlyDeletesSettle(s: Net, file: FileId, d: Stamp, start: Record, r: Record)
    requires Sound(Some(d), r) && !r.purged && start.Live() && !start.purged && r.Tombstoned()
    requires IsGreatest(s, file, Delete(d), start, Reading(Delete(d), r)) && Unbeaten(s, file, d, start)
    requires IsGreatest(s, file, Content, start, Reading(Content, r))
    ensures Seen(s, Deleted(file, d))
  {
    assert Reading(Delete(d), start) == Bottom;
    var c :| Seen(s, c) && c.file == file && Carried(Delete(d), c) == Stamped(0);
    assert Leq(Carried(Content, c), Reading(Content, r));
    if c.Deleted? {
      assert c == Deleted(file, d);
    }
  }

  /**
   And what they agree on is the last-writer-wins join: purged exactly when a purge was ever handled;
   otherwise the path of the greatest move, the content of the greatest version, each edge under its
   greatest stamp, and, with one delete, tombstoned exactly when it was made and no version or restore
   beats it.
   */
  lemma QuiescentStateIsJoin(g: Graph, s: Net, file: FileId, names: Names, start: Record, actions: seq<Action>, v: Node)
    requires Start(g, s, file, names, start) && Premises(g, s, file, names, actions)
    requires Quiescent(g, RunNet(g, s, actions)) && v in g.nodes
    ensures IsJoin(RunNet(g, s, actions), file, names, start, Network.At(RunNet(g, s, actions), v, file))
  {
    var final := RunNet(g, s, actions);
    var r := Network.At(final, v, file);
    QuiescentClockIsGreatest(g, s, file, names, start, actions, Purge, v);
    QuiescentPurge(final, file, start, r);
    QuiescentRecord(g, s, file, names, start, actions, v);
    if !r.purged {
      if names.delete.Some? { QuiescentDeleteIsJoin(g, s, file, names, start, actions, v, names.delete.value); }
      forall lens ensures Leads(final, file, start, r, lens) {
        if lens.Path? || lens.Content? || lens.Edge? {
          QuiescentClockIsGreatest(g, s, file, names, start, actions, lens, v);
        }
      }
    }
  }

  /** The stamp `r` keeps for a fact is the greatest any handled change, or the start, gave it. */
  ghost predicate Leads(s: Net, file: FileId, start: Record, r: Record, lens: Lens) {
    lens.Path? || lens.Content? || lens.Edge? ==> IsGreatest(s, file, lens, start, Reading(lens, r))
  }

  ghost predicate IsJoin(s: Net, file: FileId, names: Names, start: Record, r: Record)
    requires start.row.Some?
  {
    (r.purged <==> Seen(s, Purged(file)))
    && (!r.purged ==>
          NamedRecord(names, r)
          && (forall lens :: Leads(s, file, start, r, lens))
          && (names.delete.Some? ==>
                (r.Tombstoned() <==>
                   Seen(s, Deleted(file, names.delete.value)) && Unbeaten(s, file, names.delete.value, start))))
  }

  lemma QuiescentPurge(s: Net, file: FileId, start: Record, r: Record)
    requires IsGreatest(s, file, Purge, start, Reading(Purge, r)) && !start.purged
    ensures r.purged <==> Seen(s, Purged(file))
  {
    if Seen(s, Purged(file)) {
      assert Leq(Carried(Purge, Purged(file)), Reading(Purge, r));
    }
    if r.purged {
      var c :| Seen(s, c) && c.file == file && Carried(Purge, c) == Top;
      assert c == Purged(file);
    }
  }
}
