/**
 Purges spread as set union on any connected graph, trees or not, whatever else is in flight: a node
 forwards a purge only when it is news there, so each node forwards each id at most once.
 */
module PurgeSpread {
  import opened Types
  import opened Catalog
  import opened Network
  import opened CatalogRuns
  import Causality
  import Flooding

  function Times(changes: seq<Change>, file: FileId): nat { Flooding.Count(changes, Purged(file)) }

  /**
   If the near end has purged the id, the far end has too or the purge is in flight to it; only a node
   that purged the id has sent it, and once.
   */
  predicate LinkSpread(near: bool, far: bool, queue: seq<Change>, wire: seq<Change>, file: FileId) {
    (near ==> far || Purged(file) in queue)
    && (Purged(file) in queue ==> near)
    && Times(wire, file) <= if near then 1 else 0
  }

  predicate Has(s: Net, v: Node, file: FileId)
    requires v in s.store
  {
    At(s, v, file).purged
  }

  ghost predicate Spread(g: Graph, s: Net, file: FileId) {
    Shaped(g, s) && WellFormed(g)
    && (forall v <- g.nodes :: Clean(At(s, v, file)) && (Purged(file) in s.log[v] ==> Has(s, v, file)))
    && forall l <- g.links :: LinkSpread(Has(s, l.0, file), Has(s, l.1, file), s.queue[l], s.wire[l], file)
  }

  /** A purge is forwarded exactly when it is news, and nothing else makes an id purged or leaves rows for one. */
  lemma TakenPurges(s: Net, v: Node, sender: Option<Node>, change: Change)
    requires v in s.store && Clean(At(s, v, change.file))
    ensures TurnOf(s, change.file, v, change, Taken(s, v, sender, change))
  {
    Causality.TakenIs(s, v, sender, change);
  }

  /** The turn does to `file` what the handler would. */
  predicate TurnOf(s: Net, file: FileId, v: Node, change: Change, outcome: Outcome)
    requires v in s.store
  {
    change.file == file ==>
      Clean(outcome.record)
      && (outcome.record.purged <==> Has(s, v, file) || change.Purged?)
      && (change.Purged? ==> (outcome.forward <==> !Has(s, v, file)))
  }

  lemma TurnKeepsLinkSpread(g: Graph, s: Net, file: FileId, v: Node, sender: Option<Node>, change: Change,
                            outcome: Outcome, l: Link)
    requires Spread(g, s, file) && v in g.nodes && TurnOf(s, file, v, change, outcome) && l in g.links
    requires sender.Some? && change == Purged(file) ==> sender.value in g.nodes && Has(s, sender.value, file)
    ensures var next := Turn(s, v, sender, change, outcome);
            l.0 in next.store && l.1 in next.store && l in next.queue && l in next.wire
            && LinkSpread(Has(next, l.0, file), Has(next, l.1, file), next.queue[l], next.wire[l], file)
  {
    assert LinkSpread(Has(s, l.0, file), Has(s, l.1, file), s.queue[l], s.wire[l], file);
    Flooding.CountAppends(s.wire[l], change, Purged(file));
  }

  lemma TurnKeepsSpread(g: Graph, s: Net, file: FileId, v: Node, sender: Option<Node>, change: Change, outcome: Outcome)
    requires Spread(g, s, file) && v in g.nodes && TurnOf(s, file, v, change, outcome)
    requires sender.Some? && change == Purged(file) ==> sender.value in g.nodes && Has(s, sender.value, file)
    ensures Spread(g, Turn(s, v, sender, change, outcome), file)
  {
    var next := Turn(s, v, sender, change, outcome);
    TurnKeepsShape(g, s, v, sender, change, outcome);
    forall l | l in g.links
      ensures LinkSpread(Has(next, l.0, file), Has(next, l.1, file), next.queue[l], next.wire[l], file)
    {
      TurnKeepsLinkSpread(g, s, file, v, sender, change, outcome, l);
    }
  }

  lemma PopKeepsSpread(g: Graph, s: Net, file: FileId, l: Link)
    requires Spread(g, s, file) && l in g.links && s.queue[l] != []
    requires s.queue[l][0] == Purged(file) ==> Has(s, l.1, file)
    ensures Spread(g, Popped(s, l), file)
  {
    var next := Popped(s, l);
    assert s.queue[l] == [s.queue[l][0]] + s.queue[l][1..];
    forall k | k in g.links
      ensures LinkSpread(Has(next, k.0, file), Has(next, k.1, file), next.queue[k], next.wire[k], file)
    {
      assert LinkSpread(Has(s, k.0, file), Has(s, k.1, file), s.queue[k], s.wire[k], file);
    }
    assert forall v <- g.nodes :: At(next, v, file) == At(s, v, file);
  }

  /** Every step keeps, for every link, "purged at the near end only if purged at the far end or in flight". */
  lemma DoKeepsSpread(g: Graph, s: Net, file: FileId, action: Action)
    requires Spread(g, s, file)
    ensures Spread(g, Do(g, s, action), file)
  {
    if Enabled(g, s, action) {
      match action
      case Originate(v, change) =>
        if change.file == file { TakenPurges(s, v, None, change); }
        TurnKeepsSpread(g, s, file, v, None, change, Taken(s, v, None, change));
      case Deliver(u, v) =>
        var l, head := (u, v), s.queue[(u, v)][0];
        assert head in s.queue[l];
        var outcome := Taken(s, v, Some(u), head);
        if head.file == file { TakenPurges(s, v, Some(u), head); }
        TurnKeepsSpread(g, s, file, v, Some(u), head, outcome);
        PopCommutes(g, s, l, outcome);
        PopKeepsSpread(g, Turn(s, v, Some(u), head, outcome), file, l);
    }
  }

  /** A node's purge set is what it started with and what it handled. */
  ghost predicate Explained(g: Graph, s: Net, start: Net, file: FileId) {
    Shaped(g, s) && Shaped(g, start)
    && (forall v <- g.nodes :: Has(start, v, file) ==> Has(s, v, file))
    && forall v <- g.nodes | Has(s, v, file) :: Has(start, v, file) || Seen(s, Purged(file))
  }

  lemma TurnKeepsExplained(g: Graph, s: Net, start: Net, file: FileId, v: Node, sender: Option<Node>, change: Change,
                           outcome: Outcome)
    requires Explained(g, s, start, file) && v in g.nodes && TurnOf(s, file, v, change, outcome)
    ensures Explained(g, Turn(s, v, sender, change, outcome), start, file)
  {
    var next := Turn(s, v, sender, change, outcome);
    TurnKeepsShape(g, s, v, sender, change, outcome);
    assert change in next.log[v];
    if Seen(s, Purged(file)) {
      var w :| w in s.log && Purged(file) in s.log[w];
      assert Purged(file) in next.log[w];
    }
  }

  lemma PopKeepsExplained(g: Graph, s: Net, start: Net, file: FileId, l: Link)
    requires Explained(g, s, start, file) && l in g.links && s.queue[l] != []
    ensures Explained(g, Popped(s, l), start, file)
  {
    if Seen(s, Purged(file)) {
      var w :| w in s.log && Purged(file) in s.log[w];
      assert Purged(file) in Popped(s, l).log[w];
    }
  }

  lemma DoKeepsExplained(g: Graph, s: Net, start: Net, file: FileId, action: Action)
    requires Spread(g, s, file) && Explained(g, s, start, file)
    ensures Explained(g, Do(g, s, action), start, file)
  {
    if Enabled(g, s, action) {
      match action
      case Originate(v, change) =>
        if change.file == file { TakenPurges(s, v, None, change); }
        TurnKeepsExplained(g, s, start, file, v, None, change, Taken(s, v, None, change));
      case Deliver(u, v) => DeliverKeepsExplained(g, s, start, file, (u, v));
    }
  }

  lemma DeliverKeepsExplained(g: Graph, s: Net, start: Net, file: FileId, l: Link)
    requires Spread(g, s, file) && Explained(g, s, start, file) && l in g.links && s.queue[l] != []
    ensures Explained(g, Do(g, s, Deliver(l.0, l.1)), start, file)
  {
    var head := s.queue[l][0];
    var outcome := Taken(s, l.1, Some(l.0), head);
    if head.file == file { TakenPurges(s, l.1, Some(l.0), head); }
    TurnKeepsExplained(g, s, start, file, l.1, Some(l.0), head, outcome);
    PopCommutes(g, s, l, outcome);
    PopKeepsExplained(g, Turn(s, l.1, Some(l.0), head, outcome), start, file, l);
  }

  /** Nothing is in flight, neighbours agree on the purge, and no purged file has rows. */
  ghost predicate Start(g: Graph, s: Net, file: FileId) {
    Causality.Start(g, s, file) && forall v <- g.nodes :: Clean(At(s, v, file))
  }

  lemma {:induction false} RunKeepsSpread(g: Graph, s: Net, file: FileId, actions: seq<Action>)
    requires Start(g, s, file)
    ensures Spread(g, RunNet(g, s, actions), file) && Explained(g, RunNet(g, s, actions), s, file)
    decreases |actions|
  {
    if actions != [] {
      var n := |actions| - 1;
      RunKeepsSpread(g, s, file, actions[..n]);
      DoKeepsSpread(g, RunNet(g, s, actions[..n]), file, actions[n]);
      DoKeepsExplained(g, RunNet(g, s, actions[..n]), s, file, actions[n]);
    }
  }

  lemma {:induction false} WalkSpreads(g: Graph, s: Net, file: FileId, p: seq<Node>)
    requires Spread(g, s, file) && Quiescent(g, s) && Walk(g, p) && Has(s, p[0], file)
    ensures Has(s, p[|p| - 1], file)
    decreases |p|
  {
    if |p| > 1 {
      WalkSpreads(g, s, file, p[..|p| - 1]);
      assert (p[|p| - 2], p[|p| - 1]) in g.links;
    }
  }

  /** In any run each node has put the purge on each of its links at most once, and only if it purged the id. */
  lemma ForwardedAtMostOnce(g: Graph, s: Net, file: FileId, actions: seq<Action>, l: Link)
    requires Start(g, s, file) && l in g.links
    ensures var final := RunNet(g, s, actions);
            Times(final.wire[l], file) <= 1
            && l.0 in final.store && (Times(final.wire[l], file) == 1 ==> Has(final, l.0, file))
  {
    RunKeepsSpread(g, s, file, actions);
    assert LinkSpread(Has(RunNet(g, s, actions), l.0, file), Has(RunNet(g, s, actions), l.1, file),
                      RunNet(g, s, actions).queue[l], RunNet(g, s, actions).wire[l], file);
  }

  /** At quiescence every node of a connected network has purged the id exactly when somebody ever did. */
  lemma QuiescentUnion(g: Graph, s: Net, file: FileId, actions: seq<Action>, v: Node)
    requires Start(g, s, file) && Connected(g) && Quiescent(g, RunNet(g, s, actions)) && v in g.nodes
    ensures Has(RunNet(g, s, actions), v, file) <==>
              (exists u :: u in g.nodes && Has(s, u, file)) || Seen(RunNet(g, s, actions), Purged(file))
    ensures Has(RunNet(g, s, actions), v, file) ==> At(RunNet(g, s, actions), v, file) == PURGED
  {
    var final := RunNet(g, s, actions);
    RunKeepsSpread(g, s, file, actions);
    if u :| u in g.nodes && Has(final, u, file) {
      assert Linked(g, u, v);
      var p :| Joins(g, p, u, v);
      WalkSpreads(g, final, file, p);
    }
    if Seen(final, Purged(file)) {
      var w :| w in final.log && Purged(file) in final.log[w];
      assert Has(final, w, file);
    }
  }
}
