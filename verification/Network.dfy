/**
 The peer network as steps: nodes joined by FIFO links, each applying a change to its catalog and then
 sending it to every neighbour but the one it came from.
 */
module Network {
  import opened Types
  import opened Catalog

  type Node = int
  type Link = (Node, Node)

  /** Links are directed; a connection between peers is a link each way. */
  datatype Graph = Graph(nodes: set<Node>, links: set<Link>)

  ghost predicate WellFormed(g: Graph) {
    forall l <- g.links :: l.0 in g.nodes && l.1 in g.nodes && l.0 != l.1
  }

  /**
   `queue` is what is in flight on each link. `log` (what a node handled, in order) and `wire` (what
   was ever put on a link) record history and decide nothing.
   */
  datatype Net = Net(
    store: map<Node, Store>, queue: map<Link, seq<Change>>, log: map<Node, seq<Change>>, wire: map<Link, seq<Change>>)

  ghost predicate Shaped(g: Graph, s: Net) {
    s.store.Keys == g.nodes && s.log.Keys == g.nodes && s.queue.Keys == g.links && s.wire.Keys == g.links
  }

  function At(s: Net, v: Node, file: FileId): Record
    requires v in s.store
  {
    RecordOf(s.store[v], file)
  }

  ghost predicate Seen(s: Net, change: Change) {
    exists v :: v in s.log && change in s.log[v]
  }

  /** `change` put on every link out of `v` but the one back to `sender`. */
  function Sent(channels: map<Link, seq<Change>>, v: Node, sender: Option<Node>, change: Change)
    : map<Link, seq<Change>>
  {
    map l | l in channels :: if l.0 == v && sender != Some(l.1) then channels[l] + [change] else channels[l]
  }

  /** One writer turn with the given outcome: the record changes, and the change goes on unless dropped. */
  function Turn(s: Net, v: Node, sender: Option<Node>, change: Change, outcome: Outcome): Net
    requires v in s.store && v in s.log
  {
    Net(s.store[v := s.store[v][change.file := outcome.record]],
        if outcome.forward then Sent(s.queue, v, sender, change) else s.queue,
        s.log[v := s.log[v] + [change]],
        if outcome.forward then Sent(s.wire, v, sender, change) else s.wire)
  }

  /** What a change does where it is made: a restore is applied unguarded, anything else as if a peer sent it. */
  function Made(r: Record, change: Change): Outcome {
    if change.Restored? then Outcome(r.ApplyRestore(change.restoredAt), true, true, Replace, None)
    else Handle(r, change)
  }

  function Taken(s: Net, v: Node, sender: Option<Node>, change: Change): Outcome
    requires v in s.store
  {
    var r := At(s, v, change.file);
    if sender.None? then Made(r, change) else Handle(r, change)
  }

  /** One writer turn: apply, then forward. */
  function HandleAt(s: Net, v: Node, sender: Option<Node>, change: Change): Net
    requires v in s.store && v in s.log
  {
    Turn(s, v, sender, change, Taken(s, v, sender, change))
  }

  function Popped(s: Net, l: Link): Net
    requires l in s.queue && s.queue[l] != []
  {
    s.(queue := s.queue[l := s.queue[l][1..]])
  }

  /** A delivery of the head of a link, or a change made on a device. */
  datatype Action = Deliver(from: Node, to: Node) | Originate(at: Node, change: Change)

  /**
   A device stamps its changes uniquely, and stamps new content later than the content it holds;
   purges carry no stamp. A device creates files, and edits files it knows, but none that it has purged;
   a restore that loses where it is made is announced to nobody.
   */
  ghost predicate Enabled(g: Graph, s: Net, action: Action)
    requires Shaped(g, s)
  {
    match action
    case Deliver(u, v) => (u, v) in g.links && s.queue[(u, v)] != []
    case Originate(v, change) =>
      v in g.nodes
      && (change.Purged? || !Seen(s, change))
      && (change.Announces() ==>
            var r := At(s, v, change.file);
            !r.purged && if r.row.Some? then r.Supersedes(change.observedAt) else change.Added?)
      && (change.Restored? ==> At(s, v, change.file).RestoreWins(change.restoredAt))
  }

  ghost function Do(g: Graph, s: Net, action: Action): (next: Net)
    requires Shaped(g, s)
    ensures Shaped(g, next)
  {
    if !Enabled(g, s, action) then s else
    match action
    case Deliver(u, v) =>
      assert (u, v) in s.queue;
      if v !in s.store then s else
      HandleAt(Popped(s, (u, v)), v, Some(u), s.queue[(u, v)][0])
    case Originate(v, change) => HandleAt(s, v, None, change)
  }

  /** Any interleaving: an action that is not enabled when its turn comes does nothing. */
  ghost function RunNet(g: Graph, s: Net, actions: seq<Action>): (final: Net)
    requires Shaped(g, s)
    ensures Shaped(g, final)
    decreases |actions|
  {
    if actions == [] then s else Do(g, RunNet(g, s, actions[..|actions| - 1]), actions[|actions| - 1])
  }

  /** Nothing handled, nothing in flight. */
  ghost predicate Fresh(g: Graph, s: Net) {
    Shaped(g, s) && (forall v <- g.nodes :: s.log[v] == [])
    && forall l <- g.links :: s.queue[l] == [] && s.wire[l] == []
  }

  ghost predicate Quiescent(g: Graph, s: Net)
    requires Shaped(g, s)
  {
    forall l <- g.links :: s.queue[l] == []
  }

  /** Content announced under the premise above is exactly what the unguarded local path records. */
  lemma LocalContentIsAnnouncement(r: Record, change: Change)
    requires change.Announces() && !r.purged
    requires if change.Added? then r.row.None? else r.row.Some? && r.Supersedes(change.observedAt)
    ensures var version := Version(change.hash, change.size, change.observedAt);
            Handle(r, change).forward
            && Handle(r, change).record
               == Step(r, if change.Added? then UploadNew(change.path, change.pathAt, version, change.tags)
                          else UploadEdit(version))
            && (change.Changed? ==> Handle(r, change).record == Step(r, DirectoryEdit(version)))
  {
  }

  /** A restore made here, and changes to metadata, are exactly what the writer does and announces. */
  lemma MadeIsStep(r: Record, change: Change)
    requires !change.Announces() && (change.Restored? ==> r.RestoreWins(change.restoredAt))
    ensures var command := if change.Restored? then UserRestore(change.hash, change.size, change.restoredAt)
                           else Meta(change);
            Made(r, change).record == Step(r, command)
            && Announced(r, change.file, command) == (if Made(r, change).forward then [change] else [])
  {
  }

  lemma TurnKeepsShape(g: Graph, s: Net, v: Node, sender: Option<Node>, change: Change, outcome: Outcome)
    requires Shaped(g, s) && v in g.nodes
    ensures Shaped(g, Turn(s, v, sender, change, outcome))
  {
  }

  /** Taking the head before handling it, as the code does, or after, leaves the same network. */
  lemma PopCommutes(g: Graph, s: Net, l: Link, outcome: Outcome)
    requires Shaped(g, s) && WellFormed(g) && l in g.links && s.queue[l] != []
    ensures var turned := Turn(s, l.1, Some(l.0), s.queue[l][0], outcome);
            turned.queue[l] == s.queue[l]
            && Turn(Popped(s, l), l.1, Some(l.0), s.queue[l][0], outcome) == Popped(turned, l)
  {
    var turned := Turn(s, l.1, Some(l.0), s.queue[l][0], outcome);
    assert turned.queue[l] == s.queue[l];
    assert Turn(Popped(s, l), l.1, Some(l.0), s.queue[l][0], outcome).queue == Popped(turned, l).queue;
  }

  lemma RunLast(g: Graph, s: Net, actions: seq<Action>, last: Action)
    requires Shaped(g, s)
    ensures RunNet(g, s, actions + [last]) == Do(g, RunNet(g, s, actions), last)
  {
    assert (actions + [last])[..|actions|] == actions;
  }

  lemma {:induction false} RunAppends(g: Graph, s: Net, actions: seq<Action>, rest: seq<Action>)
    requires Shaped(g, s)
    ensures RunNet(g, s, actions + rest) == RunNet(g, RunNet(g, s, actions), rest)
    decreases |rest|
  {
    if rest == [] {
      assert actions + rest == actions;
    } else {
      var init, last := rest[..|rest| - 1], rest[|rest| - 1];
      RunAppends(g, s, actions, init);
      assert rest == init + [last] && actions + rest == actions + init + [last];
      RunLast(g, s, actions + init, last);
      RunLast(g, RunNet(g, s, actions), init, last);
    }
  }

  // ---- counting deliveries ----

  /** All changes, or the copies of one. */
  datatype Select = All | Only(change: Change)

  predicate Selects(select: Select, change: Change) { select.All? || change == select.change }

  ghost predicate Delivers(g: Graph, s: Net, action: Action, select: Select)
    requires Shaped(g, s)
  {
    Enabled(g, s, action) && action.Deliver? && Selects(select, s.queue[(action.from, action.to)][0])
  }

  /** How often a selected change is taken off a link during a run. */
  ghost function Deliveries(g: Graph, s: Net, actions: seq<Action>, select: Select): nat
    requires Shaped(g, s)
    decreases |actions|
  {
    if actions == [] then 0 else
    var n := |actions| - 1;
    Deliveries(g, s, actions[..n], select)
    + if Delivers(g, RunNet(g, s, actions[..n]), actions[n], select) then 1 else 0
  }

  // ---- walks ----

  ghost predicate Walk(g: Graph, p: seq<Node>) {
    p != [] && (forall v <- p :: v in g.nodes) && forall i :: 0 <= i < |p| - 1 ==> (p[i], p[i + 1]) in g.links
  }

  ghost predicate Joins(g: Graph, p: seq<Node>, u: Node, v: Node) {
    Walk(g, p) && p[0] == u && p[|p| - 1] == v
  }

  ghost predicate Linked(g: Graph, u: Node, v: Node) { exists p :: Joins(g, p, u, v) }

  ghost predicate Connected(g: Graph) {
    forall u, v {:trigger Linked(g, u, v)} :: u in g.nodes && v in g.nodes ==> Linked(g, u, v)
  }
}
