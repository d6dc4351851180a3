/**
 Flooding a tree. A change reaches each node at most once and crosses each connection at most once, away
 from where it was made; and it reaches every node exactly when no node with further neighbours drops it.
 */
module Flooding {
  import opened Types
  import opened Catalog
  import opened Network
  import opened Causality

  // ---- trees ----

  ghost predicate Simple(g: Graph, p: seq<Node>, u: Node, v: Node) {
    Joins(g, p, u, v) && Distinct(p)
  }

  ghost predicate HasPath(g: Graph, u: Node, v: Node) { exists p :: Simple(g, p, u, v) }

  ghost predicate Mutual(g: Graph, u: Node, v: Node) { (u, v) in g.links ==> (v, u) in g.links }

  /** Peers connect both ways, and exactly one simple path joins any two of them. */
  ghost predicate Tree(g: Graph) {
    WellFormed(g)
    && (forall u, v :: Mutual(g, u, v))
    && (forall u, v {:trigger HasPath(g, u, v)} :: u in g.nodes && v in g.nodes ==> HasPath(g, u, v))
    && forall u, v, p, q :: Simple(g, p, u, v) && Simple(g, q, u, v) ==> p == q
  }

  /** The link leads away from `root`: it ends a simple path from there. */
  ghost predicate Down(g: Graph, root: Node, u: Node, v: Node) {
    exists p :: Simple(g, p, root, v) && |p| >= 2 && p[|p| - 2] == u
  }

  lemma PrefixIsSimple(g: Graph, p: seq<Node>, u: Node, v: Node, n: nat)
    requires Simple(g, p, u, v) && 0 < n <= |p|
    ensures Simple(g, p[..n], u, p[n - 1])
  {
  }

  lemma DownIsLink(g: Graph, root: Node, u: Node, v: Node)
    requires Down(g, root, u, v)
    ensures (u, v) in g.links && v != root
  {
    var p :| Simple(g, p, root, v) && |p| >= 2 && p[|p| - 2] == u;
    assert (p[|p| - 2], p[|p| - 2 + 1]) in g.links;
    assert p[0] != p[|p| - 1];
  }

  lemma OneWayDown(g: Graph, root: Node, u: Node, v: Node)
    requires Tree(g) && (u, v) in g.links && root in g.nodes
    ensures Down(g, root, u, v) <==> !Down(g, root, v, u)
  {
    assert HasPath(g, root, u);
    var p :| Simple(g, p, root, u);
    if v !in p {
      var q := p + [v];
      assert Simple(g, q, root, v) && q[|q| - 2] == u;
    } else {
      var i :| 0 <= i < |p| && p[i] == v;
      BackOnPath(g, root, u, v, p, i);
    }
  }

  /** A neighbour that lies on the path to `u` is the node before `u` on it. */
  lemma BackOnPath(g: Graph, root: Node, u: Node, v: Node, p: seq<Node>, i: nat)
    requires Tree(g) && (u, v) in g.links && Simple(g, p, root, u) && i < |p| && p[i] == v
    ensures Down(g, root, v, u) && !Down(g, root, u, v)
  {
    var back, direct := p[i..], [v, u];
    assert p[|p| - 1] == u && u != v;
    assert forall k :: 0 <= k < |back| - 1 ==> (back[k], back[k + 1]) == (p[i + k], p[i + k + 1]);
    assert Simple(g, back, v, u);
    assert Mutual(g, u, v);
    assert Simple(g, direct, v, u);
    assert |back| == 2;
    PrefixIsSimple(g, p, root, u, i + 1);
  }

  lemma OneParent(g: Graph, root: Node, u: Node, w: Node, v: Node)
    requires Tree(g) && Down(g, root, u, v) && Down(g, root, w, v)
    ensures u == w
  {
    var p :| Simple(g, p, root, v) && |p| >= 2 && p[|p| - 2] == u;
    var q :| Simple(g, q, root, v) && |q| >= 2 && q[|q| - 2] == w;
    assert p == q;
  }

  lemma HasParent(g: Graph, root: Node, v: Node)
    requires Tree(g) && root in g.nodes && v in g.nodes && v != root
    ensures exists u :: Down(g, root, u, v)
  {
    assert HasPath(g, root, v);
    var p :| Simple(g, p, root, v);
    assert |p| >= 2;
    assert Down(g, root, p[|p| - 2], v);
  }

  lemma TreeIsConnected(g: Graph)
    requires Tree(g)
    ensures Connected(g)
  {
    forall u, v | u in g.nodes && v in g.nodes ensures Linked(g, u, v) {
      assert HasPath(g, u, v);
      var p :| Simple(g, p, u, v);
      assert Joins(g, p, u, v);
    }
  }

  // ---- flow ----

  function Count(changes: seq<Change>, m: Change): nat { multiset(changes)[m] }

  lemma CountAppends(changes: seq<Change>, change: Change, m: Change)
    ensures Count(changes + [change], m) == Count(changes, m) + if change == m then 1 else 0
  {
  }

  lemma CountPops(changes: seq<Change>, m: Change)
    requires changes != []
    ensures Count(changes, m) == Count(changes[1..], m) + if changes[0] == m then 1 else 0
  {
    assert changes == [changes[0]] + changes[1..];
  }

  /** `m` crosses a connection at most once, downwards, after the near end handled it and until the far end did. */
  predicate Flow(down: bool, near: nat, far: nat, queued: nat, wired: nat) {
    near <= 1
    && if down then queued + far == wired && wired <= near else queued == 0 && wired == 0
  }

  predicate FlowOn(down: bool, s: Net, m: Change, l: Link) {
    l.0 in s.log && l.1 in s.log && l in s.queue && l in s.wire
    && Flow(down, Count(s.log[l.0], m), Count(s.log[l.1], m), Count(s.queue[l], m), Count(s.wire[l], m))
  }

  /** `m` was made once, at `root`, and has spread some way. */
  ghost predicate Flooded(g: Graph, s: Net, root: Node, m: Change) {
    Shaped(g, s) && root in g.nodes && Count(s.log[root], m) == 1
    && forall l <- g.links :: FlowOn(Down(g, root, l.0, l.1), s, m, l)
  }

  /** Nobody has handled or sent `m`. */
  ghost predicate Clear(g: Graph, s: Net, m: Change) {
    Shaped(g, s) && WellFormed(g)
    && (forall v <- g.nodes :: Count(s.log[v], m) == 0)
    && forall l <- g.links :: Count(s.queue[l], m) == 0 && Count(s.wire[l], m) == 0
  }

  /** Whoever handled `m` has sent it on downwards. */
  ghost predicate Tight(g: Graph, s: Net, root: Node, m: Change)
    requires Shaped(g, s)
  {
    forall l <- g.links :: TightOn(g, s, root, m, l)
  }

  ghost predicate TightOn(g: Graph, s: Net, root: Node, m: Change, l: Link)
    requires Shaped(g, s) && l in g.links
  {
    Down(g, root, l.0, l.1) && l.0 in s.log ==> Count(s.wire[l], m) == Count(s.log[l.0], m)
  }

  /** A node handles the change, does not send it on, and had a neighbour to send it to. */
  ghost predicate DropsAt(g: Graph, s: Net, v: Node, sender: Option<Node>, m: Change)
    requires v in s.store
  {
    !Taken(s, v, sender, m).forward && exists w :: (v, w) in g.links && sender != Some(w)
  }

  ghost predicate Drops(g: Graph, s: Net, m: Change, action: Action)
    requires Shaped(g, s)
  {
    Enabled(g, s, action)
    && match action
       case Originate(v, change) => change == m && DropsAt(g, s, v, None, m)
       case Deliver(u, v) => s.queue[(u, v)][0] == m && v in s.store && DropsAt(g, s, v, Some(u), m)
  }

  /** What a turn adds to the counts of `m` on a link and at its ends. */
  lemma TurnCounts(g: Graph, s: Net, v: Node, sender: Option<Node>, change: Change, outcome: Outcome, m: Change,
                   k: Link)
    requires Shaped(g, s) && v in g.nodes && k in g.links && k.0 in g.nodes && k.1 in g.nodes
    ensures var next := Turn(s, v, sender, change, outcome);
            var one := if change == m then 1 else 0;
            var sent := if outcome.forward && k.0 == v && sender != Some(k.1) then one else 0;
            Shaped(g, next)
            && Count(next.log[k.0], m) == Count(s.log[k.0], m) + (if k.0 == v then one else 0)
            && Count(next.log[k.1], m) == Count(s.log[k.1], m) + (if k.1 == v then one else 0)
            && Count(next.queue[k], m) == Count(s.queue[k], m) + sent
            && Count(next.wire[k], m) == Count(s.wire[k], m) + sent
  {
    TurnKeepsShape(g, s, v, sender, change, outcome);
    CountAppends(s.log[v], change, m);
    CountAppends(s.queue[k], change, m);
    CountAppends(s.wire[k], change, m);
  }

  /** A node that made `m` has sent it down every link it has, or drops it. */
  lemma OriginFloods(g: Graph, s: Net, root: Node, m: Change, outcome: Outcome)
    requires Clear(g, s, m) && Tree(g) && root in g.nodes
    ensures var next := Turn(s, root, None, m, outcome);
            Flooded(g, next, root, m)
            && (Tight(g, next, root, m) <==> outcome.forward || !exists w :: (root, w) in g.links)
  {
    var next := Turn(s, root, None, m, outcome);
    TurnKeepsShape(g, s, root, None, m, outcome);
    CountAppends(s.log[root], m, m);
    forall l | l in g.links
      ensures FlowOn(Down(g, root, l.0, l.1), next, m, l)
      ensures TightOn(g, next, root, m, l) <==> l.0 != root || outcome.forward
    {
      TurnCounts(g, s, root, None, m, outcome, m, l);
      RootDirections(g, root, l);
    }
    if w :| (root, w) in g.links {
      assert TightOn(g, next, root, m, (root, w)) <==> outcome.forward;
    }
  }

  lemma RootDirections(g: Graph, root: Node, l: Link)
    requires Tree(g) && root in g.nodes && l in g.links
    ensures l.0 == root ==> Down(g, root, l.0, l.1)
    ensures l.1 == root ==> !Down(g, root, l.0, l.1)
  {
    if l.1 == root && Down(g, root, l.0, l.1) { DownIsLink(g, root, l.0, l.1); }
    if l.0 == root {
      OneWayDown(g, root, l.0, l.1);
      if Down(g, root, l.1, l.0) { DownIsLink(g, root, l.1, l.0); }
    }
  }

  /** Behind a downward link every other link out leads down, and no other link in does. */
  lemma Directions(g: Graph, root: Node, l: Link, k: Link)
    requires Tree(g) && root in g.nodes && l in g.links && k in g.links && Down(g, root, l.0, l.1)
    ensures k.0 == l.1 ==> (Down(g, root, k.0, k.1) <==> k.1 != l.0)
    ensures k.1 == l.1 && Down(g, root, k.0, k.1) ==> k == l
  {
    OneWayDown(g, root, k.0, k.1);
    if k.0 == l.1 && Down(g, root, k.1, k.0) { OneParent(g, root, k.1, l.0, l.1); }
    if k.1 == l.1 && Down(g, root, k.0, k.1) { OneParent(g, root, k.0, l.0, l.1); }
  }

  lemma PopCounts(s: Net, l: Link, m: Change, k: Link)
    requires l in s.queue && s.queue[l] != [] && k in s.queue
    ensures Count(Popped(s, l).queue[k], m) == Count(s.queue[k], m) - (if k == l && s.queue[l][0] == m then 1 else 0)
  {
    CountPops(s.queue[l], m);
  }

  /** Handling `m` where it arrives keeps the flow on every link, forwarded or not; so does handling anything else. */
  lemma DeliverKeepsFlow(g: Graph, s: Net, root: Node, m: Change, l: Link, outcome: Outcome, k: Link)
    requires Shaped(g, s) && WellFormed(g) && l in g.links && s.queue[l] != [] && k in g.links
    requires FlowOn(Down(g, root, l.0, l.1), s, m, l) && FlowOn(Down(g, root, k.0, k.1), s, m, k)
    requires Down(g, root, l.0, l.1) ==>
               (k.0 == l.1 ==> (Down(g, root, k.0, k.1) <==> k.1 != l.0))
               && (k.1 == l.1 && Down(g, root, k.0, k.1) ==> k == l)
    ensures FlowOn(Down(g, root, k.0, k.1), Turn(Popped(s, l), l.1, Some(l.0), s.queue[l][0], outcome), m, k)
    ensures Shaped(g, Turn(Popped(s, l), l.1, Some(l.0), s.queue[l][0], outcome))
    ensures TightOn(g, Turn(Popped(s, l), l.1, Some(l.0), s.queue[l][0], outcome), root, m, k) <==>
              TightOn(g, s, root, m, k)
              && !(s.queue[l][0] == m && !outcome.forward && k.0 == l.1 && k.1 != l.0)
  {
    assert Count(s.queue[l], m) == 0 ==> s.queue[l][0] != m;
    PopCounts(s, l, m, k);
    TurnCounts(g, Popped(s, l), l.1, Some(l.0), s.queue[l][0], outcome, m, k);
  }

  lemma DeliverKeepsLink(g: Graph, s: Net, root: Node, m: Change, l: Link, outcome: Outcome, k: Link)
    requires Shaped(g, s) && Tree(g) && root in g.nodes && l in g.links && s.queue[l] != [] && k in g.links
    requires FlowOn(Down(g, root, l.0, l.1), s, m, l) && FlowOn(Down(g, root, k.0, k.1), s, m, k)
    ensures FlowOn(Down(g, root, k.0, k.1), Turn(Popped(s, l), l.1, Some(l.0), s.queue[l][0], outcome), m, k)
    ensures Shaped(g, Turn(Popped(s, l), l.1, Some(l.0), s.queue[l][0], outcome))
    ensures TightOn(g, Turn(Popped(s, l), l.1, Some(l.0), s.queue[l][0], outcome), root, m, k) <==>
              TightOn(g, s, root, m, k)
              && !(s.queue[l][0] == m && !outcome.forward && k.0 == l.1 && k.1 != l.0)
  {
    if Down(g, root, l.0, l.1) { Directions(g, root, l, k); }
    DeliverKeepsFlow(g, s, root, m, l, outcome, k);
  }

  /** A delivery keeps the flow; it leaves whoever handled `m` having sent it on, unless it is dropped here. */
  lemma DeliverKeepsFlooded(g: Graph, s: Net, root: Node, m: Change, l: Link, outcome: Outcome)
    requires Flooded(g, s, root, m) && Tree(g) && l in g.links && s.queue[l] != []
    ensures var next := Turn(Popped(s, l), l.1, Some(l.0), s.queue[l][0], outcome);
            Flooded(g, next, root, m)
            && (Tight(g, next, root, m) <==>
                  Tight(g, s, root, m)
                  && !(s.queue[l][0] == m && !outcome.forward && exists w :: (l.1, w) in g.links && w != l.0))
  {
    var next := Turn(Popped(s, l), l.1, Some(l.0), s.queue[l][0], outcome);
    TurnKeepsShape(g, Popped(s, l), l.1, Some(l.0), s.queue[l][0], outcome);
    forall k | k in g.links
      ensures FlowOn(Down(g, root, k.0, k.1), next, m, k)
      ensures TightOn(g, next, root, m, k) <==>
                TightOn(g, s, root, m, k)
                && !(s.queue[l][0] == m && !outcome.forward && k.0 == l.1 && k.1 != l.0)
    {
      DeliverKeepsLink(g, s, root, m, l, outcome, k);
    }
    DeliverKeepsRoot(g, s, root, m, l, outcome);
    if w :| (l.1, w) in g.links && w != l.0 {
      assert TightOn(g, next, root, m, (l.1, w)) || !TightOn(g, next, root, m, (l.1, w));
    }
  }

  /** Nothing flows up, so the change never comes back to where it was made. */
  lemma DeliverKeepsRoot(g: Graph, s: Net, root: Node, m: Change, l: Link, outcome: Outcome)
    requires Flooded(g, s, root, m) && Tree(g) && l in g.links && s.queue[l] != []
    ensures Count(Turn(Popped(s, l), l.1, Some(l.0), s.queue[l][0], outcome).log[root], m) == 1
  {
    RootDirections(g, root, l);
    assert FlowOn(Down(g, root, l.0, l.1), s, m, l);
    assert Count(s.queue[l], m) == 0 ==> s.queue[l][0] != m;
    CountAppends(s.log[l.1], s.queue[l][0], m);
  }

  /** A turn over another change moves none of `m`. */
  lemma OtherTurnKeepsFlooded(g: Graph, s: Net, root: Node, m: Change, v: Node, change: Change, outcome: Outcome)
    requires Flooded(g, s, root, m) && WellFormed(g) && v in g.nodes && change != m
    ensures var next := Turn(s, v, None, change, outcome);
            Flooded(g, next, root, m) && (Tight(g, next, root, m) <==> Tight(g, s, root, m))
  {
    var next := Turn(s, v, None, change, outcome);
    CountAppends(s.log[v], change, m);
    TurnKeepsShape(g, s, v, None, change, outcome);
    forall k | k in g.links
      ensures FlowOn(Down(g, root, k.0, k.1), next, m, k)
      ensures TightOn(g, next, root, m, k) <==> TightOn(g, s, root, m, k)
    {
      assert FlowOn(Down(g, root, k.0, k.1), s, m, k);
      TurnCounts(g, s, v, None, change, outcome, m, k);
    }
  }

  /** The step law, both ways: every step keeps the flow, and leaves a gap in it exactly when it drops the change. */
  lemma DoKeepsFlooded(g: Graph, s: Net, root: Node, m: Change, action: Action)
    requires Flooded(g, s, root, m) && Tree(g) && !m.Purged?
    ensures var next := Do(g, s, action);
            Flooded(g, next, root, m)
            && (Tight(g, next, root, m) <==> Tight(g, s, root, m) && !Drops(g, s, m, action))
  {
    if Enabled(g, s, action) {
      match action
      case Originate(v, change) =>
        assert m in s.log[root];
        OtherTurnKeepsFlooded(g, s, root, m, v, change, Taken(s, v, None, change));
      case Deliver(u, v) =>
        var l, head := (u, v), s.queue[(u, v)][0];
        assert Taken(Popped(s, l), v, Some(u), head) == Taken(s, v, Some(u), head);
        DeliverKeepsFlooded(g, s, root, m, l, Taken(s, v, Some(u), head));
    }
  }

  // ---- what a flood does ----

  ghost function Lacking(g: Graph, s: Net, m: Change): set<Node>
    requires Shaped(g, s)
  {
    set v | v in g.nodes && Count(s.log[v], m) == 0
  }

  lemma TurnLacking(g: Graph, s: Net, v: Node, sender: Option<Node>, change: Change, outcome: Outcome, m: Change)
    requires Shaped(g, s) && v in g.nodes && Shaped(g, Turn(s, v, sender, change, outcome))
    ensures Lacking(g, Turn(s, v, sender, change, outcome), m) ==
              if change == m then Lacking(g, s, m) - {v} else Lacking(g, s, m)
  {
    CountAppends(s.log[v], change, m);
  }

  lemma HeadLacked(g: Graph, s: Net, root: Node, m: Change, l: Link)
    requires Flooded(g, s, root, m) && WellFormed(g) && l in g.links && s.queue[l] != [] && s.queue[l][0] == m
    ensures l.1 in Lacking(g, s, m)
  {
    assert FlowOn(Down(g, root, l.0, l.1), s, m, l);
    assert Count(s.queue[l], m) != 0;
  }

  /** Each delivery reaches a node that lacked the change; nothing else changes who lacks it. */
  lemma DeliveryShrinksLacking(g: Graph, s: Net, root: Node, m: Change, action: Action)
    requires Flooded(g, s, root, m) && WellFormed(g) && !m.Purged?
    ensures Delivers(g, s, action, Only(m)) ==>
              action.to in Lacking(g, s, m) && Lacking(g, Do(g, s, action), m) == Lacking(g, s, m) - {action.to}
    ensures !Delivers(g, s, action, Only(m)) ==> Lacking(g, Do(g, s, action), m) == Lacking(g, s, m)
  {
    if Enabled(g, s, action) {
      match action
      case Originate(v, change) =>
        assert m in s.log[root];
        var outcome := Taken(s, v, None, change);
        TurnKeepsShape(g, s, v, None, change, outcome);
        TurnLacking(g, s, v, None, change, outcome, m);
      case Deliver(u, v) =>
        var l, head, popped := (u, v), s.queue[(u, v)][0], Popped(s, (u, v));
        var outcome := Taken(popped, v, Some(u), head);
        if head == m { HeadLacked(g, s, root, m, l); }
        assert Lacking(g, popped, m) == Lacking(g, s, m);
        TurnKeepsShape(g, popped, v, Some(u), head, outcome);
        TurnLacking(g, popped, v, Some(u), head, outcome, m);
    }
  }

  lemma StepFloods(g: Graph, s: Net, root: Node, m: Change, action: Action)
    requires Flooded(g, s, root, m) && Tree(g) && !m.Purged?
    ensures Flooded(g, Do(g, s, action), root, m)
    ensures |Lacking(g, Do(g, s, action), m)| + (if Delivers(g, s, action, Only(m)) then 1 else 0) == |Lacking(g, s, m)|
  {
    DoKeepsFlooded(g, s, root, m, action);
    DeliveryShrinksLacking(g, s, root, m, action);
  }

  /** No step of the run drops the change. */
  ghost predicate NeverDropped(g: Graph, s: Net, actions: seq<Action>, m: Change)
    requires Shaped(g, s)
    decreases |actions|
  {
    actions == []
    || (NeverDropped(g, s, actions[..|actions| - 1], m)
        && !Drops(g, RunNet(g, s, actions[..|actions| - 1]), m, actions[|actions| - 1]))
  }

  lemma {:induction false} RunFloods(g: Graph, s: Net, root: Node, m: Change, actions: seq<Action>)
    requires Flooded(g, s, root, m) && Tree(g) && !m.Purged?
    ensures Flooded(g, RunNet(g, s, actions), root, m)
    ensures Deliveries(g, s, actions, Only(m)) + |Lacking(g, RunNet(g, s, actions), m)| == |Lacking(g, s, m)|
    ensures Tight(g, RunNet(g, s, actions), root, m) <==> Tight(g, s, root, m) && NeverDropped(g, s, actions, m)
    decreases |actions|
  {
    if actions != [] {
      var n := |actions| - 1;
      RunFloods(g, s, root, m, actions[..n]);
      StepFloods(g, RunNet(g, s, actions[..n]), root, m, actions[n]);
      DoKeepsFlooded(g, RunNet(g, s, actions[..n]), root, m, actions[n]);
    }
  }

  /** With `m` off every link and sent on by whoever handled it, every node has handled it as often as its parent. */
  lemma {:induction false} SettledPath(g: Graph, s: Net, root: Node, m: Change, p: seq<Node>, v: Node)
    requires Flooded(g, s, root, m) && Tree(g) && Tight(g, s, root, m)
    requires (forall l <- g.links :: m !in s.queue[l]) && Simple(g, p, root, v)
    ensures Count(s.log[v], m) == 1
    decreases |p|
  {
    if |p| > 1 {
      var u := p[|p| - 2];
      PrefixIsSimple(g, p, root, v, |p| - 1);
      SettledPath(g, s, root, m, p[..|p| - 1], u);
      assert Down(g, root, u, v);
      DownIsLink(g, root, u, v);
      assert FlowOn(Down(g, root, u, v), s, m, (u, v)) && TightOn(g, s, root, m, (u, v));
    }
  }

  lemma {:induction false} EndsAreAsMany(links: set<Link>)
    requires forall a, b :: a in links && b in links && a.1 == b.1 ==> a == b
    ensures |set l | l in links :: l.1| == |links|
  {
    if l :| l in links {
      var rest := links - {l};
      EndsAreAsMany(rest);
      assert (set k | k in links :: k.1) == (set k | k in rest :: k.1) + {l.1};
    }
  }

  ghost function Carriers(g: Graph, s: Net, m: Change): set<Link>
    requires Shaped(g, s)
  {
    set l | l in g.links && Count(s.wire[l], m) > 0
  }

  // ---- a change nobody has seen is nowhere ----

  ghost predicate WireLogged(g: Graph, s: Net) {
    Shaped(g, s) && WellFormed(g)
    && (forall l <- g.links, c <- s.wire[l] :: c in s.log[l.0])
    && forall l <- g.links, c <- s.queue[l] :: c in s.log[l.0]
  }

  lemma TurnKeepsWire(g: Graph, s: Net, v: Node, sender: Option<Node>, change: Change, outcome: Outcome)
    requires WireLogged(g, s) && v in g.nodes
    ensures WireLogged(g, Turn(s, v, sender, change, outcome))
  {
    var next := Turn(s, v, sender, change, outcome);
    TurnKeepsShape(g, s, v, sender, change, outcome);
    forall l, c | l in g.links && c in next.wire[l] ensures c in next.log[l.0] {
      assert c in s.wire[l] || (c == change && l.0 == v);
    }
    forall l, c | l in g.links && c in next.queue[l] ensures c in next.log[l.0] {
      assert c in s.queue[l] || (c == change && l.0 == v);
    }
  }

  lemma {:induction false} RunKeepsWire(g: Graph, s: Net, actions: seq<Action>)
    requires WellFormed(g) && Fresh(g, s)
    ensures WireLogged(g, RunNet(g, s, actions))
    decreases |actions|
  {
    if actions != [] {
      var n := |actions| - 1;
      RunKeepsWire(g, s, actions[..n]);
      DoKeepsWire(g, RunNet(g, s, actions[..n]), actions[n]);
    }
  }

  lemma DoKeepsWire(g: Graph, s: Net, action: Action)
    requires WireLogged(g, s)
    ensures WireLogged(g, Do(g, s, action))
  {
    if Enabled(g, s, action) {
      match action
      case Originate(v, change) => TurnKeepsWire(g, s, v, None, change, Taken(s, v, None, change));
      case Deliver(u, v) =>
        var head := s.queue[(u, v)][0];
        TurnKeepsWire(g, Popped(s, (u, v)), v, Some(u), head, Taken(Popped(s, (u, v)), v, Some(u), head));
    }
  }

  lemma NotCounted(changes: seq<Change>, m: Change)
    requires m !in changes
    ensures Count(changes, m) == 0
  {
  }

  /** In any run, a change nobody has handled is queued nowhere and was sent nowhere. */
  lemma UnseenIsClear(g: Graph, s: Net, before: seq<Action>, m: Change)
    requires WellFormed(g) && Fresh(g, s) && !Seen(RunNet(g, s, before), m)
    ensures Clear(g, RunNet(g, s, before), m)
  {
    var now := RunNet(g, s, before);
    RunKeepsWire(g, s, before);
    forall v | v in g.nodes ensures Count(now.log[v], m) == 0 {
      NotCounted(now.log[v], m);
    }
    forall l | l in g.links ensures Count(now.queue[l], m) == 0 && Count(now.wire[l], m) == 0 {
      NotCounted(now.queue[l], m);
      NotCounted(now.wire[l], m);
    }
  }

  lemma OriginationFloods(g: Graph, s: Net, root: Node, m: Change)
    requires Clear(g, s, m) && Tree(g) && Enabled(g, s, Originate(root, m))
    ensures var made := Do(g, s, Originate(root, m));
            Flooded(g, made, root, m) && |Lacking(g, made, m)| == |g.nodes| - 1
            && (Tight(g, made, root, m) <==> !Drops(g, s, m, Originate(root, m)))
  {
    var outcome := Taken(s, root, None, m);
    OriginFloods(g, s, root, m, outcome);
    TurnLacking(g, s, root, None, m, outcome, m);
    assert forall v <- g.nodes :: Count(s.log[v], m) == 0 && v in Lacking(g, s, m);
    assert Lacking(g, s, m) == g.nodes;
  }

  /** What a flood has done and has left to do, at any point after it began; `dropped` if some node dropped it. */
  ghost predicate FloodState(g: Graph, made: Net, after: seq<Action>, m: Change, dropped: bool)
    requires Shaped(g, made)
  {
    var final := RunNet(g, made, after);
    (forall v <- g.nodes :: Count(final.log[v], m) <= 1)
    && (forall l <- g.links :: Count(final.wire[l], m) <= 1)
    && Deliveries(g, made, after, Only(m)) + |Lacking(g, final, m)| == |g.nodes| - 1
    && ((forall l <- g.links :: m !in final.queue[l]) ==>
          (dropped <==> exists v <- g.nodes :: Count(final.log[v], m) == 0)
          && |Carriers(g, final, m)| == Deliveries(g, made, after, Only(m)))
  }

  /**
   Flooding terminates and delivers at most once. Take any run on a tree in which a change of any kind but
   a purge is made, and let it go on with any other traffic, purges included: the change is handled at most
   once by each node and sent at most once over each link at any time, and deliveries and the nodes still
   lacking it always add up to the other nodes. Once it is off every link, exactly the links that led to a
   node have carried it, and it has reached every node, over n - 1 links, if and only if no node with
   neighbours to send it to dropped it.
   */
  lemma FloodExactlyOnce(g: Graph, s: Net, before: seq<Action>, root: Node, m: Change, after: seq<Action>)
    requires Tree(g) && Fresh(g, s) && !m.Purged? && Enabled(g, RunNet(g, s, before), Originate(root, m))
    ensures var mid := RunNet(g, s, before);
            var made := Do(g, mid, Originate(root, m));
            FloodState(g, made, after, m, Drops(g, mid, m, Originate(root, m)) || !NeverDropped(g, made, after, m))
  {
    var mid := RunNet(g, s, before);
    UnseenIsClear(g, s, before, m);
    OriginationFloods(g, mid, root, m);
    FloodGoesOn(g, Do(g, mid, Originate(root, m)), root, m, after, Drops(g, mid, m, Originate(root, m)));
  }

  lemma FloodGoesOn(g: Graph, made: Net, root: Node, m: Change, after: seq<Action>, dropped: bool)
    requires Flooded(g, made, root, m) && Tree(g) && !m.Purged? && |Lacking(g, made, m)| == |g.nodes| - 1
    requires Tight(g, made, root, m) <==> !dropped
    ensures FloodState(g, made, after, m, dropped || !NeverDropped(g, made, after, m))
  {
    RunFloods(g, made, root, m, after);
    FloodedOnce(g, RunNet(g, made, after), root, m);
  }

  /** An always-forwarded change is dropped exactly where it comes to a node that has purged its file. */
  lemma OnlyPurgesDrop(g: Graph, s: Net, m: Change, action: Action)
    requires Shaped(g, s) && WellFormed(g) && m.AlwaysForwarded()
    ensures Drops(g, s, m, action) ==> At(s, if action.Originate? then action.at else action.to, m.file).purged
    ensures Delivers(g, s, action, Only(m)) ==>
              (Drops(g, s, m, action) <==>
                 At(s, action.to, m.file).purged && exists w :: (action.to, w) in g.links && w != action.from)
  {
    if Enabled(g, s, action) {
      match action
      case Originate(v, change) => if change == m { TakenIs(s, v, None, m); }
      case Deliver(u, v) => TakenIs(s, v, Some(u), m);
    }
  }

  /**
   So an always-forwarded change that meets no purge of its file reaches every node exactly once; and where
   it does not arrive the purge does.
   */
  lemma FloodMeetsPurge(g: Graph, s: Net, before: seq<Action>, root: Node, m: Change, after: seq<Action>, v: Node)
    requires Tree(g) && Causality.Start(g, s, m.file) && m.AlwaysForwarded() && v in g.nodes
    requires Enabled(g, RunNet(g, s, before), Originate(root, m))
    requires var final := RunNet(g, Do(g, RunNet(g, s, before), Originate(root, m)), after);
             forall l <- g.links :: !Settled(m, final.queue[l])
    ensures var final := RunNet(g, Do(g, RunNet(g, s, before), Originate(root, m)), after);
            Count(final.log[v], m) == 1 || Purged(m.file) in final.log[v] || At(s, v, m.file).purged
  {
    var actions := before + [Originate(root, m)] + after;
    var made := Do(g, RunNet(g, s, before), Originate(root, m));
    RunLast(g, s, before, Originate(root, m));
    RunAppends(g, s, before + [Originate(root, m)], after);
    FloodExactlyOnce(g, s, before, root, m, after);
    RootStays(g, made, after, root, m);
    TreeIsConnected(g);
    ReachesOrPurged(g, s, actions, m, root, v);
    CountsMember(RunNet(g, made, after).log[v], m);
  }

  lemma CountsMember(changes: seq<Change>, m: Change)
    ensures m in changes <==> Count(changes, m) > 0
  {
  }

  lemma {:induction false} RootStays(g: Graph, made: Net, after: seq<Action>, root: Node, m: Change)
    requires Shaped(g, made) && root in g.nodes && m in made.log[root]
    ensures m in RunNet(g, made, after).log[root]
    decreases |after|
  {
    if after != [] {
      RootStays(g, made, after[..|after| - 1], root, m);
    }
  }

  lemma FloodedOnce(g: Graph, s: Net, root: Node, m: Change)
    requires Flooded(g, s, root, m) && Tree(g)
    ensures forall v <- g.nodes :: Count(s.log[v], m) <= 1
    ensures forall l <- g.links :: Count(s.wire[l], m) <= 1
    ensures (forall l <- g.links :: m !in s.queue[l]) ==>
              (Tight(g, s, root, m) <==> forall v <- g.nodes :: Count(s.log[v], m) == 1)
              && |Carriers(g, s, m)| + |Lacking(g, s, m)| == |g.nodes| - 1
  {
    forall l | l in g.links ensures Count(s.wire[l], m) <= 1 {
      assert FlowOn(Down(g, root, l.0, l.1), s, m, l);
    }
    forall v | v in g.nodes ensures Count(s.log[v], m) <= 1 {
      if v != root {
        HasParent(g, root, v);
        var u :| Down(g, root, u, v);
        DownIsLink(g, root, u, v);
        assert FlowOn(Down(g, root, u, v), s, m, (u, v));
      }
    }
    if forall l <- g.links :: m !in s.queue[l] {
      if Tight(g, s, root, m) {
        forall v | v in g.nodes ensures Count(s.log[v], m) == 1 {
          assert HasPath(g, root, v);
          var p :| Simple(g, p, root, v);
          SettledPath(g, s, root, m, p, v);
        }
      }
      if forall v <- g.nodes :: Count(s.log[v], m) == 1 {
        forall l | l in g.links ensures TightOn(g, s, root, m, l) {
          NotCounted(s.queue[l], m);
          assert FlowOn(Down(g, root, l.0, l.1), s, m, l);
        }
      }
      CarriersLead(g, s, root, m);
    }
  }

  /** Once `m` is off the links, those that carried it lead each to one of the nodes it reached. */
  lemma CarriersLead(g: Graph, s: Net, root: Node, m: Change)
    requires Flooded(g, s, root, m) && Tree(g) && forall l <- g.links :: m !in s.queue[l]
    ensures |Carriers(g, s, m)| + |Lacking(g, s, m)| == |g.nodes| - 1
  {
    var carriers, lacking := Carriers(g, s, m), Lacking(g, s, m);
    forall l | l in g.links ensures l in carriers <==> Down(g, root, l.0, l.1) && l.1 !in lacking {
      NotCounted(s.queue[l], m);
      assert FlowOn(Down(g, root, l.0, l.1), s, m, l);
    }
    LinksLead(g, root, carriers, lacking);
    SizesAdd(g.nodes, root, lacking);
  }

  lemma SizesAdd(nodes: set<Node>, root: Node, lacking: set<Node>)
    requires root in nodes && root !in lacking && lacking <= nodes
    ensures |nodes - {root} - lacking| + |lacking| == |nodes| - 1
  {
    assert nodes == (nodes - {root} - lacking) + {root} + lacking;
  }

  /** On a tree the downward links to a set of nodes are as many as the nodes, but for the root. */
  lemma LinksLead(g: Graph, root: Node, links: set<Link>, besides: set<Node>)
    requires Tree(g) && root in g.nodes && links <= g.links
    requires forall l <- g.links :: l in links <==> Down(g, root, l.0, l.1) && l.1 !in besides
    ensures |links| == |g.nodes - {root} - besides|
  {
    forall a, b | a in links && b in links && a.1 == b.1 ensures a == b {
      OneParent(g, root, a.0, b.0, a.1);
    }
    EndsAreAsMany(links);
    forall v ensures v in (set l | l in links :: l.1) <==> v in g.nodes - {root} - besides {
      if v in g.nodes - {root} - besides {
        HasParent(g, root, v);
        var u :| Down(g, root, u, v);
        DownIsLink(g, root, u, v);
        assert (u, v) in links && (u, v).1 == v;
      } else if l :| l in links && l.1 == v {
        DownIsLink(g, root, l.0, l.1);
      }
    }
    assert (set l | l in links :: l.1) == g.nodes - {root} - besides;
  }
}
