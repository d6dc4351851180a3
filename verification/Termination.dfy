/**
 Every flood on a tree dies out, pruned or not. A change in flight on a link can reach at most the nodes
 behind that link; handling it at the far end hands each of them, but that end itself, to at most one of
 the next links. So the nodes still to be reached, added up over everything in flight, fall with every
 delivery.
 */
module Termination {
  import opened Types
  import opened Catalog
  import opened Network
  import opened Flooding
  import opened Convergence

  // ---- what lies behind a link ----

  ghost predicate Past(g: Graph, u: Node, v: Node, w: Node) {
    exists p :: Simple(g, p, u, w) && |p| >= 2 && p[1] == v
  }

  /** The nodes whose simple path from `u` starts over the link to `v`. */
  ghost function Beyond(g: Graph, u: Node, v: Node): set<Node> {
    set w | w in g.nodes && Past(g, u, v, w)
  }

  lemma EndIsBeyond(g: Graph, u: Node, v: Node)
    requires WellFormed(g) && (u, v) in g.links
    ensures v in Beyond(g, u, v)
  {
    assert Simple(g, [u, v], u, v) && [u, v][1] == v;
  }

  /** A simple path that passes a neighbour of its start does so at once. */
  lemma NeighbourComesFirst(g: Graph, u: Node, v: Node, w: Node, p: seq<Node>, i: nat)
    requires Tree(g) && (u, v) in g.links && Simple(g, p, v, w) && i < |p| && p[i] == u
    ensures i == 1
  {
    PrefixIsSimple(g, p, v, w, i + 1);
    assert Mutual(g, u, v);
    assert Simple(g, [v, u], v, u);
    assert |p[..i + 1]| == i + 1;
  }

  lemma OneStart(g: Graph, v: Node, x: Node, y: Node, w: Node)
    requires Tree(g) && w in Beyond(g, v, x) && w in Beyond(g, v, y)
    ensures x == y
  {
    var p :| Simple(g, p, v, w) && |p| >= 2 && p[1] == x;
    var q :| Simple(g, q, v, w) && |q| >= 2 && q[1] == y;
    assert p == q;
  }

  /** A node behind a further link is behind this one too, and is not its end. */
  lemma BeyondNarrows(g: Graph, u: Node, v: Node, x: Node, w: Node)
    requires Tree(g) && (u, v) in g.links && x != u && w in Beyond(g, v, x)
    ensures w in Beyond(g, u, v) && w != v
  {
    var p :| Simple(g, p, v, w) && |p| >= 2 && p[1] == x;
    assert p[0] != p[|p| - 1];
    if i :| 0 <= i < |p| && p[i] == u {
      NeighbourComesFirst(g, u, v, w, p, i);
    } else {
      var q := [u] + p;
      assert forall i :: 0 < i < |q| ==> q[i] == p[i - 1] && q[i] in p;
      assert forall i :: 0 <= i < |q| - 1 ==> (q[i], q[i + 1]) in g.links;
      assert Simple(g, q, u, w) && q[1] == v;
    }
  }

  lemma BeyondIsDisjoint(g: Graph, v: Node, x: Node, y: Node)
    requires Tree(g) && x != y
    ensures Beyond(g, v, x) !! Beyond(g, v, y)
  {
    forall w | w in Beyond(g, v, x) ensures w !in Beyond(g, v, y) {
      if w in Beyond(g, v, y) { OneStart(g, v, x, y, w); }
    }
  }

  // ---- sums over links ----

  type Weights = map<Link, nat>

  ghost function Total(weights: Weights): nat
    decreases |weights|
  {
    if weights == map[] then 0 else
    var l :| l in weights;
    weights[l] + Total(weights - {l})
  }

  lemma {:induction false} TotalSplits(weights: Weights, k: Link)
    requires k in weights
    ensures Total(weights) == weights[k] + Total(weights - {k})
    decreases |weights|
  {
    var l :| l in weights && Total(weights) == weights[l] + Total(weights - {l});
    if l != k {
      TotalSplits(weights - {l}, k);
      TotalSplits(weights - {k}, l);
      assert weights - {l} - {k} == weights - {k} - {l};
    }
  }

  lemma {:induction false} TotalAdds(a: Weights, b: Weights, c: Weights)
    requires a.Keys == b.Keys == c.Keys && forall l <- a :: c[l] == a[l] + b[l]
    ensures Total(c) == Total(a) + Total(b)
    decreases |a|
  {
    if a == map[] {
      assert b == map[] && c == map[];
    } else {
      var l :| l in a;
      TotalSplits(a, l);
      TotalSplits(b, l);
      TotalSplits(c, l);
      TotalAdds(a - {l}, b - {l}, c - {l});
    }
  }

  lemma {:induction false} TotalOfNone(weights: Weights)
    requires forall l <- weights :: weights[l] == 0
    ensures Total(weights) == 0
    decreases |weights|
  {
    if weights != map[] {
      var l :| l in weights;
      TotalSplits(weights, l);
      TotalOfNone(weights - {l});
    }
  }

  /** Disjoint parts of a set are together no larger than it. */
  lemma {:induction false} TotalOfParts(weights: Weights, parts: map<Link, set<Node>>, whole: set<Node>)
    requires parts.Keys == weights.Keys && forall l <- weights :: weights[l] <= |parts[l]| && parts[l] <= whole
    requires forall k, l :: k in parts && l in parts && k != l ==> parts[k] !! parts[l]
    ensures Total(weights) <= |whole|
    decreases |weights|
  {
    if weights != map[] {
      var l :| l in weights;
      TotalSplits(weights, l);
      TotalOfParts(weights - {l}, parts - {l}, whole - parts[l]);
    }
  }

  // ---- the measure ----

  function Tally(changes: seq<Change>, select: Select): nat
    decreases |changes|
  {
    if changes == [] then 0 else
    Tally(changes[..|changes| - 1], select) + One(changes[|changes| - 1], select)
  }

  function One(change: Change, select: Select): nat { if Selects(select, change) then 1 else 0 }

  lemma TallyAppends(changes: seq<Change>, change: Change, select: Select)
    ensures Tally(changes + [change], select) == Tally(changes, select) + One(change, select)
  {
    assert (changes + [change])[..|changes|] == changes;
  }

  lemma {:induction false} TallyPops(changes: seq<Change>, select: Select)
    requires changes != []
    ensures Tally(changes, select) == One(changes[0], select) + Tally(changes[1..], select)
    decreases |changes|
  {
    var n := |changes| - 1;
    if n == 0 {
      assert changes[..0] == [] && changes[1..] == [];
    } else {
      TallyPops(changes[..n], select);
      assert changes[..n][1..] == changes[1..][..n - 1];
    }
  }

  /** A link's share: for each selected change in flight on it, the nodes behind it. */
  ghost function Share(g: Graph, changes: seq<Change>, l: Link, select: Select): nat {
    Tally(changes, select) * |Beyond(g, l.0, l.1)|
  }

  ghost function Shares(g: Graph, queue: map<Link, seq<Change>>, select: Select): Weights {
    map l | l in queue :: Share(g, queue[l], l, select)
  }

  /** How many deliveries of selected changes there can still be. */
  ghost function Potential(g: Graph, s: Net, select: Select): nat { Total(Shares(g, s.queue, select)) }

  /** What sending one selected change out of `v` adds on each link. */
  ghost function Gains(g: Graph, queue: map<Link, seq<Change>>, v: Node, sender: Option<Node>, one: nat): Weights {
    map l | l in queue :: Gain(g, v, sender, one, l)
  }

  ghost function Gain(g: Graph, v: Node, sender: Option<Node>, one: nat, l: Link): nat {
    if l.0 == v && sender != Some(l.1) then one * |Beyond(g, l.0, l.1)| else 0
  }

  lemma Distributes(a: nat, b: nat, c: nat)
    ensures (a + b) * c == a * c + b * c
  {
  }

  lemma ShareAfterSend(g: Graph, queue: map<Link, seq<Change>>, v: Node, sender: Option<Node>, change: Change,
                       select: Select, l: Link)
    requires l in queue
    ensures Share(g, Sent(queue, v, sender, change)[l], l, select)
         == Share(g, queue[l], l, select) + Gain(g, v, sender, One(change, select), l)
  {
    if l.0 == v && sender != Some(l.1) {
      TallyAppends(queue[l], change, select);
      Distributes(Tally(queue[l], select), One(change, select), |Beyond(g, l.0, l.1)|);
    } else {
      assert Sent(queue, v, sender, change)[l] == queue[l];
    }
  }

  lemma SendAdds(g: Graph, queue: map<Link, seq<Change>>, v: Node, sender: Option<Node>, change: Change, select: Select)
    ensures Total(Shares(g, Sent(queue, v, sender, change), select))
         == Total(Shares(g, queue, select)) + Total(Gains(g, queue, v, sender, One(change, select)))
  {
    var before, after := Shares(g, queue, select), Shares(g, Sent(queue, v, sender, change), select);
    var gains := Gains(g, queue, v, sender, One(change, select));
    assert before.Keys == queue.Keys && gains.Keys == queue.Keys && after.Keys == queue.Keys;
    forall l | l in before ensures after[l] == before[l] + gains[l] {
      ShareAfterSend(g, queue, v, sender, change, select, l);
    }
    TotalAdds(before, gains, after);
  }

  /** The links out of a node, but the one back to the sender, lead to disjoint parts of what lies behind the node. */
  lemma GainsAreFew(g: Graph, queue: map<Link, seq<Change>>, v: Node, sender: Option<Node>, one: nat, whole: set<Node>)
    requires Tree(g) && queue.Keys <= g.links && one <= 1
    requires forall x | (v, x) in g.links && sender != Some(x) :: Beyond(g, v, x) <= whole
    ensures Total(Gains(g, queue, v, sender, one)) <= if one == 0 then 0 else |whole|
  {
    var gains := Gains(g, queue, v, sender, one);
    if one == 0 {
      TotalOfNone(gains);
    } else {
      var parts := map l | l in queue :: if l.0 == v && sender != Some(l.1) then Beyond(g, l.0, l.1) else {};
      forall k, l | k in parts && l in parts && k != l ensures parts[k] !! parts[l] {
        if k.0 == v && l.0 == v { BeyondIsDisjoint(g, v, k.1, l.1); }
      }
      TotalOfParts(gains, parts, whole);
    }
  }

  lemma PopTakes(g: Graph, queue: map<Link, seq<Change>>, l: Link, select: Select)
    requires l in queue && queue[l] != []
    ensures Total(Shares(g, queue[l := queue[l][1..]], select)) + One(queue[l][0], select) * |Beyond(g, l.0, l.1)|
         == Total(Shares(g, queue, select))
  {
    var after, before := Shares(g, queue[l := queue[l][1..]], select), Shares(g, queue, select);
    ShareAfterPop(g, queue[l], l, select);
    TotalSplits(before, l);
    TotalSplits(after, l);
    assert before - {l} == after - {l};
  }

  lemma ShareAfterPop(g: Graph, changes: seq<Change>, l: Link, select: Select)
    requires changes != []
    ensures Share(g, changes, l, select)
         == One(changes[0], select) * |Beyond(g, l.0, l.1)| + Share(g, changes[1..], l, select)
  {
    TallyPops(changes, select);
    Distributes(One(changes[0], select), Tally(changes[1..], select), |Beyond(g, l.0, l.1)|);
  }

  /** Handling a change that came over a link adds less than taking it off the link took. */
  lemma HandlingAddsLess(g: Graph, queue: map<Link, seq<Change>>, u: Node, v: Node, change: Change, select: Select)
    requires Tree(g) && queue.Keys <= g.links && (u, v) in g.links
    ensures Total(Shares(g, Sent(queue, v, Some(u), change), select)) + One(change, select)
         <= Total(Shares(g, queue, select)) + One(change, select) * |Beyond(g, u, v)|
    ensures One(change, select) <= One(change, select) * |Beyond(g, u, v)|
  {
    var whole := Beyond(g, u, v) - {v};
    forall x | (v, x) in g.links && Some(u) != Some(x) ensures Beyond(g, v, x) <= whole {
      forall w | w in Beyond(g, v, x) ensures w in whole { BeyondNarrows(g, u, v, x, w); }
    }
    EndIsBeyond(g, u, v);
    assert |Beyond(g, u, v)| == |whole| + 1;
    GainsAreFew(g, queue, v, Some(u), One(change, select), whole);
    SendAdds(g, queue, v, Some(u), change, select);
    Distributes(|whole|, 1, One(change, select));
  }

  lemma QueueAfterDelivery(g: Graph, s: Net, u: Node, v: Node)
    requires Shaped(g, s) && WellFormed(g) && Enabled(g, s, Deliver(u, v))
    ensures var popped := s.queue[(u, v) := s.queue[(u, v)][1..]];
            Do(g, s, Deliver(u, v)).queue == popped
            || Do(g, s, Deliver(u, v)).queue == Sent(popped, v, Some(u), s.queue[(u, v)][0])
  {
  }

  /** Each delivery of a selected change lowers the measure, and no delivery raises it. */
  lemma DeliveryLowers(g: Graph, s: Net, action: Action, select: Select)
    requires Tree(g) && Shaped(g, s) && action.Deliver? && Enabled(g, s, action)
    ensures Potential(g, Do(g, s, action), select) + (if Delivers(g, s, action, select) then 1 else 0)
         <= Potential(g, s, select)
  {
    var l := (action.from, action.to);
    QueueAfterDelivery(g, s, action.from, action.to);
    PopTakes(g, s.queue, l, select);
    HandlingAddsLess(g, s.queue[l := s.queue[l][1..]], action.from, action.to, s.queue[l][0], select);
  }

  ghost predicate Makes(g: Graph, s: Net, action: Action, select: Select)
    requires Shaped(g, s)
  {
    Enabled(g, s, action) && action.Originate? && Selects(select, action.change)
    && Taken(s, action.at, None, action.change).forward
  }

  lemma SelfIsNotBeyond(g: Graph, v: Node, x: Node)
    ensures Beyond(g, v, x) <= g.nodes - {v}
  {
    forall w | w in Beyond(g, v, x) ensures w != v {
      var p :| Simple(g, p, v, w) && |p| >= 2 && p[1] == x;
      assert p[0] != p[|p| - 1];
    }
  }

  lemma SendingAddsFew(g: Graph, queue: map<Link, seq<Change>>, v: Node, change: Change, select: Select)
    requires Tree(g) && queue.Keys <= g.links && v in g.nodes
    ensures Total(Shares(g, Sent(queue, v, None, change), select))
         <= Total(Shares(g, queue, select)) + if Selects(select, change) then |g.nodes| - 1 else 0
  {
    var whole := g.nodes - {v};
    forall x | (v, x) in g.links && None != Some(x) ensures Beyond(g, v, x) <= whole {
      SelfIsNotBeyond(g, v, x);
    }
    assert |whole| == |g.nodes| - 1;
    GainsAreFew(g, queue, v, None, One(change, select), whole);
    SendAdds(g, queue, v, None, change, select);
  }

  lemma QueueAfterOrigination(g: Graph, s: Net, v: Node, change: Change)
    requires Shaped(g, s)
    ensures var action := Originate(v, change);
            Do(g, s, action).queue
              == if Enabled(g, s, action) && Taken(s, v, None, change).forward
                 then Sent(s.queue, v, None, change) else s.queue
  {
  }

  /** Making a change raises the measure by the other nodes at most. */
  lemma OriginationRaises(g: Graph, s: Net, action: Action, select: Select)
    requires Tree(g) && Shaped(g, s) && action.Originate? && g.nodes != {}
    ensures Potential(g, Do(g, s, action), select)
         <= Potential(g, s, select) + if Makes(g, s, action, select) then |g.nodes| - 1 else 0
  {
    QueueAfterOrigination(g, s, action.at, action.change);
    if Enabled(g, s, action) { SendingAddsFew(g, s.queue, action.at, action.change, select); }
  }

  lemma StepIsBounded(g: Graph, s: Net, action: Action, select: Select)
    requires Tree(g) && Shaped(g, s) && g.nodes != {}
    ensures Potential(g, Do(g, s, action), select) + (if Delivers(g, s, action, select) then 1 else 0)
         <= Potential(g, s, select) + if Makes(g, s, action, select) then |g.nodes| - 1 else 0
  {
    if action.Originate? {
      OriginationRaises(g, s, action, select);
    } else if Enabled(g, s, action) {
      DeliveryLowers(g, s, action, select);
    }
  }

  /** How often a selected change is made and sent out during a run. */
  ghost function Made(g: Graph, s: Net, actions: seq<Action>, select: Select): nat
    requires Shaped(g, s)
    decreases |actions|
  {
    if actions == [] then 0 else
    var n := |actions| - 1;
    Made(g, s, actions[..n], select) + if Makes(g, RunNet(g, s, actions[..n]), actions[n], select) then 1 else 0
  }

  /**
   Over any run on a tree, deliveries of selected changes, together with those there can still be, are at
   most those there could be at the start and n - 1 for each time one was made, whatever was pruned.
   */
  lemma {:induction false} DeliveriesAreBounded(g: Graph, s: Net, actions: seq<Action>, select: Select)
    requires Tree(g) && Shaped(g, s) && g.nodes != {}
    ensures Deliveries(g, s, actions, select) + Potential(g, RunNet(g, s, actions), select)
         <= Potential(g, s, select) + Made(g, s, actions, select) * (|g.nodes| - 1)
    decreases |actions|
  {
    if actions == [] {
      assert RunNet(g, s, actions) == s;
    } else {
      var n := |actions| - 1;
      DeliveriesAreBounded(g, s, actions[..n], select);
      BoundGrows(g, RunNet(g, s, actions[..n]), actions[n], select, Potential(g, s, select),
                 Deliveries(g, s, actions[..n], select), Made(g, s, actions[..n], select));
    }
  }

  lemma BoundGrows(g: Graph, s: Net, action: Action, select: Select, start: nat, delivered: nat, made: nat)
    requires Tree(g) && Shaped(g, s) && g.nodes != {}
    requires delivered + Potential(g, s, select) <= start + made * (|g.nodes| - 1)
    ensures delivered + (if Delivers(g, s, action, select) then 1 else 0) + Potential(g, Do(g, s, action), select)
         <= start + (made + if Makes(g, s, action, select) then 1 else 0) * (|g.nodes| - 1)
  {
    StepIsBounded(g, s, action, select);
    Distributes(made, 1, |g.nodes| - 1);
  }

  lemma NothingInFlight(g: Graph, s: Net, select: Select)
    requires Fresh(g, s)
    ensures Potential(g, s, select) == 0
  {
    TotalOfNone(Shares(g, s.queue, select));
  }

  // ---- one change ----

  /** A change other than a purge is made once. */
  lemma {:induction false} MadeOnce(g: Graph, s: Net, actions: seq<Action>, m: Change)
    requires Shaped(g, s) && !m.Purged?
    ensures Made(g, s, actions, Only(m)) <= 1
    ensures Made(g, s, actions, Only(m)) == 1 ==> Seen(RunNet(g, s, actions), m)
    decreases |actions|
  {
    if actions != [] {
      var n := |actions| - 1;
      var before := RunNet(g, s, actions[..n]);
      MadeOnce(g, s, actions[..n], m);
      if Seen(before, m) { Causality.DoKeepsSeen(g, before, actions[n], m); }
      if Makes(g, before, actions[n], Only(m)) {
        assert m in Do(g, before, actions[n]).log[actions[n].at];
      }
    }
  }

  /**
   No change is delivered more than n - 1 times in any run on a tree: a move, a delete or a tag edit as
   much as an announcement, and a purge n - 1 times for each node that made it.
   */
  lemma AtMostTheOthers(g: Graph, s: Net, actions: seq<Action>, m: Change)
    requires Tree(g) && Fresh(g, s) && g.nodes != {}
    ensures Deliveries(g, s, actions, Only(m)) <= Made(g, s, actions, Only(m)) * (|g.nodes| - 1)
    ensures !m.Purged? ==> Deliveries(g, s, actions, Only(m)) <= |g.nodes| - 1
  {
    NothingInFlight(g, s, Only(m));
    DeliveriesAreBounded(g, s, actions, Only(m));
    if !m.Purged? {
      MadeOnce(g, s, actions, m);
      AtMostOnce(Made(g, s, actions, Only(m)), |g.nodes| - 1);
    }
  }

  lemma AtMostOnce(made: nat, size: nat)
    requires made <= 1
    ensures made * size <= size
  {
  }

  // ---- quiescence ----

  /** Nothing is made any more and every step delivers something. */
  ghost predicate Settling(g: Graph, s: Net, actions: seq<Action>)
    requires Shaped(g, s)
  {
    forall i :: 0 <= i < |actions| ==> DeliversAt(g, s, actions, i)
  }

  ghost predicate DeliversAt(g: Graph, s: Net, actions: seq<Action>, i: nat)
    requires Shaped(g, s) && i < |actions|
  {
    actions[i].Deliver? && Enabled(g, RunNet(g, s, actions[..i]), actions[i])
  }

  /** Once nothing is made any more, there are only so many deliveries left, in whatever order they come. */
  lemma {:induction false} SettlingEnds(g: Graph, s: Net, actions: seq<Action>)
    requires Tree(g) && Shaped(g, s) && Settling(g, s, actions)
    ensures |actions| + Potential(g, RunNet(g, s, actions), All) <= Potential(g, s, All)
    decreases |actions|
  {
    if actions != [] {
      var n := |actions| - 1;
      SettlingPrefix(g, s, actions, n);
      assert DeliversAt(g, s, actions, n);
      SettlingEnds(g, s, actions[..n]);
      OneFewer(g, RunNet(g, s, actions[..n]), actions[n]);
    }
  }

  lemma SettlingPrefix(g: Graph, s: Net, actions: seq<Action>, n: nat)
    requires Shaped(g, s) && Settling(g, s, actions) && n <= |actions|
    ensures Settling(g, s, actions[..n])
  {
    forall i | 0 <= i < n ensures DeliversAt(g, s, actions[..n], i) {
      assert DeliversAt(g, s, actions, i) && actions[..n][..i] == actions[..i];
    }
  }

  lemma OneFewer(g: Graph, s: Net, action: Action)
    requires Tree(g) && Shaped(g, s) && action.Deliver? && Enabled(g, s, action)
    ensures Potential(g, Do(g, s, action), All) + 1 <= Potential(g, s, All)
  {
    DeliveryLowers(g, s, action, All);
  }

  /** And while something is in flight one is possible; so every run that goes on delivering ends quiescent. */
  lemma {:induction false} Quiesces(g: Graph, s: Net) returns (actions: seq<Action>)
    requires Tree(g) && Shaped(g, s)
    ensures Settling(g, s, actions) && Quiescent(g, RunNet(g, s, actions))
    decreases Potential(g, s, All)
  {
    if Quiescent(g, s) {
      actions := [];
    } else {
      var l :| l in g.links && s.queue[l] != [];
      var first := Deliver(l.0, l.1);
      assert Enabled(g, s, first);
      OneFewer(g, s, first);
      var rest := Quiesces(g, Do(g, s, first));
      actions := [first] + rest;
      SettlingFrom(g, s, first, rest);
    }
  }

  lemma RunFrom(g: Graph, s: Net, first: Action, rest: seq<Action>)
    requires Shaped(g, s)
    ensures RunNet(g, s, [first] + rest) == RunNet(g, Do(g, s, first), rest)
  {
    assert [first][..0] == [] && RunNet(g, s, [first]) == Do(g, RunNet(g, s, []), first);
    RunAppends(g, s, [first], rest);
  }

  lemma SettlingFrom(g: Graph, s: Net, first: Action, rest: seq<Action>)
    requires Shaped(g, s) && first.Deliver? && Enabled(g, s, first) && Settling(g, Do(g, s, first), rest)
    ensures Settling(g, s, [first] + rest)
    ensures RunNet(g, s, [first] + rest) == RunNet(g, Do(g, s, first), rest)
  {
    var actions := [first] + rest;
    RunFrom(g, s, first, rest);
    forall i | 0 <= i < |actions| ensures DeliversAt(g, s, actions, i) {
      if i == 0 {
        assert actions[..0] == [];
      } else {
        DeliversLater(g, s, first, rest, i - 1);
      }
    }
  }

  lemma DeliversLater(g: Graph, s: Net, first: Action, rest: seq<Action>, i: nat)
    requires Shaped(g, s) && i < |rest| && DeliversAt(g, Do(g, s, first), rest, i)
    ensures DeliversAt(g, s, [first] + rest, i + 1)
  {
    PrefixFrom(g, s, first, rest, i);
  }

  lemma PrefixFrom(g: Graph, s: Net, first: Action, rest: seq<Action>, i: nat)
    requires Shaped(g, s) && i < |rest|
    ensures ([first] + rest)[i + 1] == rest[i]
    ensures RunNet(g, s, ([first] + rest)[..i + 1]) == RunNet(g, Do(g, s, first), rest[..i])
  {
    assert ([first] + rest)[..i + 1] == [first] + rest[..i];
    RunFrom(g, s, first, rest[..i]);
  }

  lemma PremisesAppend(g: Graph, s: Net, file: FileId, names: Names, actions: seq<Action>, rest: seq<Action>)
    requires Shaped(g, s) && Premises(g, s, file, names, actions) && Settling(g, RunNet(g, s, actions), rest)
    ensures Premises(g, s, file, names, actions + rest)
  {
    forall i | 0 <= i < |actions + rest| ensures PremiseAt(g, s, file, names, actions + rest, i) {
      if i < |actions| {
        PremiseStays(g, s, file, names, actions, rest, i);
      } else {
        OnlyDelivers(g, s, file, names, actions, rest, i);
      }
    }
  }

  lemma OnlyDelivers(g: Graph, s: Net, file: FileId, names: Names, actions: seq<Action>, rest: seq<Action>, i: nat)
    requires Shaped(g, s) && Settling(g, RunNet(g, s, actions), rest) && |actions| <= i < |actions + rest|
    ensures PremiseAt(g, s, file, names, actions + rest, i)
  {
    assert DeliversAt(g, RunNet(g, s, actions), rest, i - |actions|);
    assert (actions + rest)[i].Deliver?;
  }

  lemma PremiseStays(g: Graph, s: Net, file: FileId, names: Names, actions: seq<Action>, rest: seq<Action>, i: nat)
    requires Shaped(g, s) && Premises(g, s, file, names, actions) && i < |actions|
    ensures PremiseAt(g, s, file, names, actions + rest, i)
  {
    assert (actions + rest)[..i] == actions[..i];
    assert PremiseAt(g, s, file, names, actions, i);
  }

  /**
   On a tree the flood settles and converges: once changes are no longer made, at most n - 1 deliveries
   for each that was are left, and when they are done every node holds the join.
   */
  lemma SettlesAndConverges(g: Graph, s: Net, file: FileId, names: Names, start: Record, actions: seq<Action>,
                            rest: seq<Action>)
    requires Tree(g) && Start(g, s, file, names, start) && Premises(g, s, file, names, actions) && g.nodes != {}
    requires Settling(g, RunNet(g, s, actions), rest)
    ensures |rest| <= Made(g, s, actions, All) * (|g.nodes| - 1)
    ensures var final := RunNet(g, RunNet(g, s, actions), rest);
            Quiescent(g, final) ==> forall v <- g.nodes :: IsJoin(final, file, names, start, Network.At(final, v, file))
  {
    NothingInFlight(g, s, All);
    DeliveriesAreBounded(g, s, actions, All);
    SettlingEnds(g, RunNet(g, s, actions), rest);
    RunAppends(g, s, actions, rest);
    PremisesAppend(g, s, file, names, actions, rest);
    var final := RunNet(g, RunNet(g, s, actions), rest);
    if Quiescent(g, final) {
      forall v | v in g.nodes ensures IsJoin(final, file, names, start, Network.At(final, v, file)) {
        QuiescentStateIsJoin(g, s, file, names, start, actions + rest, v);
      }
    }
  }
}
