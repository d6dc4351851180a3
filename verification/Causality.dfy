/**
 Causal delivery. Links are FIFO and a node forwards what it applies, so a change made on top of an
 always-forwarded change never overtakes it, on any graph and whatever else is in flight; only a purge
 of the earlier change's file gets ahead of it, for nodes that know of the purge drop the change.
 */
module Causality {
  import opened Types
  import opened Catalog
  import opened Network
  import CatalogRuns

  /** What a turn does to purges, and what it never drops unless the file is purged where it is taken. */
  lemma TakenIs(s: Net, v: Node, sender: Option<Node>, change: Change)
    requires v in s.store
    ensures var r, outcome := At(s, v, change.file), Taken(s, v, sender, change);
            (outcome.record.purged <==> r.purged || change.Purged?)
            && (!r.purged && (change.AlwaysForwarded() || change.Purged?) ==> outcome.forward)
  {
    var r := At(s, v, change.file);
    if change.Added? { CatalogRuns.TagAllKeeps(r.AddFile(change.path, change.pathAt), change.tags, change.pathAt); }
  }

  /** The change has been handled, or a purge of its file has. */
  predicate Settled(a: Change, changes: seq<Change>) { a in changes || Purged(a.file) in changes }

  /** So has it at `v`, or the file was purged there to begin with. */
  predicate Past(s: Net, a: Change, gone: set<Node>, v: Node)
    requires v in s.log
  {
    v in gone || Settled(a, s.log[v])
  }

  /** What is past the near end of a link is past the far end, or on its way there. */
  ghost predicate Follows(a: Change, near: bool, far: bool, nearLog: seq<Change>, queue: seq<Change>) {
    (forall c <- queue :: c in nearLog) && (near ==> far || Settled(a, queue))
  }

  ghost predicate FollowsOn(g: Graph, s: Net, a: Change, gone: set<Node>, l: Link)
    requires Shaped(g, s) && WellFormed(g) && l in g.links
  {
    Follows(a, Past(s, a, gone, l.0), Past(s, a, gone, l.1), s.log[l.0], s.queue[l])
  }

  /** `gone` are the nodes that had purged the file of `a` at the start. */
  ghost predicate Followed(g: Graph, s: Net, a: Change, gone: set<Node>) {
    Shaped(g, s) && WellFormed(g)
    && (forall v <- g.nodes :: At(s, v, a.file).purged ==> v in gone || Purged(a.file) in s.log[v])
    && forall l <- g.links :: FollowsOn(g, s, a, gone, l)
  }

  /** Every `b` in the sequence stands behind an `a` or a purge of its file, unless that was past before. */
  ghost predicate Behind(a: Change, b: Change, past: bool, changes: seq<Change>) {
    forall j | 0 <= j < |changes| && changes[j] == b :: past || Settled(a, changes[..j])
  }

  ghost predicate Ordered(g: Graph, s: Net, a: Change, b: Change, gone: set<Node>) {
    Followed(g, s, a, gone)
    && (forall v <- g.nodes :: Behind(a, b, v in gone, s.log[v]))
    && forall l <- g.links :: Behind(a, b, Past(s, a, gone, l.1), s.queue[l])
  }

  lemma BehindAppends(a: Change, b: Change, past: bool, changes: seq<Change>, change: Change)
    requires Behind(a, b, past, changes)
    requires change == b ==> past || Settled(a, changes)
    ensures Behind(a, b, past, changes + [change])
  {
    var next := changes + [change];
    forall j | 0 <= j < |next| && next[j] == b ensures past || Settled(a, next[..j]) {
      assert next[..j] == changes[..j];
      if j == |changes| { assert changes[..j] == changes; }
    }
  }

  lemma BehindPops(a: Change, b: Change, past: bool, changes: seq<Change>)
    requires Behind(a, b, past, changes) && changes != [] && (Settled(a, [changes[0]]) ==> past)
    ensures Behind(a, b, past, changes[1..])
  {
    var rest := changes[1..];
    forall j | 0 <= j < |rest| && rest[j] == b ensures past || Settled(a, rest[..j]) {
      assert changes[..j + 1] == [changes[0]] + rest[..j];
      assert changes[j + 1] == b;
    }
  }

  /** A turn that may be taken: `a`, or a purge of its file, is dropped only where the file is purged already. */
  ghost predicate TurnOf(s: Net, v: Node, sender: Option<Node>, change: Change, outcome: Outcome, a: Change,
                         gone: set<Node>)
    requires v in s.log
  {
    (change.file == a.file && outcome.record.purged ==> v in gone || Purged(a.file) in s.log[v] + [change])
    && (Settled(a, [change]) ==> outcome.forward || Past(s, a, gone, v))
    && (sender.Some? ==> sender.value in s.log && change in s.log[sender.value])
  }

  lemma TurnKeepsFollowed(g: Graph, s: Net, v: Node, sender: Option<Node>, change: Change, outcome: Outcome, a: Change,
                          gone: set<Node>)
    requires Followed(g, s, a, gone) && v in g.nodes && TurnOf(s, v, sender, change, outcome, a, gone)
    ensures Followed(g, Turn(s, v, sender, change, outcome), a, gone)
  {
    var next := Turn(s, v, sender, change, outcome);
    TurnKeepsShape(g, s, v, sender, change, outcome);
    forall l | l in g.links ensures FollowsOn(g, next, a, gone, l) {
      TurnKeepsFollows(g, s, v, sender, change, outcome, a, gone, l);
    }
    forall w | w in g.nodes && At(next, w, a.file).purged ensures w in gone || Purged(a.file) in next.log[w] {
      assert At(s, w, a.file).purged ==> w in gone || Purged(a.file) in s.log[w];
    }
  }

  lemma TurnKeepsFollows(g: Graph, s: Net, v: Node, sender: Option<Node>, change: Change, outcome: Outcome, a: Change,
                         gone: set<Node>, l: Link)
    requires Followed(g, s, a, gone) && v in g.nodes && TurnOf(s, v, sender, change, outcome, a, gone) && l in g.links
    requires Shaped(g, Turn(s, v, sender, change, outcome))
    ensures FollowsOn(g, Turn(s, v, sender, change, outcome), a, gone, l)
  {
    assert FollowsOn(g, s, a, gone, l);
    var next := Turn(s, v, sender, change, outcome);
    PastAdvances(s, v, sender, change, outcome, a, gone, l.0);
    PastAdvances(s, v, sender, change, outcome, a, gone, l.1);
    SentOn(s, v, sender, change, outcome, l);
    var sent := outcome.forward && l.0 == v && sender != Some(l.1);
    if Past(next, a, gone, l.0) && !Past(s, a, gone, l.0) && !sent {
      assert sender == Some(l.1) && change in s.log[l.1];
    }
    FollowsAdvances(a, Past(s, a, gone, l.0), Past(s, a, gone, l.1), s.log[l.0], s.queue[l],
                    Past(next, a, gone, l.0), Past(next, a, gone, l.1), next.log[l.0], next.queue[l]);
  }

  /** Handling a change leaves past what was past, and makes past only what it settles. */
  lemma PastAdvances(s: Net, v: Node, sender: Option<Node>, change: Change, outcome: Outcome, a: Change,
                     gone: set<Node>, w: Node)
    requires v in s.store && v in s.log && w in s.log
    ensures var next := Turn(s, v, sender, change, outcome);
            (forall c <- s.log[w] :: c in next.log[w])
            && (Past(next, a, gone, w) <==> Past(s, a, gone, w) || (w == v && Settled(a, [change])))
  {
  }

  lemma SentOn(s: Net, v: Node, sender: Option<Node>, change: Change, outcome: Outcome, l: Link)
    requires v in s.store && v in s.log && l in s.queue
    ensures Turn(s, v, sender, change, outcome).queue[l]
         == if outcome.forward && l.0 == v && sender != Some(l.1) then s.queue[l] + [change] else s.queue[l]
  {
  }

  lemma FollowsAdvances(a: Change, near: bool, far: bool, nearLog: seq<Change>, queue: seq<Change>, near': bool,
                        far': bool, nearLog': seq<Change>, queue': seq<Change>)
    requires Follows(a, near, far, nearLog, queue) && (far ==> far')
    requires (forall c <- queue :: c in queue') && forall c <- nearLog :: c in nearLog'
    requires forall c <- queue' :: c in queue || c in nearLog'
    requires near' && !near ==> far' || Settled(a, queue')
    ensures Follows(a, near', far', nearLog', queue')
  {
  }

  lemma TurnKeepsOrdered(g: Graph, s: Net, v: Node, sender: Option<Node>, change: Change, outcome: Outcome, a: Change,
                         b: Change, gone: set<Node>)
    requires Ordered(g, s, a, b, gone) && v in g.nodes && TurnOf(s, v, sender, change, outcome, a, gone)
    requires change == b ==> Past(s, a, gone, v)
    ensures Ordered(g, Turn(s, v, sender, change, outcome), a, b, gone)
  {
    var next := Turn(s, v, sender, change, outcome);
    TurnKeepsFollowed(g, s, v, sender, change, outcome, a, gone);
    forall w | w in g.nodes ensures Behind(a, b, w in gone, next.log[w]) {
      assert Behind(a, b, w in gone, s.log[w]);
      if w == v { BehindAppends(a, b, w in gone, s.log[v], change); }
    }
    forall l | l in g.links ensures Behind(a, b, Past(next, a, gone, l.1), next.queue[l]) {
      assert FollowsOn(g, s, a, gone, l) && Behind(a, b, Past(s, a, gone, l.1), s.queue[l]);
      PastAdvances(s, v, sender, change, outcome, a, gone, l.1);
      SentOn(s, v, sender, change, outcome, l);
      if next.queue[l] != s.queue[l] { BehindAppends(a, b, Past(next, a, gone, l.1), s.queue[l], change); }
    }
  }

  lemma PopKeepsFollowed(g: Graph, s: Net, l: Link, a: Change, gone: set<Node>)
    requires Followed(g, s, a, gone) && l in g.links && s.queue[l] != [] && s.queue[l][0] in s.log[l.1]
    ensures Followed(g, Popped(s, l), a, gone)
  {
    var next := Popped(s, l);
    assert s.queue[l] == [s.queue[l][0]] + s.queue[l][1..];
    forall k | k in g.links ensures FollowsOn(g, next, a, gone, k) {
      assert FollowsOn(g, s, a, gone, k);
    }
    assert forall v <- g.nodes :: At(next, v, a.file) == At(s, v, a.file);
  }

  lemma PopKeepsOrdered(g: Graph, s: Net, l: Link, a: Change, b: Change, gone: set<Node>)
    requires Ordered(g, s, a, b, gone) && l in g.links && s.queue[l] != [] && s.queue[l][0] in s.log[l.1]
    ensures Ordered(g, Popped(s, l), a, b, gone)
  {
    var next := Popped(s, l);
    PopKeepsFollowed(g, s, l, a, gone);
    forall k | k in g.links ensures Behind(a, b, Past(next, a, gone, k.1), next.queue[k]) {
      assert Behind(a, b, Past(s, a, gone, k.1), s.queue[k]);
      if k == l { BehindPops(a, b, Past(s, a, gone, k.1), s.queue[k]); }
    }
    assert forall v <- g.nodes :: Behind(a, b, v in gone, s.log[v]);
  }

  lemma TakenIsTurn(g: Graph, s: Net, v: Node, sender: Option<Node>, change: Change, a: Change, gone: set<Node>)
    requires Followed(g, s, a, gone) && v in g.nodes && a.AlwaysForwarded()
    requires sender.Some? ==> sender.value in g.nodes && change in s.log[sender.value]
    ensures TurnOf(s, v, sender, change, Taken(s, v, sender, change), a, gone)
  {
    TakenIs(s, v, sender, change);
    assert At(s, v, a.file).purged ==> v in gone || Purged(a.file) in s.log[v];
  }

  /** Every step keeps, on every link: past the near end only if past the far end or in flight to it. */
  lemma DoKeepsFollowed(g: Graph, s: Net, action: Action, a: Change, gone: set<Node>)
    requires Followed(g, s, a, gone) && a.AlwaysForwarded()
    ensures Followed(g, Do(g, s, action), a, gone)
  {
    if Enabled(g, s, action) {
      match action
      case Originate(v, change) =>
        TakenIsTurn(g, s, v, None, change, a, gone);
        TurnKeepsFollowed(g, s, v, None, change, Taken(s, v, None, change), a, gone);
      case Deliver(u, v) =>
        var l, head := (u, v), s.queue[(u, v)][0];
        assert FollowsOn(g, s, a, gone, l) && head in s.queue[l];
        var outcome := Taken(s, v, Some(u), head);
        TakenIsTurn(g, s, v, Some(u), head, a, gone);
        TurnKeepsFollowed(g, s, v, Some(u), head, outcome, a, gone);
        PopCommutes(g, s, l, outcome);
        PopKeepsFollowed(g, Turn(s, v, Some(u), head, outcome), l, a, gone);
    }
  }

  lemma DoKeepsOrdered(g: Graph, s: Net, action: Action, a: Change, b: Change, gone: set<Node>)
    requires Ordered(g, s, a, b, gone) && a.AlwaysForwarded() && !b.Purged?
    requires action.Originate? && Enabled(g, s, action) && action.change == b ==> Past(s, a, gone, action.at)
    ensures Ordered(g, Do(g, s, action), a, b, gone)
  {
    if Enabled(g, s, action) {
      match action
      case Originate(v, change) =>
        TakenIsTurn(g, s, v, None, change, a, gone);
        TurnKeepsOrdered(g, s, v, None, change, Taken(s, v, None, change), a, b, gone);
      case Deliver(u, v) =>
        var l, head := (u, v), s.queue[(u, v)][0];
        assert FollowsOn(g, s, a, gone, l) && head in s.queue[l];
        assert Behind(a, b, Past(s, a, gone, l.1), s.queue[l]) && s.queue[l][..0] == [];
        var outcome := Taken(s, v, Some(u), head);
        TakenIsTurn(g, s, v, Some(u), head, a, gone);
        TurnKeepsOrdered(g, s, v, Some(u), head, outcome, a, b, gone);
        PopCommutes(g, s, l, outcome);
        PopKeepsOrdered(g, Turn(s, v, Some(u), head, outcome), l, a, b, gone);
    }
  }

  lemma DoKeepsSeen(g: Graph, s: Net, action: Action, c: Change)
    requires Shaped(g, s) && Seen(s, c)
    ensures Seen(Do(g, s, action), c)
  {
    var v :| v in s.log && c in s.log[v];
    assert c in Do(g, s, action).log[v];
  }

  ghost function PurgedAt(g: Graph, s: Net, file: FileId): set<Node>
    requires Shaped(g, s)
  {
    set v | v in g.nodes && At(s, v, file).purged
  }

  /** Nothing has been handled or sent, and neighbours agree on the purge, as they do after a manifest exchange. */
  ghost predicate Start(g: Graph, s: Net, file: FileId) {
    WellFormed(g) && Fresh(g, s) && forall l <- g.links :: At(s, l.0, file).purged ==> At(s, l.1, file).purged
  }

  lemma {:induction false} RunFollowed(g: Graph, s: Net, actions: seq<Action>, a: Change)
    requires Start(g, s, a.file) && a.AlwaysForwarded()
    ensures Followed(g, RunNet(g, s, actions), a, PurgedAt(g, s, a.file))
    decreases |actions|
  {
    if actions != [] {
      var n := |actions| - 1;
      RunFollowed(g, s, actions[..n], a);
      DoKeepsFollowed(g, RunNet(g, s, actions[..n]), actions[n], a, PurgedAt(g, s, a.file));
    }
  }

  lemma {:induction false} RunOrdered(g: Graph, s: Net, actions: seq<Action>, a: Change, b: Change, gone: set<Node>)
    requires Ordered(g, s, a, b, gone) && Seen(s, b) && a.AlwaysForwarded() && !b.Purged?
    ensures Ordered(g, RunNet(g, s, actions), a, b, gone) && Seen(RunNet(g, s, actions), b)
    decreases |actions|
  {
    if actions != [] {
      var n := |actions| - 1;
      RunOrdered(g, s, actions[..n], a, b, gone);
      DoKeepsOrdered(g, RunNet(g, s, actions[..n]), actions[n], a, b, gone);
      DoKeepsSeen(g, RunNet(g, s, actions[..n]), actions[n], b);
    }
  }

  /** Nothing queued is new to the network, so a change nobody handled is nowhere. */
  lemma UnseenIsOrdered(g: Graph, s: Net, a: Change, b: Change, gone: set<Node>)
    requires Followed(g, s, a, gone) && !Seen(s, b)
    ensures Ordered(g, s, a, b, gone)
  {
    forall l | l in g.links ensures Behind(a, b, Past(s, a, gone, l.1), s.queue[l]) {
      assert FollowsOn(g, s, a, gone, l);
      assert b !in s.queue[l];
    }
  }

  lemma OriginationIsOrdered(g: Graph, s: Net, origin: Node, a: Change, b: Change, gone: set<Node>)
    requires Followed(g, s, a, gone) && a.AlwaysForwarded() && !b.Purged?
    requires Enabled(g, s, Originate(origin, b)) && a in s.log[origin]
    ensures var next := Do(g, s, Originate(origin, b)); Ordered(g, next, a, b, gone) && Seen(next, b)
  {
    UnseenIsOrdered(g, s, a, b, gone);
    DoKeepsOrdered(g, s, Originate(origin, b), a, b, gone);
    assert b in Do(g, s, Originate(origin, b)).log[origin];
  }

  /**
   Take any run in which a node makes `b` after handling the always-forwarded `a`, and let it go on in
   any way: wherever `b` is handled, `a` has been handled before it, or a purge of its file has, or the
   file was purged there from the start. `b` may be of any kind but a purge, and may itself be pruned.
   */
  lemma CausalDelivery(g: Graph, s: Net, before: seq<Action>, origin: Node, after: seq<Action>, a: Change, b: Change,
                       v: Node, j: nat)
    requires Start(g, s, a.file) && a.AlwaysForwarded() && !b.Purged?
    requires var mid := RunNet(g, s, before); Enabled(g, mid, Originate(origin, b)) && a in mid.log[origin]
    requires var log := RunNet(g, Do(g, RunNet(g, s, before), Originate(origin, b)), after).log;
             v in log && j < |log[v]| && log[v][j] == b
    ensures v in s.store
    ensures var log := RunNet(g, Do(g, RunNet(g, s, before), Originate(origin, b)), after).log[v];
            a in log[..j] || Purged(a.file) in log[..j] || At(s, v, a.file).purged
  {
    var gone := PurgedAt(g, s, a.file);
    RunFollowed(g, s, before, a);
    OriginationIsOrdered(g, RunNet(g, s, before), origin, a, b, gone);
    var next := Do(g, RunNet(g, s, before), Originate(origin, b));
    RunOrdered(g, next, after, a, b, gone);
    assert Behind(a, b, v in gone, RunNet(g, next, after).log[v]);
  }

  // ---- once nothing is in flight ----

  lemma {:induction false} WalkSettles(g: Graph, s: Net, a: Change, gone: set<Node>, p: seq<Node>)
    requires Followed(g, s, a, gone) && Walk(g, p) && Past(s, a, gone, p[0])
    requires forall l <- g.links :: !Settled(a, s.queue[l])
    ensures Past(s, a, gone, p[|p| - 1])
    decreases |p|
  {
    if |p| > 1 {
      var l := (p[|p| - 2], p[|p| - 1]);
      WalkSettles(g, s, a, gone, p[..|p| - 1]);
      assert l in g.links && FollowsOn(g, s, a, gone, l);
    }
  }

  /**
   On any connected graph, once an always-forwarded change and purges of its file are off the links,
   either nobody has handled any of them or every node has, unless the file was purged there from the start.
   */
  lemma ReachesOrPurged(g: Graph, s: Net, actions: seq<Action>, a: Change, u: Node, v: Node)
    requires Start(g, s, a.file) && a.AlwaysForwarded() && Connected(g) && u in g.nodes && v in g.nodes
    requires forall l <- g.links :: !Settled(a, RunNet(g, s, actions).queue[l])
    requires Settled(a, RunNet(g, s, actions).log[u])
    ensures Settled(a, RunNet(g, s, actions).log[v]) || At(s, v, a.file).purged
  {
    RunFollowed(g, s, actions, a);
    assert Linked(g, u, v);
    var p :| Joins(g, p, u, v);
    WalkSettles(g, RunNet(g, s, actions), a, PurgedAt(g, s, a.file), p);
  }

  // ---- a purge gets ahead ----

  /** Three nodes in a line, connected both ways. */
  const LINE: Graph := Graph({0, 1, 2}, {(0, 1), (1, 0), (1, 2), (2, 1)})

  const NOTHING_YET: map<Link, seq<Change>> := map[(0, 1) := [], (1, 0) := [], (1, 2) := [], (2, 1) := []]

  /** Catalogs that know nothing yet. */
  const BLANK: Net := Net(map[0 := map[], 1 := map[], 2 := map[]], NOTHING_YET, map[0 := [], 1 := [], 2 := []],
                          NOTHING_YET)

  /** In flight on the way from 0 to 2, what 2 has handled, and who has purged what. */
  predicate Sees(s: Net, first: seq<Change>, second: seq<Change>, last: seq<Change>, purged: bool) {
    1 in s.store && 2 in s.log && (0, 1) in s.queue && (1, 2) in s.queue
    && s.queue[(0, 1)] == first && s.queue[(1, 2)] == second && s.log[2] == last
    && At(s, 1, 7).purged == purged && !At(s, 1, 8).purged
  }

  lemma TagTurn(s: Net, v: Node, sender: Option<Node>, file: FileId, tag: TagId, at: Stamp)
    requires v in s.store && v in s.log
    ensures Taken(s, v, sender, Tagged(file, tag, at)).forward <==> !At(s, v, file).purged
    ensures At(HandleAt(s, v, sender, Tagged(file, tag, at)), v, file).purged == At(s, v, file).purged
  {
  }

  /** Node 0 tags a file it has not purged. */
  lemma Tags(s: Net, first: seq<Change>, second: seq<Change>, purged: bool, file: FileId, at: Stamp)
    requires Shaped(LINE, s) && Sees(s, first, second, [], purged) && !Seen(s, Tagged(file, 1, at))
    requires !At(s, 0, file).purged
    ensures var next := Do(LINE, s, Originate(0, Tagged(file, 1, at)));
            Enabled(LINE, s, Originate(0, Tagged(file, 1, at)))
            && Sees(next, first + [Tagged(file, 1, at)], second, [], purged)
            && next.log == s.log[0 := s.log[0] + [Tagged(file, 1, at)]]
            && forall other :: At(next, 0, other).purged == At(s, 0, other).purged
  {
    TagTurn(s, 0, None, file, 1, at);
    SentOn(s, 0, None, Tagged(file, 1, at), Taken(s, 0, None, Tagged(file, 1, at)), (0, 1));
    SentOn(s, 0, None, Tagged(file, 1, at), Taken(s, 0, None, Tagged(file, 1, at)), (1, 2));
  }

  /** Node 1 handles a tag edit and forwards it unless it has purged the file. */
  lemma Passes(s: Net, first: seq<Change>, second: seq<Change>, file: FileId, at: Stamp)
    requires Shaped(LINE, s) && Sees(s, [Tagged(file, 1, at)] + first, second, [], true) && (file == 7 || file == 8)
    ensures Sees(Do(LINE, s, Deliver(0, 1)), first, if file == 7 then second else second + [Tagged(file, 1, at)], [],
                 true)
  {
    var change, popped := Tagged(file, 1, at), Popped(s, (0, 1));
    assert s.queue[(0, 1)][0] == change && popped.queue[(0, 1)] == first;
    TagTurn(popped, 1, Some(0), file, 1, at);
    SentOn(popped, 1, Some(0), change, Taken(popped, 1, Some(0), change), (0, 1));
    SentOn(popped, 1, Some(0), change, Taken(popped, 1, Some(0), change), (1, 2));
  }

  lemma Arrives(s: Net, change: Change, second: seq<Change>, last: seq<Change>)
    requires Shaped(LINE, s) && Sees(s, [], [change] + second, last, true)
    ensures Sees(Do(LINE, s, Deliver(1, 2)), [], second, last + [change], true)
  {
    var popped := Popped(s, (1, 2));
    assert s.queue[(1, 2)][0] == change && popped.queue[(1, 2)] == second;
    SentOn(popped, 2, Some(1), change, Taken(popped, 2, Some(1), change), (0, 1));
    SentOn(popped, 2, Some(1), change, Taken(popped, 2, Some(1), change), (1, 2));
  }

  /** Both changes of node 0 to node 1, and what that forwards to node 2. */
  ghost function Along(s: Net): (final: Net)
    requires Shaped(LINE, s)
    ensures Shaped(LINE, final)
  {
    Do(LINE, Do(LINE, Do(LINE, Do(LINE, s, Deliver(0, 1)), Deliver(0, 1)), Deliver(1, 2)), Deliver(1, 2))
  }

  /**
   Node 1 purges a file; node 0, which has not heard, tags it and then another. Node 1 drops the first tag
   edit and forwards the second, so node 2 handles the later change without ever seeing the earlier one.
   */
  lemma PurgeGetsAhead()
    ensures var a, b := Tagged(7, 1, 5), Tagged(8, 1, 9);
            var mid := Do(LINE, Do(LINE, BLANK, Originate(1, Purged(7))), Originate(0, a));
            Start(LINE, BLANK, 7) && Enabled(LINE, mid, Originate(0, b)) && a in mid.log[0]
            && Along(Do(LINE, mid, Originate(0, b))).log[2] == [Purged(7), b]
  {
    BlankStarts();
    PurgeIsMade();
    var made := Do(LINE, BLANK, Originate(1, Purged(7)));
    TwoTags(made);
    AlongIs(Do(LINE, Do(LINE, made, Originate(0, Tagged(7, 1, 5))), Originate(0, Tagged(8, 1, 9))),
            Purged(7), Tagged(7, 1, 5), Tagged(8, 1, 9));
  }

  lemma BlankStarts()
    ensures Start(LINE, BLANK, 7)
  {
  }

  lemma TwoTags(s: Net)
    requires Shaped(LINE, s) && Sees(s, [], [Purged(7)], [], true) && s.log == map[0 := [], 1 := [Purged(7)], 2 := []]
    requires !At(s, 0, 7).purged && !At(s, 0, 8).purged
    ensures var a, b := Tagged(7, 1, 5), Tagged(8, 1, 9);
            var mid := Do(LINE, s, Originate(0, a));
            Enabled(LINE, mid, Originate(0, b)) && a in mid.log[0]
            && Sees(Do(LINE, mid, Originate(0, b)), [a, b], [Purged(7)], [], true)
  {
    var a, b := Tagged(7, 1, 5), Tagged(8, 1, 9);
    Tags(s, [], [Purged(7)], true, 7, 5);
    assert [] + [a] == [a] && [a] + [b] == [a, b];
    Tags(Do(LINE, s, Originate(0, a)), [a], [Purged(7)], true, 8, 9);
  }

  lemma PurgeIsMade()
    ensures var next := Do(LINE, BLANK, Originate(1, Purged(7)));
            Sees(next, [], [Purged(7)], [], true)
            && next.log == map[0 := [], 1 := [Purged(7)], 2 := []]
            && !At(next, 0, 7).purged && !At(next, 0, 8).purged
  {
    SentOn(BLANK, 1, None, Purged(7), Taken(BLANK, 1, None, Purged(7)), (0, 1));
    SentOn(BLANK, 1, None, Purged(7), Taken(BLANK, 1, None, Purged(7)), (1, 2));
  }

  lemma AlongIs(s: Net, p: Change, a: Change, b: Change)
    requires Shaped(LINE, s) && a == Tagged(7, 1, 5) && b == Tagged(8, 1, 9)
    requires Sees(s, [a, b], [p], [], true)
    ensures Along(s).log[2] == [p, b]
  {
    assert [a, b] == [a] + [b] && [b] == [b] + [] && [p] + [b] == [p, b] && [p] == [] + [p];
    Passes(s, [b], [p], 7, 5);
    var s1 := Do(LINE, s, Deliver(0, 1));
    Passes(s1, [], [p], 8, 9);
    var s2 := Do(LINE, s1, Deliver(0, 1));
    Arrives(s2, p, [b], []);
    Arrives(Do(LINE, s2, Deliver(1, 2)), b, [], [p]);
  }
}
