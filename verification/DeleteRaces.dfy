/** A run of three nodes in which several deletes of one file leave it dead at one and live at the others. */
module DeleteRaces {
  import opened Types
  import opened Catalog
  import opened Network
  import opened Reconciliation
  import opened Causality

  /** The file at three nodes in a line, and its changes in flight between them. */
  datatype Line = Line(
    a: Record, b: Record, c: Record, ab: seq<Change>, ba: seq<Change>, bc: seq<Change>, cb: seq<Change>)

  ghost predicate Shows(g: Graph, s: Net, file: FileId, x: Line) {
    Shaped(g, s) && 0 in s.store && 1 in s.store && 2 in s.store
    && (0, 1) in s.queue && (1, 0) in s.queue && (1, 2) in s.queue && (2, 1) in s.queue
    && Network.At(s, 0, file) == x.a && Network.At(s, 1, file) == x.b && Network.At(s, 2, file) == x.c
    && s.queue[(0, 1)] == x.ab && s.queue[(1, 0)] == x.ba && s.queue[(1, 2)] == x.bc && s.queue[(2, 1)] == x.cb
  }

  function Copy(outcome: Outcome, change: Change): seq<Change> { if outcome.forward then [change] else [] }

  /** What the line shows after the change is taken at a node. */
  function Takes(x: Line, v: Node, sender: Option<Node>, change: Change): Line {
    var r := if v == 0 then x.a else if v == 1 then x.b else x.c;
    var outcome := if sender.None? then Made(r, change) else Handle(r, change);
    var copy := Copy(outcome, change);
    if v == 0 then x.(a := outcome.record, ab := if sender == Some(1) then x.ab else x.ab + copy)
    else if v == 1 then
      x.(b := outcome.record, ba := if sender == Some(0) then x.ba else x.ba + copy,
         bc := if sender == Some(2) then x.bc else x.bc + copy)
    else x.(c := outcome.record, cb := if sender == Some(1) then x.cb else x.cb + copy)
  }

  lemma TakesShows(g: Graph, s: Net, file: FileId, x: Line, v: Node, sender: Option<Node>, change: Change)
    requires Shows(g, s, file, x) && 0 <= v <= 2 && v in g.nodes && change.file == file
    ensures Shows(g, HandleAt(s, v, sender, change), file, Takes(x, v, sender, change))
  {
    var outcome := Taken(s, v, sender, change);
    TurnKeepsShape(g, s, v, sender, change, outcome);
    SentOn(s, v, sender, change, outcome, (0, 1));
    SentOn(s, v, sender, change, outcome, (1, 0));
    SentOn(s, v, sender, change, outcome, (1, 2));
    SentOn(s, v, sender, change, outcome, (2, 1));
  }

  /** The head of a link, taken at its far end. */
  function Crosses(x: Line, u: Node, v: Node): Line {
    if On(x, u, v) == [] then x else Takes(Pops(x, u, v), v, Some(u), On(x, u, v)[0])
  }

  function On(x: Line, u: Node, v: Node): seq<Change> {
    if u == 0 then x.ab else if u == 2 then x.cb else if v == 0 then x.ba else x.bc
  }

  function Pops(x: Line, u: Node, v: Node): Line
    requires On(x, u, v) != []
  {
    var rest := On(x, u, v)[1..];
    if u == 0 then x.(ab := rest)
    else if u == 2 then x.(cb := rest)
    else if v == 0 then x.(ba := rest)
    else x.(bc := rest)
  }

  predicate Adjacent(u: Node, v: Node) { (u == 1 && (v == 0 || v == 2)) || (v == 1 && (u == 0 || u == 2)) }

  lemma PoppedShows(g: Graph, s: Net, file: FileId, x: Line, u: Node, v: Node)
    requires Shows(g, s, file, x) && Adjacent(u, v) && On(x, u, v) != []
    ensures (u, v) in s.queue && s.queue[(u, v)] == On(x, u, v) && Shows(g, Popped(s, (u, v)), file, Pops(x, u, v))
  {
  }

  /** The head of a link takes the line from one state to another. */
  predicate Goes(file: FileId, x: Line, u: Node, v: Node, y: Line) {
    Adjacent(u, v) && On(x, u, v) != [] && On(x, u, v)[0].file == file && y == Crosses(x, u, v)
  }

  /** A delivery along the line. */
  lemma CrossesShows(g: Graph, s: Net, file: FileId, x: Line, u: Node, v: Node, y: Line)
    requires Shows(g, s, file, x) && Goes(file, x, u, v, y)
    ensures Shows(g, Do(g, s, Deliver(u, v)), file, y)
  {
    PoppedShows(g, s, file, x, u, v);
    TakesShows(g, Popped(s, (u, v)), file, Pops(x, u, v), v, Some(u), On(x, u, v)[0]);
  }

  /** A change made on the line takes it from one state to another. */
  predicate Becomes(file: FileId, x: Line, v: Node, change: Change, y: Line) {
    0 <= v <= 2 && change.file == file && y == Takes(x, v, None, change)
    && (change.Deleted?
        || (change.Changed? && v == 2 && x.c.row.Some? && !x.c.purged && x.c.Supersedes(change.observedAt)))
  }

  lemma MakesShows(g: Graph, s: Net, file: FileId, x: Line, v: Node, change: Change, y: Line)
    requires Shows(g, s, file, x) && Becomes(file, x, v, change, y) && !Seen(s, change)
    ensures Shows(g, Do(g, s, Originate(v, change)), file, y)
    ensures forall c :: Seen(Do(g, s, Originate(v, change)), c) ==> Seen(s, c) || c == change
  {
    TakesShows(g, s, file, x, v, None, change);
    forall c {
      TurnSees(s, v, None, change, Taken(s, v, None, change), c);
    }
  }

  /** A file known everywhere, and three changes of it. */
  const KNOWN: Record := Record(Some(Row("p", 1, false, 0, 0)), [Version("f", 1, 1)], map[], false)

  const SETTLED: Net := BLANK.(store := map[0 := map[7 := KNOWN], 1 := map[7 := KNOWN], 2 := map[7 := KNOWN]])

  const EARLY: Change := Deleted(7, 2)
  const LATE: Change := Deleted(7, 4)
  const EDIT: Change := Changed(7, "g", 1, 3)

  ghost function MakeAll(g: Graph, s: Net): (final: Net)
    requires Shaped(g, s)
    ensures Shaped(g, final)
  {
    Do(g, Do(g, Do(g, s, Originate(1, EARLY)), Originate(0, LATE)), Originate(2, EDIT))
  }

  ghost function Crossed(g: Graph, s: Net): (final: Net)
    requires Shaped(g, s)
    ensures Shaped(g, final)
  {
    Do(g, Do(g, Do(g, Do(g, Do(g, s, Deliver(0, 1)), Deliver(2, 1)), Deliver(1, 0)), Deliver(1, 0)), Deliver(1, 2))
  }

  /**
   The middle of a line deletes first, one end deletes later, the other end edits in between. The middle drops
   the later delete, being dead, and is revived by the edit: with nothing in flight the one end is dead and the
   others are live.
   */
  lemma DeletesNeedReconciling()
    ensures Fresh(LINE, SETTLED)
    ensures var final := Crossed(LINE, MakeAll(LINE, SETTLED));
            Quiescent(LINE, final)
            && Network.At(final, 0, 7).Tombstoned() && Network.At(final, 1, 7).Live() && Network.At(final, 2, 7).Live()
  {
    SettledShows();
    Dissent(LINE, SETTLED);
    ShowsQuiet(Crossed(LINE, MakeAll(LINE, SETTLED)), L8);
  }

  lemma Dissent(g: Graph, s: Net)
    requires Shows(g, s, 7, L0) && forall c :: !Seen(s, c)
    ensures var final := Crossed(g, MakeAll(g, s));
            Shows(g, final, 7, L8)
            && Network.At(final, 0, 7).Tombstoned() && Network.At(final, 1, 7).Live() && Network.At(final, 2, 7).Live()
  {
    MadeShows(g, s);
    CrossedShows(g, MakeAll(g, s));
    EndsApart();
  }

  lemma EndsApart()
    ensures L8.a.Tombstoned() && L8.b.Live() && L8.c.Live()
  {
  }

  lemma SettledShows()
    ensures Fresh(LINE, SETTLED) && Shows(LINE, SETTLED, 7, Line(KNOWN, KNOWN, KNOWN, [], [], [], []))
    ensures forall c :: !Seen(SETTLED, c)
  {
  }

  lemma ShowsQuiet(s: Net, x: Line)
    requires Shows(LINE, s, 7, x) && x.ab == x.ba == x.bc == x.cb == []
    ensures Shaped(LINE, s) && Quiescent(LINE, s)
  {
  }

  /** The states of the run, one after another. */
  const EDITED: Version := Version("g", 1, 3)
  const L0: Line := Line(KNOWN, KNOWN, KNOWN, [], [], [], [])
  const L1: Line := L0.(b := KNOWN.RemoveFile(2), ba := [EARLY], bc := [EARLY])
  const L2: Line := L1.(a := KNOWN.RemoveFile(4), ab := [LATE])
  const L3: Line := L2.(c := KNOWN.Accept(EDITED), cb := [EDIT])
  const L4: Line := L3.(ab := [])
  const L5: Line := L4.(b := KNOWN.RemoveFile(2).Accept(EDITED), cb := [], ba := [EARLY, EDIT])
  const L6: Line := L5.(ba := [EDIT])
  const L7: Line := L6.(ba := [], a := KNOWN.RemoveFile(4).Accept(EDITED))
  const L8: Line := L7.(bc := [])

  lemma MadeFollow()
    ensures Becomes(7, L0, 1, EARLY, L1) && Becomes(7, L1, 0, LATE, L2) && Becomes(7, L2, 2, EDIT, L3)
  {
  }

  lemma FirstFollow()
    ensures Goes(7, L3, 0, 1, L4)
  {
  }

  lemma EditFollows()
    ensures Goes(7, L4, 2, 1, L5)
  {
    assert L4.b == KNOWN.RemoveFile(2) && On(L4, 2, 1) == [EDIT];
    var outcome := Handle(KNOWN.RemoveFile(2), EDIT);
    assert outcome.forward && outcome.record == KNOWN.RemoveFile(2).Accept(EDITED);
    assert [EARLY] + [EDIT] == [EARLY, EDIT];
  }

  lemma RestFollow()
    ensures Goes(7, L5, 1, 0, L6)
  {
    assert On(L5, 1, 0) == [EARLY, EDIT];
  }

  lemma LastFollow()
    ensures Goes(7, L6, 1, 0, L7) && Goes(7, L7, 1, 2, L8)
  {
    assert On(L6, 1, 0) == [EDIT] && On(L7, 1, 2) == [EARLY];
    assert Handle(KNOWN.RemoveFile(4), EDIT).record == KNOWN.RemoveFile(4).Accept(EDITED);
  }

  lemma MadeShows(g: Graph, s: Net)
    requires Shows(g, s, 7, L0) && forall c :: !Seen(s, c)
    ensures Shows(g, MakeAll(g, s), 7, L3)
  {
    MadeFollow();
    TwoMake(g, s, L0, 1, EARLY, L1, 0, LATE, L2);
    MakesShows(g, Do(g, Do(g, s, Originate(1, EARLY)), Originate(0, LATE)), 7, L2, 2, EDIT, L3);
  }

  lemma TwoMake(g: Graph, s: Net, x: Line, u: Node, a: Change, y: Line, v: Node, b: Change, last: Line)
    requires Shows(g, s, 7, x) && Becomes(7, x, u, a, y) && Becomes(7, y, v, b, last) && a != b
    requires forall c :: !Seen(s, c)
    ensures var next := Do(g, Do(g, s, Originate(u, a)), Originate(v, b));
            Shows(g, next, 7, last) && forall c :: Seen(next, c) ==> c == a || c == b
  {
    MakesShows(g, s, 7, x, u, a, y);
    MakesShows(g, Do(g, s, Originate(u, a)), 7, y, v, b, last);
  }

  lemma TwoCross(g: Graph, s: Net, x: Line, u: Node, v: Node, y: Line, w: Node, z: Node, last: Line)
    requires Shows(g, s, 7, x) && Goes(7, x, u, v, y) && Goes(7, y, w, z, last)
    ensures Shows(g, Do(g, Do(g, s, Deliver(u, v)), Deliver(w, z)), 7, last)
  {
    CrossesShows(g, s, 7, x, u, v, y);
    CrossesShows(g, Do(g, s, Deliver(u, v)), 7, y, w, z, last);
  }

  lemma CrossedShows(g: Graph, s: Net)
    requires Shows(g, s, 7, L3)
    ensures Shows(g, Crossed(g, s), 7, L8)
  {
    FirstFollow();
    EditFollows();
    TwoCross(g, s, L3, 0, 1, L4, 2, 1, L5);
    var s5 := Do(g, Do(g, s, Deliver(0, 1)), Deliver(2, 1));
    RestFollow();
    CrossesShows(g, s5, 7, L5, 1, 0, L6);
    LastFollow();
    TwoCross(g, Do(g, s5, Deliver(1, 0)), L6, 1, 0, L7, 1, 2, L8);
  }
}
