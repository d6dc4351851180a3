/**
 The stamp clock: threads race to advance one atomic word with compare-and-swap. Every load and every
 exchange is a step of its own, exchanges may fail for no reason, and the wall clock may run backwards.
 */
module Clock {
  import opened Types

  /** Where a call is: not started, its wall reading taken, or about to exchange from what it last saw. */
  datatype Thread = Idle | Called(wall: nat) | Trying(wall: nat, seen: int, after: nat)

  datatype Grant = Grant(wall: nat, stamp: int)

  /** `granted` is every stamp handed out, in the order of the successful exchanges; `walls` every reading taken. */
  datatype State = State(last: int, threads: map<int, Thread>, granted: seq<Grant>, walls: seq<nat>)

  datatype Action = Call(thread: int, wall: nat) | Load(thread: int) | Exchange(thread: int, spurious: bool)

  function ThreadOf(s: State, thread: int): Thread { if thread in s.threads then s.threads[thread] else Idle }

  /** An action that does not fit where its thread is does nothing. */
  function Step(s: State, action: Action): State {
    var t := ThreadOf(s, action.thread);
    match action
    case Call(thread, wall) =>
      if t.Idle? then s.(threads := s.threads[thread := Called(wall)], walls := s.walls + [wall]) else s
    case Load(thread) =>
      if t.Called? then s.(threads := s.threads[thread := Trying(t.wall, s.last, |s.granted|)]) else s
    case Exchange(thread, spurious) =>
      if !t.Trying? then s
      else if s.last == t.seen && !spurious then
        var next := Max(t.wall, t.seen + 1);
        State(next, s.threads[thread := Idle], s.granted + [Grant(t.wall, next)], s.walls)
      else s.(threads := s.threads[thread := Trying(t.wall, s.last, |s.granted|)])
  }

  const START: State := State(0, map[], [], [])

  function Run(actions: seq<Action>): State
    decreases |actions|
  {
    if actions == [] then START else Step(Run(actions[..|actions| - 1]), actions[|actions| - 1])
  }

  /** The greatest wall reading so far, 0 before any. */
  function Greatest(walls: seq<nat>): (greatest: nat)
    ensures forall wall <- walls :: wall <= greatest
    ensures greatest == 0 || greatest in walls
    decreases |walls|
  {
    if walls == [] then 0 else
    var n := |walls| - 1;
    assert walls == walls[..n] + [walls[n]];
    Max(Greatest(walls[..n]), walls[n])
  }

  /** Stamps strictly increase, each at least its caller's reading, and `last` is the last of them. */
  ghost predicate Rising(granted: seq<Grant>, last: int) {
    last == (if granted == [] then 0 else granted[|granted| - 1].stamp)
    && (forall i :: 0 <= i < |granted| ==> granted[i].wall <= granted[i].stamp <= last)
    && forall i, j :: 0 <= i < j < |granted| ==> granted[i].stamp < granted[j].stamp
  }

  ghost predicate Inv(s: State) {
    Rising(s.granted, s.last) && s.last <= Greatest(s.walls) + |s.granted|
    && forall thread <- s.threads :: ThreadInv(s, s.threads[thread])
  }

  /** The word only moves by handing out a stamp, and never comes back to a value it had. */
  predicate ThreadInv(s: State, t: Thread) {
    (t.Called? || t.Trying? ==> t.wall <= Greatest(s.walls))
    && (t.Trying? ==> t.after <= |s.granted| && t.seen <= s.last && (t.seen == s.last <==> t.after == |s.granted|))
  }

  lemma GreatestGrows(walls: seq<nat>, wall: nat)
    ensures Greatest(walls + [wall]) == Max(Greatest(walls), wall)
  {
    assert (walls + [wall])[..|walls|] == walls;
  }

  lemma GrantRises(granted: seq<Grant>, last: int, wall: nat)
    requires Rising(granted, last)
    ensures var next := Max(wall, last + 1); Rising(granted + [Grant(wall, next)], next)
  {
  }

  /** Nothing another thread does breaks what a thread relies on. */
  lemma StepKeepsThread(s: State, action: Action, t: Thread)
    requires ThreadInv(s, t) && ThreadInv(s, ThreadOf(s, action.thread))
    ensures ThreadInv(Step(s, action), t)
  {
    if action.Call? { GreatestGrows(s.walls, action.wall); }
  }

  lemma StepKeepsStamps(s: State, action: Action)
    requires Inv(s)
    ensures var next := Step(s, action);
            Rising(next.granted, next.last) && next.last <= Greatest(next.walls) + |next.granted|
  {
    var next := Step(s, action);
    if action.Call? { GreatestGrows(s.walls, action.wall); }
    if action.Exchange? && next.granted != s.granted {
      assert ThreadInv(s, s.threads[action.thread]);
      GrantRises(s.granted, s.last, s.threads[action.thread].wall);
    }
  }

  lemma StepKeepsInv(s: State, action: Action)
    requires Inv(s)
    ensures Inv(Step(s, action))
  {
    var next := Step(s, action);
    StepKeepsStamps(s, action);
    forall thread | thread in next.threads ensures ThreadInv(next, next.threads[thread]) {
      OwnStepKeepsThread(s, action);
      if thread != action.thread { StepKeepsThread(s, action, s.threads[thread]); }
    }
  }

  /** The thread that moves is left in order by its own step. */
  lemma OwnStepKeepsThread(s: State, action: Action)
    requires Inv(s)
    ensures ThreadInv(s, ThreadOf(s, action.thread))
    ensures ThreadInv(Step(s, action), ThreadOf(Step(s, action), action.thread))
  {
    if action.thread in s.threads { assert ThreadInv(s, s.threads[action.thread]); }
    if action.Call? { GreatestGrows(s.walls, action.wall); }
  }

  lemma {:induction false} RunKeepsInv(actions: seq<Action>)
    ensures Inv(Run(actions))
    decreases |actions|
  {
    if actions != [] {
      RunKeepsInv(actions[..|actions| - 1]);
      StepKeepsInv(Run(actions[..|actions| - 1]), actions[|actions| - 1]);
    }
  }

  /**
   For any threads, interleaving, failures and wall clock: stamps strictly increase in the order of the
   successful exchanges, each is at least its caller's reading, and none runs ahead of the greatest
   reading so far by more than the number of stamps handed out.
   */
  lemma StampsIncrease(actions: seq<Action>)
    ensures var s := Run(actions);
            (forall i, j :: 0 <= i < j < |s.granted| ==> s.granted[i].stamp < s.granted[j].stamp)
            && (forall i :: 0 <= i < |s.granted| ==> s.granted[i].wall <= s.granted[i].stamp)
            && (forall i :: 0 <= i < |s.granted| ==> s.granted[i].stamp <= Greatest(s.walls) + |s.granted|)
  {
    RunKeepsInv(actions);
  }

  /** Lock freedom: an exchange fails only spuriously or because another call got its stamp since this one looked. */
  lemma FailureMeansProgress(actions: seq<Action>, thread: int)
    requires var t := ThreadOf(Run(actions), thread); t.Trying?
    ensures var s := Run(actions);
            var t := ThreadOf(s, thread);
            |Step(s, Exchange(thread, false)).granted| == |s.granted| <==> t.after < |s.granted|
  {
    RunKeepsInv(actions);
    assert ThreadInv(Run(actions), ThreadOf(Run(actions), thread));
  }
}
