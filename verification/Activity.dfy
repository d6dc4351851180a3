/**
 The gauges behind the quiescence check. An actor's begin and finish, and a sampler's reads, are
 separate atomic accesses that interleave freely, so one idle sample proves nothing; two with the same
 count do.
 */
module Activity {

  // ---- one inbox ----

  /** Where the actor stands between the atomic accesses of a message. */
  datatype Phase = Waiting | Announced | InHand | Counted | Cleared

  /** `begun` counts the messages the actor was marked busy with; it decides nothing. */
  datatype Gauge = Gauge(phase: Phase, queued: nat, busy: bool, processed: nat, begun: nat)

  const QUIET: Gauge := Gauge(Waiting, 0, false, 0, 0)

  /** The actor's next access: store the queue length, store busy; then count, clear the queue, store idle. */
  function Access(g: Gauge, queued: nat): Gauge {
    match g.phase
    case Waiting => g.(phase := Announced, queued := queued)
    case Announced => g.(phase := InHand, busy := true, begun := g.begun + 1)
    case InHand => g.(phase := Counted, processed := g.processed + 1)
    case Counted => g.(phase := Cleared, queued := 0)
    case Cleared => g.(phase := Waiting, busy := false)
  }

  /** The gauge after each of the actor's accesses; any read sees one of these. */
  function History(g: Gauge, lengths: seq<nat>): Gauge
    decreases |lengths|
  {
    if lengths == [] then g else Access(History(g, lengths[..|lengths| - 1]), lengths[|lengths| - 1])
  }

  predicate GaugeInv(g: Gauge) {
    (g.busy <==> g.phase.InHand? || g.phase.Counted? || g.phase.Cleared?)
    && g.begun == g.processed + if g.phase.InHand? then 1 else 0
  }

  /** At any read: the counts only grow, and an idle gauge has finished all it began. */
  lemma {:induction false} HistoryInv(lengths: seq<nat>, i: nat)
    requires i <= |lengths|
    ensures var g, later := History(QUIET, lengths[..i]), History(QUIET, lengths);
            GaugeInv(g) && GaugeInv(later) && g.begun <= later.begun && g.processed <= later.processed
    decreases |lengths|
  {
    if lengths != [] {
      var n := |lengths| - 1;
      if i <= n {
        assert lengths[..n][..i] == lengths[..i];
        HistoryInv(lengths[..n], i);
      } else {
        assert lengths[..i] == lengths;
        HistoryInv(lengths[..n], n);
        assert lengths[..n][..n] == lengths[..n];
      }
    } else {
      assert lengths[..i] == [];
    }
  }

  /** A sample reads busy, then the queue length if busy, then the count, at three moments of the history. */
  datatype Sample = Sample(queued: nat, busy: bool, processed: nat)

  function Snapshot(lengths: seq<nat>, busyAt: nat, queuedAt: nat, processedAt: nat): Sample
    requires busyAt <= queuedAt <= processedAt <= |lengths|
  {
    var busy := History(QUIET, lengths[..busyAt]).busy;
    Sample(if busy then History(QUIET, lengths[..queuedAt]).queued else 0, busy,
           History(QUIET, lengths[..processedAt]).processed)
  }

  predicate SampleIdle(sample: Sample) { !sample.busy && sample.queued == 0 }

  /**
   Two idle samples, one after the other, with the same count: between the first one's read of the
   count and the second one's read of busy no message was begun, and none was in hand.
   */
  lemma TwoIdleSamples(lengths: seq<nat>, busy1: nat, queued1: nat, count1: nat, busy2: nat, queued2: nat, count2: nat,
                       t: nat)
    requires busy1 <= queued1 <= count1 <= busy2 <= queued2 <= count2 <= |lengths|
    requires SampleIdle(Snapshot(lengths, busy1, queued1, count1))
    requires SampleIdle(Snapshot(lengths, busy2, queued2, count2))
    requires Snapshot(lengths, busy1, queued1, count1).processed == Snapshot(lengths, busy2, queued2, count2).processed
    requires count1 <= t <= busy2
    ensures History(QUIET, lengths[..t]).begun == History(QUIET, lengths[..count1]).begun
    ensures !History(QUIET, lengths[..t]).phase.InHand?
  {
    HistoryOrder(lengths, count1, t);
    HistoryOrder(lengths, t, busy2);
    HistoryOrder(lengths, busy2, count2);
  }

  lemma HistoryOrder(lengths: seq<nat>, i: nat, j: nat)
    requires i <= j <= |lengths|
    ensures var g, later := History(QUIET, lengths[..i]), History(QUIET, lengths[..j]);
            GaugeInv(g) && GaugeInv(later) && g.begun <= later.begun && g.processed <= later.processed
  {
    assert lengths[..j][..i] == lengths[..i];
    HistoryInv(lengths[..j], i);
  }

  /** One idle sample is not enough: its read of busy can precede a message its read of the count misses. */
  lemma OneSampleIsNotEnough()
    ensures exists lengths: seq<nat>, busyAt: nat, countAt: nat ::
              busyAt <= countAt <= |lengths| && SampleIdle(Snapshot(lengths, busyAt, busyAt, countAt))
              && History(QUIET, lengths[..countAt]).phase.InHand?
  {
    var lengths: seq<nat> := [0, 0];
    assert lengths[..0] == [] && lengths[..2] == lengths;
    assert lengths[..1][..0] == [] && lengths[..2][..1] == lengths[..1];
    assert History(QUIET, lengths[..1]) == Access(QUIET, 0);
    assert History(QUIET, lengths).phase == InHand;
    assert SampleIdle(Snapshot(lengths, 0, 0, 2));
  }

  // ---- every peer session ----

  /** Sessions share the counters; each session's own accesses are in order, theirs interleave. */
  datatype SessionPhase = Idle | Handling | Tallied

  datatype Sessions = Sessions(phases: seq<SessionPhase>, busy: int, processed: nat, begun: nat)

  /** The next access of session `i`: a session begins, counts its message, and stops being busy. */
  function SessionAccess(s: Sessions, i: nat): Sessions {
    if i >= |s.phases| then s else
    match s.phases[i]
    case Idle => s.(phases := s.phases[i := Handling], busy := s.busy + 1, begun := s.begun + 1)
    case Handling => s.(phases := s.phases[i := Tallied], processed := s.processed + 1)
    case Tallied => s.(phases := s.phases[i := Idle], busy := s.busy - 1)
  }

  function SessionRun(n: nat, accesses: seq<nat>): Sessions
    decreases |accesses|
  {
    if accesses == [] then Sessions(seq(n, _ => Idle), 0, 0, 0)
    else SessionAccess(SessionRun(n, accesses[..|accesses| - 1]), accesses[|accesses| - 1])
  }

  function Busy(phases: seq<SessionPhase>): nat {
    if phases == [] then 0 else Busy(phases[1..]) + if phases[0].Idle? then 0 else 1
  }

  function InHandCount(phases: seq<SessionPhase>): nat {
    if phases == [] then 0 else InHandCount(phases[1..]) + if phases[0].Handling? then 1 else 0
  }

  lemma {:induction false} CountsUpdate(phases: seq<SessionPhase>, i: nat, phase: SessionPhase)
    requires i < |phases|
    ensures var next := phases[i := phase];
            Busy(next) - Busy(phases) == (if phase.Idle? then 0 else 1) - (if phases[i].Idle? then 0 else 1)
            && InHandCount(next) - InHandCount(phases)
               == (if phase.Handling? then 1 else 0) - (if phases[i].Handling? then 1 else 0)
    decreases i
  {
    if i > 0 {
      assert phases[i := phase][1..] == phases[1..][i - 1 := phase];
      CountsUpdate(phases[1..], i - 1, phase);
    } else {
      assert phases[i := phase][1..] == phases[1..];
    }
  }

  lemma {:induction false} InHandAreBusy(phases: seq<SessionPhase>)
    ensures InHandCount(phases) <= Busy(phases)
  {
    if phases != [] { InHandAreBusy(phases[1..]); }
  }

  lemma {:induction false} NoneBusy(n: nat)
    ensures Busy(seq(n, _ => Idle)) == 0 && InHandCount(seq(n, _ => Idle)) == 0
  {
    var phases := seq(n, _ => Idle);
    if n > 0 {
      assert phases[1..] == seq(n - 1, _ => Idle);
      NoneBusy(n - 1);
    }
  }

  predicate SessionsInv(s: Sessions) {
    s.busy == Busy(s.phases) && s.begun == s.processed + InHandCount(s.phases)
  }

  /** The busy counter is the number of sessions that are, so it never underflows. */
  lemma {:induction false} SessionRunInv(n: nat, accesses: seq<nat>)
    ensures SessionsInv(SessionRun(n, accesses)) && 0 <= SessionRun(n, accesses).busy
    decreases |accesses|
  {
    if accesses == [] {
      NoneBusy(n);
    } else {
      var before, i := SessionRun(n, accesses[..|accesses| - 1]), accesses[|accesses| - 1];
      SessionRunInv(n, accesses[..|accesses| - 1]);
      if i < |before.phases| {
        CountsUpdate(before.phases, i, SessionAccess(before, i).phases[i]);
      }
    }
  }

  lemma {:induction false} SessionCountsGrow(n: nat, accesses: seq<nat>, i: nat)
    requires i <= |accesses|
    ensures var s, later := SessionRun(n, accesses[..i]), SessionRun(n, accesses);
            s.begun <= later.begun && s.processed <= later.processed
    decreases |accesses|
  {
    if i < |accesses| {
      var k := |accesses| - 1;
      assert accesses[..k][..i] == accesses[..i];
      SessionCountsGrow(n, accesses[..k], i);
    } else {
      assert accesses[..i] == accesses;
    }
  }

  /** The same for all the sessions at once: no frame or command was begun or in hand in between. */
  lemma TwoIdleSessionSamples(n: nat, accesses: seq<nat>, count1: nat, busy2: nat, count2: nat, t: nat)
    requires count1 <= t <= busy2 <= count2 <= |accesses|
    requires SessionRun(n, accesses[..busy2]).busy == 0
    requires SessionRun(n, accesses[..count1]).processed == SessionRun(n, accesses[..count2]).processed
    ensures SessionRun(n, accesses[..t]).begun == SessionRun(n, accesses[..count1]).begun
    ensures InHandCount(SessionRun(n, accesses[..t]).phases) == 0
  {
    SessionRunInv(n, accesses[..count1]);
    SessionRunInv(n, accesses[..t]);
    SessionRunInv(n, accesses[..busy2]);
    InHandAreBusy(SessionRun(n, accesses[..busy2]).phases);
    assert accesses[..t][..count1] == accesses[..count1] && accesses[..busy2][..t] == accesses[..t];
    assert accesses[..count2][..busy2] == accesses[..busy2];
    SessionCountsGrow(n, accesses[..t], count1);
    SessionCountsGrow(n, accesses[..busy2], t);
    SessionCountsGrow(n, accesses[..count2], busy2);
  }

  // ---- outbound queues ----

  /** A session's reporter; between its add and its own note of it, `noted` is behind `added`. */
  datatype Reporter = Reporter(noted: nat, added: nat, live: bool)

  datatype Outbound = Outbound(total: int, reporters: seq<Reporter>)

  /** A session opens, adjusts the total by the difference to what it last noted, notes it, or goes away reporting 0. */
  datatype OutboundAccess = Open | Adjust(i: nat, queued: nat) | Note(i: nat) | Leave(i: nat)

  function Added(reporters: seq<Reporter>): nat {
    if reporters == [] then 0 else reporters[0].added + Added(reporters[1..])
  }

  predicate Owns(o: Outbound, i: nat) { i < |o.reporters| && o.reporters[i].live }

  /** What a fetch-and-subtract takes off the total; it must not exceed it. */
  function Taken(o: Outbound, access: OutboundAccess): nat {
    if access.Adjust? && Owns(o, access.i) && o.reporters[access.i].noted == o.reporters[access.i].added
       && access.queued <= o.reporters[access.i].noted
    then o.reporters[access.i].noted - access.queued else 0
  }

  function OutboundStep(o: Outbound, access: OutboundAccess): Outbound {
    match access
    case Open => o.(reporters := o.reporters + [Reporter(0, 0, true)])
    case Adjust(i, queued) =>
      if !Owns(o, i) || o.reporters[i].noted != o.reporters[i].added then o else
      var noted := o.reporters[i].noted;
      Outbound(if queued > noted then o.total + (queued - noted) else o.total - (noted - queued),
               o.reporters[i := o.reporters[i].(added := queued)])
    case Note(i) =>
      if !Owns(o, i) then o else
      o.(reporters := o.reporters[i := o.reporters[i].(noted := o.reporters[i].added)])
    case Leave(i) =>
      if !Owns(o, i) || o.reporters[i].noted != 0 || o.reporters[i].added != 0 then o
      else o.(reporters := o.reporters[i := o.reporters[i].(live := false)])
  }

  function OutboundRun(accesses: seq<OutboundAccess>): Outbound
    decreases |accesses|
  {
    if accesses == [] then Outbound(0, []) else
    OutboundStep(OutboundRun(accesses[..|accesses| - 1]), accesses[|accesses| - 1])
  }

  lemma {:induction false} AddedUpdate(reporters: seq<Reporter>, i: nat, reporter: Reporter)
    requires i < |reporters|
    ensures Added(reporters[i := reporter]) == Added(reporters) - reporters[i].added + reporter.added
    ensures reporters[i].added <= Added(reporters)
    decreases i
  {
    if i > 0 {
      assert reporters[i := reporter][1..] == reporters[1..][i - 1 := reporter];
      AddedUpdate(reporters[1..], i - 1, reporter);
    } else {
      assert reporters[i := reporter][1..] == reporters[1..];
    }
  }

  lemma {:induction false} AddedAppend(reporters: seq<Reporter>, reporter: Reporter)
    ensures Added(reporters + [reporter]) == Added(reporters) + reporter.added
  {
    if reporters != [] {
      assert (reporters + [reporter])[1..] == reporters[1..] + [reporter];
      AddedAppend(reporters[1..], reporter);
    } else {
      assert (reporters + [reporter])[1..] == [];
    }
  }

  /**
   At every moment of every interleaving the total is the sum of what the reporters have added, those
   gone add nothing, and no subtraction takes more than the total.
   */
  lemma {:induction false} TotalIsSum(accesses: seq<OutboundAccess>, next: OutboundAccess)
    ensures var o := OutboundRun(accesses);
            o.total == Added(o.reporters)
            && (forall reporter <- o.reporters :: !reporter.live ==> reporter.added == 0)
            && Taken(o, next) <= o.total
    decreases |accesses|
  {
    var o := OutboundRun(accesses);
    if accesses != [] {
      var before, access := OutboundRun(accesses[..|accesses| - 1]), accesses[|accesses| - 1];
      TotalIsSum(accesses[..|accesses| - 1], access);
      if access.Open? {
        AddedAppend(before.reporters, Reporter(0, 0, true));
      } else if Owns(before, access.i) {
        AddedUpdate(before.reporters, access.i, o.reporters[access.i]);
      }
      forall reporter | reporter in o.reporters ensures !reporter.live ==> reporter.added == 0 {
        var k :| 0 <= k < |o.reporters| && o.reporters[k] == reporter;
        assert k < |before.reporters| ==> before.reporters[k] in before.reporters;
      }
    }
    if next.Adjust? && Owns(o, next.i) {
      AddedUpdate(o.reporters, next.i, o.reporters[next.i]);
    }
  }
}
