/**
 What the BBR controller does with its estimates: when a round ends and with what rate, when
 each phase is left, and how fast and how wide it sends afterwards, over every run.
 */
module BbrPacing {
  import opened Bytes
  import opened Bbr

  /** i is x rounded down. */
  ghost predicate IsFloor(i: int, x: real) { i as real <= x < i as real + 1.0 }

  /** i is x rounded up. */
  ghost predicate IsCeiling(i: int, x: real) { i as real - 1.0 < x <= i as real }

  /** The ACK ends a round. */
  ghost predicate RoundEnds(events: seq<Event>, a: Ack) {
    After(events + [Acked(a)]).roundCount > After(events).roundCount
  }

  lemma AfterAck(events: seq<Event>, a: Ack)
    ensures After(events + [Acked(a)]) == OnAcked(After(events), a)
  {
    assert (events + [Acked(a)])[..|events|] == events;
  }

  /** How far the round is, and the round-trip time it is measured by. */
  function Elapsed(b: Model, a: Ack): int { if b.roundStart.None? then 0 else a.now - b.roundStart.value }

  function RttWith(b: Model, a: Ack): int { if 0 < a.minRTT < b.rtProp then a.minRTT else b.rtProp }

  lemma CountedFields(b: Model, a: Ack)
    ensures var c := Counted(b, a);
            && (c.rtProp, c.roundBytes, c.roundCount) == (RttWith(b, a), b.roundBytes + a.bytes, b.roundCount)
            && (c.phase, c.btlBw, c.nextRoundPktNum) == (b.phase, b.btlBw, b.nextRoundPktNum)
            && c.roundStart.Some? && a.now - c.roundStart.value == Elapsed(b, a)
  {
  }

  lemma NewRoundCounts(b: Model, now: int, rate: Option<real>)
    requires Sound(b)
    ensures var v := Paced(Advance(NewRound(b, now, rate), now));
            && v.roundCount == b.roundCount + 1 && v.roundBytes == 0 && v.roundStart == Some(now)
            && v.nextRoundPktNum == b.nextRoundPktNum + 1000 && v.rtProp == b.rtProp
  {
    RoundSound(b, now, rate);
    var n := NewRound(b, now, rate);
    assert (n.roundCount, n.roundBytes, n.roundStart) == (b.roundCount + 1, 0, Some(now));
    AdvanceCounts(n, now);
  }

  lemma AdvanceCounts(n: Model, now: int)
    ensures var v := Advance(n, now);
            && (v.roundCount, v.roundBytes, v.roundStart) == (n.roundCount, n.roundBytes, n.roundStart)
            && (v.nextRoundPktNum, v.rtProp, v.btlBw) == (n.nextRoundPktNum, n.rtProp, n.btlBw)
  {
  }

  /**
   When a round ends: once a round-trip time has passed, or when the ACK is for a packet number
   a thousand above where the round was expected to end; then the next one begins.
   */
  lemma RoundEndsExactly(events: seq<Event>, a: Ack)
    ensures var b, v := After(events), After(events + [Acked(a)]);
            && (RoundEnds(events, a) <==> Elapsed(b, a) >= RttWith(b, a) || a.pn >= b.nextRoundPktNum)
            && (RoundEnds(events, a) ==>
                  && v.roundCount == b.roundCount + 1 && v.roundBytes == 0 && v.roundStart == Some(a.now)
                  && v.nextRoundPktNum == b.nextRoundPktNum + 1000)
            && (!RoundEnds(events, a) ==> v.roundBytes == b.roundBytes + a.bytes && v.roundCount == b.roundCount)
            && v.rtProp == RttWith(b, a)
  {
    var b := After(events);
    var c := Counted(b, a);
    AfterAck(events, a);
    CountedFields(b, a);
    if RoundEnd(c, a).Some? {
      NewRoundCounts(c, a.now, RoundRate(c.roundBytes, RoundEnd(c, a).value));
    }
  }

  /** The rate of the round: the bytes delivered in it over its length, at most two round trips being one. */
  lemma RateExactly(events: seq<Event>, a: Ack)
    requires RoundEnds(events, a)
    ensures var b := After(events);
            var length := if Elapsed(b, a) > 2 * RttWith(b, a) then Elapsed(b, a) else RttWith(b, a);
            RateFor(RateOf(b, Acked(a)), b.roundBytes + a.bytes, length)
  {
    RoundDue(events, a);
    RateOfRound(After(events), a);
  }

  lemma RoundDue(events: seq<Event>, a: Ack)
    requires RoundEnds(events, a)
    ensures Elapsed(After(events), a) >= RttWith(After(events), a) || a.pn >= After(events).nextRoundPktNum
  {
    RoundEndsExactly(events, a);
  }

  /** The rate times the length of the round gives the bytes back. */
  ghost predicate RateFor(rate: Option<real>, bytes: nat, length: int) {
    && (rate.Some? <==> bytes > 0)
    && (rate.Some? ==> rate.value * (length as real / 1000000000.0) == bytes as real)
  }

  lemma RateOfRound(b: Model, a: Ack)
    requires Sound(b) && (Elapsed(b, a) >= RttWith(b, a) || a.pn >= b.nextRoundPktNum)
    ensures var length := if Elapsed(b, a) > 2 * RttWith(b, a) then Elapsed(b, a) else RttWith(b, a);
            RateFor(RateOf(b, Acked(a)), b.roundBytes + a.bytes, length)
  {
    var length := if Elapsed(b, a) > 2 * RttWith(b, a) then Elapsed(b, a) else RttWith(b, a);
    CountedFields(b, a);
    assert RoundEnd(Counted(b, a), a) == Some(length);
    RateOver(b.roundBytes + a.bytes, length);
  }

  lemma RateOver(bytes: nat, duration: int)
    requires duration > 0
    ensures RateFor(RoundRate(bytes, duration), bytes, duration)
  {
    Quotient(bytes as real, duration as real / 1000000000.0);
  }

  lemma Quotient(x: real, y: real)
    requires y > 0.0
    ensures x / y * y == x
  {
  }

  // ----- phases -----

  /** The phase and its timer after a round, from those before it. */
  ghost predicate PhaseMoves(b: Model, v: Model, now: int) {
    && (b.phase.Drain? ==>
          && (v.phase.ProbeBW? <==> v.inFlight as real <= v.btlBw * (v.rtProp as real / 1000000000.0))
          && (!v.phase.ProbeBW? ==> v.phase.Drain?)
          && (v.phase.ProbeBW? ==> v.probeCycleIdx == 0))
    && (b.phase.ProbeBW? ==>
          && (v.phase.ProbeRTT? <==> v.rtPropStamp.Some? && now - v.rtPropStamp.value >= 10000000000)
          && (v.phase.ProbeRTT? ==> v.probeRTTDoneAt == now + 200000000)
          && (!v.phase.ProbeRTT? ==> v.phase.ProbeBW? && v.probeCycleIdx == (b.probeCycleIdx + 1) % 8))
    && (b.phase.ProbeRTT? ==>
          && (!v.phase.ProbeRTT? <==> now > b.probeRTTDoneAt || v.inFlight <= 2097152)
          && (!v.phase.ProbeRTT? ==> v.phase == b.probeRTTLastPhase)
          && (v.phase.ProbeBW? ==> v.probeCycleIdx == 0))
  }

  lemma AdvanceMoves(n: Model, now: int)
    requires n.phase.ProbeRTT? ==> n.probeRTTLastPhase.ProbeBW?
    ensures PhaseMoves(n, Advance(n, now), now)
  {
  }

  lemma NewRoundKeepsPhase(b: Model, now: int, rate: Option<real>)
    requires Sound(b)
    ensures var n := NewRound(b, now, rate);
            && (n.phase, n.probeCycleIdx, n.probeRTTDoneAt, n.probeRTTLastPhase)
               == (b.phase, b.probeCycleIdx, b.probeRTTDoneAt, b.probeRTTLastPhase)
  {
  }

  lemma CountedKeepsPhase(b: Model, a: Ack)
    ensures var c := Counted(b, a);
            && (c.phase, c.probeCycleIdx, c.probeRTTDoneAt, c.probeRTTLastPhase)
               == (b.phase, b.probeCycleIdx, b.probeRTTDoneAt, b.probeRTTLastPhase)
  {
  }

  lemma SamePhaseMoves(b: Model, n: Model, v: Model, w: Model, now: int)
    requires PhaseMoves(n, v, now)
    requires (n.phase, n.probeCycleIdx, n.probeRTTDoneAt, n.probeRTTLastPhase)
             == (b.phase, b.probeCycleIdx, b.probeRTTDoneAt, b.probeRTTLastPhase)
    requires v.rtProp > 0 && w == Paced(v)
    ensures PhaseMoves(b, w, now)
  {
  }

  /** What the round does that an ACK ends: the state it leads to is one paced for the phase advanced to. */
  lemma RoundState(events: seq<Event>, a: Ack) returns (n: Model)
    requires RoundEnds(events, a)
    ensures n.rtProp > 0 && Advance(n, a.now).rtProp > 0
    ensures After(events + [Acked(a)]) == Paced(Advance(n, a.now))
    ensures var b := After(events);
            (n.phase, n.probeCycleIdx, n.probeRTTDoneAt, n.probeRTTLastPhase)
            == (b.phase, b.probeCycleIdx, b.probeRTTDoneAt, b.probeRTTLastPhase)
  {
    var b := After(events);
    var c := Counted(b, a);
    AfterAck(events, a);
    CountedFields(b, a);
    CountedKeepsPhase(b, a);
    assert RoundEnd(c, a).Some?;
    n := NewRound(c, a.now, RoundRate(c.roundBytes, RoundEnd(c, a).value));
    RoundSound(c, a.now, RoundRate(c.roundBytes, RoundEnd(c, a).value));
    NewRoundKeepsPhase(c, a.now, RoundRate(c.roundBytes, RoundEnd(c, a).value));
  }

  /**
   When Drain, ProbeBW and ProbeRTT are left, in every run: Drain when no more than the product of
   rate and round-trip time is in flight, ProbeBW when the round-trip time is ten seconds old,
   ProbeRTT after 200 ms or with no more than the minimal window in flight.
   */
  lemma PhasesMoveExactly(events: seq<Event>, a: Ack)
    requires RoundEnds(events, a)
    ensures PhaseMoves(After(events), After(events + [Acked(a)]), a.now)
  {
    var n := RoundState(events, a);
    AlwaysReturnsToProbing(events);
    AdvanceMoves(n, a.now);
    SamePhaseMoves(After(events), n, Advance(n, a.now), After(events + [Acked(a)]), a.now);
  }

  /** Losses end Startup at the third, and no other phase. */
  lemma LossesMoveExactly(events: seq<Event>, pn: int)
    ensures var b, v := After(events), After(events + [Lost(pn)]);
            && (b.phase.Startup? && b.lossInStartup < 2 ==> v.phase.Startup? && v.lossInStartup == b.lossInStartup + 1)
            && (b.phase.Startup? && b.lossInStartup >= 2 ==> v.phase.Drain? && v.lossInStartup == 0)
            && (!b.phase.Startup? ==> v.phase == b.phase && v.inRecovery && v.recoveryPoint == pn)
  {
    assert (events + [Lost(pn)])[..|events|] == events;
  }

  // ----- pacing rate and window -----

  /** The pacing rate for x bytes per second: x rounded down, but not below four megabytes. */
  ghost predicate PacesAt(v: Model, x: real) {
    if x >= 4194304.0 then IsFloor(v.pacingRate, x) else x > 0.0 ==> v.pacingRate == 4194304
  }

  /** The window for x bytes: x rounded up, but not below two megabytes. */
  ghost predicate OpensTo(v: Model, x: real) {
    if x > 2097152.0 then IsCeiling(v.cwnd, x) else v.cwnd == 2097152
  }

  ghost predicate PacedFor(v: Model) {
    var bdp := v.btlBw * (v.rtProp as real / 1000000000.0);
    match v.phase
    case Startup => PacesAt(v, 2.0 * v.btlBw) && OpensTo(v, 8.0 * bdp)
    case Drain => PacesAt(v, v.btlBw / 2.77) && OpensTo(v, 2.0 * bdp)
    case ProbeBW =>
      && PacesAt(v, if v.probeCycleIdx == 0 then 1.25 * v.btlBw else if v.probeCycleIdx == 1 then 0.75 * v.btlBw
                    else v.btlBw)
      && OpensTo(v, 2.0 * bdp)
    case ProbeRTT => PacesAt(v, v.btlBw) && v.cwnd == 2097152
  }

  lemma CeilingExact(x: real)
    ensures IsCeiling(Ceiling(x), x)
  {
  }

  lemma RateExact(b: Model, v: Model, rate: real)
    requires b.rtProp > 0 && v == Paced(b) && rate == PacingGain(b) * b.btlBw
    ensures PacesAt(v, rate)
  {
  }

  lemma WindowExact(b: Model, v: Model, window: real)
    requires b.rtProp > 0 && !b.phase.ProbeRTT? && v == Paced(b) && window == CwndGain(b.phase) * Bdp(b)
    ensures OpensTo(v, window)
  {
    CeilingExact(window);
  }

  lemma PacedExactly(b: Model, v: Model)
    requires b.rtProp > 0 && v == Paced(b)
    ensures PacedFor(v)
  {
    RateExact(b, v, PacingGain(b) * b.btlBw);
    if !b.phase.ProbeRTT? {
      WindowExact(b, v, CwndGain(b.phase) * Bdp(b));
    }
    PacedKeeps(b, v);
    GainsExact(v, PacingGain(v) * v.btlBw, CwndGain(v.phase) * Bdp(v));
  }

  lemma PacedKeeps(b: Model, v: Model)
    requires b.rtProp > 0 && v == Paced(b)
    ensures (v.phase, v.btlBw, v.rtProp, v.probeCycleIdx) == (b.phase, b.btlBw, b.rtProp, b.probeCycleIdx)
    ensures v.phase.ProbeRTT? ==> v.cwnd == 2097152
  {
  }

  lemma GainsExact(v: Model, rate: real, window: real)
    requires PacesAt(v, rate) && rate == PacingGain(v) * v.btlBw && window == CwndGain(v.phase) * Bdp(v)
    requires if v.phase.ProbeRTT? then v.cwnd == 2097152 else OpensTo(v, window)
    ensures PacedFor(v)
  {
    DividedRate(v.btlBw);
  }

  lemma DividedRate(x: real)
    ensures 1.0 / 2.77 * x == x / 2.77
  {
  }

  /**
   After each round of a run: twice the bandwidth in Startup, a 2.77th of it in Drain, a quarter
   above and then a quarter below it and else just at it in ProbeBW, and it in ProbeRTT; and
   eight times the product of bandwidth and round-trip time for the window in Startup, twice in
   Drain and ProbeBW, the minimum in ProbeRTT.
   */
  lemma RoundPaces(events: seq<Event>, a: Ack)
    requires RoundEnds(events, a)
    ensures PacedFor(After(events + [Acked(a)]))
  {
    var n := RoundState(events, a);
    PacedExactly(Advance(n, a.now), After(events + [Acked(a)]));
  }

  /** A round in Drain empties the queue: well below the bandwidth, and by exactly this factor. */
  lemma DrainPaces(events: seq<Event>, a: Ack)
    requires RoundEnds(events, a) && After(events + [Acked(a)]).phase.Drain?
    requires After(events + [Acked(a)]).btlBw >= 2.77 * 4194304.0
    ensures var v := After(events + [Acked(a)]);
            2.77 * v.pacingRate as real <= v.btlBw < 2.77 * (v.pacingRate as real + 1.0)
  {
    RoundPaces(events, a);
    Quotient(After(events + [Acked(a)]).btlBw, 2.77);
  }

  /** A timeout leaves the minimal window, sent once per round trip. */
  lemma TimeoutPaces(events: seq<Event>)
    ensures var b, v := After(events), After(events + [TimedOut]);
            && v.cwnd == 2097152 && !v.inRecovery && (v.phase, v.btlBw, v.rtProp) == (b.phase, b.btlBw, b.rtProp)
            && IsFloor(v.pacingRate, 2097152.0 / (b.rtProp as real / 1000000000.0))
  {
    assert (events + [TimedOut])[..|events|] == events;
  }

  // ----- the gain cycle -----

  function WithAcks(events: seq<Event>, acks: seq<Ack>): seq<Event>
    decreases |acks|
  {
    if acks == [] then events else WithAcks(events, acks[..|acks| - 1]) + [Acked(acks[|acks| - 1])]
  }

  /** Each of the ACKs ends a round, and ProbeBW is not left. */
  ghost predicate KeepsProbing(events: seq<Event>, acks: seq<Ack>)
    decreases |acks|
  {
    && After(WithAcks(events, acks)).phase.ProbeBW?
    && (acks != [] ==>
          && KeepsProbing(events, acks[..|acks| - 1])
          && RoundEnds(WithAcks(events, acks[..|acks| - 1]), acks[|acks| - 1]))
  }

  /** From the last gain on, k rounds lead to gain k - 1. */
  function IndexAfter(k: nat): nat { if k == 0 then 7 else k - 1 }

  lemma {:induction false} CycleIndex(events: seq<Event>, acks: seq<Ack>)
    requires KeepsProbing(events, acks) && After(events).probeCycleIdx == 7 && |acks| <= 8
    ensures After(WithAcks(events, acks)).probeCycleIdx == IndexAfter(|acks|)
    decreases |acks|
  {
    if acks != [] {
      CycleIndex(events, acks[..|acks| - 1]);
      NextIndex(WithAcks(events, acks[..|acks| - 1]), acks[|acks| - 1], |acks| - 1);
    }
  }

  lemma NextIndex(events: seq<Event>, a: Ack, k: nat)
    requires RoundEnds(events, a) && After(events).phase.ProbeBW? && After(events + [Acked(a)]).phase.ProbeBW?
    requires After(events).probeCycleIdx == IndexAfter(k) && k < 8
    ensures After(events + [Acked(a)]).probeCycleIdx == k
  {
    PhasesMoveExactly(events, a);
    Wrap(After(events), After(events + [Acked(a)]), a.now, k);
  }

  lemma Wrap(b: Model, v: Model, now: int, k: nat)
    requires PhaseMoves(b, v, now) && b.phase.ProbeBW? && v.phase.ProbeBW?
    requires b.probeCycleIdx == IndexAfter(k) && k < 8
    ensures v.probeCycleIdx == k
  {
  }

  /** What round k of a cycle paces at. */
  function Gained(k: nat, bandwidth: real): real {
    if k == 1 then 1.25 * bandwidth else if k == 2 then 0.75 * bandwidth else bandwidth
  }

  /** What the rounds of a cycle that starts anew lead to. */
  lemma CyclePaces(events: seq<Event>, acks: seq<Ack>)
    requires KeepsProbing(events, acks) && After(events).probeCycleIdx == 7 && 1 <= |acks| <= 8
    ensures var v := After(WithAcks(events, acks));
            PacesAt(v, Gained(|acks|, v.btlBw))
  {
    CycleIndex(events, acks);
    RoundPaces(WithAcks(events, acks[..|acks| - 1]), acks[|acks| - 1]);
  }

  /** The pacing rates of these rounds, added up. */
  function RateSum(events: seq<Event>, acks: seq<Ack>): int
    decreases |acks|
  {
    if acks == [] then 0 else RateSum(events, acks[..|acks| - 1]) + After(WithAcks(events, acks)).pacingRate
  }

  ghost predicate SameBandwidth(events: seq<Event>, acks: seq<Ack>, bandwidth: real)
    decreases |acks|
  {
    acks != [] ==>
      After(WithAcks(events, acks)).btlBw == bandwidth && SameBandwidth(events, acks[..|acks| - 1], bandwidth)
  }

  /** What the first k rounds of a cycle pace at, added up. */
  function Target(k: nat, bandwidth: real): real {
    if k == 0 then 0.0
    else Target(k - 1, bandwidth) + Gained(k, bandwidth)
  }

  /** The sum of k rates, each rounded down. */
  ghost predicate AddsUp(k: nat, sum: int, target: real) {
    if k == 0 then sum == 0 && target == 0.0 else target - k as real < sum as real <= target
  }

  lemma RateAdded(k: nat, sum: int, target: real, v: Model, rate: real)
    requires k > 0 && PacesAt(v, rate) && rate >= 4194304.0 && AddsUp(k - 1, sum, target)
    ensures AddsUp(k, sum + v.pacingRate, target + rate)
  {
  }

  lemma RoundGains(events: seq<Event>, acks: seq<Ack>, bandwidth: real)
    requires KeepsProbing(events, acks) && After(events).probeCycleIdx == 7 && 1 <= |acks| <= 8
    requires SameBandwidth(events, acks, bandwidth)
    ensures PacesAt(After(WithAcks(events, acks)), Gained(|acks|, bandwidth))
  {
    CyclePaces(events, acks);
  }

  lemma {:induction false} RatesAdded(events: seq<Event>, acks: seq<Ack>, bandwidth: real)
    requires KeepsProbing(events, acks) && After(events).probeCycleIdx == 7 && |acks| <= 8
    requires SameBandwidth(events, acks, bandwidth) && 0.75 * bandwidth >= 4194304.0
    ensures AddsUp(|acks|, RateSum(events, acks), Target(|acks|, bandwidth))
    decreases |acks|
  {
    if acks != [] {
      var k, before := |acks|, acks[..|acks| - 1];
      RatesAdded(events, before, bandwidth);
      RoundGains(events, acks, bandwidth);
      RateAdded(k, RateSum(events, before), Target(k - 1, bandwidth), After(WithAcks(events, acks)),
                Gained(k, bandwidth));
    }
  }

  lemma WholeCycle(bandwidth: real)
    ensures Target(8, bandwidth) == 8.0 * bandwidth
  {
    assert Target(1, bandwidth) == 1.25 * bandwidth;
    assert Target(2, bandwidth) == 2.0 * bandwidth;
    assert Target(3, bandwidth) == 3.0 * bandwidth;
    assert Target(4, bandwidth) == 4.0 * bandwidth;
    assert Target(5, bandwidth) == 5.0 * bandwidth;
    assert Target(6, bandwidth) == 6.0 * bandwidth;
    assert Target(7, bandwidth) == 7.0 * bandwidth;
  }

  /** Over the eight rounds of a cycle at one bandwidth the rates average it, up to their rounding. */
  lemma CycleAverages(events: seq<Event>, acks: seq<Ack>, bandwidth: real)
    requires KeepsProbing(events, acks) && After(events).probeCycleIdx == 7 && |acks| == 8
    requires SameBandwidth(events, acks, bandwidth) && 0.75 * bandwidth >= 4194304.0
    ensures 8.0 * bandwidth - 8.0 < RateSum(events, acks) as real <= 8.0 * bandwidth
  {
    RatesAdded(events, acks, bandwidth);
    WholeCycle(bandwidth);
  }
}
