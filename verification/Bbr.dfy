/**
 The BBR congestion controller (bbr.go). Rates and products of rates are reals; instants and
 durations are whole nanoseconds, and an instant not set yet is None.
 */
module Bbr {
  import opened Bytes

  const FILTER_LEN := 10
  const GAIN_CYCLE_LEN := 8
  const MIN_CWND := 2097152
  const MIN_PACING_RATE := 4194304
  const SECOND := 1_000_000_000
  const INITIAL_RT_PROP := 100_000_000
  const PROBE_RTT_INTERVAL := 10 * SECOND
  const PROBE_RTT_DURATION := 200_000_000
  const ROUND_PACKETS := 1000

  datatype Phase = Startup | Drain | ProbeBW | ProbeRTT

  datatype Model = Model(
    phase: Phase,
    btlBw: real,                  // bytes per second
    filter: seq<real>,            // the last round rates, as a ring buffer
    filterIdx: nat,
    rtProp: int,
    rtPropStamp: Option<int>,
    roundCount: nat,
    nextRoundPktNum: int,
    roundBytes: nat,
    roundStart: Option<int>,
    prevRoundBw: real,
    pacingRate: int,
    cwnd: int,
    inFlight: int,
    probeCycleIdx: nat,
    probeRTTDoneAt: int,
    probeRTTLastPhase: Phase,
    lossInStartup: nat,
    roundEnd: Option<int>,
    delivered: int,
    inRecovery: bool,
    recoveryPoint: int)

  function Seconds(d: int): real { d as real / 1_000_000_000.0 }

  function Ceiling(x: real): int { -((-x).Floor) }

  /** Pacing that sends one minimal window per round trip. */
  function BaseRate(rtProp: int): int
    requires rtProp > 0
  {
    (MIN_CWND as real / Seconds(rtProp)).Floor
  }

  const INITIAL :=
    Model(Startup, 0.0, [0.0, 0.0, 0.0, 0.0, 0.0, 0.0, 0.0, 0.0, 0.0, 0.0], 0, INITIAL_RT_PROP, None, 0, 0, 0,
          None, 0.0, BaseRate(INITIAL_RT_PROP), MIN_CWND, 0, 0, 0, Startup, 0, None, 0, false, 0)

  // ----- the bandwidth filter -----

  function MaxOf(rates: seq<real>): (m: real)
    ensures m >= 0.0 && forall i :: 0 <= i < |rates| ==> rates[i] <= m
    ensures m == 0.0 || m in rates
    decreases |rates|
  {
    if rates == [] then 0.0
    else
      var m, last := MaxOf(rates[..|rates| - 1]), rates[|rates| - 1];
      if last > m then last else m
  }

  function WithRate(b: Model, rate: real): Model
    requires b.filterIdx < |b.filter| == FILTER_LEN
  {
    var filter := b.filter[b.filterIdx := rate];
    b.(filter := filter, filterIdx := (b.filterIdx + 1) % FILTER_LEN, btlBw := MaxOf(filter), prevRoundBw := rate)
  }

  // ----- an acknowledgement, step by step -----

  datatype Ack = Ack(bytes: nat, pn: int, now: int, minRTT: int)

  function Counted(b: Model, a: Ack): Model {
    WithMinimum(InRound(b.(inFlight := b.inFlight - a.bytes, delivered := b.delivered + a.bytes), a), a)
  }

  function InRound(b: Model, a: Ack): Model {
    b.(roundBytes := b.roundBytes + a.bytes, roundStart := if b.roundStart.None? then Some(a.now) else b.roundStart)
  }

  function WithMinimum(b: Model, a: Ack): Model {
    if 0 < a.minRTT < b.rtProp then b.(rtProp := a.minRTT, rtPropStamp := Some(a.now)) else b
  }

  /** How long the round took that this ACK ends, if it ends one. */
  function RoundEnd(b: Model, a: Ack): Option<int>
    requires b.roundStart.Some?
  {
    var elapsed := a.now - b.roundStart.value;
    if elapsed > 2 * b.rtProp then Some(elapsed)
    else if a.pn >= b.nextRoundPktNum || elapsed >= b.rtProp then Some(b.rtProp)
    else None
  }

  /** The delivery rate of a round, unless nothing was delivered or no time has passed. */
  function RoundRate(bytes: nat, duration: int): Option<real> {
    if bytes > 0 && duration > 0 then Some(bytes as real / Seconds(duration)) else None
  }

  function Reset(b: Model, now: int): Model {
    b.(roundBytes := 0, roundStart := Some(now), roundEnd := Some(now),
       nextRoundPktNum := b.nextRoundPktNum + ROUND_PACKETS)
  }

  function NewRound(b: Model, now: int, rate: Option<real>): Model
    requires b.filterIdx < |b.filter| == FILTER_LEN
  {
    var c := b.(roundCount := b.roundCount + 1);
    Reset(if rate.Some? then WithRate(c, rate.value) else c, now)
  }

  function Bdp(b: Model): real { b.btlBw * Seconds(b.rtProp) }

  function BwGrewThisRound(b: Model): bool {
    b.prevRoundBw <= 0.0 || b.btlBw >= 1.25 * b.prevRoundBw
  }

  function Advance(b: Model, now: int): Model {
    match b.phase
    case Startup => if b.roundCount >= 3 && !BwGrewThisRound(b) then b.(phase := Drain, lossInStartup := 0) else b
    case Drain => if b.inFlight as real <= Bdp(b) then b.(phase := ProbeBW, probeCycleIdx := 0) else b
    case ProbeBW =>
      var c := b.(probeCycleIdx := (b.probeCycleIdx + 1) % GAIN_CYCLE_LEN);
      if b.rtPropStamp.Some? && now - b.rtPropStamp.value >= PROBE_RTT_INTERVAL
      then c.(probeRTTLastPhase := ProbeBW, phase := ProbeRTT, probeRTTDoneAt := now + PROBE_RTT_DURATION) else c
    case ProbeRTT =>
      if now > b.probeRTTDoneAt || b.inFlight <= MIN_CWND
      then b.(phase := b.probeRTTLastPhase,
              probeCycleIdx := if b.probeRTTLastPhase.ProbeBW? then 0 else b.probeCycleIdx)
      else b
  }

  function CycleGain(i: nat): real { if i == 0 then 1.25 else if i == 1 then 0.75 else 1.0 }

  function PacingGain(b: Model): real {
    match b.phase
    case Startup => 2.0
    case Drain => 1.0 / 2.77
    case ProbeBW => CycleGain(b.probeCycleIdx)
    case ProbeRTT => 1.0
  }

  function CwndGain(phase: Phase): real {
    match phase
    case Startup => 8.0
    case Drain => 2.0
    case ProbeBW => 2.0
    case ProbeRTT => 1.0
  }

  function RealMax(x: real, y: real): real { if x < y then y else x }

  function PacingRate(b: Model): int
    requires b.rtProp > 0
  {
    var rate := PacingGain(b) * b.btlBw;
    var started := if rate == 0.0 then MIN_CWND as real / Seconds(b.rtProp) else rate;
    RealMax(started, MIN_PACING_RATE as real).Floor
  }

  function Cwnd(b: Model): int {
    if b.phase.ProbeRTT? then MIN_CWND else Max(Ceiling(CwndGain(b.phase) * Bdp(b)), MIN_CWND)
  }

  function Paced(b: Model): Model
    requires b.rtProp > 0
  {
    b.(pacingRate := PacingRate(b), cwnd := Cwnd(b))
  }

  ghost predicate Sound(b: Model) { b.filterIdx < |b.filter| == FILTER_LEN && b.rtProp > 0 }

  function OnAcked(b: Model, a: Ack): Model
    requires Sound(b)
  {
    var c := Counted(b, a);
    match RoundEnd(c, a)
    case None => c
    case Some(duration) => Paced(Advance(NewRound(c, a.now, RoundRate(c.roundBytes, duration)), a.now))
  }

  // ----- the other events -----

  datatype Event = Sent(bytes: nat) | Acked(ack: Ack) | Lost(pn: int) | Discarded(bytes: nat) | TimedOut

  function OnLost(b: Model, pn: int): Model {
    if !b.phase.Startup? then b.(inRecovery := true, recoveryPoint := pn)
    else if b.lossInStartup + 1 >= 3 then b.(phase := Drain, lossInStartup := 0)
    else b.(lossInStartup := b.lossInStartup + 1)
  }

  function Apply(b: Model, e: Event): Model
    requires Sound(b)
  {
    match e
    case Sent(bytes) => b.(inFlight := b.inFlight + bytes)
    case Acked(a) => OnAcked(b, a)
    case Lost(pn) => OnLost(b, pn)
    case Discarded(bytes) => b.(inFlight := b.inFlight - bytes)
    case TimedOut => b.(cwnd := MIN_CWND, pacingRate := BaseRate(b.rtProp), inRecovery := false)
  }

  lemma AckSound(b: Model, a: Ack)
    requires Sound(b)
    ensures Sound(OnAcked(b, a)) && OnAcked(b, a).rtProp <= b.rtProp
  {
    var c := Counted(b, a);
    assert Sound(c) && c.rtProp <= b.rtProp;
    if RoundEnd(c, a).Some? {
      RoundSound(c, a.now, RoundRate(c.roundBytes, RoundEnd(c, a).value));
    }
  }

  lemma RoundSound(b: Model, now: int, rate: Option<real>)
    requires Sound(b)
    ensures var n := NewRound(b, now, rate); Sound(n) && Sound(Advance(n, now)) && Advance(n, now).rtProp == b.rtProp
  {
  }

  lemma ApplySound(b: Model, e: Event)
    requires Sound(b)
    ensures Sound(Apply(b, e)) && Apply(b, e).rtProp <= b.rtProp
  {
    if e.Acked? {
      AckSound(b, e.ack);
    }
  }

  // ----- the controller object -----

  class Controller {
    var state: Phase
    var btlBw: real
    const btlBwFilter: array<real>
    var bwFilterIdx: nat
    var rtProp: int
    var rtPropStamp: Option<int>
    var roundCount: nat
    var roundStart: bool
    var nextRoundPktNum: int
    var roundBytesDelivered: nat
    var roundStartTime: Option<int>
    var prevRoundBw: real
    var pacingRate: int
    var cwnd: int
    var bytesInFlight: int
    var probeCycleIdx: nat
    var probeRTTDoneAt: int
    var probeRTTLastState: Phase
    var lossInStartup: nat
    var roundEndTime: Option<int>
    var delivered: int
    var inRecovery: bool
    var recoveryPoint: int

    ghost predicate Valid()
      reads this`bwFilterIdx, this`rtProp
    {
      bwFilterIdx < btlBwFilter.Length == FILTER_LEN && rtProp > 0
    }

    function State(): Model
      reads this, btlBwFilter
    {
      Model(state, btlBw, btlBwFilter[..], bwFilterIdx, rtProp, rtPropStamp, roundCount, nextRoundPktNum,
            roundBytesDelivered, roundStartTime, prevRoundBw, pacingRate, cwnd, bytesInFlight, probeCycleIdx,
            probeRTTDoneAt, probeRTTLastState, lossInStartup, roundEndTime, delivered, inRecovery, recoveryPoint)
    }

    constructor ()
      ensures Valid() && fresh(btlBwFilter) && State() == INITIAL && !roundStart
    {
      state, btlBw, bwFilterIdx := Startup, 0.0, 0;
      btlBwFilter := new real[FILTER_LEN](_ => 0.0);
      rtProp, rtPropStamp := INITIAL_RT_PROP, None;
      roundCount, roundStart, nextRoundPktNum, roundBytesDelivered, roundStartTime := 0, false, 0, 0, None;
      prevRoundBw, pacingRate, cwnd, bytesInFlight := 0.0, BaseRate(INITIAL_RT_PROP), MIN_CWND, 0;
      probeCycleIdx, probeRTTDoneAt, probeRTTLastState, lossInStartup := 0, 0, Startup, 0;
      roundEndTime, delivered, inRecovery, recoveryPoint := None, 0, false, 0;
      new;
      assert btlBwFilter[..] == INITIAL.filter;
    }

    method UpdateBtlBw(rate: real)
      requires Valid()
      modifies this`btlBw, this`bwFilterIdx, btlBwFilter
      ensures Valid() && State().(prevRoundBw := rate) == WithRate(old(State()), rate)
    {
      ghost var before := btlBwFilter[..];
      btlBwFilter[bwFilterIdx] := rate;
      assert btlBwFilter[..] == before[bwFilterIdx := rate];
      bwFilterIdx := (bwFilterIdx + 1) % FILTER_LEN;
      var maxBw := 0.0;
      for i := 0 to btlBwFilter.Length
        invariant maxBw == MaxOf(btlBwFilter[..i])
      {
        assert btlBwFilter[..i + 1][..i] == btlBwFilter[..i];
        if btlBwFilter[i] > maxBw {
          maxBw := btlBwFilter[i];
        }
      }
      assert btlBwFilter[..btlBwFilter.Length] == btlBwFilter[..];
      btlBw := maxBw;
    }

    /** The delivery rate of the round that ends here, if it has one. */
    method AddRate(roundDuration: int)
      requires Valid()
      modifies this`btlBw, this`bwFilterIdx, this`prevRoundBw, btlBwFilter
      ensures Valid()
      ensures State() == match RoundRate(roundBytesDelivered, roundDuration)
                         case None => old(State())
                         case Some(rate) => WithRate(old(State()), rate)
    {
      if roundBytesDelivered > 0 && roundDuration > 0 {
        var rate := roundBytesDelivered as real / Seconds(roundDuration);
        UpdateBtlBw(rate);
        prevRoundBw := rate;
      }
    }

    method ResetRound(now: int)
      requires Valid()
      modifies this`roundBytesDelivered, this`roundStartTime, this`roundEndTime, this`nextRoundPktNum
      ensures Valid() && State() == Reset(old(State()), now)
    {
      roundBytesDelivered := 0;
      roundStartTime := Some(now);
      roundEndTime := Some(now);
      nextRoundPktNum := nextRoundPktNum + ROUND_PACKETS;
    }

    method StartNewRound(now: int, roundDuration: int)
      requires Valid()
      modifies this`roundStart, this`roundCount, this`btlBw, this`bwFilterIdx, this`prevRoundBw
      modifies this`roundBytesDelivered, this`roundStartTime, this`roundEndTime, this`nextRoundPktNum, btlBwFilter
      ensures Valid() && roundStart
      ensures State() == NewRound(old(State()), now, RoundRate(old(roundBytesDelivered), roundDuration))
    {
      ghost var b := State();
      roundStart := true;
      roundCount := roundCount + 1;
      assert State() == b.(roundCount := b.roundCount + 1);
      AddRate(roundDuration);
      ResetRound(now);
    }

    method AdvanceState(now: int)
      requires Valid()
      modifies this`state, this`lossInStartup, this`probeCycleIdx, this`probeRTTLastState, this`probeRTTDoneAt
      ensures Valid() && State() == Advance(old(State()), now)
    {
      match state
      case Startup =>
        if roundCount >= 3 && !(prevRoundBw <= 0.0 || btlBw >= 1.25 * prevRoundBw) {
          state := Drain;
          lossInStartup := 0;
        }
      case Drain =>
        if bytesInFlight as real <= btlBw * Seconds(rtProp) {
          state := ProbeBW;
          probeCycleIdx := 0;
        }
      case ProbeBW =>
        probeCycleIdx := (probeCycleIdx + 1) % GAIN_CYCLE_LEN;
        if rtPropStamp.Some? && now - rtPropStamp.value >= PROBE_RTT_INTERVAL {
          probeRTTLastState := state;
          state := ProbeRTT;
          probeRTTDoneAt := now + PROBE_RTT_DURATION;
        }
      case ProbeRTT =>
        if now > probeRTTDoneAt || bytesInFlight <= MIN_CWND {
          state := probeRTTLastState;
          if state == ProbeBW {
            probeCycleIdx := 0;
          }
        }
    }

    method Gains() returns (pacingGain: real, cwndGain: real)
      ensures pacingGain == PacingGain(State()) && cwndGain == CwndGain(state)
    {
      match state {
        case Startup => pacingGain, cwndGain := 2.0, 8.0;
        case Drain => pacingGain, cwndGain := 1.0 / 2.77, 2.0;
        case ProbeBW => pacingGain, cwndGain := CycleGain(probeCycleIdx), 2.0;
        case ProbeRTT => pacingGain, cwndGain := 1.0, 1.0;
      }
    }

    method UpdatePacingAndCwnd()
      requires Valid()
      modifies this`pacingRate, this`cwnd
      ensures Valid() && State() == Paced(old(State()))
    {
      var pacingGain, cwndGain := Gains();
      var bdp := btlBw * Seconds(rtProp);
      var rate := pacingGain * btlBw;
      if rate == 0.0 {
        rate := MIN_CWND as real / Seconds(rtProp);
      }
      if rate < MIN_PACING_RATE as real {
        rate := MIN_PACING_RATE as real;
      }
      pacingRate := rate.Floor;
      var newCwnd := Ceiling(cwndGain * bdp);
      if newCwnd < MIN_CWND {
        newCwnd := MIN_CWND;
      }
      if state == ProbeRTT {
        newCwnd := MIN_CWND;
      }
      cwnd := newCwnd;
    }

    method TakeMinimum(a: Ack)
      requires Valid()
      modifies this`rtProp, this`rtPropStamp
      ensures Valid() && State() == WithMinimum(old(State()), a)
    {
      if a.minRTT > 0 && a.minRTT < rtProp {
        rtProp := a.minRTT;
        rtPropStamp := Some(a.now);
      }
    }

    method CountInRound(a: Ack)
      requires Valid()
      modifies this`roundBytesDelivered, this`roundStartTime
      ensures Valid() && State() == InRound(old(State()), a)
    {
      roundBytesDelivered := roundBytesDelivered + a.bytes;
      if roundStartTime.None? {
        roundStartTime := Some(a.now);
      }
    }

    /** Counts the bytes and takes over a smaller minimal round-trip time. */
    method Count(a: Ack)
      requires Valid()
      modifies this`bytesInFlight, this`delivered, this`roundBytesDelivered, this`roundStartTime
      modifies this`rtProp, this`rtPropStamp
      ensures Valid() && State() == Counted(old(State()), a)
    {
      ghost var b := State();
      bytesInFlight := bytesInFlight - a.bytes;
      delivered := delivered + a.bytes;
      assert State() == b.(inFlight := b.inFlight - a.bytes, delivered := b.delivered + a.bytes);
      CountInRound(a);
      TakeMinimum(a);
    }

    /** Starts a new round when enough time has passed or enough packets were acknowledged. */
    method EndRoundIfDue(a: Ack)
      requires Valid() && !roundStart && roundStartTime.Some?
      modifies this, btlBwFilter
      ensures Valid() && roundStart == RoundEnd(old(State()), a).Some?
      ensures State() == match RoundEnd(old(State()), a)
                         case None => old(State())
                         case Some(d) => NewRound(old(State()), a.now, RoundRate(old(roundBytesDelivered), d))
    {
      var roundDuration := rtProp;
      var maxRoundDuration := 2 * rtProp;
      if a.now - roundStartTime.value > maxRoundDuration {
        roundDuration := a.now - roundStartTime.value;
        StartNewRound(a.now, roundDuration);
      } else if a.pn >= nextRoundPktNum || a.now - roundStartTime.value >= roundDuration {
        StartNewRound(a.now, roundDuration);
      }
    }

    method AdvanceAndPace(now: int)
      requires Valid()
      modifies this`state, this`lossInStartup, this`probeCycleIdx, this`probeRTTLastState, this`probeRTTDoneAt
      modifies this`pacingRate, this`cwnd
      ensures Valid() && State() == Paced(Advance(old(State()), now))
    {
      AdvanceState(now);
      UpdatePacingAndCwnd();
    }

    method OnPacketAcked(a: Ack)
      requires Valid() && !roundStart
      modifies this, btlBwFilter
      ensures Valid() && !roundStart && State() == Apply(old(State()), Acked(a))
    {
      Count(a);
      EndRoundIfDue(a);
      if roundStart {
        ghost var n := State();
        roundStart := false;
        assert State() == n;
        AdvanceAndPace(a.now);
      }
    }

    method OnPacketSent(bytes: nat)
      requires Valid()
      modifies this`bytesInFlight
      ensures Valid() && State() == Apply(old(State()), Sent(bytes))
    {
      bytesInFlight := bytesInFlight + bytes;
    }

    method OnPacketLost(largestSentPN: int)
      requires Valid()
      modifies this`state, this`lossInStartup, this`inRecovery, this`recoveryPoint
      ensures Valid() && State() == Apply(old(State()), Lost(largestSentPN))
    {
      if state == Startup {
        lossInStartup := lossInStartup + 1;
        if lossInStartup >= 3 {
          state := Drain;
          lossInStartup := 0;
        }
      } else {
        inRecovery := true;
        recoveryPoint := largestSentPN;
      }
    }

    method OnPacketDiscarded(bytes: nat)
      requires Valid()
      modifies this`bytesInFlight
      ensures Valid() && State() == Apply(old(State()), Discarded(bytes))
    {
      bytesInFlight := bytesInFlight - bytes;
    }

    method OnPacketNeedsRetransmit()
      requires Valid()
      modifies this`cwnd, this`pacingRate, this`inRecovery
      ensures Valid() && State() == Apply(old(State()), TimedOut)
    {
      cwnd := MIN_CWND;
      pacingRate := (MIN_CWND as real / Seconds(rtProp)).Floor;
      inRecovery := false;
    }
  }

  // ----- whole runs -----

  function After(events: seq<Event>): (b: Model)
    ensures Sound(b)
    decreases |events|
  {
    if events == [] then INITIAL
    else
      var before, last := After(events[..|events| - 1]), events[|events| - 1];
      ApplySound(before, last);
      Apply(before, last)
  }

  /** The delivery rate that an event adds to the filter, if it ends a round that has one. */
  function RateOf(b: Model, e: Event): Option<real> {
    if !e.Acked? then None
    else
      var c := Counted(b, e.ack);
      match RoundEnd(c, e.ack)
      case None => None
      case Some(duration) => RoundRate(c.roundBytes, duration)
  }

  /** The rates of all rounds so far, in order. */
  function Rates(events: seq<Event>): seq<real>
    decreases |events|
  {
    if events == [] then []
    else
      var before, last := events[..|events| - 1], events[|events| - 1];
      match RateOf(After(before), last)
      case None => Rates(before)
      case Some(rate) => Rates(before) + [rate]
  }

  /** The last FILTER_LEN rates. */
  function LastRates(rates: seq<real>): seq<real> {
    if |rates| <= FILTER_LEN then rates else rates[|rates| - FILTER_LEN..]
  }

  /** The ring buffer holds the last rates, each in the slot of its round; unused slots are zero. */
  ghost predicate Ring(filter: seq<real>, idx: nat, rates: seq<real>) {
    && |filter| == FILTER_LEN && idx == |rates| % FILTER_LEN
    && (forall i: nat :: |rates| - FILTER_LEN <= i < |rates| ==> filter[i % FILTER_LEN] == rates[i])
    && (forall j :: |rates| <= j < FILTER_LEN ==> filter[j] == 0.0)
  }

  lemma RingStep(filter: seq<real>, idx: nat, rates: seq<real>, rate: real)
    requires Ring(filter, idx, rates)
    ensures Ring(filter[idx := rate], (idx + 1) % FILTER_LEN, rates + [rate])
  {
    var all, ring := rates + [rate], filter[idx := rate];
    forall i: nat | |all| - FILTER_LEN <= i < |all| ensures ring[i % FILTER_LEN] == all[i] {
      if i < |rates| {
        assert i % FILTER_LEN != idx;
      }
    }
  }

  /** The round whose rate is in slot j. */
  lemma SlotRound(n: nat, j: nat) returns (i: nat)
    requires j < FILTER_LEN <= n || j < n < FILTER_LEN
    ensures n - FILTER_LEN <= i < n && i % FILTER_LEN == j
  {
    if n < FILTER_LEN {
      i := j;
    } else {
      i := n - 1 - (n - 1 - j) % FILTER_LEN;
    }
  }

  lemma RingMax(filter: seq<real>, idx: nat, rates: seq<real>)
    requires Ring(filter, idx, rates)
    ensures MaxOf(filter) == MaxOf(LastRates(rates))
  {
    var last := LastRates(rates);
    var skipped := |rates| - |last|;
    forall k | 0 <= k < |last| ensures last[k] <= MaxOf(filter) {
      assert last[k] == rates[skipped + k];
      assert filter[(skipped + k) % FILTER_LEN] == rates[skipped + k];
    }
    if MaxOf(filter) != 0.0 {
      var j: nat :| j < |filter| && filter[j] == MaxOf(filter);
      var i := SlotRound(|rates|, j);
      assert last[i - skipped] == rates[i] == filter[j];
    }
  }

  lemma {:induction false} RingHolds(events: seq<Event>)
    ensures Ring(After(events).filter, After(events).filterIdx, Rates(events))
    ensures After(events).btlBw == MaxOf(After(events).filter)
    decreases |events|
  {
    if events == [] {
      assert forall j :: 0 <= j < FILTER_LEN ==> INITIAL.filter[j] == 0.0;
    } else {
      var before, last := events[..|events| - 1], events[|events| - 1];
      RingHolds(before);
      FilterStep(After(before), last);
      RingNext(After(before), After(events), RateOf(After(before), last), Rates(before));
    }
  }

  lemma RingNext(b: Model, v: Model, rate: Option<real>, rates: seq<real>)
    requires Ring(b.filter, b.filterIdx, rates) && b.btlBw == MaxOf(b.filter)
    requires Filter(v) == FilterAfter(b, rate)
    ensures Ring(v.filter, v.filterIdx, if rate.Some? then rates + [rate.value] else rates)
    ensures v.btlBw == MaxOf(v.filter)
  {
    if rate.Some? {
      RingStep(b.filter, b.filterIdx, rates, rate.value);
    }
  }

  /** The state of the filter, for comparison. */
  function Filter(b: Model): (seq<real>, nat, real, real) { (b.filter, b.filterIdx, b.btlBw, b.prevRoundBw) }

  function FilterAfter(b: Model, rate: Option<real>): (seq<real>, nat, real, real)
    requires b.filterIdx < |b.filter| == FILTER_LEN
  {
    match rate
    case None => Filter(b)
    case Some(r) => (b.filter[b.filterIdx := r], (b.filterIdx + 1) % FILTER_LEN, MaxOf(b.filter[b.filterIdx := r]), r)
  }

  lemma RoundFilter(b: Model, now: int, rate: Option<real>)
    requires Sound(b)
    ensures Filter(Paced(Advance(NewRound(b, now, rate), now))) == FilterAfter(b, rate)
  {
    RoundSound(b, now, rate);
    assert Filter(Advance(NewRound(b, now, rate), now)) == Filter(NewRound(b, now, rate));
  }

  /** Only an event that ends a round with a rate touches the filter. */
  lemma FilterStep(b: Model, e: Event)
    requires Sound(b)
    ensures Filter(Apply(b, e)) == FilterAfter(b, RateOf(b, e))
  {
    if e.Acked? {
      var c := Counted(b, e.ack);
      if RoundEnd(c, e.ack).Some? {
        RoundFilter(c, e.ack.now, RoundRate(c.roundBytes, RoundEnd(c, e.ack).value));
      }
    }
  }

  /** After any run the bandwidth estimate is the largest of the last ten round rates. */
  lemma BandwidthIsWindowedMax(events: seq<Event>)
    ensures After(events).btlBw == MaxOf(LastRates(Rates(events)))
  {
    RingHolds(events);
    RingMax(After(events).filter, After(events).filterIdx, Rates(events));
  }

  // ----- bounds -----

  lemma BaseRateBound(rtProp: int)
    requires 0 < rtProp <= INITIAL_RT_PROP
    ensures BaseRate(rtProp) >= MIN_PACING_RATE
  {
    var s := Seconds(rtProp);
    assert 0.0 < s <= 0.1;
    assert MIN_CWND as real / s >= 20971520.0 by {
      assert MIN_CWND as real / s * s == MIN_CWND as real;
      assert 20971520.0 * s <= 2097152.0;
    }
  }

  ghost predicate InBounds(b: Model) {
    0 < b.rtProp <= INITIAL_RT_PROP && b.cwnd >= MIN_CWND && b.pacingRate >= MIN_PACING_RATE
  }

  lemma PacedInBounds(b: Model)
    requires 0 < b.rtProp <= INITIAL_RT_PROP
    ensures InBounds(Paced(b))
  {
  }

  lemma StepInBounds(b: Model, e: Event)
    requires Sound(b) && InBounds(b)
    ensures InBounds(Apply(b, e))
  {
    if e.TimedOut? {
      BaseRateBound(b.rtProp);
    } else if e.Acked? {
      var c := Counted(b, e.ack);
      if RoundEnd(c, e.ack).Some? {
        var n := NewRound(c, e.ack.now, RoundRate(c.roundBytes, RoundEnd(c, e.ack).value));
        RoundSound(c, e.ack.now, RoundRate(c.roundBytes, RoundEnd(c, e.ack).value));
        PacedInBounds(Advance(n, e.ack.now));
      }
    }
  }

  /**
   In every run the window and the pacing rate stay at or above their floors, right after a
   timeout too, and the round-trip estimate is positive and at most the initial 100 ms.
   */
  lemma {:induction false} RunsStayInBounds(events: seq<Event>)
    ensures InBounds(After(events))
    decreases |events|
  {
    if events == [] {
      BaseRateBound(INITIAL_RT_PROP);
    } else {
      RunsStayInBounds(events[..|events| - 1]);
      StepInBounds(After(events[..|events| - 1]), events[|events| - 1]);
    }
  }

  // ----- bytes -----

  /** The bytes of all events of one kind. */
  function SentBytes(e: Event): nat { if e.Sent? then e.bytes else 0 }

  function AckedBytes(e: Event): nat { if e.Acked? then e.ack.bytes else 0 }

  function DiscardedBytes(e: Event): nat { if e.Discarded? then e.bytes else 0 }

  function Sum(events: seq<Event>, of: Event -> nat): nat
    decreases |events|
  {
    if events == [] then 0 else Sum(events[..|events| - 1], of) + of(events[|events| - 1])
  }

  lemma BytesStep(b: Model, e: Event)
    requires Sound(b)
    ensures Apply(b, e).delivered == b.delivered + AckedBytes(e)
    ensures Apply(b, e).inFlight == b.inFlight + SentBytes(e) - AckedBytes(e) - DiscardedBytes(e)
  {
    if e.Acked? {
      var c := Counted(b, e.ack);
      if RoundEnd(c, e.ack).Some? {
        RoundBytes(c, e.ack.now, RoundRate(c.roundBytes, RoundEnd(c, e.ack).value));
      }
    }
  }

  /** The end of a round moves no bytes. */
  lemma RoundBytes(b: Model, now: int, rate: Option<real>)
    requires Sound(b)
    ensures var n := NewRound(b, now, rate);
            n.rtProp > 0 && Advance(n, now).rtProp > 0
    ensures var v := Paced(Advance(NewRound(b, now, rate), now)); (v.inFlight, v.delivered) == (b.inFlight, b.delivered)
  {
    RoundSound(b, now, rate);
    var n := NewRound(b, now, rate);
    assert (n.inFlight, n.delivered) == (b.inFlight, b.delivered);
    AdvanceBytes(n, now);
  }

  lemma AdvanceBytes(n: Model, now: int)
    ensures (Advance(n, now).inFlight, Advance(n, now).delivered) == (n.inFlight, n.delivered)
  {
  }

  /** Every byte sent is in flight, delivered or discarded, whatever rounds, losses and timeouts do. */
  lemma {:induction false} BytesConserved(events: seq<Event>)
    ensures After(events).delivered == Sum(events, AckedBytes)
    ensures After(events).inFlight + After(events).delivered + Sum(events, DiscardedBytes) == Sum(events, SentBytes)
    decreases |events|
  {
    if events != [] {
      BytesConserved(events[..|events| - 1]);
      BytesStep(After(events[..|events| - 1]), events[|events| - 1]);
    }
  }

  // ----- phases -----

  predicate MayFollow(p: Phase, q: Phase) {
    || p == q
    || (p.Startup? && q.Drain?)
    || (p.Drain? && q.ProbeBW?)
    || (p.ProbeBW? && q.ProbeRTT?)
    || (p.ProbeRTT? && q.ProbeBW?)
  }

  function Rank(p: Phase): nat { if p.Startup? then 0 else if p.Drain? then 1 else 2 }

  ghost predicate ReturnsToProbing(b: Model) { b.phase.ProbeRTT? ==> b.probeRTTLastPhase.ProbeBW? }

  lemma PhaseStep(b: Model, e: Event)
    requires Sound(b) && ReturnsToProbing(b)
    ensures ReturnsToProbing(Apply(b, e)) && MayFollow(b.phase, Apply(b, e).phase)
  {
  }

  lemma {:induction false} AlwaysReturnsToProbing(events: seq<Event>)
    ensures ReturnsToProbing(After(events))
    decreases |events|
  {
    if events != [] {
      AlwaysReturnsToProbing(events[..|events| - 1]);
      PhaseStep(After(events[..|events| - 1]), events[|events| - 1]);
    }
  }

  /**
   The phases go from Startup to Drain to ProbeBW and then alternate with ProbeRTT; no earlier
   phase is ever entered again, and the round-trip estimate never grows.
   */
  lemma {:induction false} PhasesOnlyAdvance(events: seq<Event>, i: nat)
    requires i <= |events|
    ensures Rank(After(events[..i]).phase) <= Rank(After(events).phase)
    ensures After(events).rtProp <= After(events[..i]).rtProp
    ensures i + 1 == |events| ==> MayFollow(After(events[..i]).phase, After(events).phase)
    decreases |events|
  {
    if i == |events| {
      assert events[..i] == events;
    } else {
      var before, last := events[..|events| - 1], events[|events| - 1];
      assert before[..i] == events[..i];
      PhasesOnlyAdvance(before, i);
      AlwaysReturnsToProbing(before);
      PhaseStep(After(before), last);
      ApplySound(After(before), last);
      assert i + 1 == |events| ==> events[..i] == before;
    }
  }

  /**
   When Startup ends. The comment in the source speaks of growth since the previous round, but
   the rate compared is that of the round just ended: Startup is left in the third round or
   later exactly when that rate is above four fifths of the windowed maximum.
   */
  lemma StartupExit(events: seq<Event>, e: Event, rate: real)
    requires After(events).phase.Startup? && RateOf(After(events), e) == Some(rate)
    ensures After(events + [e]).phase.Drain?
            <==> After(events).roundCount + 1 >= 3 && MaxOf(LastRates(Rates(events + [e]))) < 1.25 * rate
  {
    var all := events + [e];
    assert all[..|events|] == events && all[|events|] == e;
    BandwidthIsWindowedMax(all);
    ExitStep(After(events), e, rate);
  }

  lemma RatePositive(bytes: nat, duration: int)
    ensures RoundRate(bytes, duration).Some? ==> RoundRate(bytes, duration).value > 0.0
  {
    if bytes > 0 && duration > 0 {
      var x, y := bytes as real, Seconds(duration);
      assert x / y * y == x;
    }
  }

  lemma ExitStep(b: Model, e: Event, rate: real)
    requires Sound(b) && b.phase.Startup? && RateOf(b, e) == Some(rate)
    ensures rate > 0.0
    ensures Apply(b, e).phase.Drain? <==> b.roundCount + 1 >= 3 && Apply(b, e).btlBw < 1.25 * rate
  {
    FilterStep(b, e);
    var c := Counted(b, e.ack);
    RatePositive(c.roundBytes, RoundEnd(c, e.ack).value);
    ExitRound(NewRound(c, e.ack.now, Some(rate)), e.ack.now);
  }

  lemma ExitRound(n: Model, now: int)
    requires n.phase.Startup? && n.prevRoundBw > 0.0 && n.rtProp > 0
    ensures Paced(Advance(n, now)).btlBw == n.btlBw
    ensures Paced(Advance(n, now)).phase.Drain? <==> n.roundCount >= 3 && n.btlBw < 1.25 * n.prevRoundBw
  {
  }

  /** So a rate that is still growing, the best so far, ends Startup. */
  lemma GrowthEndsStartup(events: seq<Event>, e: Event, rate: real)
    requires After(events).phase.Startup? && RateOf(After(events), e) == Some(rate) && After(events).roundCount >= 2
    requires MaxOf(LastRates(Rates(events + [e]))) == rate
    ensures After(events + [e]).phase.Drain?
  {
    StartupExit(events, e, rate);
    ExitStep(After(events), e, rate);
    assert rate < 1.25 * rate;
  }
}
