/** The NewReno congestion controller (congestion.go), in bytes. */
module NewReno {
  import opened Bytes

  const DATAGRAM := 1200
  const MIN_CWND := 2 * DATAGRAM
  const INITIAL_SSTHRESH := 0x7fff_ffff

  datatype Window = Window(cwnd: int, ssthresh: int, inFlight: int, inRecovery: bool, recoveryPoint: int)

  const INITIAL := Window(10 * DATAGRAM, INITIAL_SSTHRESH, 0, false, 0)

  /** A packet of `bytes` bytes is sent; CanSend was asked, if at all, for the `asked` bytes of its data. */
  datatype Event =
    | Sent(bytes: nat, asked: nat)
    | Acked(bytes: nat, pn: int)
    | Lost(pn: int)
    | Discarded(bytes: nat)
    | TimedOut

  /** By how much an ACK opens the window outside slow start: never by nothing. */
  function Increase(cwnd: int, bytes: nat): (n: int)
    requires cwnd > 0
    ensures n >= 1
  {
    Max(bytes * DATAGRAM / cwnd, 1)
  }

  /** The window after an ACK that counts. */
  function Grown(w: Window, bytes: nat): int
    requires w.cwnd > 0
  {
    if w.cwnd < w.ssthresh
    then if w.cwnd + bytes > w.ssthresh && w.ssthresh > 0 then w.ssthresh else w.cwnd + bytes
    else w.cwnd + Increase(w.cwnd, bytes)
  }

  /** An ACK for a packet sent before the recovery began opens nothing. */
  predicate Ignored(w: Window, pn: int) { w.inRecovery && pn <= w.recoveryPoint }

  function OnAcked(w: Window, bytes: nat, pn: int): Window {
    var v := w.(cwnd := if w.cwnd <= 0 then MIN_CWND else w.cwnd, inFlight := w.inFlight - bytes);
    if Ignored(w, pn) then v else v.(inRecovery := false, cwnd := Grown(v, bytes))
  }

  function Halved(cwnd: int): int { Max(cwnd / 2, MIN_CWND) }

  function OnLost(w: Window, pn: int): Window {
    if w.inRecovery then w
    else w.(inRecovery := true, recoveryPoint := pn, ssthresh := Halved(w.cwnd), cwnd := Halved(w.cwnd))
  }

  function Apply(w: Window, e: Event): Window {
    match e
    case Sent(bytes, _) => w.(inFlight := w.inFlight + bytes)
    case Acked(bytes, pn) => OnAcked(w, bytes, pn)
    case Lost(pn) => OnLost(w, pn)
    case Discarded(bytes) => w.(inFlight := w.inFlight - bytes)
    case TimedOut => w.(inRecovery := false, ssthresh := Halved(w.cwnd), cwnd := MIN_CWND)
  }

  function ApplyAll(w: Window, events: seq<Event>): Window
    decreases |events|
  {
    if events == [] then w else Apply(ApplyAll(w, events[..|events| - 1]), events[|events| - 1])
  }

  /** During recovery one more datagram than the window is let through. */
  function Allowance(w: Window): int { w.cwnd + if w.inRecovery then DATAGRAM else 0 }

  predicate Admits(w: Window, bytes: int) { w.inFlight + bytes <= Allowance(w) }

  class Controller {
    var cwnd: int
    var ssthresh: int
    var bytesInFlight: int
    var inRecovery: bool
    var recoveryPoint: int

    function State(): Window
      reads this
    {
      Window(cwnd, ssthresh, bytesInFlight, inRecovery, recoveryPoint)
    }

    constructor ()
      ensures State() == INITIAL
    {
      cwnd, ssthresh, bytesInFlight := 10 * DATAGRAM, INITIAL_SSTHRESH, 0;
      inRecovery, recoveryPoint := false, 0;
    }

    method OnPacketSent(bytes: nat, ghost asked: nat)
      modifies this
      ensures State() == Apply(old(State()), Sent(bytes, asked))
    {
      bytesInFlight := bytesInFlight + bytes;
    }

    method OnPacketAcked(ackedBytes: nat, packetNumber: int) returns (updated: bool)
      modifies this
      ensures State() == Apply(old(State()), Acked(ackedBytes, packetNumber))
      ensures updated == !Ignored(old(State()), packetNumber)
    {
      if cwnd <= 0 {
        cwnd := MIN_CWND;
      }
      if inRecovery {
        if packetNumber <= recoveryPoint {
          bytesInFlight := bytesInFlight - ackedBytes;
          return false;
        }
        inRecovery := false;
      }
      bytesInFlight := bytesInFlight - ackedBytes;
      if cwnd < ssthresh {
        var newCwnd := cwnd + ackedBytes;
        if newCwnd > ssthresh && ssthresh > 0 {
          newCwnd := ssthresh;
        }
        cwnd := newCwnd;
      } else {
        var increase := ackedBytes * DATAGRAM / cwnd;
        var newCwnd := cwnd + increase;
        if newCwnd <= cwnd {
          newCwnd := cwnd + 1;
        }
        cwnd := newCwnd;
      }
      updated := true;
    }

    method OnPacketLost(largestSentPN: int)
      modifies this
      ensures State() == Apply(old(State()), Lost(largestSentPN))
    {
      if inRecovery {
        return;
      }
      inRecovery := true;
      recoveryPoint := largestSentPN;
      var newSsthresh := cwnd / 2;
      if newSsthresh < MIN_CWND {
        newSsthresh := MIN_CWND;
      }
      ssthresh := newSsthresh;
      cwnd := newSsthresh;
    }

    method OnPacketDiscarded(bytes: nat)
      modifies this
      ensures State() == Apply(old(State()), Discarded(bytes))
    {
      bytesInFlight := bytesInFlight - bytes;
    }

    method OnPacketNeedsRetransmit()
      modifies this
      ensures State() == Apply(old(State()), TimedOut)
    {
      inRecovery := false;
      ssthresh := cwnd / 2;
      if ssthresh < MIN_CWND {
        ssthresh := MIN_CWND;
      }
      cwnd := MIN_CWND;
    }

    method CanSend(bytes: int) returns (ok: bool)
      ensures ok <==> Admits(State(), bytes)
      ensures ok <==> bytesInFlight + bytes <= cwnd || (inRecovery && bytesInFlight + bytes <= cwnd + 1200)
    {
      if inRecovery {
        return bytesInFlight + bytes <= cwnd + DATAGRAM;
      }
      return bytesInFlight + bytes <= cwnd;
    }
  }

  // ----- whole runs -----

  ghost predicate Floored(w: Window) { w.cwnd >= MIN_CWND && w.ssthresh >= MIN_CWND }

  /** Window and threshold never fall below two datagrams, whatever happens. */
  lemma {:induction false} RunsStayFloored(events: seq<Event>)
    ensures Floored(ApplyAll(INITIAL, events))
    decreases |events|
  {
    if events != [] {
      RunsStayFloored(events[..|events| - 1]);
    }
  }

  /** What takes the bytes in flight up and down. */
  function Change(e: Event): int {
    if e.Sent? then e.bytes else if e.Acked? || e.Discarded? then 0 - e.bytes else 0
  }

  function Balance(events: seq<Event>): int
    decreases |events|
  {
    if events == [] then 0
    else
      Balance(events[..|events| - 1]) + Change(events[|events| - 1])
  }

  /** No loss, timeout or recovery ever disturbs the count of bytes in flight. */
  lemma {:induction false} FlightIsBalance(w: Window, events: seq<Event>)
    ensures ApplyAll(w, events).inFlight == w.inFlight + Balance(events)
    decreases |events|
  {
    if events != [] {
      FlightIsBalance(w, events[..|events| - 1]);
    }
  }

  // ----- what admission gives -----

  /** The largest allowance there was at any time of the run. */
  function Peak(w: Window, events: seq<Event>): int
    decreases |events|
  {
    if events == [] then Allowance(w)
    else Max(Peak(w, events[..|events| - 1]), Allowance(ApplyAll(w, events)))
  }

  /** Bytes of the packets that CanSend would not have let through: control frames and retransmissions. */
  function Forced(w: Window, events: seq<Event>): nat
    decreases |events|
  {
    if events == [] then 0
    else
      var before, e := events[..|events| - 1], events[|events| - 1];
      Forced(w, before) + if e.Sent? && !Admits(ApplyAll(w, before), e.asked) then e.bytes else 0
  }

  /**
   Over every run the flight stays within the largest allowance, up to what a packet holds
   besides the data CanSend was asked for and the bytes sent without its leave.
   */
  lemma {:induction false} FlightBound(w: Window, events: seq<Event>, overhead: nat)
    requires w.inFlight <= Allowance(w) + overhead
    requires forall i :: 0 <= i < |events| && events[i].Sent? ==> events[i].bytes <= events[i].asked + overhead
    ensures ApplyAll(w, events).inFlight <= Peak(w, events) + overhead + Forced(w, events)
    decreases |events|
  {
    if events != [] {
      var before := events[..|events| - 1];
      assert forall i :: 0 <= i < |before| ==> before[i] == events[i];
      FlightBound(w, before, overhead);
      PeakCovers(w, before);
      FlightStep(ApplyAll(w, before), events[|events| - 1], Peak(w, before), overhead, Forced(w, before));
    }
  }

  lemma FlightStep(w: Window, e: Event, peak: int, overhead: nat, forced: nat)
    requires Allowance(w) <= peak && w.inFlight <= peak + overhead + forced
    requires e.Sent? ==> e.bytes <= e.asked + overhead
    ensures Apply(w, e).inFlight <= peak + overhead + forced + if e.Sent? && !Admits(w, e.asked) then e.bytes else 0
  {
  }

  lemma PeakCovers(w: Window, events: seq<Event>)
    ensures Peak(w, events) >= Allowance(ApplyAll(w, events))
  {
  }

  /** Until recovery ends: no timeout, and no ACK for a packet above the recovery point. */
  predicate WithinRecovery(events: seq<Event>, point: int) {
    forall i :: 0 <= i < |events| ==> !events[i].TimedOut? && (events[i].Acked? ==> events[i].pn <= point)
  }

  /** However many packets one episode loses, the window is halved once. */
  lemma {:induction false} OneReductionPerEpisode(w: Window, events: seq<Event>, point: int)
    requires Floored(w) && !w.inRecovery && WithinRecovery(events, point)
    ensures var v := ApplyAll(OnLost(w, point), events);
            && v.inRecovery && v.recoveryPoint == point
            && v.cwnd == v.ssthresh == if w.cwnd >= 4800 then w.cwnd / 2 else 2400
    decreases |events|
  {
    if events != [] {
      var before := events[..|events| - 1];
      assert forall i :: 0 <= i < |before| ==> before[i] == events[i];
      OneReductionPerEpisode(w, before, point);
    }
  }

  /** The episode ends with the first ACK above the recovery point, which already opens the window again. */
  lemma RecoveryEnds(w: Window, events: seq<Event>, point: int, bytes: nat, pn: int)
    requires Floored(w) && !w.inRecovery && WithinRecovery(events, point) && pn > point
    ensures var half, v := if w.cwnd >= 4800 then w.cwnd / 2 else 2400,
                           ApplyAll(OnLost(w, point), events + [Acked(bytes, pn)]);
            !v.inRecovery && v.ssthresh == half && v.cwnd == Grow(half, [bytes])
  {
    assert (events + [Acked(bytes, pn)])[..|events|] == events;
    assert [bytes][..0] == [];
    OneReductionPerEpisode(w, events, point);
  }

  /** A timeout ends any episode and leaves two datagrams, whatever the run before. */
  lemma TimeoutCollapses(w: Window, events: seq<Event>)
    ensures var b, v := ApplyAll(w, events), ApplyAll(w, events + [TimedOut]);
            && v.cwnd == 2400 && !v.inRecovery && v.inFlight == b.inFlight
            && v.ssthresh == if b.cwnd >= 4800 then b.cwnd / 2 else 2400
  {
    assert (events + [TimedOut])[..|events|] == events;
  }

  // ----- slow start and congestion avoidance -----

  /** Below the threshold the window grows by every byte acknowledged. */
  lemma {:induction false} SlowStartGrows(w: Window, acks: seq<nat>, pn: int)
    requires Floored(w) && !w.inRecovery && w.cwnd + Sum(acks) < w.ssthresh
    ensures var v := ApplyAll(w, AckEvents(acks, pn));
            v.cwnd == w.cwnd + Sum(acks) && v.ssthresh == w.ssthresh && !v.inRecovery
    decreases |acks|
  {
    if acks != [] {
      var before := acks[..|acks| - 1];
      SlowStartGrows(w, before, pn);
      assert AckEvents(acks, pn)[..|acks| - 1] == AckEvents(before, pn);
    }
  }

  /** The ACK that would take it past the threshold takes it there. */
  lemma SlowStartStops(w: Window, acks: seq<nat>, pn: int)
    requires Floored(w) && !w.inRecovery && acks != [] && w.cwnd + Sum(acks[..|acks| - 1]) < w.ssthresh
    ensures var v := ApplyAll(w, AckEvents(acks, pn));
            v.cwnd == if w.cwnd + Sum(acks) <= w.ssthresh then w.cwnd + Sum(acks) else w.ssthresh
  {
    var before := acks[..|acks| - 1];
    SlowStartGrows(w, before, pn);
    assert AckEvents(acks, pn)[..|acks| - 1] == AckEvents(before, pn);
  }

  /** The windows that a series of counted ACKs of these sizes goes through. */
  function Grow(cwnd: int, acks: seq<nat>): (c: int)
    requires cwnd > 0
    ensures c >= cwnd + |acks|
    decreases |acks|
  {
    if acks == [] then cwnd
    else
      var c := Grow(cwnd, acks[..|acks| - 1]);
      c + Increase(c, acks[|acks| - 1])
  }

  function Sum(acks: seq<nat>): nat
    decreases |acks|
  {
    if acks == [] then 0 else Sum(acks[..|acks| - 1]) + acks[|acks| - 1]
  }

  function AckEvents(acks: seq<nat>, pn: int): (events: seq<Event>)
    ensures |events| == |acks| && forall i :: 0 <= i < |acks| ==> events[i] == Acked(acks[i], pn)
  {
    seq(|acks|, i requires 0 <= i < |acks| => Acked(acks[i], pn))
  }

  /** At or above the threshold every ACK is one of congestion avoidance, and stays so. */
  lemma {:induction false} AvoidanceGrows(w: Window, acks: seq<nat>, pn: int)
    requires Floored(w) && w.cwnd >= w.ssthresh && !w.inRecovery
    ensures var v := ApplyAll(w, AckEvents(acks, pn));
            v.cwnd == Grow(w.cwnd, acks) && v.ssthresh == w.ssthresh && !v.inRecovery
    decreases |acks|
  {
    if acks != [] {
      var before := acks[..|acks| - 1];
      AvoidanceGrows(w, before, pn);
      assert AckEvents(acks, pn)[..|acks| - 1] == AckEvents(before, pn);
    }
  }

  lemma IncreaseBound(start: int, cwnd: int, bytes: nat)
    requires 0 < start <= cwnd
    ensures (Increase(cwnd, bytes) - 1) * start <= bytes * DATAGRAM
  {
    var q := bytes * DATAGRAM / cwnd;
    assert q * cwnd <= bytes * DATAGRAM;
    assert q >= 0;
    assert q * start <= q * cwnd by {
      assert q * (cwnd - start) >= 0;
    }
    if q >= 1 {
      assert (q - 1) * start == q * start - start;
    }
  }

  /**
   n ACKs of congestion avoidance that cover S bytes grow a window W by at least n and by at
   most 1200 S / W + n; the bound is stated multiplied by W.
   */
  lemma {:induction false} AvoidanceBound(cwnd: int, acks: seq<nat>)
    requires cwnd > 0
    ensures cwnd + |acks| <= Grow(cwnd, acks)
    ensures (Grow(cwnd, acks) - cwnd - |acks|) * cwnd <= DATAGRAM * Sum(acks)
    decreases |acks|
  {
    if acks != [] {
      var before, last := acks[..|acks| - 1], acks[|acks| - 1];
      AvoidanceBound(cwnd, before);
      var c := Grow(cwnd, before);
      IncreaseBound(cwnd, c, last);
      OneMoreAck(cwnd, c - cwnd - |before|, Increase(c, last) - 1, DATAGRAM * Sum(before), last * DATAGRAM);
      assert DATAGRAM * Sum(acks) == DATAGRAM * Sum(before) + last * DATAGRAM;
    }
  }

  lemma OneMoreAck(cwnd: int, grown: int, more: int, bound: int, extra: int)
    requires grown * cwnd <= bound && more * cwnd <= extra
    ensures (grown + more) * cwnd <= bound + extra
  {
  }

  /** And by at least 1200 S / W' - n, where W' is the window that is reached. */
  lemma {:induction false} AvoidanceGains(cwnd: int, acks: seq<nat>)
    requires cwnd > 0
    ensures (Grow(cwnd, acks) - cwnd + |acks|) * Grow(cwnd, acks) >= 1200 * Sum(acks)
    decreases |acks|
  {
    if acks != [] {
      var before, last := acks[..|acks| - 1], acks[|acks| - 1];
      AvoidanceGains(cwnd, before);
      var c := Grow(cwnd, before);
      IncreaseGains(c, last);
      OneMoreGain(c - cwnd + |before|, c, Increase(c, last), 1200 * Sum(before), 1200 * last);
    }
  }

  lemma IncreaseGains(cwnd: int, bytes: nat)
    requires cwnd > 0
    ensures (Increase(cwnd, bytes) + 1) * cwnd >= 1200 * bytes
  {
    var q := bytes * DATAGRAM / cwnd;
    assert (q + 1) * cwnd > bytes * DATAGRAM;
    if q < 1 {
      assert q == 0;
    }
  }

  lemma OneMoreGain(grown: int, c: int, more: int, bound: int, extra: int)
    requires c > 0 && grown >= 0 && more >= 0 && grown * c >= bound && (more + 1) * c >= extra
    ensures (grown + more + 1) * (c + more) >= bound + extra
  {
    assert (grown + more + 1) * (c + more) == grown * c + (more + 1) * c + (grown + more + 1) * more;
    assert (grown + more + 1) * more >= 0;
  }

  lemma BoundOn(cwnd: int, acks: seq<nat>, after: int)
    requires cwnd > 0 && after == Grow(cwnd, acks)
    ensures cwnd + |acks| <= after
    ensures (after - cwnd - |acks|) * cwnd <= DATAGRAM * Sum(acks)
    ensures (after - cwnd + |acks|) * after >= 1200 * Sum(acks)
  {
    AvoidanceBound(cwnd, acks);
    AvoidanceGains(cwnd, acks);
  }

  lemma WindowReached(w: Window, acks: seq<nat>, pn: int, after: int)
    requires Floored(w) && w.cwnd >= w.ssthresh && !w.inRecovery
    requires after == ApplyAll(w, AckEvents(acks, pn)).cwnd
    ensures after == Grow(w.cwnd, acks)
  {
    AvoidanceGrows(w, acks, pn);
  }

  lemma WindowGrowth(w: Window, acks: seq<nat>, pn: int, after: int)
    requires Floored(w) && w.cwnd >= w.ssthresh && !w.inRecovery
    requires after == ApplyAll(w, AckEvents(acks, pn)).cwnd
    ensures w.cwnd + |acks| <= after
    ensures (after - w.cwnd - |acks|) * w.cwnd <= DATAGRAM * Sum(acks)
    ensures (after - w.cwnd + |acks|) * after >= 1200 * Sum(acks)
  {
    WindowReached(w, acks, pn, after);
    BoundOn(w.cwnd, acks, after);
  }
}
