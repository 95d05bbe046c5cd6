/**
 The end-to-end theorems. In every run the application reads a prefix of what was written,
 flow control holds and packets fit their buffers. Nothing is forgotten if and only if each
 acknowledgement is harmless in its turn, and then a sender with nothing left to resend has
 delivered all. Acknowledgements are harmless in every run in which packets arrive in time.
 */
module DeliveryTheorems {
  import opened Bytes
  import opened PacketNumber
  import opened AckRanges
  import opened Sender
  import opened Carrying
  import opened Frames
  import opened StreamIO
  import opened Reassembly
  import opened Delivery
  import opened DeliveryInvariant
  import opened DeliverySafety
  import opened DeliverySteps
  import opened DeliveryMemory
  import opened DeliveryProgress
  import opened DeliveryEnd
  import AckFrame

  // ----- in every run -----

  /** The application reads a prefix of what was written, and end-of-stream is never early. */
  lemma ReadsArePrefix(w: World, setup: seq<seq<byte>>, steps: seq<Step>)
    requires FreshStart(w, setup) && IsRun(w, steps)
    ensures var v := After(w, steps);
            && v.peer.delivered <= Concat(v.segs)
            && v.peer.recv.reassembly <= |Concat(v.segs)|
            && v.peer.delivered + v.peer.recv.readBuf == Concat(v.segs)[..v.peer.recv.reassembly]
            && (v.peer.recv.finRead ==> v.closed && v.peer.delivered + v.peer.recv.readBuf == Concat(v.segs))
  {
    StartSafe(w, setup);
    RunSafe(w, steps);
    var v := After(w, steps);
    SegmentInSource(v.segs, 0);
    assert v.peer.delivered <= v.peer.delivered + v.peer.recv.readBuf;
  }

  /**
   Flow control in every interleaving: the writer stays within its window, its window within
   what the peer granted, and the peer's grant at least half a window ahead of reassembly.
   And it never blocks for good: once every packet sent and every window granted has arrived, the peer
   has reassembled all and the next chunk is let through.
   */
  lemma FlowControlHolds(w: World, setup: seq<seq<byte>>, steps: seq<Step>)
    requires FreshStart(w, setup) && IsRun(w, steps)
    ensures var v := After(w, steps);
            && Total(v.segs) <= v.maxData <= v.peer.recv.readMaxData
            && v.peer.recv.readMaxData - v.peer.recv.reassembly >= UPDATE_THRESHOLD
            && (AllArrived(v) ==> v.peer.recv.reassembly == Total(v.segs) && Total(v.segs) + WRITE_CHUNK <= v.maxData)
  {
    RunOffers(w, setup, steps);
    var v := After(w, steps);
    if AllArrived(v) {
      SegmentsArrived(v);
      AllReassembled(v);
    }
  }

  /**
   End-of-stream, over every run: it is reported if and only if the peer has handled every
   segment and a packet with the FIN came while data was still missing.
   */
  lemma EndOfStreamInRuns(w: World, setup: seq<seq<byte>>, steps: seq<Step>)
    requires FreshStart(w, setup) && IsRun(w, steps)
    ensures After(w, steps).peer.recv.finRead <==> FinCameEarly(w, steps) && AllHandled(After(w, steps))
  {
    RunEnd(w, setup, steps);
    var v := After(w, steps);
    MissingExact(GotIn(v), |v.segs|);
  }

  /**
   Close takes the FIN for sent before it sends it. If sendFrame refuses it, no run ever reports
   the end of the stream, even when all data has arrived.
   */
  lemma RefusedFinIsLost(w: World, setup: seq<seq<byte>>, steps: seq<Step>)
    requires FreshStart(w, setup) && IsRun(w, steps) && Close(false) in steps
    ensures !After(w, steps).peer.recv.finRead && !FinCameEarly(w, steps)
  {
    RefusedExact(steps);
    RefusedNeverEnds(w, setup, steps);
    RunEnd(w, setup, steps);
    EarlyIsUnique(After(w, steps), FinCameEarly(w, steps));
  }

  lemma EarlyIsUnique(v: World, early: bool)
    requires NeverEnds(v) && EndInv(v, early)
    ensures !v.peer.recv.finRead && !early
  {
    assert Reassembled(v.peer.recv, v.segs, GotIn(v.(closed := false)), false);
    assert GotIn(v.(closed := false)) == GotIn(v);
  }

  /**
   No tracked or queued packet, original or copy, is longer than the fixed buffer it is kept
   in, so cutting its payload out again finds all of it there.
   */
  lemma PacketsFitBuffers(w: World, setup: seq<seq<byte>>, steps: seq<Step>)
    requires FreshStart(w, setup) && IsRun(w, steps)
    ensures var s := After(w, steps).sender;
            forall p :: p in s.history + s.queue && !IsLong(p) ==> |p.buf| <= MAX_BUFFER_SIZE
  {
    StartSafe(w, setup);
    RunSafe(w, steps);
    var v := After(w, steps);
    forall p | p in v.sender.history + v.sender.queue && !IsLong(p) ensures |p.buf| <= MAX_BUFFER_SIZE {
      assert Framed(v.sender.connId, p, Payloads(v.sender.connId, v.wire));
    }
  }

  /**
   Each segment Write sent has been handled by the peer or sits in the payload of a packet
   that is still tracked and not acknowledged: through any mix of losses, timeouts, failed
   writes, renumbered retransmissions, compaction and arrivals however late this holds all
   along a run if and only if each ACK is harmless when it arrives.
   */
  lemma NothingIsForgotten(w: World, setup: seq<seq<byte>>, steps: seq<Step>)
    requires FreshStart(w, setup) && IsRun(w, steps)
    ensures AlwaysRemembers(w, steps) <==> AcksHarmless(w, steps)
  {
    StartSafe(w, setup);
    RunRemembers(w, steps);
  }

  /**
   Quiescence means delivery: when the sender waits for no acknowledgement any more, the peer
   has reassembled every byte written, if and only if nothing is forgotten; and so it has if
   each ACK was harmless.
   */
  lemma QuiescenceMeansDelivery(w: World, setup: seq<seq<byte>>, steps: seq<Step>)
    requires FreshStart(w, setup) && IsRun(w, steps)
    requires NothingOutstanding(After(w, steps).sender.history)
    ensures var v := After(w, steps);
            && (v.peer.recv.reassembly == Total(v.segs) <==> Remembers(v))
            && (AcksHarmless(w, steps) ==>
                  && v.peer.recv.reassembly == Total(v.segs)
                  && v.peer.delivered + v.peer.recv.readBuf == Concat(v.segs))
  {
    StartSafe(w, setup);
    RunSafe(w, steps);
    RunRemembers(w, steps);
    QuiescentMemory(After(w, steps));
    AllReassembled(After(w, steps));
  }

  // ----- in every run with timely arrivals -----

  /** A true ACK is harmless: the packets it covers were handled. */
  lemma TruthIsHarmless(w: World, ranges: seq<AckFrame.AckRange>)
    requires Inv(w) && ranges in w.acks
    ensures HarmlessAck(w, ranges)
  {
    forall i: nat | i < |w.segs|
      ensures || HandledSegment(w.handled, w.sender.connId, w.id, w.segs, i)
              || HeldBeyond(w.sender.history, ranges, w.sender.connId, w.id, w.segs, i)
    {
      if HeldSegment(w.sender.history, w.sender.connId, w.id, w.segs, i) {
        HeldExact(w.sender.history, w.sender.connId, w.id, w.segs, i);
        var p :| p in w.sender.history && Holds(p, w.sender.connId, w.id, w.segs, i);
        if Covers(ranges, p.pn) {
          AcknowledgedWasHandled(w.sender.history, w.wire, w.handled, w.setup, p);
          assert PayloadIn(w.sender.connId, Datagram(p.pn, p.buf)) == PayloadOf(w.sender.connId, p);
        }
      }
    }
  }

  lemma SendingStepTruthful(w: World, step: Step)
    requires Truthful(w) && Enabled(w, step)
    requires step.Write? || step.Close? || step.QueueControl? || step.SendOther? || step.SetSize?
    ensures Truthful(Do(w, step))
  {
  }

  lemma FlushTruthful(w: World, fails: set<nat>)
    requires Safe(w) && Truthful(w)
    ensures Truthful(AfterFlush(w, fails))
  {
    var t := FlushQueue(w.sender, fails);
    FlushOldEntries(w.sender, fails);
    forall d | d in OnWire(t.history) ensures w.setup <= d.pn {
      if d.pn < w.sender.nextPN {
        NewIsOld(w.sender, t, w.wire, d);
      }
    }
  }

  lemma RecoveryStepTruthful(w: World, step: Step)
    requires Safe(w) && Truthful(w) && Enabled(w, step)
    requires step.AckArrives? || step.TimeoutFires? || step.QueueFlushed? || step.LimitArrives?
    ensures Truthful(Do(w, step))
  {
    if step.QueueFlushed? {
      FlushTruthful(w, step.fails);
    }
  }

  lemma ArrivalTruthful(w: World, d: Datagram)
    requires Safe(w) && Truthful(w) && d in w.wire && Timely(w, PacketArrives(d))
    ensures Truthful(AfterArrival(w, d))
  {
    assert OnTheWire(d, w.sender, w.id, w.segs, w.closed);
    ReceiveInTime(w.peer, d, w.sender.connId, w.id);
    PeerAfter(w.handled, w.setup, w.peer.recorded, w.acks, d);
  }

  lemma SetupTruthful(w: World)
    requires Truthful(w) && w.setup > 0 && Timely(w, SetupArrives)
    ensures Truthful(w.(peer := ReceiveSetup(w.peer)))
  {
    DecodeExact(4, w.peer.largest, 0);
    assert Truncated(0, 4) == 0;
    RecordedTrue(w.handled, w.setup, w.peer.recorded, w.acks, 0);
  }

  lemma EmitAckTruthful(w: World, ranges: seq<AckFrame.AckRange>)
    requires Truthful(w) && Takes(w, EmitAck(ranges))
    ensures Truthful(w.(acks := w.acks + {ranges}))
  {
    forall pn: int | Covers(ranges, pn) ensures TrueNumber(w.handled, w.setup, pn) {
      assert pn in w.peer.recorded;
    }
  }

  lemma PeerStepTruthful(w: World, step: Step)
    requires Safe(w) && Truthful(w) && Takes(w, step) && Timely(w, step)
    requires step.PacketArrives? || step.SetupArrives? || step.ReadStream? || step.EmitAck?
    ensures Truthful(Do(w, step))
  {
    match step
    case PacketArrives(d) => ArrivalTruthful(w, d);
    case SetupArrives => SetupTruthful(w);
    case ReadStream(n) =>
    case EmitAck(ranges) => EmitAckTruthful(w, ranges);
  }

  lemma StepTruthful(w: World, step: Step)
    requires Safe(w) && Truthful(w) && Takes(w, step) && Timely(w, step)
    ensures Truthful(Do(w, step))
  {
    if step.PacketArrives? || step.SetupArrives? || step.ReadStream? || step.EmitAck? {
      PeerStepTruthful(w, step);
    } else if step.AckArrives? || step.TimeoutFires? || step.QueueFlushed? || step.LimitArrives? {
      RecoveryStepTruthful(w, step);
    } else {
      SendingStepTruthful(w, step);
    }
  }

  /** Every step keeps the whole invariant, if a packet that arrives does so in time. */
  lemma StepKeeps(w: World, step: Step)
    requires Inv(w) && Takes(w, step) && Timely(w, step)
    ensures Inv(Do(w, step)) && HarmlessStep(w, step)
  {
    StepSafe(w, step);
    StepTruthful(w, step);
    if step.AckArrives? {
      TruthIsHarmless(w, step.ranges);
    }
    StepRemembers(w, step);
  }

  lemma StartInv(w: World, setup: seq<seq<byte>>)
    requires FreshStart(w, setup)
    ensures Inv(w)
  {
    StartSafe(w, setup);
    SetupNumbered(w.sender.connId, setup);
  }

  lemma {:induction false} SetupNumbered(connId: seq<byte>, setup: seq<seq<byte>>)
    ensures Setup(connId, setup).nextPN == |setup|
    decreases |setup|
  {
    if setup != [] {
      SetupNumbered(connId, setup[..|setup| - 1]);
    }
  }

  /** When packets arrive in time, every ACK is harmless, and so nothing is ever forgotten. */
  lemma {:induction false} TimelyRunsRemember(w: World, setup: seq<seq<byte>>, steps: seq<Step>)
    requires FreshStart(w, setup) && IsRun(w, steps) && AllTimely(w, steps)
    ensures AcksHarmless(w, steps) && AlwaysRemembers(w, steps) && Inv(After(w, steps))
    decreases |steps|
  {
    StartInv(w, setup);
    if steps != [] {
      RunPrefix(w, steps);
      TimelyRunsRemember(w, setup, steps[..|steps| - 1]);
      StepKeeps(After(w, steps[..|steps| - 1]), steps[|steps| - 1]);
    }
  }
}
