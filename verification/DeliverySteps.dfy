/**
 Safety of every step, with no assumption on when packets arrive: what is on the wire keeps
 its meaning and its size, the peer reassembles a prefix, and flow control holds.
 */
module DeliverySteps {
  import opened Bytes
  import opened Sender
  import opened Carrying
  import opened Frames
  import opened Packing
  import opened StreamIO
  import opened Reassembly
  import opened Delivery
  import opened DeliveryInvariant
  import opened DeliverySafety
  import AckFrame
  import StreamFrame

  // ----- the writer -----

  function DataPayload(w: World, chunk: seq<byte>): seq<byte> { Payload(FramesWith(w, DataFrame(w, chunk))) }

  /** What a turn of the write loop puts into a packet: the first bytes of the chunk, at least one. */
  lemma DataBrought(w: World, chunk: seq<byte>)
    requires Static(w) && Enabled(w, Write(chunk))
    ensures var data := DataFrame(w, chunk).data;
            && data != [] && data <= chunk
            && BringsSegment(DataPayload(w, chunk), w.id, Total(w.segs), data)
    ensures FitsBuffer(w.sender.connId, DataPayload(w, chunk))
  {
    var whole, f := StreamFrame.Stream(w.id, Total(w.segs), chunk, false, true), DataFrame(w, chunk);
    TruncateFits(whole, |w.sender.connId|, w.maxPacketSize);
    StreamPayloadEffect(f, |HeaderNow(w)|, w.control, w.maxPacketSize, FramesWith(w, f));
    StreamPacketFits(whole, w.sender.connId, w.sender.nextPN, w.control, w.maxPacketSize);
    SafeSizeFits(w.sender.connId, w.sender.nextPN, DataPayload(w, chunk));
  }

  lemma WriteSafe(w: World, chunk: seq<byte>)
    requires Safe(w) && Enabled(w, Write(chunk))
    ensures Safe(AfterWrite(w, chunk))
  {
    DataBrought(w, chunk);
    SegmentSafe(w, DataPayload(w, chunk), DataFrame(w, chunk).data);
  }

  /** The state after a segment has been sent in a packet with this payload. */
  lemma SegmentSafe(w: World, payload: seq<byte>, data: seq<byte>)
    requires Safe(w) && !w.closed && data != [] && FitsBuffer(w.sender.connId, payload)
    requires Total(w.segs) + |data| <= w.maxData
    requires BringsSegment(payload, w.id, Total(w.segs), data)
    ensures var d := Datagram(w.sender.nextPN, HeaderNow(w) + payload);
            Safe(w.(sender := Send(w.sender, payload, true), control := [], wire := w.wire + {d},
                    segs := w.segs + [data]))
  {
    var segs' := w.segs + [data];
    forall x | Good(x, w.id, w.segs, false) ensures Good(x, w.id, segs', false) {
      GoodExtended(x, w.id, w.segs, data);
    }
    WireRelabelled(w.sender, w.wire, w.id, w.segs, false, segs', false);
    LastBrought(payload, w.id, w.segs, data);
    TransmitWire(w.sender, w.wire, w.id, segs', false, payload);
    WrittenStream(w, data);
  }

  lemma HandledAreGood(s: Sender, wire: set<Datagram>, handled: set<Datagram>, id: nat, segs: seq<seq<byte>>,
                       closed: bool)
    requires WireInv(s, wire, id, segs, closed) && handled <= wire
    ensures forall d :: d in handled ==> Good(PayloadIn(s.connId, d), id, segs, closed)
  {
    forall d | d in handled ensures Good(PayloadIn(s.connId, d), id, segs, closed) {
      assert OnTheWire(d, s, id, segs, closed);
    }
  }

  lemma GotUnchanged(w: World, data: seq<byte>)
    requires Safe(w) && !w.closed && data != []
    ensures Got(w.handled, w.sender.connId, w.id, w.segs + [data]) == GotIn(w)
    ensures |w.segs| !in GotIn(w)
  {
    HandledAreGood(w.sender, w.wire, w.handled, w.id, w.segs, w.closed);
    GotAfterWrite(w.handled, w.sender.connId, w.id, w.segs, data);
  }

  lemma WrittenStream(w: World, data: seq<byte>)
    requires Safe(w) && !w.closed && data != [] && Total(w.segs) + |data| <= w.maxData
    ensures Proper(w.segs + [data])
    ensures StreamInv(w.peer.recv, w.peer.delivered, w.segs + [data],
                      Got(w.handled, w.sender.connId, w.id, w.segs + [data]), false)
    ensures FlowInv(w.peer.recv, w.maxData, w.limits, w.segs + [data])
  {
    GotUnchanged(w, data);
    StreamExtended(w.peer.recv, w.peer.delivered, w.segs, GotIn(w), data);
    FlowExtended(w.peer.recv, w.maxData, w.limits, w.segs, data);
  }

  lemma FlowExtended(recv: Recv, maxData: nat, limits: set<nat>, segs: seq<seq<byte>>, data: seq<byte>)
    requires FlowInv(recv, maxData, limits, segs) && Total(segs) + |data| <= maxData
    ensures FlowInv(recv, maxData, limits, segs + [data])
  {
    OffExtended(segs, data, |segs|);
  }

  lemma StreamExtended(recv: Recv, delivered: seq<byte>, segs: seq<seq<byte>>, got: set<nat>, data: seq<byte>)
    requires StreamInv(recv, delivered, segs, got, false) && data != [] && |segs| !in got
    ensures StreamInv(recv, delivered, segs + [data], got, false)
  {
    SegmentSent(recv, segs, got, data);
    ConcatSnoc(segs, data);
    PrefixLonger(recv, delivered, Concat(segs), data);
  }

  function FinPayload(w: World): seq<byte> { Payload(FramesWith(w, FinFrame(w))) }

  lemma FinBrought(w: World)
    requires Static(w) && Total(w.segs) < TWO_62
    ensures BringsFin(FinPayload(w), w.id, Total(w.segs)) && FitsBuffer(w.sender.connId, FinPayload(w))
  {
    StreamPayloadEffect(FinFrame(w), |HeaderNow(w)|, w.control, w.maxPacketSize, FramesWith(w, FinFrame(w)));
    StreamPacketFits(FinFrame(w), w.sender.connId, w.sender.nextPN, w.control, w.maxPacketSize);
    SafeSizeFits(w.sender.connId, w.sender.nextPN, FinPayload(w));
  }

  lemma CloseSafe(w: World, accepted: bool)
    requires Safe(w) && Enabled(w, Close(accepted))
    ensures Safe(AfterClose(w, accepted))
  {
    forall x | Good(x, w.id, w.segs, false) ensures Good(x, w.id, w.segs, true) {
      if i: nat :| BringsNth(x, w.id, w.segs, i) {
      }
    }
    WireRelabelled(w.sender, w.wire, w.id, w.segs, false, w.segs, true);
    if accepted {
      FinBrought(w);
      SentSafe(w.(closed := true), FinPayload(w));
    }
  }

  /** A packet that brings no segment goes out, tracked. */
  lemma SentSafe(w: World, payload: seq<byte>)
    requires Safe(w) && Good(payload, w.id, w.segs, w.closed) && FitsBuffer(w.sender.connId, payload)
    ensures var d := Datagram(w.sender.nextPN, HeaderNow(w) + payload);
            Safe(w.(sender := Send(w.sender, payload, true), control := [], wire := w.wire + {d}))
  {
    TransmitWire(w.sender, w.wire, w.id, w.segs, w.closed, payload);
  }

  lemma OtherSafe(w: World, fs: seq<Frame>, tracked: bool)
    requires Safe(w) && Enabled(w, SendOther(fs, tracked))
    ensures Safe(AfterOther(w, fs, tracked))
  {
    OtherPayload(fs, w.id);
    if tracked {
      SafeSizeFits(w.sender.connId, w.sender.nextPN, Payload(fs));
      SentSafe(w, Payload(fs));
    } else {
      UntrackedWire(w.sender, w.wire, w.id, w.segs, w.closed, Payload(fs));
    }
  }

  lemma ControlSafe(w: World, f: Frame)
    requires Safe(w) && IsControl(f)
    ensures Safe(w.(control := w.control + [f]))
  {
  }

  lemma SizeSafe(w: World, size: nat)
    requires Safe(w) && size <= MAX_BUFFER_SIZE - 3
    ensures Safe(if size >= MIN_PACKET_SIZE then w.(maxPacketSize := size) else w)
  {
  }

  lemma SendingStepSafe(w: World, step: Step)
    requires Safe(w) && Enabled(w, step)
    requires step.Write? || step.Close? || step.QueueControl? || step.SendOther? || step.SetSize?
    ensures Safe(Do(w, step))
  {
    match step
    case Write(chunk) => WriteSafe(w, chunk);
    case Close(accepted) => CloseSafe(w, accepted);
    case QueueControl(f) => ControlSafe(w, f);
    case SendOther(fs, tracked) => OtherSafe(w, fs, tracked);
    case SetSize(size) => SizeSafe(w, size);
  }

  // ----- recovery -----

  lemma AckArrivesSafe(w: World, ranges: seq<AckFrame.AckRange>, late: set<nat>)
    requires Safe(w)
    ensures Safe(w.(sender := OnAck(w.sender, ranges, late)))
  {
    AckWire(w.sender, w.wire, w.id, w.segs, w.closed, ranges, late);
  }

  lemma TimeoutFiresSafe(w: World)
    requires Safe(w)
    ensures Safe(w.(sender := OnTimeout(w.sender)))
  {
    TimeoutWire(w.sender, w.wire, w.id, w.segs, w.closed);
  }

  lemma QueueFlushedSafe(w: World, fails: set<nat>)
    requires Safe(w)
    ensures Safe(AfterFlush(w, fails))
  {
    FlushWire(w.sender, w.wire, w.id, w.segs, w.closed, fails);
  }

  lemma LimitSafe(w: World, limit: nat)
    requires Safe(w) && limit in w.limits
    ensures Safe(w.(maxData := Max(w.maxData, limit)))
  {
  }

  lemma RecoveryStepSafe(w: World, step: Step)
    requires Safe(w) && Enabled(w, step)
    requires step.AckArrives? || step.TimeoutFires? || step.QueueFlushed? || step.LimitArrives?
    ensures Safe(Do(w, step))
  {
    match step
    case AckArrives(ranges, late) => AckArrivesSafe(w, ranges, late);
    case TimeoutFires => TimeoutFiresSafe(w);
    case QueueFlushed(fails) => QueueFlushedSafe(w, fails);
    case LimitArrives(limit) => LimitSafe(w, limit);
  }

  // ----- the peer -----

  lemma PacketArrivesSafe(w: World, d: Datagram)
    requires Safe(w) && d in w.wire
    ensures Safe(AfterArrival(w, d))
  {
    assert OnTheWire(d, w.sender, w.id, w.segs, w.closed);
    ReceiveAnyTime(w.peer, d, w.sender.connId, w.id);
    ArrivedSafe(w, d, Receive(w.peer, d.bytes, |w.sender.connId|, w.id));
  }

  lemma ArrivedSafe(w: World, d: Datagram, p: Peer)
    requires Safe(w) && d in w.wire && p.delivered == w.peer.delivered
    requires p.recv == Effect(w.peer.recv, Header(w.sender.connId, d.pn), PayloadIn(w.sender.connId, d), w.id)
    ensures Safe(Arrived(w, d, p))
  {
    assert OnTheWire(d, w.sender, w.id, w.segs, w.closed);
    StreamAfter(w.peer.recv, w.peer.delivered, w.segs, w.handled, d, w.sender.connId, w.id, w.closed, p.recv);
    FlowAfter(w.peer.recv, p.recv, w.maxData, w.limits, w.segs);
  }

  lemma ReadStreamSafe(w: World, n: nat)
    requires Safe(w)
    ensures Safe(AfterRead(w, n))
  {
    ReadKeepsStream(w.peer.recv, n, w.peer.delivered, w.segs, GotIn(w), w.closed);
    ReadKeepsFlow(w.peer.recv, n, w.maxData, w.limits, w.segs);
  }

  lemma ReadKeepsStream(recv: Recv, n: nat, delivered: seq<byte>, segs: seq<seq<byte>>, got: set<nat>, closed: bool)
    requires StreamInv(recv, delivered, segs, got, closed)
    ensures var (t, r) := ReadOnce(recv, n);
            StreamInv(t, if r.Data? then delivered + r.bytes else delivered, segs, got, closed)
  {
    ReadKeepsPrefix(recv, n, delivered, Concat(segs));
  }

  lemma ReadKeepsFlow(recv: Recv, n: nat, maxData: nat, limits: set<nat>, segs: seq<seq<byte>>)
    requires FlowInv(recv, maxData, limits, segs)
    ensures FlowInv(ReadOnce(recv, n).0, maxData, limits + {ReadOnce(recv, n).0.readMaxData}, segs)
  {
  }

  lemma EmitAckSafe(w: World, ranges: seq<AckFrame.AckRange>)
    requires Safe(w)
    ensures Safe(w.(acks := w.acks + {ranges}))
  {
  }

  lemma SetupArrivesSafe(w: World)
    requires Safe(w)
    ensures Safe(w.(peer := ReceiveSetup(w.peer)))
  {
  }

  lemma PeerStepSafe(w: World, step: Step)
    requires Safe(w) && Enabled(w, step)
    requires step.PacketArrives? || step.SetupArrives? || step.ReadStream? || step.EmitAck?
    ensures Safe(Do(w, step))
  {
    match step
    case PacketArrives(d) => PacketArrivesSafe(w, d);
    case SetupArrives => SetupArrivesSafe(w);
    case ReadStream(n) => ReadStreamSafe(w, n);
    case EmitAck(ranges) => EmitAckSafe(w, ranges);
  }

  // ----- runs -----

  /** Every step keeps the safety part of the invariant, whatever arrives when. */
  lemma StepSafe(w: World, step: Step)
    requires Safe(w) && Enabled(w, step)
    ensures Safe(Do(w, step))
  {
    if step.PacketArrives? || step.SetupArrives? || step.ReadStream? || step.EmitAck? {
      PeerStepSafe(w, step);
    } else if step.AckArrives? || step.TimeoutFires? || step.QueueFlushed? || step.LimitArrives? {
      RecoveryStepSafe(w, step);
    } else {
      SendingStepSafe(w, step);
    }
  }

  ghost predicate SetupPackets(setup: seq<seq<byte>>) {
    forall i :: 0 <= i < |setup| ==> setup[i] != [] && setup[i][0] >= 0x80
  }

  ghost predicate FreshStart(w: World, setup: seq<seq<byte>>) {
    && w == Start(w.id, w.sender.connId, w.maxPacketSize, setup)
    && SetupPackets(setup)
    && Static(w)
  }

  lemma {:induction false} SetupFaithful(connId: seq<byte>, setup: seq<seq<byte>>)
    requires SetupPackets(setup)
    ensures var s := Setup(connId, setup);
            && s.connId == connId && s.queue == []
            && Faithful(s, [], {})
            && forall p :: p in s.history ==> IsLong(p)
    decreases |setup|
  {
    if setup != [] {
      var before, last := setup[..|setup| - 1], setup[|setup| - 1];
      SetupFaithful(connId, before);
      AppendFaithful(Setup(connId, before), Fresh(Setup(connId, before).nextPN, last, false), [], {});
    }
  }

  lemma StartSafe(w: World, setup: seq<seq<byte>>)
    requires FreshStart(w, setup)
    ensures Safe(w)
  {
    SetupFaithful(w.sender.connId, setup);
    assert Payloads(w.sender.connId, {}) == {};
    assert GotIn(w) == {};
    assert Reassembled(NEW_RECV, [], {}, false);
    assert Concat([]) == [];
  }

  lemma {:induction false} RunSafe(w: World, steps: seq<Step>)
    requires Safe(w) && IsRun(w, steps)
    ensures Safe(After(w, steps))
    decreases |steps|
  {
    if steps != [] {
      RunPrefix(w, steps);
      RunSafe(w, steps[..|steps| - 1]);
      StepSafe(After(w, steps[..|steps| - 1]), steps[|steps| - 1]);
    }
  }
}
