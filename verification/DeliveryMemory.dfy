/**
 What the sender remembers of the data it has sent: each segment written has been handled by
 the peer or is carried by a packet still waiting for its acknowledgement. Only an
 acknowledgement can end that, and exactly when it does is stated here.
 */
module DeliveryMemory {
  import opened Bytes
  import opened AckRanges
  import opened Sender
  import opened Carrying
  import opened Recovery
  import opened Frames
  import opened Packing
  import opened Reassembly
  import opened Delivery
  import opened DeliveryInvariant
  import opened DeliverySafety
  import opened DeliverySteps
  import AckFrame

  // ----- an acknowledgement arrives -----

  /** The packet waits for an acknowledgement and carries segment i. */
  ghost predicate Holds(p: Packet, connId: seq<byte>, id: nat, segs: seq<seq<byte>>, i: nat) {
    !p.acked && !IsLong(p) && BringsNth(PayloadOf(connId, p), id, segs, i)
  }

  lemma HeldExact(h: seq<Packet>, connId: seq<byte>, id: nat, segs: seq<seq<byte>>, i: nat)
    ensures HeldSegment(h, connId, id, segs, i) <==> exists p :: p in h && Holds(p, connId, id, segs, i)
  {
    if HeldSegment(h, connId, id, segs, i) {
      var payload :| BringsNth(payload, id, segs, i) && Carries(h, connId, payload);
      var k :| 0 <= k < |h| && CarriedBy(h[k], connId, payload);
      assert Holds(h[k], connId, id, segs, i);
    }
    if p :| p in h && Holds(p, connId, id, segs, i) {
      var k :| 0 <= k < |h| && h[k] == p;
      assert CarriedBy(h[k], connId, PayloadOf(connId, p));
    }
  }

  /** Segment i is carried by a packet that waits for an acknowledgement and is not covered by this one. */
  ghost predicate HeldBeyond(h: seq<Packet>, ranges: seq<AckFrame.AckRange>, connId: seq<byte>, id: nat,
                             segs: seq<seq<byte>>, i: nat) {
    exists p :: p in h && !Covers(ranges, p.pn) && Holds(p, connId, id, segs, i)
  }

  /** An ACK does no harm if what it does not leave with the sender is with the peer. */
  ghost predicate HarmlessAck(w: World, ranges: seq<AckFrame.AckRange>) {
    forall i: nat :: i < |w.segs| ==>
      || HandledSegment(w.handled, w.sender.connId, w.id, w.segs, i)
      || HeldBeyond(w.sender.history, ranges, w.sender.connId, w.id, w.segs, i)
  }

  lemma HeldAfterAck(s: Sender, ranges: seq<AckFrame.AckRange>, late: set<nat>, id: nat, segs: seq<seq<byte>>, i: nat)
    ensures HeldSegment(OnAck(s, ranges, late).history, s.connId, id, segs, i)
            <==> HeldBeyond(s.history, ranges, s.connId, id, segs, i)
  {
    var h := OnAck(s, ranges, late).history;
    HeldExact(h, s.connId, id, segs, i);
    if p :| p in h && Holds(p, s.connId, id, segs, i) {
      HeldBefore(s, ranges, late, id, segs, i, h, p);
    }
    if q :| q in s.history && !Covers(ranges, q.pn) && Holds(q, s.connId, id, segs, i) {
      StillHeld(s, ranges, late, id, segs, i, h, q);
    }
  }

  lemma HeldBefore(s: Sender, ranges: seq<AckFrame.AckRange>, late: set<nat>, id: nat, segs: seq<seq<byte>>, i: nat,
                   h: seq<Packet>, p: Packet)
    requires h == OnAck(s, ranges, late).history && p in h && Holds(p, s.connId, id, segs, i)
    ensures HeldBeyond(s.history, ranges, s.connId, id, segs, i)
  {
    AckMarks(s, ranges, late, p);
    var q :| q in s.history && !q.acked && !Covers(ranges, q.pn) && p == MarkHit(q, Late(late));
    MarkHolds(q, late, s.connId, id, segs, i);
  }

  lemma StillHeld(s: Sender, ranges: seq<AckFrame.AckRange>, late: set<nat>, id: nat, segs: seq<seq<byte>>, i: nat,
                  h: seq<Packet>, q: Packet)
    requires h == OnAck(s, ranges, late).history && q in s.history && !Covers(ranges, q.pn)
    requires Holds(q, s.connId, id, segs, i)
    ensures exists p :: p in h && Holds(p, s.connId, id, segs, i)
  {
    AckMarks(s, ranges, late, MarkHit(q, Late(late)));
    MarkHolds(q, late, s.connId, id, segs, i);
  }

  lemma MarkHolds(q: Packet, late: set<nat>, connId: seq<byte>, id: nat, segs: seq<seq<byte>>, i: nat)
    ensures Holds(MarkHit(q, Late(late)), connId, id, segs, i) <==> Holds(q, connId, id, segs, i)
  {
  }

  /** Exactly the harmless ACKs leave nothing forgotten, whatever they find late. */
  lemma AckRemembers(w: World, ranges: seq<AckFrame.AckRange>, late: set<nat>)
    ensures Remembers(w.(sender := OnAck(w.sender, ranges, late))) <==> HarmlessAck(w, ranges)
  {
    forall i: nat
      ensures HeldSegment(OnAck(w.sender, ranges, late).history, w.sender.connId, w.id, w.segs, i)
              <==> HeldBeyond(w.sender.history, ranges, w.sender.connId, w.id, w.segs, i)
    {
      HeldAfterAck(w.sender, ranges, late, w.id, w.segs, i);
    }
  }

  // ----- every other step -----

  lemma WriteRemembers(w: World, chunk: seq<byte>)
    requires Safe(w) && Remembers(w) && Enabled(w, Write(chunk))
    ensures Remembers(AfterWrite(w, chunk))
  {
    DataBrought(w, chunk);
    SegmentRemembered(w, DataPayload(w, chunk), DataFrame(w, chunk).data);
  }

  lemma SegmentRemembered(w: World, payload: seq<byte>, data: seq<byte>)
    requires Safe(w) && Remembers(w) && FitsBuffer(w.sender.connId, payload)
    requires BringsSegment(payload, w.id, Total(w.segs), data)
    ensures NothingForgotten(Send(w.sender, payload, true).history, w.sender.connId, w.handled, w.id, w.segs + [data])
  {
    var t := Send(w.sender, payload, true);
    SendFaithful(w.sender, payload, true, Payloads(w.sender.connId, w.wire));
    ForgottenAfterSend(w.sender.history, t.history, w.sender.connId, w.handled, w.id, w.segs);
    ForgottenAfterWrite(t.history, w.sender.connId, w.handled, w.id, w.segs, data, payload);
  }

  /** A packet goes out, tracked; all that was held before still is. */
  lemma SentRemembered(w: World, payload: seq<byte>)
    requires Safe(w) && Remembers(w) && FitsBuffer(w.sender.connId, payload)
    ensures NothingForgotten(Send(w.sender, payload, true).history, w.sender.connId, w.handled, w.id, w.segs)
  {
    var t := Send(w.sender, payload, true);
    SendFaithful(w.sender, payload, true, Payloads(w.sender.connId, w.wire));
    ForgottenAfterSend(w.sender.history, t.history, w.sender.connId, w.handled, w.id, w.segs);
  }

  lemma CloseRemembers(w: World, accepted: bool)
    requires Safe(w) && Remembers(w) && Enabled(w, Close(accepted))
    ensures Remembers(AfterClose(w, accepted))
  {
    if accepted {
      FinBrought(w);
      SentRemembered(w, FinPayload(w));
    }
  }

  lemma OtherRemembers(w: World, fs: seq<Frame>, tracked: bool)
    requires Safe(w) && Remembers(w) && Enabled(w, SendOther(fs, tracked))
    ensures Remembers(AfterOther(w, fs, tracked))
  {
    if tracked {
      SafeSizeFits(w.sender.connId, w.sender.nextPN, Payload(fs));
      SentRemembered(w, Payload(fs));
    }
  }

  lemma TimeoutRemembers(w: World)
    requires Remembers(w)
    ensures Remembers(w.(sender := OnTimeout(w.sender)))
  {
    ForgottenAfterTimeout(w.sender, w.handled, w.id, w.segs);
  }

  lemma FlushRemembers(w: World, fails: set<nat>)
    requires Safe(w) && Remembers(w)
    ensures Remembers(AfterFlush(w, fails))
  {
    FlushFaithful(w.sender, fails, Payloads(w.sender.connId, w.wire));
    ForgottenAfterSend(w.sender.history, FlushQueue(w.sender, fails).history, w.sender.connId, w.handled, w.id, w.segs);
  }

  lemma ArrivalRemembers(w: World, d: Datagram)
    requires Remembers(w)
    ensures Remembers(AfterArrival(w, d))
  {
    ForgottenAfterArrival(w.sender.history, w.sender.connId, w.handled, d, w.id, w.segs);
  }

  lemma SendingStepRemembers(w: World, step: Step)
    requires Safe(w) && Remembers(w) && Enabled(w, step)
    requires step.Write? || step.Close? || step.QueueControl? || step.SendOther? || step.SetSize?
    ensures Remembers(Do(w, step))
  {
    match step
    case Write(chunk) => WriteRemembers(w, chunk);
    case Close(accepted) => CloseRemembers(w, accepted);
    case QueueControl(f) =>
    case SendOther(fs, tracked) => OtherRemembers(w, fs, tracked);
    case SetSize(size) =>
  }

  /** How late a packet arrives makes no difference here. */
  lemma PeerStepRemembers(w: World, step: Step)
    requires Remembers(w) && Enabled(w, step)
    requires step.PacketArrives? || step.SetupArrives? || step.ReadStream? || step.EmitAck?
    ensures Remembers(Do(w, step))
  {
    match step
    case PacketArrives(d) => ArrivalRemembers(w, d);
    case SetupArrives =>
    case ReadStream(n) =>
    case EmitAck(ranges) =>
  }

  lemma RecoveryStepRemembers(w: World, step: Step)
    requires Safe(w) && Remembers(w) && Enabled(w, step)
    requires step.TimeoutFires? || step.QueueFlushed? || step.LimitArrives?
    ensures Remembers(Do(w, step))
  {
    match step
    case TimeoutFires => TimeoutRemembers(w);
    case QueueFlushed(fails) => FlushRemembers(w, fails);
    case LimitArrives(limit) =>
  }

  ghost predicate HarmlessStep(w: World, step: Step) { step.AckArrives? ==> HarmlessAck(w, step.ranges) }

  lemma StepRemembers(w: World, step: Step)
    requires Safe(w) && Remembers(w) && Enabled(w, step)
    ensures Remembers(Do(w, step)) <==> HarmlessStep(w, step)
  {
    if step.AckArrives? {
      AckRemembers(w, step.ranges, step.late);
    } else if step.PacketArrives? || step.SetupArrives? || step.ReadStream? || step.EmitAck? {
      PeerStepRemembers(w, step);
    } else if step.TimeoutFires? || step.QueueFlushed? || step.LimitArrives? {
      RecoveryStepRemembers(w, step);
    } else {
      SendingStepRemembers(w, step);
    }
  }

  // ----- runs -----

  /** Nothing is forgotten after the run, nor was it after any of its steps. */
  ghost predicate AlwaysRemembers(w: World, steps: seq<Step>)
    decreases |steps|
  {
    Remembers(After(w, steps)) && (steps != [] ==> AlwaysRemembers(w, steps[..|steps| - 1]))
  }

  /** Each ACK was harmless when it arrived. */
  ghost predicate AcksHarmless(w: World, steps: seq<Step>)
    decreases |steps|
  {
    steps != [] ==>
      var before := steps[..|steps| - 1];
      HarmlessStep(After(w, before), steps[|steps| - 1]) && AcksHarmless(w, before)
  }

  lemma {:induction false} RunRemembers(w: World, steps: seq<Step>)
    requires Safe(w) && Remembers(w) && IsRun(w, steps)
    ensures AlwaysRemembers(w, steps) <==> AcksHarmless(w, steps)
    decreases |steps|
  {
    if steps != [] {
      var before := steps[..|steps| - 1];
      RunPrefix(w, steps);
      RunSafe(w, before);
      RunRemembers(w, before);
      if Remembers(After(w, before)) {
        StepRemembers(After(w, before), steps[|steps| - 1]);
      }
    }
  }

  // ----- quiescence -----

  /** No packet under a short header is waiting for an acknowledgement. */
  ghost predicate NothingOutstanding(h: seq<Packet>) {
    forall p :: p in h ==> p.acked || IsLong(p)
  }

  /** With no packet waiting, nothing is forgotten exactly when all segments are with the peer. */
  lemma QuiescentMemory(v: World)
    requires NothingOutstanding(v.sender.history)
    ensures Remembers(v) <==> forall i: nat :: i < |v.segs| ==> i in GotIn(v)
  {
    forall i: nat ensures !HeldSegment(v.sender.history, v.sender.connId, v.id, v.segs, i) {
      HeldExact(v.sender.history, v.sender.connId, v.id, v.segs, i);
    }
    forall i: nat | i < |v.segs|
      ensures i in GotIn(v) <==> HandledSegment(v.handled, v.sender.connId, v.id, v.segs, i)
    {
    }
  }

  /** All segments are with the peer exactly when it has reassembled every byte written. */
  lemma AllReassembled(v: World)
    requires Safe(v)
    ensures (forall i: nat :: i < |v.segs| ==> i in GotIn(v)) <==> v.peer.recv.reassembly == Total(v.segs)
    ensures v.peer.recv.reassembly == Total(v.segs) ==> v.peer.delivered + v.peer.recv.readBuf == Concat(v.segs)
  {
    var f := Frontier(GotIn(v), |v.segs|, 0);
    OffMonotone(v.segs, f, |v.segs|);
    if forall i: nat :: i < |v.segs| ==> i in GotIn(v) {
      FrontierUnique(GotIn(v), |v.segs|, 0, |v.segs|);
    }
    SegmentInSource(v.segs, 0);
    assert Concat(v.segs)[..Total(v.segs)] == Concat(v.segs);
  }
}
