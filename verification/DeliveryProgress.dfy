/**
 Why flow control never blocks a writer for good: the newest window is always among those
 granted, and each segment is in some packet sent. So once all of these have arrived, the next
 chunk is let through. An update that finds no room in a packet is dropped (NothingDropped); its
 window does not arrive then.
 */
module DeliveryProgress {
  import opened Bytes
  import opened Sender
  import opened Carrying
  import opened Reassembly
  import opened Delivery
  import opened DeliveryInvariant
  import opened DeliverySafety
  import opened DeliverySteps

  /** The window in force at the peer is one of those granted. */
  ghost predicate Granted(w: World) { w.peer.recv.readMaxData in w.limits }

  /** Each segment is in some packet sent: it would be with the peer if these had all been handled. */
  ghost predicate AllSent(wire: set<Datagram>, connId: seq<byte>, id: nat, segs: seq<seq<byte>>) {
    forall i: nat :: i < |segs| ==> HandledSegment(wire, connId, id, segs, i)
  }

  ghost predicate Offered(w: World) { Granted(w) && AllSent(w.wire, w.sender.connId, w.id, w.segs) }

  lemma SentMore(wire: set<Datagram>, more: set<Datagram>, connId: seq<byte>, id: nat, segs: seq<seq<byte>>)
    requires AllSent(wire, connId, id, segs) && wire <= more
    ensures AllSent(more, connId, id, segs)
  {
    forall i: nat | i < |segs| ensures HandledSegment(more, connId, id, segs, i) {
      assert HandledSegment(wire, connId, id, segs, i);
      var d :| d in wire && BringsNth(PayloadIn(connId, d), id, segs, i);
      assert d in more;
    }
  }

  lemma WriteSent(wire: set<Datagram>, d: Datagram, connId: seq<byte>, id: nat, segs: seq<seq<byte>>, data: seq<byte>)
    requires AllSent(wire, connId, id, segs) && BringsSegment(PayloadIn(connId, d), id, Total(segs), data)
    ensures AllSent(wire + {d}, connId, id, segs + [data])
  {
    forall i: nat | i < |segs + [data]| ensures HandledSegment(wire + {d}, connId, id, segs + [data], i) {
      HandledMore(wire, d, connId, id, segs + [data], i);
      if i < |segs| {
        SegmentStillHandled(wire, connId, id, segs, data, i);
      } else {
        LastBrought(PayloadIn(connId, d), id, segs, data);
      }
    }
  }

  lemma WriteOffers(w: World, chunk: seq<byte>)
    requires Safe(w) && Offered(w) && Enabled(w, Write(chunk))
    ensures Offered(AfterWrite(w, chunk))
  {
    DataBrought(w, chunk);
    var d := Datagram(w.sender.nextPN, HeaderNow(w) + DataPayload(w, chunk));
    CutExact(w.sender.connId, Fresh(d.pn, d.bytes, true), DataPayload(w, chunk));
    assert PayloadIn(w.sender.connId, d) == DataPayload(w, chunk);
    WriteSent(w.wire, d, w.sender.connId, w.id, w.segs, DataFrame(w, chunk).data);
  }

  /** No step but a write adds a segment, and none takes a packet or an update back. */
  lemma OthersOffer(w: World, step: Step)
    requires Offered(w) && Enabled(w, step) && !step.Write?
    ensures Offered(Do(w, step))
  {
    var v := Do(w, step);
    FlushKeepsId(w.sender, step);
    assert w.wire <= v.wire && v.segs == w.segs;
    SentMore(w.wire, v.wire, w.sender.connId, w.id, w.segs);
  }

  lemma FlushKeepsId(s: Sender, step: Step)
    ensures step.QueueFlushed? ==> FlushQueue(s, step.fails).connId == s.connId
  {
    if step.QueueFlushed? {
      ResendAllKeepsId(s.(queue := []), s.queue, step.fails);
    }
  }

  lemma {:induction false} ResendAllKeepsId(s: Sender, todo: seq<Packet>, fails: set<nat>)
    ensures ResendAll(s, todo, fails).connId == s.connId
    decreases |todo|
  {
    if todo != [] {
      ResendAllKeepsId(Resend(s, todo[0], todo[0].pn !in fails), todo[1..], fails);
    }
  }

  lemma {:induction false} RunOffers(w: World, setup: seq<seq<byte>>, steps: seq<Step>)
    requires FreshStart(w, setup) && IsRun(w, steps)
    ensures Safe(After(w, steps)) && Offered(After(w, steps))
    decreases |steps|
  {
    StartSafe(w, setup);
    if steps != [] {
      var before, step := steps[..|steps| - 1], steps[|steps| - 1];
      RunPrefix(w, steps);
      RunOffers(w, setup, before);
      StepSafe(After(w, before), step);
      if step.Write? {
        WriteOffers(After(w, before), step.chunk);
      } else {
        OthersOffer(After(w, before), step);
      }
    }
  }

  /** Every packet ever sent and every window ever granted has arrived. */
  ghost predicate AllArrived(w: World) {
    w.wire <= w.handled && forall l :: l in w.limits ==> l <= w.maxData
  }

  lemma SegmentsArrived(w: World)
    requires Offered(w) && AllArrived(w)
    ensures forall i: nat :: i < |w.segs| ==> i in GotIn(w)
  {
    SentMore(w.wire, w.handled, w.sender.connId, w.id, w.segs);
  }
}
