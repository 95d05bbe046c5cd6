/**
 When the peer reports the end of the stream, over every run: exactly when all data has arrived
 and a FIN came before that. A FIN that sendFrame refused, or that comes last, is lost.
 */
module DeliveryEnd {
  import opened Bytes
  import opened Sender
  import opened StreamIO
  import opened Reassembly
  import opened Delivery
  import opened DeliveryInvariant
  import opened DeliverySafety
  import opened DeliverySteps

  // ----- early FINs -----

  /** The peer has handled a packet with each segment written. */
  ghost predicate AllHandled(w: World) { forall i: nat :: i < |w.segs| ==> i in GotIn(w) }

  /** A packet with the FIN arrives while data is missing. */
  ghost predicate FinArrivesEarly(w: World, step: Step) {
    step.PacketArrives? && BringsFin(PayloadIn(w.sender.connId, step.d), w.id, Total(w.segs)) && !AllHandled(w)
  }

  ghost predicate FinCameEarly(w: World, steps: seq<Step>)
    decreases |steps|
  {
    steps != [] &&
      var before := steps[..|steps| - 1];
      FinCameEarly(w, before) || FinArrivesEarly(After(w, before), steps[|steps| - 1])
  }

  /** The stream as the peer has it, the FIN included. */
  ghost predicate EndInv(w: World, early: bool) {
    Safe(w) && Reassembled(w.peer.recv, w.segs, GotIn(w), early) && (early ==> w.closed)
  }

  lemma MissingExact(got: set<nat>, m: nat)
    ensures Frontier(got, m, 0) < m <==> !forall i: nat :: i < m ==> i in got
  {
    if forall i: nat :: i < m ==> i in got {
      FrontierUnique(got, m, 0, m);
    }
  }

  lemma SomethingWritten(segs: seq<seq<byte>>)
    requires Proper(segs) && segs != []
    ensures Total(segs) > 0
  {
    OffMonotone(segs, 0, |segs|);
  }

  /** What handling one payload does to the stream, with or without data, with or without the FIN. */
  lemma PayloadHandled(recv: Recv, segs: seq<seq<byte>>, handled: set<Datagram>, d: Datagram, connId: seq<byte>,
                       id: nat, closed: bool, early: bool, recv': Recv)
    requires Reassembled(recv, segs, Got(handled, connId, id, segs), early)
    requires Good(PayloadIn(connId, d), id, segs, closed)
    requires recv' == Effect(recv, Header(connId, d.pn), PayloadIn(connId, d), id)
    ensures var fin := BringsFin(PayloadIn(connId, d), id, Total(segs));
            var missing := Frontier(Got(handled, connId, id, segs), |segs|, 0) < |segs|;
            Reassembled(recv', segs, Got(handled + {d}, connId, id, segs), early || (fin && missing))
  {
    var payload, got := PayloadIn(connId, d), Got(handled, connId, id, segs);
    if BringsFin(payload, id, Total(segs)) {
      GotSame(handled, d, connId, id, segs);
      FinArrives(recv, segs, got, early);
    } else if i: nat :| BringsNth(payload, id, segs, i) {
      GotMore(handled, d, connId, id, segs, i);
      SegmentArrives(recv, segs, got, early, i);
    } else {
      GotSame(handled, d, connId, id, segs);
    }
  }

  /** A FIN that matters has been sent: it is no packet of a stream still open. */
  lemma EarlyIsClosed(payload: seq<byte>, id: nat, segs: seq<seq<byte>>, closed: bool)
    requires Proper(segs) && segs != [] && BringsFin(payload, id, Total(segs)) && Good(payload, id, segs, closed)
    ensures closed
  {
    SomethingWritten(segs);
    FirstFin(Total(segs));
    assert Effect(NEW_RECV, [], payload, id) == Handle(NEW_RECV, Total(segs), [], true);
    if i: nat :| BringsNth(payload, id, segs, i) {
      SegmentOnly(payload, id, Off(segs, i), segs[i]);
    }
  }

  lemma ArrivalReassembled(w: World, d: Datagram, early: bool, recv: Recv)
    requires EndInv(w, early) && d in w.wire && recv == Receive(w.peer, d.bytes, |w.sender.connId|, w.id).recv
    ensures Reassembled(recv, w.segs, Got(w.handled + {d}, w.sender.connId, w.id, w.segs),
                        early || FinArrivesEarly(w, PacketArrives(d)))
  {
    assert OnTheWire(d, w.sender, w.id, w.segs, w.closed);
    ReceiveAnyTime(w.peer, d, w.sender.connId, w.id);
    PayloadHandled(w.peer.recv, w.segs, w.handled, d, w.sender.connId, w.id, w.closed, early, recv);
    MissingExact(GotIn(w), |w.segs|);
  }

  lemma ArrivalEnd(w: World, d: Datagram, early: bool)
    requires EndInv(w, early) && d in w.wire && Safe(AfterArrival(w, d))
    ensures EndInv(AfterArrival(w, d), early || FinArrivesEarly(w, PacketArrives(d)))
  {
    assert OnTheWire(d, w.sender, w.id, w.segs, w.closed);
    ArrivalReassembled(w, d, early, AfterArrival(w, d).peer.recv);
    if FinArrivesEarly(w, PacketArrives(d)) {
      EarlyIsClosed(PayloadIn(w.sender.connId, d), w.id, w.segs, w.closed);
    }
  }

  lemma WriteEnd(w: World, chunk: seq<byte>)
    requires EndInv(w, false) && Enabled(w, Write(chunk)) && Safe(AfterWrite(w, chunk))
    ensures EndInv(AfterWrite(w, chunk), false)
  {
    DataBrought(w, chunk);
    GotUnchanged(w, DataFrame(w, chunk).data);
    SegmentSent(w.peer.recv, w.segs, GotIn(w), DataFrame(w, chunk).data);
  }

  lemma ReadEnd(w: World, n: nat, early: bool)
    requires EndInv(w, early) && Safe(AfterRead(w, n))
    ensures EndInv(AfterRead(w, n), early)
  {
  }

  lemma FlushEnd(w: World, fails: set<nat>, early: bool)
    requires EndInv(w, early) && Safe(AfterFlush(w, fails))
    ensures EndInv(AfterFlush(w, fails), early)
  {
    FlushWire(w.sender, w.wire, w.id, w.segs, w.closed, fails);
  }

  lemma StepEnd(w: World, step: Step, early: bool)
    requires EndInv(w, early) && Enabled(w, step)
    ensures EndInv(Do(w, step), early || FinArrivesEarly(w, step))
  {
    StepSafe(w, step);
    if step.PacketArrives? {
      ArrivalEnd(w, step.d, early);
    } else if step.Write? {
      WriteEnd(w, step.chunk);
    } else if step.ReadStream? {
      ReadEnd(w, step.n, early);
    } else if step.QueueFlushed? {
      FlushEnd(w, step.fails, early);
    } else {
      QuietStep(w, step, early);
    }
  }

  lemma QuietStep(w: World, step: Step, early: bool)
    requires EndInv(w, early) && Enabled(w, step) && Safe(Do(w, step))
    requires !step.PacketArrives? && !step.Write? && !step.ReadStream? && !step.QueueFlushed?
    ensures EndInv(Do(w, step), early)
  {
    QuietFields(w, step);
    EndKept(w, Do(w, step), early);
  }

  /** The stream is where it was; it may have been closed. */
  ghost predicate SameStream(w: World, v: World) {
    && (v.id, v.segs, v.handled, v.sender.connId) == (w.id, w.segs, w.handled, w.sender.connId)
    && v.peer.recv == w.peer.recv && (w.closed ==> v.closed)
  }

  lemma QuietFields(w: World, step: Step)
    requires Enabled(w, step)
    requires !step.PacketArrives? && !step.Write? && !step.ReadStream? && !step.QueueFlushed?
    ensures SameStream(w, Do(w, step))
  {
  }

  lemma EndKept(w: World, v: World, early: bool)
    requires EndInv(w, early) && Safe(v) && SameStream(w, v)
    ensures EndInv(v, early)
  {
    assert GotIn(v) == GotIn(w);
  }

  lemma {:induction false} RunEnd(w: World, setup: seq<seq<byte>>, steps: seq<Step>)
    requires FreshStart(w, setup) && IsRun(w, steps)
    ensures EndInv(After(w, steps), FinCameEarly(w, steps))
    decreases |steps|
  {
    StartSafe(w, setup);
    if steps != [] {
      var before, step := steps[..|steps| - 1], steps[|steps| - 1];
      RunPrefix(w, steps);
      RunEnd(w, setup, before);
      StepEnd(After(w, before), step, FinCameEarly(w, before));
    }
  }

  // ----- a FIN that was refused -----

  /** Closed without a FIN: the state is one of an open stream in all but the flag. */
  ghost predicate NeverEnds(w: World) { w.closed && Safe(w.(closed := false)) }

  lemma StepNeverEnds(w: World, step: Step)
    requires NeverEnds(w) && Enabled(w, step)
    ensures NeverEnds(Do(w, step))
  {
    var u := w.(closed := false);
    assert Do(w, step) == Do(u, step).(closed := true) && Do(w, step).(closed := false) == Do(u, step);
    StepSafe(u, step);
  }

  lemma Refused(w: World, step: Step)
    requires Safe(w) && step == Close(false) && Enabled(w, step)
    ensures NeverEnds(Do(w, step))
  {
    assert Do(w, step) == w.(closed := true) && w.(closed := true).(closed := false) == w;
  }

  /** A turn of the run closes the stream, and its FIN is refused. */
  ghost predicate FinRefused(steps: seq<Step>)
    decreases |steps|
  {
    steps != [] && (steps[|steps| - 1] == Close(false) || FinRefused(steps[..|steps| - 1]))
  }

  lemma {:induction false} RefusedExact(steps: seq<Step>)
    ensures FinRefused(steps) <==> Close(false) in steps
    decreases |steps|
  {
    if steps != [] {
      var before := steps[..|steps| - 1];
      RefusedExact(before);
      assert steps == before + [steps[|steps| - 1]];
    }
  }

  lemma {:induction false} RefusedNeverEnds(w: World, setup: seq<seq<byte>>, steps: seq<Step>)
    requires FreshStart(w, setup) && IsRun(w, steps) && FinRefused(steps)
    ensures NeverEnds(After(w, steps))
    decreases |steps|
  {
    var before, step := steps[..|steps| - 1], steps[|steps| - 1];
    RunPrefix(w, steps);
    if step == Close(false) {
      StartSafe(w, setup);
      RunSafe(w, before);
      Refused(After(w, before), step);
    } else {
      RefusedNeverEnds(w, setup, before);
      StepNeverEnds(After(w, before), step);
    }
  }
}
