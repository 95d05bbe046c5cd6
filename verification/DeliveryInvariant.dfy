/**
 The invariant of the end-to-end model: which packets are on the wire and what each brings to
 the peer, what acknowledgements mean, and where every written segment is.
 */
module DeliveryInvariant {
  import opened Bytes
  import opened AckFrame
  import opened AckRanges
  import opened Sender
  import opened Carrying
  import opened Frames
  import opened Packing
  import opened StreamIO
  import opened Reassembly
  import opened Delivery
  import StreamFrame

  // ----- what a payload brings -----

  /** The effect of a payload on the stream, behind any header. */
  function Effect(r: Recv, header: seq<byte>, payload: seq<byte>, id: nat): Recv {
    HandleFrames(r, FramesFrom(header + payload, |header|), id)
  }

  ghost predicate BringsSegment(payload: seq<byte>, id: nat, offset: nat, data: seq<byte>) {
    forall r: Recv, header: seq<byte> :: Effect(r, header, payload, id) == Handle(r, offset, data, false)
  }

  ghost predicate BringsFin(payload: seq<byte>, id: nat, offset: nat) {
    forall r: Recv, header: seq<byte> :: Effect(r, header, payload, id) == Handle(r, offset, [], true)
  }

  ghost predicate BringsNothing(payload: seq<byte>, id: nat) {
    forall r: Recv, header: seq<byte> :: Effect(r, header, payload, id) == r
  }

  lemma FirstSegment(offset: nat, data: seq<byte>)
    requires data != []
    ensures var s := Handle(NEW_RECV, offset, data, false);
            && s != NEW_RECV && !s.pendingFin
            && if offset == 0 then s.readBuf == data && s.pending == map[]
               else s.readBuf == [] && offset in s.pending && s.pending == map[offset := data]
  {
    var t := StreamIO.Append(NEW_RECV, data, false);
    assert Flush(t) == t;
    assert offset in map[offset := data];
  }

  /** A payload brings one segment at most. */
  lemma SegmentUnique(payload: seq<byte>, id: nat, o1: nat, d1: seq<byte>, o2: nat, d2: seq<byte>)
    requires d1 != [] && d2 != []
    requires BringsSegment(payload, id, o1, d1) && BringsSegment(payload, id, o2, d2)
    ensures o1 == o2 && d1 == d2
  {
    var s := Effect(NEW_RECV, [], payload, id);
    assert s == Handle(NEW_RECV, o1, d1, false) == Handle(NEW_RECV, o2, d2, false);
    FirstSegment(o1, d1);
    FirstSegment(o2, d2);
  }

  lemma SegmentOnly(payload: seq<byte>, id: nat, offset: nat, data: seq<byte>)
    requires data != [] && BringsSegment(payload, id, offset, data)
    ensures !BringsNothing(payload, id) && forall n: nat :: !BringsFin(payload, id, n)
  {
    FirstSegment(offset, data);
    assert Effect(NEW_RECV, [], payload, id) == Handle(NEW_RECV, offset, data, false);
    forall n: nat ensures !BringsFin(payload, id, n) {
      FirstFin(n);
    }
  }

  lemma FirstFin(n: nat)
    ensures var s := Handle(NEW_RECV, n, [], true);
            if n == 0 then s == NEW_RECV else s.pendingFin
  {
    assert Flush(NEW_RECV) == NEW_RECV;
  }

  lemma {:induction false} OthersIgnored(r: Recv, fs: seq<Frame>, id: nat)
    requires forall i :: 0 <= i < |fs| ==> !(fs[i].Stream? && fs[i].stream.id == id)
    ensures HandleFrames(r, fs, id) == r
    decreases |fs|
  {
    if fs != [] {
      OthersIgnored(r, fs[1..], id);
    }
  }

  lemma OtherPayload(fs: seq<Frame>, id: nat)
    requires CanonicalList(fs)
    requires forall i :: 0 <= i < |fs| ==> !(fs[i].Stream? && fs[i].stream.id == id)
    ensures BringsNothing(Payload(fs), id)
  {
    forall r: Recv, header: seq<byte> ensures Effect(r, header, Payload(fs), id) == r {
      ParsedBehind(header, fs);
      OthersIgnored(r, ReceivedAll(fs), id);
    }
  }

  /** Handling a STREAM frame followed by control frames is handling the STREAM frame. */
  lemma OneStreamFrame(r: Recv, s: StreamFrame.Stream, fs: seq<Frame>)
    requires fs != [] && fs[0] == Frames.Stream(s)
    requires forall i :: 1 <= i < |fs| ==> IsControl(fs[i])
    ensures HandleFrames(r, ReceivedAll(fs), s.id) == Handle(r, s.offset, s.data, s.fin)
  {
    var all := ReceivedAll(fs);
    assert all[0] == fs[0];
    forall i | 0 <= i < |all[1..]| ensures !all[1..][i].Stream? {
      assert all[1..][i] == Frames.Received(fs[i + 1]);
      assert IsControl(fs[i + 1]);
    }
    OthersIgnored(Handle(r, s.offset, s.data, s.fin), all[1..], s.id);
  }

  lemma StreamPayloadEffect(s: StreamFrame.Stream, headerLen: nat, control: seq<Frame>, limit: nat, fs: seq<Frame>)
    requires StreamFrame.Sendable(s) && s.lenPresent
    requires forall i :: 0 <= i < |control| ==> IsControl(control[i])
    requires fs == StreamFrames(s, headerLen, control, limit)
    ensures !s.fin ==> BringsSegment(Payload(fs), s.id, s.offset, s.data)
    ensures s.fin && s.data == [] ==> BringsFin(Payload(fs), s.id, s.offset)
  {
    StreamFramesCanonical(s, headerLen, control, limit);
    StreamFramesShape(s, headerLen, control, limit);
    forall r: Recv, header: seq<byte>
      ensures Effect(r, header, Payload(fs), s.id) == Handle(r, s.offset, s.data, s.fin)
    {
      ParsedBehind(header, fs);
      OneStreamFrame(r, s, fs);
    }
  }

  lemma StreamFramesShape(s: StreamFrame.Stream, headerLen: nat, control: seq<Frame>, limit: nat)
    requires forall i :: 0 <= i < |control| ==> IsControl(control[i])
    ensures var fs := StreamFrames(s, headerLen, control, limit);
            && fs != [] && fs[0] == Frames.Stream(s)
            && forall i :: 1 <= i < |fs| ==> IsControl(fs[i])
  {
    var taken := Taken(headerLen + |StreamFrame.Encoding(s)|, control, limit);
    assert forall i :: 0 <= i < |taken| ==> taken[i] == control[i];
  }

  // ----- the wire -----

  function PayloadIn(connId: seq<byte>, d: Datagram): seq<byte> { BehindHeader(connId, d.pn, d.bytes) }

  ghost predicate BringsNth(payload: seq<byte>, id: nat, segs: seq<seq<byte>>, i: nat) {
    i < |segs| && BringsSegment(payload, id, Off(segs, i), segs[i])
  }

  /** Each payload brings one of the segments, the FIN after the last of them, or nothing. */
  ghost predicate Good(payload: seq<byte>, id: nat, segs: seq<seq<byte>>, closed: bool) {
    || (exists i :: BringsNth(payload, id, segs, i))
    || (closed && BringsFin(payload, id, Total(segs)))
    || BringsNothing(payload, id)
  }

  ghost predicate OnTheWire(d: Datagram, s: Sender, id: nat, segs: seq<seq<byte>>, closed: bool) {
    && d.pn < s.nextPN
    && d.bytes == Header(s.connId, d.pn) + PayloadIn(s.connId, d)
    && Good(PayloadIn(s.connId, d), id, segs, closed)
  }

  function Payloads(connId: seq<byte>, wire: set<Datagram>): set<seq<byte>> {
    set d | d in wire :: PayloadIn(connId, d)
  }

  ghost predicate OneEach(wire: set<Datagram>) {
    forall d, e :: d in wire && e in wire && d.pn == e.pn ==> d == e
  }

  ghost predicate TrackedOnWire(h: seq<Packet>, wire: set<Datagram>) {
    forall p :: p in h && !IsLong(p) ==> Datagram(p.pn, p.buf) in wire
  }

  ghost predicate WireInv(s: Sender, wire: set<Datagram>, id: nat, segs: seq<seq<byte>>, closed: bool) {
    && Faithful(s, s.queue, Payloads(s.connId, wire))
    && (forall d :: d in wire ==> OnTheWire(d, s, id, segs, closed))
    && OneEach(wire)
    && TrackedOnWire(s.history, wire)
  }

  // ----- the peer -----

  ghost predicate HandledNumber(handled: set<Datagram>, pn: int) {
    exists d :: d in handled && d.pn == pn
  }

  /** The number of a packet that was handled, or of a setup packet. */
  ghost predicate TrueNumber(handled: set<Datagram>, setup: nat, pn: int) {
    pn < setup || HandledNumber(handled, pn)
  }

  /** Only such numbers are recorded, and only recorded numbers are acknowledged. */
  ghost predicate PeerInv(handled: set<Datagram>, setup: nat, recorded: seq<nat>, acks: set<seq<AckRange>>) {
    && (forall pn :: pn in recorded ==> TrueNumber(handled, setup, pn))
    && (forall ranges, pn :: ranges in acks && Covers(ranges, pn) ==> TrueNumber(handled, setup, pn))
  }

  /** The setup packets were numbered first. */
  ghost predicate SetupFirst(setup: nat, nextPN: nat, wire: set<Datagram>) {
    setup <= nextPN && forall d :: d in wire ==> setup <= d.pn
  }

  // ----- segments -----

  /** The peer has processed a packet that brings segment i. */
  ghost predicate HandledSegment(handled: set<Datagram>, connId: seq<byte>, id: nat, segs: seq<seq<byte>>, i: nat) {
    exists d :: d in handled && BringsNth(PayloadIn(connId, d), id, segs, i)
  }

  ghost function Got(handled: set<Datagram>, connId: seq<byte>, id: nat, segs: seq<seq<byte>>): set<nat> {
    set i: nat | i < |segs| && HandledSegment(handled, connId, id, segs, i)
  }

  /** Segment i sits in the payload of a packet that is tracked and not acknowledged. */
  ghost predicate HeldSegment(h: seq<Packet>, connId: seq<byte>, id: nat, segs: seq<seq<byte>>, i: nat) {
    exists payload :: BringsNth(payload, id, segs, i) && Carries(h, connId, payload)
  }

  ghost predicate NothingForgotten(h: seq<Packet>, connId: seq<byte>, handled: set<Datagram>, id: nat,
                                   segs: seq<seq<byte>>) {
    forall i: nat :: i < |segs| ==>
      HandledSegment(handled, connId, id, segs, i) || HeldSegment(h, connId, id, segs, i)
  }

  ghost predicate StreamInv(recv: Recv, delivered: seq<byte>, segs: seq<seq<byte>>, got: set<nat>, closed: bool) {
    && (Reassembled(recv, segs, got, false) || (closed && Reassembled(recv, segs, got, true)))
    && PrefixInv(recv, delivered, Concat(segs))
  }

  ghost predicate FlowInv(recv: Recv, maxData: nat, limits: set<nat>, segs: seq<seq<byte>>) {
    && Total(segs) <= maxData <= recv.readMaxData
    && (forall l :: l in limits ==> l <= recv.readMaxData)
    && recv.readMaxData - recv.reassembly >= UPDATE_THRESHOLD
    && recv.reassembly !in recv.pending
  }

  /** Packet sizes up to 1449 are those whose packets survive renumbering (RenumberingFits). */
  ghost predicate Static(w: World) {
    && w.id < TWO_62
    && MIN_PACKET_SIZE <= w.maxPacketSize <= MAX_BUFFER_SIZE - 3
    && |w.sender.connId| <= MAX_CONN_ID
    && forall i :: 0 <= i < |w.control| ==> IsControl(w.control[i])
  }

  ghost function GotIn(w: World): set<nat> { Got(w.handled, w.sender.connId, w.id, w.segs) }

  /** What holds in every run, however late packets arrive. */
  ghost predicate Safe(w: World) {
    && Static(w)
    && Proper(w.segs)
    && WireInv(w.sender, w.wire, w.id, w.segs, w.closed)
    && w.handled <= w.wire
    && StreamInv(w.peer.recv, w.peer.delivered, w.segs, GotIn(w), w.closed)
    && FlowInv(w.peer.recv, w.maxData, w.limits, w.segs)
  }

  /** What holds as long as each ACK is harmless in its turn. */
  ghost predicate Remembers(w: World) {
    NothingForgotten(w.sender.history, w.sender.connId, w.handled, w.id, w.segs)
  }

  /** What holds as long as arrivals are timely: acknowledgements tell the truth. */
  ghost predicate Truthful(w: World) {
    && SetupFirst(w.setup, w.sender.nextPN, w.wire)
    && PeerInv(w.handled, w.setup, w.peer.recorded, w.acks)
  }

  ghost predicate Inv(w: World) { Safe(w) && Remembers(w) && Truthful(w) }
}
