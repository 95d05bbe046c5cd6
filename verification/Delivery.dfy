/**
 One direction of a connection, end to end: a writer, the sending engine, a network that may
 lose, duplicate and reorder packets, and the peer that parses, records, reassembles and
 acknowledges them. The packets on the wire are bytes.
 */
module Delivery {
  import opened Bytes
  import opened PacketNumber
  import opened AckFrame
  import opened AckRanges
  import opened Sender
  import opened Frames
  import opened Packing
  import opened StreamIO
  import opened Reassembly
  import StreamFrame

  /** A packet on the wire. Only its bytes reach the peer; pn is the number the sender gave it. */
  datatype Datagram = Datagram(pn: nat, bytes: seq<byte>)

  datatype Peer = Peer(
    largest: nat,            // largest packet number decoded so far
    recorded: seq<nat>,      // numbers kept for acknowledging
    recv: Recv,
    delivered: seq<byte>)    // what Read has returned

  datatype World = World(
    id: nat,                          // the stream
    maxPacketSize: nat,
    sender: Sender,
    control: seq<Frame>,              // control frames waiting for a packet
    maxData: nat,                     // window granted to the writer
    segs: seq<seq<byte>>,             // what Write has sent, segment by segment
    closed: bool,
    wire: set<Datagram>,              // every packet that may still arrive, once or more often
    peer: Peer,
    handled: set<Datagram>,           // packets the peer has processed
    acks: set<seq<AckRange>>,         // ACKs that may still arrive
    limits: set<nat>,                 // windows granted, whose MAX_STREAM_DATA may still arrive
    setup: nat)                       // how many setup packets were sent

  // ----- the peer -----

  /** What the frames of a packet do to the stream. */
  function HandleFrames(r: Recv, fs: seq<Frame>, id: nat): Recv
    decreases |fs|
  {
    if fs == [] then r
    else
      var next := if fs[0].Stream? && fs[0].stream.id == id
                  then Handle(r, fs[0].stream.offset, fs[0].stream.data, fs[0].stream.fin) else r;
      HandleFrames(next, fs[1..], id)
  }

  /** handleReceivedPacket: decode the number, record it, handle the frames. */
  function Receive(p: Peer, bytes: seq<byte>, connIdLen: nat, id: nat): Peer {
    match ParseShortHeader(bytes, connIdLen)
    case Error => p
    case Ok(h, start) =>
      var pn := DecodedNumber(p, h);
      p.(largest := Max(p.largest, pn),
         recorded := Record(p.recorded, pn),
         recv := HandleFrames(p.recv, FramesFrom(bytes, start), id))
  }

  function DecodedNumber(p: Peer, h: ParsedHeader): (pn: nat)
    requires h.truncated < Window(h.pnLen)
  {
    Decode(h.pnLen, p.largest, h.truncated)
  }

  /**
   What becomes of a setup packet. The length of its payload was written over the length of its
   token, so the peer looks for the payload at the last byte of the frame. It finds none for the
   first two packets and drops them; in the third, which ends with 0x64, it finds the padding and
   reads a four-byte packet number 0.
   */
  function ReceiveSetup(p: Peer): Peer {
    var pn := Decode(4, p.largest, 0);
    p.(largest := Max(p.largest, pn), recorded := Record(p.recorded, pn))
  }

  // ----- the steps -----

  datatype Step =
    | Write(chunk: seq<byte>)                  // one turn of the write loop that is let through
    | Close(accepted: bool)                    // the FIN is sent, or refused for good
    | QueueControl(frame: Frame)
    | SendOther(fs: seq<Frame>, tracked: bool) // a packet without data of this stream
    | SetSize(size: nat)                       // SetMaxPacketSize
    | AckArrives(ranges: seq<AckRange>, late: set<nat>)
    | TimeoutFires
    | QueueFlushed(fails: set<nat>)
    | LimitArrives(limit: nat)
    | PacketArrives(d: Datagram)
    | SetupArrives
    | ReadStream(n: nat)
    | EmitAck(ranges: seq<AckRange>)

  function DataFrame(w: World, chunk: seq<byte>): StreamFrame.Stream {
    Truncate(StreamFrame.Stream(w.id, Total(w.segs), chunk, false, true), |w.sender.connId|, w.maxPacketSize)
  }

  function FinFrame(w: World): StreamFrame.Stream {
    StreamFrame.Stream(w.id, Total(w.segs), [], true, true)
  }

  function HeaderNow(w: World): seq<byte> { Header(w.sender.connId, w.sender.nextPN) }

  function FramesWith(w: World, s: StreamFrame.Stream): (fs: seq<Frame>)
    ensures forall i :: 0 <= i < |fs| ==> Appendable(fs[i])
  {
    StreamFrames(s, |HeaderNow(w)|, w.control, w.maxPacketSize)
  }

  /** A tracked packet with these frames goes out; control frames that did not fit are dropped. */
  function Transmit(w: World, fs: seq<Frame>): World
    requires forall i :: 0 <= i < |fs| ==> Appendable(fs[i])
  {
    w.(sender := Send(w.sender, Payload(fs), true),
       control := [],
       wire := w.wire + {Datagram(w.sender.nextPN, HeaderNow(w) + Payload(fs))})
  }

  /**
   When a step can be taken. The guards of sendFrame on the number of tracked packets are no
   condition here: others may have sent since they were checked. Sizes above 1449 are left out,
   as packets of these sizes can outgrow their buffers (RenumberingFits).
   */
  predicate Enabled(w: World, step: Step) {
    match step
    case Write(chunk) =>
      && !w.closed && 0 < |chunk| <= WRITE_CHUNK
      && Total(w.segs) + |chunk| <= w.maxData && Total(w.segs) + |chunk| < TWO_62
    case Close(_) => !w.closed && Total(w.segs) < TWO_62
    case QueueControl(f) => IsControl(f)
    case SendOther(fs, _) =>
      && CanonicalList(fs) && (forall i :: 0 <= i < |fs| ==> !(fs[i].Stream? && fs[i].stream.id == w.id))
      && |HeaderNow(w) + Payload(fs)| <= w.maxPacketSize
    case SetSize(size) => size <= MAX_BUFFER_SIZE - 3
    case AckArrives(ranges, _) => ranges in w.acks
    case LimitArrives(limit) => limit in w.limits
    case PacketArrives(d) => d in w.wire
    case SetupArrives => w.setup > 0
    case EmitAck(ranges) => w.peer.recorded != []
    case _ => true
  }

  ghost predicate Takes(w: World, step: Step) {
    Enabled(w, step) && (step.EmitAck? ==> AckRangesOf(step.ranges, w.peer.recorded))
  }

  /** The packets of a history that go over the wire under a short header. */
  function OnWire(h: seq<Packet>): set<Datagram> {
    set p | p in h && !IsLong(p) :: Datagram(p.pn, p.buf)
  }

  /** A window update is queued whenever the window was raised; it may arrive or not. */
  function WithRecv(w: World, recv: Recv): World {
    w.(peer := w.peer.(recv := recv),
       limits := if recv.readMaxData != w.peer.recv.readMaxData then w.limits + {recv.readMaxData} else w.limits)
  }

  function AfterWrite(w: World, chunk: seq<byte>): World {
    var f := DataFrame(w, chunk);
    Transmit(w, FramesWith(w, f)).(segs := w.segs + [f.data])
  }

  function AfterClose(w: World, accepted: bool): World {
    if accepted then Transmit(w, FramesWith(w, FinFrame(w))).(closed := true) else w.(closed := true)
  }

  function AfterOther(w: World, fs: seq<Frame>, tracked: bool): World
    requires forall i :: 0 <= i < |fs| ==> Appendable(fs[i])
  {
    if tracked then Transmit(w, fs) else Transmit(w, fs).(sender := SendUntracked(w.sender))
  }

  function AfterFlush(w: World, fails: set<nat>): World {
    var t := FlushQueue(w.sender, fails);
    w.(sender := t, wire := w.wire + OnWire(t.history))
  }

  /** The peer has gone on to state p by handling d. */
  function Arrived(w: World, d: Datagram, p: Peer): World {
    WithRecv(w, p.recv).(peer := p, handled := w.handled + {d})
  }

  function AfterArrival(w: World, d: Datagram): World {
    Arrived(w, d, Receive(w.peer, d.bytes, |w.sender.connId|, w.id))
  }

  function AfterRead(w: World, n: nat): World {
    var (t, r) := ReadOnce(w.peer.recv, n);
    var u := WithRecv(w, t);
    u.(peer := u.peer.(delivered := if r.Data? then w.peer.delivered + r.bytes else w.peer.delivered))
  }

  function Do(w: World, step: Step): World
    requires Enabled(w, step)
  {
    match step
    case Write(chunk) => AfterWrite(w, chunk)
    case Close(accepted) => AfterClose(w, accepted)
    case QueueControl(f) => w.(control := w.control + [f])
    case SendOther(fs, tracked) => AfterOther(w, fs, tracked)
    case SetSize(size) => if size >= MIN_PACKET_SIZE then w.(maxPacketSize := size) else w
    case AckArrives(ranges, late) => w.(sender := OnAck(w.sender, ranges, late))
    case TimeoutFires => w.(sender := OnTimeout(w.sender))
    case QueueFlushed(fails) => AfterFlush(w, fails)
    case LimitArrives(limit) => w.(maxData := Max(w.maxData, limit))
    case PacketArrives(d) => AfterArrival(w, d)
    case SetupArrives => w.(peer := ReceiveSetup(w.peer))
    case ReadStream(n) => AfterRead(w, n)
    case EmitAck(ranges) => w.(acks := w.acks + {ranges})
  }

  /** A fresh connection: perhaps some long-header setup packets, and nothing else. */
  function Start(id: nat, connId: seq<byte>, maxPacketSize: nat, setup: seq<seq<byte>>): World {
    World(id, maxPacketSize, Setup(connId, setup), [], INITIAL_WINDOW, [], false, {},
          Peer(0, [], NEW_RECV, []), {}, {}, {INITIAL_WINDOW}, |setup|)
  }

  /**
   A packet arrives in time when the peer can still tell its full number from the bytes it
   was cut to: at most half a window behind the largest number seen.
   */
  predicate Timely(w: World, step: Step) {
    && (step.PacketArrives? ==>
          && InWindow(PnLength(step.d.pn), w.peer.largest, step.d.pn)
          && step.d.pn < TWO_62 && w.peer.largest + 1 < TWO_62)
    && (step.SetupArrives? ==> InWindow(4, w.peer.largest, 0) && w.peer.largest + 1 < TWO_62)
  }

  // ----- runs -----

  /** The state after some steps; a step that cannot be taken changes nothing. */
  function After(w: World, steps: seq<Step>): World {
    if steps == [] then w
    else
      var v, step := After(w, steps[..|steps| - 1]), steps[|steps| - 1];
      if Enabled(v, step) then Do(v, step) else v
  }

  /** Each step can be taken when its turn comes. */
  ghost predicate IsRun(w: World, steps: seq<Step>) {
    forall i :: 0 <= i < |steps| ==> Takes(After(w, steps[..i]), steps[i])
  }

  ghost predicate AllTimely(w: World, steps: seq<Step>) {
    forall i :: 0 <= i < |steps| ==> Timely(After(w, steps[..i]), steps[i])
  }

  lemma AfterLonger(w: World, steps: seq<Step>, v: World, step: Step)
    requires After(w, steps) == v && Enabled(v, step)
    ensures After(w, steps + [step]) == Do(v, step)
  {
    assert (steps + [step])[..|steps|] == steps;
  }

  lemma RunLonger(w: World, steps: seq<Step>, v: World, step: Step)
    requires IsRun(w, steps) && After(w, steps) == v && Takes(v, step)
    ensures IsRun(w, steps + [step]) && After(w, steps + [step]) == Do(v, step)
  {
    var longer := steps + [step];
    AfterLonger(w, steps, v, step);
    forall i | 0 <= i < |longer| ensures Takes(After(w, longer[..i]), longer[i]) {
      assert longer[..i] == steps[..i];
    }
  }

  lemma RunPrefix(w: World, steps: seq<Step>)
    requires steps != [] && IsRun(w, steps)
    ensures IsRun(w, steps[..|steps| - 1])
    ensures Takes(After(w, steps[..|steps| - 1]), steps[|steps| - 1])
    ensures AllTimely(w, steps) ==>
              AllTimely(w, steps[..|steps| - 1]) && Timely(After(w, steps[..|steps| - 1]), steps[|steps| - 1])
  {
    var before := steps[..|steps| - 1];
    assert forall i :: 0 <= i < |before| ==> before[..i] == steps[..i] && before[i] == steps[i];
  }
}
