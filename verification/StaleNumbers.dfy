/**
 Why arrivals have to be timely. Packet numbers up to 127 are always sent in one byte, so a
 packet that is late by more than half a window of 256 is taken for a later one. The peer then
 acknowledges a packet it never got, and the sender drops the only copy of its data.
 */
module StaleNumbers {
  import opened Bytes
  import opened Varint
  import opened PacketNumber
  import opened AckFrame
  import opened AckRanges
  import opened Sender
  import opened Frames
  import opened Packing
  import opened StreamIO
  import opened Reassembly
  import opened Delivery
  import opened DeliveryInvariant
  import opened DeliverySteps
  import opened DeliveryMemory
  import StreamFrame

  /** A window update for another direction, as it is flushed on its own. */
  const UPDATE: seq<Frame> := [MaxStreamData(0, INITIAL_WINDOW)]

  lemma UpdateIsCanonical()
    ensures CanonicalList(UPDATE)
  {
    assert Frames.Fields(UPDATE[0]) == [0, INITIAL_WINDOW];
  }

  lemma UpdateIsSmall()
    ensures CanonicalList(UPDATE) && |Payload(UPDATE)| <= 17
  {
    UpdateIsCanonical();
    var vs := Wrapped(Frames.Fields(UPDATE[0]));
    assert vs == [U64(0), U64(INITIAL_WINDOW)] && vs[1..][1..] == [];
    assert |Ints(vs)| == |Encode(vs[0])| + |Encode(vs[1])|;
    PayloadCons(UPDATE[0], []);
    assert UPDATE == [UPDATE[0]] + [] && Parts([]) == [];
  }

  function UpdateDatagram(connId: seq<byte>, pn: nat): Datagram
    requires CanonicalList(UPDATE)
  {
    Datagram(pn, Header(connId, pn) + Payload(UPDATE))
  }

  ghost predicate Reaches(w: World, v: World) {
    exists steps :: IsRun(w, steps) && After(w, steps) == v
  }

  lemma ReachesSelf(w: World)
    ensures Reaches(w, w)
  {
    assert IsRun(w, []) && After(w, []) == w;
  }

  lemma ReachesNext(w: World, v: World, step: Step)
    requires Reaches(w, v) && Takes(v, step)
    ensures Reaches(w, Do(v, step))
  {
    var steps :| IsRun(w, steps) && After(w, steps) == v;
    RunLonger(w, steps, v, step);
  }

  /** The update goes out untracked, as flushed control frames do. */
  lemma UpdateSent(v: World)
    requires |v.sender.connId| <= MAX_CONN_ID && v.maxPacketSize >= MIN_PACKET_SIZE
    ensures CanonicalList(UPDATE) && Takes(v, SendOther(UPDATE, false))
    ensures Do(v, SendOther(UPDATE, false))
            == v.(sender := v.sender.(nextPN := v.sender.nextPN + 1), control := [],
                  wire := v.wire + {UpdateDatagram(v.sender.connId, v.sender.nextPN)})
  {
    UpdateIsSmall();
  }

  lemma OneMoreUpdate(w: World, u: World, n: nat) returns (wire: set<Datagram>)
    requires CanonicalList(UPDATE) && Reaches(w, u)
    requires |u.sender.connId| <= MAX_CONN_ID && u.maxPacketSize >= MIN_PACKET_SIZE
    requires u.control == [] && u.sender.nextPN == n
    ensures Reaches(w, u.(sender := u.sender.(nextPN := n + 1), wire := wire))
    ensures wire == u.wire + {UpdateDatagram(u.sender.connId, n)}
  {
    UpdateSent(u);
    wire := u.wire + {UpdateDatagram(u.sender.connId, n)};
    assert u.control == [];
    ReachesNext(w, u, SendOther(UPDATE, false));
  }

  lemma {:induction false} UpdatesSent(w: World, u: World, n: nat) returns (wire: set<Datagram>)
    requires CanonicalList(UPDATE) && Reaches(w, u)
    requires |u.sender.connId| <= MAX_CONN_ID && u.maxPacketSize >= MIN_PACKET_SIZE
    requires u.control == [] && u.sender.nextPN <= n
    ensures u.wire <= wire && Reaches(w, u.(sender := u.sender.(nextPN := n), wire := wire))
    decreases n - u.sender.nextPN
  {
    if u.sender.nextPN == n {
      wire := u.wire;
      assert u == u.(sender := u.sender.(nextPN := n), wire := wire);
    } else {
      var more := OneMoreUpdate(w, u, u.sender.nextPN);
      wire := UpdatesSent(w, u.(sender := u.sender.(nextPN := u.sender.nextPN + 1), wire := more), n);
    }
  }

  /** It changes only what the peer knows of packet numbers, here by the number it decodes. */
  lemma UpdateReceived(p: Peer, connId: seq<byte>, pn: nat, id: nat)
    ensures CanonicalList(UPDATE)
    ensures var n := PnLength(pn);
            var decoded := DecodedNumber(p, ParsedHeader(Truncated(pn, n), n));
            Receive(p, UpdateDatagram(connId, pn).bytes, |connId|, id)
            == p.(largest := Max(p.largest, decoded), recorded := Record(p.recorded, decoded))
  {
    UpdateIsCanonical();
    ShortHeaderRoundTrip(connId, pn, PnLength(pn), Payload(UPDATE));
    OtherPayload(UPDATE, id);
    assert Effect(p.recv, Header(connId, pn), Payload(UPDATE), id) == p.recv;
  }

  /**
   For any packet on the wire: the peer records the number it was sent under exactly when the
   arrival is timely. An arrival that is not records some other packet as received.
   */
  lemma RecordedExactlyWhenTimely(w: World, d: Datagram)
    requires Safe(w) && d in w.wire && d.pn < TWO_62 && w.peer.largest + 1 < TWO_62
    ensures ParseShortHeader(d.bytes, |w.sender.connId|).Ok?
    ensures var pn := DecodedNumber(w.peer, ParseShortHeader(d.bytes, |w.sender.connId|).value);
            && AfterArrival(w, d).peer.recorded == Record(w.peer.recorded, pn)
            && (pn == d.pn <==> Timely(w, PacketArrives(d)))
  {
    assert OnTheWire(d, w.sender, w.id, w.segs, w.closed);
    ShortHeaderRoundTrip(w.sender.connId, d.pn, PnLength(d.pn), PayloadIn(w.sender.connId, d));
    DecodeExact(PnLength(d.pn), w.peer.largest, d.pn);
  }

  /** The same for the setup packet of which the peer makes number 0. */
  lemma SetupRecordedExactly(w: World)
    requires w.setup > 0 && w.peer.largest + 1 < TWO_62
    ensures var pn := Decode(4, w.peer.largest, 0);
            && Do(w, SetupArrives).peer.recorded == Record(w.peer.recorded, pn)
            && (pn == 0 <==> Timely(w, SetupArrives))
  {
    DecodeExact(4, w.peer.largest, 0);
    assert Truncated(0, 4) == 0;
  }

  lemma DecodedAs258()
    ensures Decode(PnLength(258), 0, Truncated(258, PnLength(258))) == 258
  {
    DecodeExact(PnLength(258), 0, 258);
  }

  /** After number 258, number 3 is taken for 259. */
  lemma ThreeReadAs259()
    ensures Decode(PnLength(3), 258, Truncated(3, PnLength(3))) == 259
  {
  }

  lemma RecordedOnce()
    ensures Record([], 258) == [258]
  {
  }

  lemma RecordedTwice()
    ensures Record([258], 259) == [258, 259]
  {
  }

  /** An arrival that leaves the stream alone. */
  lemma QuietArrival(w: World, d: Datagram, p: Peer)
    requires d in w.wire && p == Receive(w.peer, d.bytes, |w.sender.connId|, w.id) && p.recv == w.peer.recv
    ensures Do(w, PacketArrives(d)) == w.(peer := p, handled := w.handled + {d})
  {
  }

  lemma UpdateArrives(w: World, pn: nat, decoded: nat, recorded: seq<nat>)
    requires CanonicalList(UPDATE) && UpdateDatagram(w.sender.connId, pn) in w.wire
    requires decoded == DecodedNumber(w.peer, ParsedHeader(Truncated(pn, PnLength(pn)), PnLength(pn)))
    requires recorded == Record(w.peer.recorded, decoded)
    ensures Do(w, PacketArrives(UpdateDatagram(w.sender.connId, pn)))
            == w.(peer := w.peer.(largest := Max(w.peer.largest, decoded), recorded := recorded),
                  handled := w.handled + {UpdateDatagram(w.sender.connId, pn)})
  {
    UpdateReceived(w.peer, w.sender.connId, pn, w.id);
    QuietArrival(w, UpdateDatagram(w.sender.connId, pn),
                 w.peer.(largest := Max(w.peer.largest, decoded), recorded := recorded));
  }

  const RANGES: seq<AckRange> := [AckRange(258, 259)]

  lemma RangesOfTwo()
    ensures AckRangesOf(RANGES, [258, 259])
    ensures forall pn :: Covers(RANGES, pn) <==> pn == 258 || pn == 259
  {
    assert InRange(RANGES[0], 258) && InRange(RANGES[0], 259);
    forall pn: int ensures Covers(RANGES, pn) <==> pn == 258 || pn == 259 {
      assert Covers(RANGES, pn) <==> InRange(RANGES[0], pn);
    }
    assert [258, 259][0] == 258 && [258, 259][1] == 259;
  }

  /** Packets no ACK covers are left as they are. */
  ghost predicate Untouched(h: seq<Packet>) {
    forall p :: p in h ==> !p.acked && p.pn < 258
  }

  lemma {:induction false} AllUnacked(h: seq<Packet>)
    requires forall p :: p in h ==> !p.acked
    ensures Unacked(h) == h
  {
    if h != [] {
      AllUnacked(h[..|h| - 1]);
      assert h == h[..|h| - 1] + [h[|h| - 1]];
    }
  }

  lemma {:induction false} NoneLate(h: seq<Packet>)
    ensures Hits(h, Late({})) == []
  {
    if h != [] {
      NoneLate(h[..|h| - 1]);
    }
  }

  /** Acknowledging the last of the tracked packets leaves the others. */
  lemma AckedAway(s: Sender, before: seq<Packet>, p: Packet)
    requires s.history == before + [p] && p.pn == 259 && Untouched(before)
    ensures OnAck(s, RANGES, {}).history == before && OnAck(s, RANGES, {}).queue == s.queue
  {
    RangesOfTwo();
    var h := AckAll(s.history, RANGES);
    assert h == before + [p.(acked := true)];
    NoneLate(h);
    assert MarkHits(h, Late({})) == h;
    assert h[..|h| - 1] == before;
    AllUnacked(before);
  }

  /** An update arrives and is taken for number `decoded`. */
  lemma UpdateReaches(w: World, v: World, pn: nat, decoded: nat, recorded: seq<nat>) returns (u: World)
    requires CanonicalList(UPDATE) && Reaches(w, v) && UpdateDatagram(v.sender.connId, pn) in v.wire
    requires decoded == Decode(PnLength(pn), v.peer.largest, Truncated(pn, PnLength(pn)))
    requires recorded == Record(v.peer.recorded, decoded)
    ensures Reaches(w, u)
    ensures u == v.(peer := v.peer.(largest := Max(v.peer.largest, decoded), recorded := recorded),
                    handled := u.handled)
  {
    UpdateArrives(v, pn, decoded, recorded);
    ReachesNext(w, v, PacketArrives(UpdateDatagram(v.sender.connId, pn)));
    u := Do(v, PacketArrives(UpdateDatagram(v.sender.connId, pn)));
  }

  /** A connection that has sent its three setup packets, under the numbers 0 to 2. */
  ghost predicate SetUp(w: World, setup: seq<seq<byte>>) {
    FreshStart(w, setup) && |setup| == 3
  }

  lemma {:induction false} SetupNumbers(connId: seq<byte>, setup: seq<seq<byte>>)
    ensures Setup(connId, setup).nextPN == |setup| == |Setup(connId, setup).history|
    ensures forall p :: p in Setup(connId, setup).history ==> !p.acked && p.pn < |setup|
    decreases |setup|
  {
    if setup != [] {
      SetupNumbers(connId, setup[..|setup| - 1]);
    }
  }

  lemma SetUpIs(w: World, setup: seq<seq<byte>>)
    requires SetUp(w, setup)
    ensures w.sender.nextPN == 3 && |w.sender.history| == 3 && w.sender.queue == [] && Untouched(w.sender.history)
    ensures forall p :: p in w.sender.history ==> IsLong(p)
  {
    SetupNumbers(w.sender.connId, setup);
    SetupFaithful(w.sender.connId, setup);
  }

  /** Packets 3 to 258 have been sent, and the last of them has arrived. */
  ghost predicate AllButLastLost(w: World, v: World) {
    && v == w.(sender := w.sender.(nextPN := 259), wire := v.wire, handled := v.handled,
               peer := w.peer.(largest := 258, recorded := [258]))
    && CanonicalList(UPDATE) && UpdateDatagram(v.sender.connId, 3) in v.wire
  }

  lemma UpdatesOut(w: World) returns (wire: set<Datagram>)
    requires Static(w) && w.control == [] && w.sender.nextPN == 3
    ensures CanonicalList(UPDATE) && Reaches(w, w.(sender := w.sender.(nextPN := 259), wire := wire))
    ensures UpdateDatagram(w.sender.connId, 3) in wire && UpdateDatagram(w.sender.connId, 258) in wire
  {
    UpdateIsCanonical();
    ReachesSelf(w);
    var first := OneMoreUpdate(w, w, 3);
    var most := UpdatesSent(w, w.(sender := w.sender.(nextPN := 4), wire := first), 258);
    wire := OneMoreUpdate(w, w.(sender := w.sender.(nextPN := 258), wire := most), 258);
  }

  lemma FirstPart(w: World, setup: seq<seq<byte>>) returns (v: World)
    requires SetUp(w, setup)
    ensures Reaches(w, v) && AllButLastLost(w, v)
  {
    SetUpIs(w, setup);
    var wire := UpdatesOut(w);
    DecodedAs258();
    RecordedOnce();
    v := UpdateReaches(w, w.(sender := w.sender.(nextPN := 259), wire := wire), 258, 258, [258]);
  }

  /** The byte is written and sent in packet 259. */
  ghost predicate ByteOut(v: World, x: World) {
    && x.segs == [[7]] && x.peer == v.peer && v.wire <= x.wire
    && x.sender.queue == v.sender.queue && x.sender.connId == v.sender.connId
    && |x.sender.history| == |v.sender.history| + 1
    && x.sender.history[..|v.sender.history|] == v.sender.history
    && x.sender.history[|v.sender.history|].pn == v.sender.nextPN
  }

  lemma ByteSent(w: World, v: World) returns (x: World)
    requires Reaches(w, v) && Static(v) && v.segs == [] && !v.closed
    requires v.maxData == INITIAL_WINDOW
    ensures Reaches(w, x) && ByteOut(v, x)
  {
    ByteWritten(v);
    ReachesNext(w, v, Write([7]));
    x := Do(v, Write([7]));
  }

  /** The byte is sent, and a late copy of packet 3 arrives instead of it. */
  lemma SecondPart(w: World, setup: seq<seq<byte>>, v: World) returns (u: World)
    requires SetUp(w, setup) && Reaches(w, v) && AllButLastLost(w, v)
    ensures Reaches(w, u) && u.segs == [[7]] && u.peer.recv == NEW_RECV && u.peer.recorded == [258, 259]
    ensures |u.sender.history| == 4 && u.sender.history[..3] == w.sender.history && u.sender.history[3].pn == 259
    ensures u.sender.queue == []
  {
    SetUpIs(w, setup);
    var x := ByteSent(w, v);
    ThreeReadAs259();
    RecordedTwice();
    u := UpdateReaches(w, x, 3, 259, [258, 259]);
  }

  lemma RangesEmitted(w: World, u: World) returns (x: World)
    requires Reaches(w, u) && u.peer.recorded == [258, 259]
    ensures Reaches(w, x) && x == u.(acks := u.acks + {RANGES})
  {
    RangesOfTwo();
    ReachesNext(w, u, EmitAck(RANGES));
    x := Do(u, EmitAck(RANGES));
  }

  lemma RangesArrive(w: World, x: World) returns (v: World)
    requires Reaches(w, x) && RANGES in x.acks
    ensures Reaches(w, v) && v == x.(sender := OnAck(x.sender, RANGES, {}))
  {
    ReachesNext(w, x, AckArrives(RANGES, {}));
    v := Do(x, AckArrives(RANGES, {}));
  }

  /** The peer acknowledges 258 and 259, and the sender believes it. */
  lemma RangesBelieved(w: World, u: World) returns (v: World)
    requires Reaches(w, u) && u.peer.recorded == [258, 259]
    ensures Reaches(w, v) && v.segs == u.segs && v.peer == u.peer && v.sender == OnAck(u.sender, RANGES, {})
  {
    var x := RangesEmitted(w, u);
    v := RangesArrive(w, x);
  }

  lemma ThirdPart(s: Sender, t: Sender, before: seq<Packet>)
    requires |s.history| == |before| + 1 && s.history[..|before|] == before && s.history[|before|].pn == 259
    requires Untouched(before) && t == OnAck(s, RANGES, {})
    ensures t.history == before && t.queue == s.queue
  {
    assert s.history == before + [s.history[|before|]];
    AckedAway(s, before, s.history[|before|]);
  }

  /**
   The run: after the three setup packets, 256 window updates of which only the last arrives,
   then one byte of data that is lost, then a late copy of the first update. The peer
   acknowledges number 259 and the sender drops its only copy of the byte: it has only the
   setup packets left, which it never sends again, and the peer has nothing of the stream.
   */
  lemma LateDuplicateLosesData(w: World, setup: seq<seq<byte>>) returns (v: World)
    requires FreshStart(w, setup) && |setup| == 3
    ensures Reaches(w, v)
    ensures Concat(v.segs) == [7] && v.peer.recv == NEW_RECV
    ensures v.sender.history == w.sender.history && v.sender.queue == []
    ensures forall p :: p in v.sender.history ==> IsLong(p)
    ensures !Remembers(v)
  {
    SetUpIs(w, setup);
    v := LateRun(w, setup);
    assert [[7]][1..] == [];
    ReachedForgets(w, setup, v);
  }

  lemma ReachedForgets(w: World, setup: seq<seq<byte>>, v: World)
    requires FreshStart(w, setup) && Reaches(w, v) && NothingOutstanding(v.sender.history)
    requires v.segs == [[7]] && v.peer.recv.reassembly == 0
    ensures !Remembers(v)
  {
    var steps :| IsRun(w, steps) && After(w, steps) == v;
    StartSafe(w, setup);
    RunSafe(w, steps);
    QuiescentMemory(v);
    AllReassembled(v);
    assert Total([[7]]) == 1;
  }

  lemma LateRun(w: World, setup: seq<seq<byte>>) returns (v: World)
    requires SetUp(w, setup) && Untouched(w.sender.history) && |w.sender.history| == 3
    ensures Reaches(w, v) && v.segs == [[7]] && v.peer.recv == NEW_RECV
    ensures v.sender.history == w.sender.history && v.sender.queue == []
  {
    var x := FirstPart(w, setup);
    var y := SecondPart(w, setup, x);
    v := RangesBelieved(w, y);
    ThirdPart(y.sender, v.sender, w.sender.history);
  }

  lemma ByteWritten(w: World)
    requires Static(w) && w.segs == [] && !w.closed && w.maxData == INITIAL_WINDOW
    ensures Enabled(w, Write([7])) && ByteOut(w, Do(w, Write([7])))
  {
    TruncateFits(StreamFrame.Stream(w.id, 0, [7], false, true), |w.sender.connId|, w.maxPacketSize);
    assert DataFrame(w, [7]).data == [7];
  }
}
