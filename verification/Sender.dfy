/**
 The sending half of a connection as a value (conn.go): tracked packets, the retransmit
 queue and the bytes in flight, and what each operation does to them.
 */
module Sender {
  import opened Bytes
  import opened PacketNumber
  import opened AckFrame
  import opened AckRanges

  const MAX_OUTSTANDING := 4000
  const MAX_TRACKED := 5000
  const MAX_BUFFER_SIZE := 1452

  datatype Packet = Packet(
    pn: nat,
    buf: seq<byte>,
    eliciting: bool,
    acked: bool,
    lost: bool,
    retransmitted: bool,   // has been put in the retransmit queue
    isRetransmit: bool)    // was itself built from a queued packet

  datatype Sender = Sender(
    connId: seq<byte>,
    nextPN: nat,
    history: seq<Packet>,
    queue: seq<Packet>,
    inFlight: int)

  /** Behind the longest header there is, the payload fits the fixed buffer of a tracked packet. */
  predicate FitsBuffer(connId: seq<byte>, payload: seq<byte>) {
    1 + |connId| + 4 + |payload| <= MAX_BUFFER_SIZE
  }

  // ----- building packets -----

  /** The sender always measures packet numbers against 0. */
  function PnLength(pn: nat): PnLen { LengthForHeader(pn, 0) }

  function Header(connId: seq<byte>, pn: nat): (b: seq<byte>)
    ensures |b| == 1 + |connId| + PnLength(pn) && b[0] < 0x80
  {
    ShortHeader(connId, pn, PnLength(pn))
  }

  function Fresh(pn: nat, buf: seq<byte>, eliciting: bool): Packet {
    Packet(pn, buf, eliciting, false, false, false, false)
  }

  function Track(s: Sender, buf: seq<byte>, eliciting: bool): Sender {
    s.(nextPN := s.nextPN + 1,
       history := s.history + [Fresh(s.nextPN, buf, eliciting)],
       inFlight := s.inFlight + |buf|)
  }

  /** A packet under a short header, tracked. */
  function Send(s: Sender, payload: seq<byte>, eliciting: bool): Sender {
    Track(s, Header(s.connId, s.nextPN) + payload, eliciting)
  }

  /** A fresh connection that has sent some long-header setup packets. */
  function Setup(connId: seq<byte>, setup: seq<seq<byte>>): Sender
    decreases |setup|
  {
    if setup == [] then Sender(connId, 0, [], [], 0)
    else Track(Setup(connId, setup[..|setup| - 1]), setup[|setup| - 1], false)
  }

  /** Control frames flushed on their own use up a number but are not tracked. */
  function SendUntracked(s: Sender): Sender { s.(nextPN := s.nextPN + 1) }

  predicate LongHeader(buf: seq<byte>) { buf != [] && buf[0] >= 0x80 }

  predicate IsLong(p: Packet) { LongHeader(p.buf) }

  // ----- acknowledgements -----

  /** Marks the packets an ACK covers. */
  function AckOne(p: Packet, ranges: seq<AckRange>): Packet {
    if Covers(ranges, p.pn) then p.(acked := true) else p
  }

  function AckAll(h: seq<Packet>, ranges: seq<AckRange>): (r: seq<Packet>)
    ensures |r| == |h| && forall i :: 0 <= i < |h| ==> r[i] == AckOne(h[i], ranges)
  {
    if h == [] then [] else AckAll(h[..|h| - 1], ranges) + [AckOne(h[|h| - 1], ranges)]
  }

  /** Bytes reported to the congestion controller as newly acknowledged. */
  function AckedBytes(h: seq<Packet>, ranges: seq<AckRange>): nat {
    if h == [] then 0
    else
      var last := h[|h| - 1];
      AckedBytes(h[..|h| - 1], ranges) + if Covers(ranges, last.pn) && !last.acked then |last.buf| else 0
  }

  function MarkAcked(s: Sender, ranges: seq<AckRange>): Sender {
    s.(history := AckAll(s.history, ranges), inFlight := s.inFlight - AckedBytes(s.history, ranges))
  }

  // ----- declaring packets lost -----

  /** Loss detection hits the packets found late; a probe timeout hits every original still out. */
  datatype Cause = Late(pns: set<nat>) | Timeout

  predicate Hit(p: Packet, cause: Cause) {
    && !p.acked && !p.retransmitted
    && match cause
       case Late(pns) => p.eliciting && p.pn in pns
       case Timeout => !p.isRetransmit
  }

  function MarkHit(p: Packet, cause: Cause): Packet {
    if Hit(p, cause) then p.(retransmitted := true, lost := true) else p
  }

  function MarkHits(h: seq<Packet>, cause: Cause): (r: seq<Packet>)
    ensures |r| == |h| && forall i :: 0 <= i < |h| ==> r[i] == MarkHit(h[i], cause)
  {
    if h == [] then [] else MarkHits(h[..|h| - 1], cause) + [MarkHit(h[|h| - 1], cause)]
  }

  /** The copies that go to the queue. */
  function Hits(h: seq<Packet>, cause: Cause): seq<Packet> {
    if h == [] then []
    else
      var before, last := Hits(h[..|h| - 1], cause), h[|h| - 1];
      if Hit(last, cause) then before + [last.(retransmitted := true)] else before
  }

  /** Bytes taken out of flight: a packet is discounted when it is first declared lost. */
  function DiscardedBytes(h: seq<Packet>, cause: Cause): nat {
    if h == [] then 0
    else
      var last := h[|h| - 1];
      DiscardedBytes(h[..|h| - 1], cause) + if Hit(last, cause) && !last.lost then |last.buf| else 0
  }

  function Requeue(s: Sender, cause: Cause): Sender {
    s.(history := MarkHits(s.history, cause),
       queue := s.queue + Hits(s.history, cause),
       inFlight := s.inFlight - DiscardedBytes(s.history, cause))
  }

  // ----- compaction -----

  function Unacked(h: seq<Packet>): (r: seq<Packet>)
    ensures |r| <= |h|
  {
    if h == [] then []
    else
      var before, last := Unacked(h[..|h| - 1]), h[|h| - 1];
      if last.acked then before else before + [last]
  }

  function Compact(s: Sender): Sender { s.(history := Unacked(s.history)) }

  /** What an incoming ACK does before the queue is flushed. */
  function OnAck(s: Sender, ranges: seq<AckRange>, late: set<nat>): Sender {
    Compact(Requeue(MarkAcked(s, ranges), Late(late)))
  }

  function OnTimeout(s: Sender): Sender { Requeue(s, Timeout) }

  // ----- retransmission -----

  function MarkIfPn(p: Packet, pn: nat): Packet {
    if p.pn == pn then p.(acked := true) else p
  }

  function MarkPn(h: seq<Packet>, pn: nat): (r: seq<Packet>)
    ensures |r| == |h| && forall i :: 0 <= i < |h| ==> r[i] == MarkIfPn(h[i], pn)
  {
    if h == [] then [] else MarkPn(h[..|h| - 1], pn) + [MarkIfPn(h[|h| - 1], pn)]
  }

  /** What stands behind the header length recomputed from the packet number. */
  function BehindHeader(connId: seq<byte>, pn: nat, buf: seq<byte>): seq<byte> {
    var oldHdrLen := 1 + |connId| + PnLength(pn);
    if oldHdrLen < |buf| then buf[oldHdrLen..] else []
  }

  /** What a queued packet carries. */
  function PayloadOf(connId: seq<byte>, p: Packet): seq<byte> { BehindHeader(connId, p.pn, p.buf) }

  function Rebuilt(s: Sender, p: Packet): Packet {
    Packet(s.nextPN, Header(s.connId, s.nextPN) + PayloadOf(s.connId, p), true, false, false, false, true)
  }

  /** One turn of the flush loop. `ok` is whether the socket took the packet. */
  function Resend(s: Sender, p: Packet, ok: bool): Sender {
    if IsLong(p) then s.(history := MarkPn(s.history, p.pn))
    else if !ok then s.(nextPN := s.nextPN + 1, queue := s.queue + [p])
    else
      var again := Rebuilt(s, p);
      s.(nextPN := s.nextPN + 1,
         history := MarkPn(s.history + [again], p.pn),
         inFlight := s.inFlight + |again.buf|)
  }

  function ResendAll(s: Sender, todo: seq<Packet>, fails: set<nat>): Sender
    decreases |todo|
  {
    if todo == [] then s
    else ResendAll(Resend(s, todo[0], todo[0].pn !in fails), todo[1..], fails)
  }

  /** flushRetransmitQueue; `fails` are the queued packets whose write fails. */
  function FlushQueue(s: Sender, fails: set<nat>): Sender {
    ResendAll(s.(queue := []), s.queue, fails)
  }
}
