/**
 What retransmission does to payloads: every copy of a packet carries the very bytes of the
 original, however often it is renumbered, and a payload once sent stays in some
 unacknowledged packet until a packet carrying it is acknowledged.
 */
module Carrying {
  import opened Bytes
  import opened AckFrame
  import opened AckRanges
  import opened Sender
  import opened Accounting
  import opened SenderRuns

  /**
   A short-header packet is its header followed by exactly the payload the flush loop cuts out,
   and that payload fits the packet buffer under any number.
   */
  ghost predicate Framed(connId: seq<byte>, p: Packet, payloads: set<seq<byte>>) {
    !IsLong(p) ==>
      && p.buf == Header(connId, p.pn) + PayloadOf(connId, p)
      && PayloadOf(connId, p) in payloads && FitsBuffer(connId, PayloadOf(connId, p))
  }

  ghost predicate CarriedBy(p: Packet, connId: seq<byte>, payload: seq<byte>) {
    !p.acked && !IsLong(p) && PayloadOf(connId, p) == payload
  }

  /** The payload is carried by a packet that is tracked and not acknowledged. */
  ghost predicate Carries(h: seq<Packet>, connId: seq<byte>, payload: seq<byte>) {
    exists i :: 0 <= i < |h| && CarriedBy(h[i], connId, payload)
  }

  ghost predicate SameBuffers(h: seq<Packet>, queue: seq<Packet>) {
    forall q, i :: q in queue && 0 <= i < |h| && h[i].pn == q.pn ==> h[i].buf == q.buf
  }

  /** The invariant, with `queue` the packets still queued. */
  ghost predicate Faithful(s: Sender, queue: seq<Packet>, payloads: set<seq<byte>>) {
    && Increasing(s.history, s.nextPN)
    && (forall i :: 0 <= i < |s.history| ==> Framed(s.connId, s.history[i], payloads))
    && (forall q :: q in queue ==> Framed(s.connId, q, payloads) && q.pn < s.nextPN)
    && SameBuffers(s.history, queue)
  }

  /** The header length recomputed from the packet number is where the payload starts. */
  lemma CutExact(connId: seq<byte>, p: Packet, payload: seq<byte>)
    requires p.buf == Header(connId, p.pn) + payload
    ensures !IsLong(p) && PayloadOf(connId, p) == payload
  {
    var header := Header(connId, p.pn);
    assert p.buf[0] == header[0];
    assert p.buf[|header|..] == payload;
  }

  lemma CarriesSnoc(h: seq<Packet>, connId: seq<byte>, p: Packet, payload: seq<byte>)
    ensures Carries(h, connId, payload) ==> Carries(h + [p], connId, payload)
    ensures CarriedBy(p, connId, payload) ==> Carries(h + [p], connId, payload)
  {
    assert (h + [p])[|h|] == p;
    if Carries(h, connId, payload) {
      var i :| 0 <= i < |h| && CarriedBy(h[i], connId, payload);
      assert (h + [p])[i] == h[i];
    }
  }

  lemma MorePayloads(s: Sender, payloads: set<seq<byte>>, more: set<seq<byte>>)
    requires Faithful(s, s.queue, payloads) && payloads <= more
    ensures Faithful(s, s.queue, more)
  {
    assert forall p :: Framed(s.connId, p, payloads) ==> Framed(s.connId, p, more);
  }

  lemma AppendFaithful(s: Sender, p: Packet, queue: seq<Packet>, payloads: set<seq<byte>>)
    requires Faithful(s, queue, payloads)
    requires p.pn == s.nextPN && Framed(s.connId, p, payloads)
    ensures Faithful(s.(nextPN := s.nextPN + 1, history := s.history + [p]), queue, payloads)
  {
  }

  lemma SendFaithful(s: Sender, payload: seq<byte>, eliciting: bool, payloads: set<seq<byte>>)
    requires Faithful(s, s.queue, payloads) && FitsBuffer(s.connId, payload)
    ensures var t := Send(s, payload, eliciting);
            && Faithful(t, t.queue, payloads + {payload})
            && Carries(t.history, t.connId, payload)
            && forall x :: Carries(s.history, s.connId, x) ==> Carries(t.history, t.connId, x)
  {
    var p := Fresh(s.nextPN, Header(s.connId, s.nextPN) + payload, eliciting);
    CutExact(s.connId, p, payload);
    MorePayloads(s, payloads, payloads + {payload});
    AppendFaithful(s, p, s.queue, payloads + {payload});
    CarriesSnoc(s.history, s.connId, p, payload);
    forall x | Carries(s.history, s.connId, x) ensures Carries(s.history + [p], s.connId, x) {
      CarriesSnoc(s.history, s.connId, p, x);
    }
  }

  // ----- acknowledgements and losses -----

  lemma MarkAckedFaithful(s: Sender, ranges: seq<AckRange>, payloads: set<seq<byte>>)
    requires Faithful(s, s.queue, payloads)
    ensures Faithful(MarkAcked(s, ranges), s.queue, payloads)
  {
    forall i | 0 <= i < |s.history| ensures Framed(s.connId, AckOne(s.history[i], ranges), payloads) {
      assert Framed(s.connId, s.history[i], payloads);
    }
  }

  lemma {:induction false} HitsComeFrom(h: seq<Packet>, cause: Cause, q: Packet)
    requires q in Hits(h, cause)
    ensures exists i :: 0 <= i < |h| && h[i].pn == q.pn && h[i].buf == q.buf
  {
    var before, last := h[..|h| - 1], h[|h| - 1];
    if q in Hits(before, cause) {
      HitsComeFrom(before, cause, q);
      var i :| 0 <= i < |before| && before[i].pn == q.pn && before[i].buf == q.buf;
      assert h[i] == before[i];
    }
  }

  lemma RequeueFaithful(s: Sender, cause: Cause, payloads: set<seq<byte>>)
    requires Faithful(s, s.queue, payloads)
    ensures Faithful(Requeue(s, cause), s.queue + Hits(s.history, cause), payloads)
  {
    forall i | 0 <= i < |s.history| ensures Framed(s.connId, MarkHit(s.history[i], cause), payloads) {
      assert Framed(s.connId, s.history[i], payloads);
    }
    forall q | q in Hits(s.history, cause)
      ensures Framed(s.connId, q, payloads) && q.pn < s.nextPN
    {
      QueuedFramed(s, cause, payloads, q);
    }
    RequeueSameBuffers(s.history, s.queue, cause);
  }

  lemma QueuedFramed(s: Sender, cause: Cause, payloads: set<seq<byte>>, q: Packet)
    requires Faithful(s, s.queue, payloads) && q in Hits(s.history, cause)
    ensures Framed(s.connId, q, payloads) && q.pn < s.nextPN
  {
    HitsComeFrom(s.history, cause, q);
    var i :| 0 <= i < |s.history| && s.history[i].pn == q.pn && s.history[i].buf == q.buf;
    assert Framed(s.connId, s.history[i], payloads);
  }

  lemma RequeueSameBuffers(h: seq<Packet>, queue: seq<Packet>, cause: Cause)
    requires forall i, j :: 0 <= i < j < |h| ==> h[i].pn < h[j].pn
    requires SameBuffers(h, queue)
    ensures SameBuffers(MarkHits(h, cause), queue + Hits(h, cause))
  {
    forall q, i | q in queue + Hits(h, cause) && 0 <= i < |h| && MarkHits(h, cause)[i].pn == q.pn
      ensures MarkHits(h, cause)[i].buf == q.buf
    {
      assert h[i].pn == q.pn;
      if q !in queue {
        HitsComeFrom(h, cause, q);
        var j :| 0 <= j < |h| && h[j].pn == q.pn && h[j].buf == q.buf;
        assert i < j || j < i || i == j;
      }
    }
  }

  lemma CompactFaithful(s: Sender, payloads: set<seq<byte>>)
    requires Faithful(s, s.queue, payloads)
    ensures Faithful(Compact(s), s.queue, payloads)
  {
    var h := Unacked(s.history);
    CompactIncreasing(s.history, s.nextPN);
    forall i | 0 <= i < |h| ensures exists j :: 0 <= j < |s.history| && s.history[j] == h[i] {
      CompactMembers(s.history, h[i]);
    }
  }

  /**
   After an ACK each payload is still carried, unless a packet that carried it was covered by
   the ACK. Declaring packets lost and compacting the history lose nothing.
   */
  lemma AckKeepsOrAcknowledges(s: Sender, ranges: seq<AckRange>, late: set<nat>, payload: seq<byte>)
    requires Carries(s.history, s.connId, payload)
    ensures || Carries(OnAck(s, ranges, late).history, s.connId, payload)
            || exists i :: 0 <= i < |s.history| && !IsLong(s.history[i])
                           && PayloadOf(s.connId, s.history[i]) == payload && Covers(ranges, s.history[i].pn)
  {
    var h := s.history;
    var i :| 0 <= i < |h| && CarriedBy(h[i], s.connId, payload);
    if !Covers(ranges, h[i].pn) {
      var t := Requeue(MarkAcked(s, ranges), Late(late));
      assert t.history[i] == MarkHit(AckOne(h[i], ranges), Late(late));
      CompactCarries(t.history, s.connId, i);
    }
  }

  lemma CompactCarries(h: seq<Packet>, connId: seq<byte>, i: nat)
    requires i < |h| && !h[i].acked && !IsLong(h[i])
    ensures Carries(Unacked(h), connId, PayloadOf(connId, h[i]))
  {
    CompactMembers(h, h[i]);
    var j :| 0 <= j < |Unacked(h)| && Unacked(h)[j] == h[i];
  }

  lemma RequeueCarries(s: Sender, cause: Cause, payload: seq<byte>)
    requires Carries(s.history, s.connId, payload)
    ensures Carries(Requeue(s, cause).history, s.connId, payload)
  {
    var h := s.history;
    var i :| 0 <= i < |h| && CarriedBy(h[i], s.connId, payload);
    assert MarkHits(h, cause)[i] == MarkHit(h[i], cause);
  }

  // ----- retransmission -----

  lemma MarkPnFaithful(s: Sender, pn: nat, queue: seq<Packet>, payloads: set<seq<byte>>)
    requires Faithful(s, queue, payloads)
    ensures Faithful(s.(history := MarkPn(s.history, pn)), queue, payloads)
  {
    forall i | 0 <= i < |s.history| ensures Framed(s.connId, MarkIfPn(s.history[i], pn), payloads) {
      assert Framed(s.connId, s.history[i], payloads);
    }
  }

  lemma FaithfulSubset(s: Sender, queue: seq<Packet>, fewer: seq<Packet>, payloads: set<seq<byte>>)
    requires Faithful(s, queue, payloads) && forall q :: q in fewer ==> q in queue
    ensures Faithful(s, fewer, payloads)
  {
  }

  lemma RebuiltFaithful(s: Sender, p: Packet, queue: seq<Packet>, payloads: set<seq<byte>>)
    requires Faithful(s, queue, payloads) && p in queue && !IsLong(p)
    ensures var again := Rebuilt(s, p);
            && !IsLong(again) && PayloadOf(s.connId, again) == PayloadOf(s.connId, p)
            && Faithful(s.(nextPN := s.nextPN + 1, history := s.history + [again]), queue, payloads)
  {
    CutExact(s.connId, Rebuilt(s, p), PayloadOf(s.connId, p));
    AppendFaithful(s, Rebuilt(s, p), queue, payloads);
  }

  /** Marking the original acknowledged is safe once the rebuilt packet carries its payload. */
  lemma MarkedCarries(h: seq<Packet>, connId: seq<byte>, again: Packet, p: Packet, payload: seq<byte>)
    requires Carries(h, connId, payload)
    requires forall i :: 0 <= i < |h| && h[i].pn == p.pn ==> h[i].buf == p.buf
    requires again.pn != p.pn && !again.acked && !IsLong(again)
    requires PayloadOf(connId, again) == PayloadOf(connId, p)
    ensures Carries(MarkPn(h + [again], p.pn), connId, payload)
  {
    var i :| 0 <= i < |h| && CarriedBy(h[i], connId, payload);
    var longer := h + [again];
    assert longer[i] == h[i] && longer[|h|] == again;
    if h[i].pn == p.pn {
      assert CarriedBy(MarkPn(longer, p.pn)[|h|], connId, payload);
    } else {
      assert CarriedBy(MarkPn(longer, p.pn)[i], connId, payload);
    }
  }

  lemma LongMarkedCarries(h: seq<Packet>, connId: seq<byte>, p: Packet, payload: seq<byte>)
    requires Carries(h, connId, payload) && IsLong(p)
    requires forall i :: 0 <= i < |h| && h[i].pn == p.pn ==> h[i].buf == p.buf
    ensures Carries(MarkPn(h, p.pn), connId, payload)
  {
    var i :| 0 <= i < |h| && CarriedBy(h[i], connId, payload);
    assert MarkPn(h, p.pn)[i] == h[i];
  }

  /** One turn of the flush loop, with `rest` still to come. */
  lemma ResendFaithful(s: Sender, p: Packet, rest: seq<Packet>, ok: bool, payloads: set<seq<byte>>)
    requires Faithful(s, s.queue + ([p] + rest), payloads)
    ensures var t := Resend(s, p, ok);
            && Faithful(t, t.queue + rest, payloads)
            && forall x :: Carries(s.history, s.connId, x) ==> Carries(t.history, t.connId, x)
  {
    var t, all := Resend(s, p, ok), s.queue + ([p] + rest);
    assert p in all;
    if IsLong(p) {
      MarkPnFaithful(s, p.pn, all, payloads);
      FaithfulSubset(t, all, t.queue + rest, payloads);
      forall x | Carries(s.history, s.connId, x) ensures Carries(t.history, t.connId, x) {
        LongMarkedCarries(s.history, s.connId, p, x);
      }
    } else if !ok {
      assert t.queue + rest == all;
    } else {
      var again := Rebuilt(s, p);
      RebuiltFaithful(s, p, all, payloads);
      MarkPnFaithful(s.(nextPN := s.nextPN + 1, history := s.history + [again]), p.pn, all, payloads);
      FaithfulSubset(t, all, t.queue + rest, payloads);
      forall x | Carries(s.history, s.connId, x) ensures Carries(t.history, t.connId, x) {
        MarkedCarries(s.history, s.connId, again, p, x);
      }
    }
  }

  lemma {:induction false} ResendAllFaithful(s: Sender, todo: seq<Packet>, fails: set<nat>, payloads: set<seq<byte>>)
    requires Faithful(s, s.queue + todo, payloads)
    ensures var t := ResendAll(s, todo, fails);
            && t.connId == s.connId
            && Faithful(t, t.queue, payloads)
            && forall x :: Carries(s.history, s.connId, x) ==> Carries(t.history, t.connId, x)
    decreases |todo|
  {
    if todo == [] {
      assert s.queue + todo == s.queue;
    } else {
      assert todo == [todo[0]] + todo[1..];
      ResendFaithful(s, todo[0], todo[1..], todo[0].pn !in fails, payloads);
      ResendAllFaithful(Resend(s, todo[0], todo[0].pn !in fails), todo[1..], fails, payloads);
    }
  }

  /** Flushing the queue loses no payload, whichever writes fail. */
  lemma FlushFaithful(s: Sender, fails: set<nat>, payloads: set<seq<byte>>)
    requires Faithful(s, s.queue, payloads)
    ensures var t := FlushQueue(s, fails);
            && t.connId == s.connId
            && Faithful(t, t.queue, payloads)
            && forall x :: Carries(s.history, s.connId, x) ==> Carries(t.history, t.connId, x)
  {
    assert [] + s.queue == s.queue;
    ResendAllFaithful(s.(queue := []), s.queue, fails, payloads);
  }

  // ----- whole runs -----

  /** The payloads of the packets a run sends. */
  function Sent(ops: seq<Op>): set<seq<byte>> {
    if ops == [] then {}
    else
      var before, last := Sent(ops[..|ops| - 1]), ops[|ops| - 1];
      if last.SendOp? then before + {last.payload} else before
  }

  lemma AckFaithful(s: Sender, ranges: seq<AckRange>, late: set<nat>, payloads: set<seq<byte>>)
    requires Faithful(s, s.queue, payloads)
    ensures Faithful(OnAck(s, ranges, late), OnAck(s, ranges, late).queue, payloads)
  {
    MarkAckedFaithful(s, ranges, payloads);
    RequeueFaithful(MarkAcked(s, ranges), Late(late), payloads);
    CompactFaithful(Requeue(MarkAcked(s, ranges), Late(late)), payloads);
  }

  lemma ApplyFaithful(s: Sender, op: Op, payloads: set<seq<byte>>)
    requires Faithful(s, s.queue, payloads) && (op.SendOp? ==> FitsBuffer(s.connId, op.payload))
    ensures var t := Apply(s, op);
            && t.connId == s.connId
            && Faithful(t, t.queue, if op.SendOp? then payloads + {op.payload} else payloads)
  {
    match op
    case AdmitOp =>
    case GiveUpOp =>
    case SendOp(payload, eliciting) => SendFaithful(s, payload, eliciting, payloads);
    case UntrackedOp =>
    case AckOp(ranges, late) => AckFaithful(s, ranges, late, payloads);
    case TimeoutOp => RequeueFaithful(s, Timeout, payloads);
    case FlushOp(fails) => FlushFaithful(s, fails, payloads);
  }

  /**
   Over every run, in any order and with any failing writes, each short-header packet that is
   tracked or queued is its own header followed by the untouched payload of a packet that
   was sent. Packets are first built to maxSize; up to 1449 bytes no copy is longer than the
   buffer of a tracked packet, and above that one can be (RenumberingFits).
   */
  lemma {:induction false} RetransmissionPreservesPayloads(s: Sender, ops: seq<Op>, maxSize: nat)
    requires s.history == [] && s.queue == [] && maxSize <= MAX_BUFFER_SIZE - 3
    requires forall i :: 0 <= i < |ops| && ops[i].SendOp? ==> 2 + |s.connId| + |ops[i].payload| <= maxSize
    ensures var t := ApplyAll(s, ops);
            && t.connId == s.connId
            && Faithful(t, t.queue, Sent(ops))
            && (forall p :: p in t.history + t.queue && !IsLong(p) ==>
                  && p.buf == Header(s.connId, p.pn) + PayloadOf(s.connId, p)
                  && PayloadOf(s.connId, p) in Sent(ops)
                  && |p.buf| <= maxSize + 3 <= MAX_BUFFER_SIZE)
            && (forall x :: x in Sent(ops) ==> 2 + |s.connId| + |x| <= maxSize)
    decreases |ops|
  {
    if ops != [] {
      var before, last := ops[..|ops| - 1], ops[|ops| - 1];
      assert forall i :: 0 <= i < |before| ==> before[i] == ops[i];
      RetransmissionPreservesPayloads(s, before, maxSize);
      ApplyFaithful(ApplyAll(s, before), last, Sent(before));
    }
    SizesFollow(ApplyAll(s, ops), Sent(ops), maxSize);
  }

  lemma SizesFollow(t: Sender, payloads: set<seq<byte>>, maxSize: nat)
    requires Faithful(t, t.queue, payloads)
    requires forall x :: x in payloads ==> 2 + |t.connId| + |x| <= maxSize
    ensures forall p :: p in t.history + t.queue && !IsLong(p) ==>
              && p.buf == Header(t.connId, p.pn) + PayloadOf(t.connId, p)
              && PayloadOf(t.connId, p) in payloads && |p.buf| <= maxSize + 3
  {
    forall p | p in t.history + t.queue && !IsLong(p)
      ensures p.buf == Header(t.connId, p.pn) + PayloadOf(t.connId, p)
      ensures PayloadOf(t.connId, p) in payloads && |p.buf| <= maxSize + 3
    {
      assert Framed(t.connId, p, payloads);
      assert |p.buf| == 1 + |t.connId| + PnLength(p.pn) + |PayloadOf(t.connId, p)|;
    }
  }
}
