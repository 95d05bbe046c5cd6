/** What each operation does to the parts of the end-to-end invariant. */
module DeliverySafety {
  import opened Bytes
  import opened PacketNumber
  import opened AckFrame
  import opened AckRanges
  import opened Sender
  import opened Accounting
  import opened Carrying
  import opened Frames
  import opened Packing
  import opened StreamIO
  import opened Reassembly
  import opened Delivery
  import opened DeliveryInvariant

  // ----- sending -----

  lemma NthExtended(payload: seq<byte>, id: nat, segs: seq<seq<byte>>, data: seq<byte>, i: nat)
    ensures BringsNth(payload, id, segs, i) ==> BringsNth(payload, id, segs + [data], i)
    ensures BringsNth(payload, id, segs + [data], i) && i < |segs| ==> BringsNth(payload, id, segs, i)
  {
    if i < |segs| {
      OffExtended(segs, data, i);
      assert (segs + [data])[i] == segs[i];
    }
  }

  lemma GoodExtended(payload: seq<byte>, id: nat, segs: seq<seq<byte>>, data: seq<byte>)
    requires Good(payload, id, segs, false)
    ensures Good(payload, id, segs + [data], false)
  {
    if i: nat :| BringsNth(payload, id, segs, i) {
      NthExtended(payload, id, segs, data, i);
    }
  }

  lemma LastBrought(payload: seq<byte>, id: nat, segs: seq<seq<byte>>, data: seq<byte>)
    requires BringsSegment(payload, id, Total(segs), data)
    ensures BringsNth(payload, id, segs + [data], |segs|)
  {
    OffExtended(segs, data, |segs|);
    assert (segs + [data])[|segs|] == data;
  }

  /** A packet not sent before brings something new: nothing handled so far brought it. */
  lemma NotBroughtYet(payload: seq<byte>, id: nat, segs: seq<seq<byte>>, data: seq<byte>)
    requires Proper(segs) && data != [] && Good(payload, id, segs, false)
    ensures !BringsNth(payload, id, segs + [data], |segs|)
  {
    if BringsNth(payload, id, segs + [data], |segs|) {
      OffExtended(segs, data, |segs|);
      assert BringsSegment(payload, id, Total(segs), data);
      SegmentOnly(payload, id, Total(segs), data);
      var i: nat :| BringsNth(payload, id, segs, i);
      SegmentUnique(payload, id, Total(segs), data, Off(segs, i), segs[i]);
      OffMonotone(segs, i, |segs|);
    }
  }

  lemma GotAfterWrite(handled: set<Datagram>, connId: seq<byte>, id: nat, segs: seq<seq<byte>>, data: seq<byte>)
    requires Proper(segs) && data != []
    requires forall d :: d in handled ==> Good(PayloadIn(connId, d), id, segs, false)
    ensures Got(handled, connId, id, segs + [data]) == Got(handled, connId, id, segs)
  {
    forall i: nat
      ensures i in Got(handled, connId, id, segs + [data]) <==> i in Got(handled, connId, id, segs)
    {
      if i < |segs| {
        SegmentStillHandled(handled, connId, id, segs, data, i);
      } else if i == |segs| {
        forall d | d in handled ensures !BringsNth(PayloadIn(connId, d), id, segs + [data], i) {
          NotBroughtYet(PayloadIn(connId, d), id, segs, data);
        }
      }
    }
  }

  lemma SegmentStillHandled(handled: set<Datagram>, connId: seq<byte>, id: nat, segs: seq<seq<byte>>,
                            data: seq<byte>, i: nat)
    requires i < |segs|
    ensures HandledSegment(handled, connId, id, segs + [data], i) <==> HandledSegment(handled, connId, id, segs, i)
  {
    forall d | d in handled
      ensures BringsNth(PayloadIn(connId, d), id, segs + [data], i) <==> BringsNth(PayloadIn(connId, d), id, segs, i)
    {
      NthExtended(PayloadIn(connId, d), id, segs, data, i);
    }
  }

  /** A packet with a new number goes on the wire and into the history. */
  lemma TransmitWire(s: Sender, wire: set<Datagram>, id: nat, segs: seq<seq<byte>>, closed: bool, payload: seq<byte>)
    requires WireInv(s, wire, id, segs, closed) && Good(payload, id, segs, closed) && FitsBuffer(s.connId, payload)
    ensures WireInv(Send(s, payload, true), wire + {Datagram(s.nextPN, Header(s.connId, s.nextPN) + payload)},
                    id, segs, closed)
    ensures Carries(Send(s, payload, true).history, s.connId, payload)
    ensures forall x :: Carries(s.history, s.connId, x) ==> Carries(Send(s, payload, true).history, s.connId, x)
  {
    var t, d := Send(s, payload, true), Datagram(s.nextPN, Header(s.connId, s.nextPN) + payload);
    SendFaithful(s, payload, true, Payloads(s.connId, wire));
    NewDatagram(s, wire, id, segs, closed, payload, t);
    MorePayloads(t, Payloads(s.connId, wire) + {payload}, Payloads(s.connId, wire + {d}));
  }

  lemma NewDatagram(s: Sender, wire: set<Datagram>, id: nat, segs: seq<seq<byte>>, closed: bool,
                    payload: seq<byte>, t: Sender)
    requires WireInv(s, wire, id, segs, closed) && Good(payload, id, segs, closed)
    requires t.connId == s.connId && t.nextPN == s.nextPN + 1
    ensures var d := Datagram(s.nextPN, Header(s.connId, s.nextPN) + payload);
            && (forall e :: e in wire + {d} ==> OnTheWire(e, t, id, segs, closed))
            && OneEach(wire + {d})
            && Payloads(s.connId, wire) + {payload} <= Payloads(s.connId, wire + {d})
  {
    var d := Datagram(s.nextPN, Header(s.connId, s.nextPN) + payload);
    CutExact(s.connId, Fresh(d.pn, d.bytes, true), payload);
    assert PayloadIn(s.connId, d) == payload;
    assert d in wire + {d};
    forall e | e in wire + {d} ensures OnTheWire(e, t, id, segs, closed) {
      if e in wire {
        assert OnTheWire(e, s, id, segs, closed);
      }
    }
  }

  lemma UntrackedWire(s: Sender, wire: set<Datagram>, id: nat, segs: seq<seq<byte>>, closed: bool, payload: seq<byte>)
    requires WireInv(s, wire, id, segs, closed) && Good(payload, id, segs, closed)
    ensures WireInv(SendUntracked(s), wire + {Datagram(s.nextPN, Header(s.connId, s.nextPN) + payload)},
                    id, segs, closed)
  {
    var t, d := SendUntracked(s), Datagram(s.nextPN, Header(s.connId, s.nextPN) + payload);
    NewDatagram(s, wire, id, segs, closed, payload, t);
    MorePayloads(s, Payloads(s.connId, wire), Payloads(s.connId, wire + {d}));
  }

  /** More is known of the stream; what is on the wire still means the same. */
  lemma WireRelabelled(s: Sender, wire: set<Datagram>, id: nat, segs: seq<seq<byte>>, closed: bool,
                       segs': seq<seq<byte>>, closed': bool)
    requires WireInv(s, wire, id, segs, closed)
    requires forall payload :: Good(payload, id, segs, closed) ==> Good(payload, id, segs', closed')
    ensures WireInv(s, wire, id, segs', closed')
  {
    forall d | d in wire ensures OnTheWire(d, s, id, segs', closed') {
      assert OnTheWire(d, s, id, segs, closed);
    }
  }

  lemma ForgottenAfterSend(h: seq<Packet>, h': seq<Packet>, connId: seq<byte>, handled: set<Datagram>, id: nat,
                           segs: seq<seq<byte>>)
    requires NothingForgotten(h, connId, handled, id, segs)
    requires forall x :: Carries(h, connId, x) ==> Carries(h', connId, x)
    ensures NothingForgotten(h', connId, handled, id, segs)
  {
    forall i: nat | i < |segs|
      ensures HandledSegment(handled, connId, id, segs, i) || HeldSegment(h', connId, id, segs, i)
    {
      if HeldSegment(h, connId, id, segs, i) {
        var payload :| BringsNth(payload, id, segs, i) && Carries(h, connId, payload);
      }
    }
  }

  lemma ForgottenAfterWrite(h: seq<Packet>, connId: seq<byte>, handled: set<Datagram>, id: nat,
                            segs: seq<seq<byte>>, data: seq<byte>, payload: seq<byte>)
    requires NothingForgotten(h, connId, handled, id, segs)
    requires Carries(h, connId, payload) && BringsSegment(payload, id, Total(segs), data)
    ensures NothingForgotten(h, connId, handled, id, segs + [data])
  {
    forall i: nat | i < |segs + [data]|
      ensures HandledSegment(handled, connId, id, segs + [data], i) || HeldSegment(h, connId, id, segs + [data], i)
    {
      if i < |segs| {
        SegmentStillHandled(handled, connId, id, segs, data, i);
        if HeldSegment(h, connId, id, segs, i) {
          var x :| BringsNth(x, id, segs, i) && Carries(h, connId, x);
          NthExtended(x, id, segs, data, i);
        }
      } else {
        LastBrought(payload, id, segs, data);
      }
    }
  }

  // ----- acknowledgements, losses and timeouts -----

  /** Entries of the new history are entries of the old one, whatever their marks. */
  ghost predicate SameEntries(h: seq<Packet>, h': seq<Packet>) {
    forall p :: p in h' ==> exists q :: q in h && q.pn == p.pn && q.buf == p.buf
  }

  lemma AckSameEntries(s: Sender, ranges: seq<AckRange>, late: set<nat>)
    ensures SameEntries(s.history, OnAck(s, ranges, late).history)
  {
    var h := MarkHits(AckAll(s.history, ranges), Late(late));
    forall p | p in OnAck(s, ranges, late).history
      ensures exists q :: q in s.history && q.pn == p.pn && q.buf == p.buf
    {
      CompactMembers(h, p);
      var i :| 0 <= i < |h| && h[i] == p;
      assert s.history[i] in s.history;
    }
  }

  lemma TimeoutSameEntries(s: Sender)
    ensures SameEntries(s.history, OnTimeout(s).history)
  {
    forall p | p in OnTimeout(s).history ensures exists q :: q in s.history && q.pn == p.pn && q.buf == p.buf {
      var i :| 0 <= i < |s.history| && OnTimeout(s).history[i] == p;
      assert s.history[i] in s.history;
    }
  }

  lemma TrackedStays(h: seq<Packet>, h': seq<Packet>, wire: set<Datagram>)
    requires TrackedOnWire(h, wire) && SameEntries(h, h')
    ensures TrackedOnWire(h', wire)
  {
    forall p | p in h' && !IsLong(p) ensures Datagram(p.pn, p.buf) in wire {
      var q :| q in h && q.pn == p.pn && q.buf == p.buf;
    }
  }

  lemma AckWire(s: Sender, wire: set<Datagram>, id: nat, segs: seq<seq<byte>>, closed: bool,
                ranges: seq<AckRange>, late: set<nat>)
    requires WireInv(s, wire, id, segs, closed)
    ensures WireInv(OnAck(s, ranges, late), wire, id, segs, closed)
  {
    AckFaithful(s, ranges, late, Payloads(s.connId, wire));
    AckSameEntries(s, ranges, late);
    WireKept(s, OnAck(s, ranges, late), wire, id, segs, closed);
  }

  lemma TimeoutWire(s: Sender, wire: set<Datagram>, id: nat, segs: seq<seq<byte>>, closed: bool)
    requires WireInv(s, wire, id, segs, closed)
    ensures WireInv(OnTimeout(s), wire, id, segs, closed)
  {
    RequeueFaithful(s, Timeout, Payloads(s.connId, wire));
    TimeoutSameEntries(s);
    WireKept(s, OnTimeout(s), wire, id, segs, closed);
  }

  lemma WireKept(s: Sender, t: Sender, wire: set<Datagram>, id: nat, segs: seq<seq<byte>>, closed: bool)
    requires WireInv(s, wire, id, segs, closed)
    requires t.connId == s.connId && t.nextPN >= s.nextPN
    requires Faithful(t, t.queue, Payloads(s.connId, wire)) && SameEntries(s.history, t.history)
    ensures WireInv(t, wire, id, segs, closed)
  {
    TrackedStays(s.history, t.history, wire);
    forall d | d in wire ensures OnTheWire(d, t, id, segs, closed) {
      assert OnTheWire(d, s, id, segs, closed);
    }
  }

  /** Of a short-header packet a true number says that the peer has handled it. */
  lemma AcknowledgedWasHandled(h: seq<Packet>, wire: set<Datagram>, handled: set<Datagram>, setup: nat, p: Packet)
    requires TrackedOnWire(h, wire) && OneEach(wire) && handled <= wire && forall d :: d in wire ==> setup <= d.pn
    requires p in h && !IsLong(p) && TrueNumber(handled, setup, p.pn)
    ensures Datagram(p.pn, p.buf) in handled
  {
    assert Datagram(p.pn, p.buf) in wire;
    var d :| d in handled && d.pn == p.pn;
    assert d == Datagram(p.pn, p.buf);
  }

  lemma ForgottenAfterTimeout(s: Sender, handled: set<Datagram>, id: nat, segs: seq<seq<byte>>)
    requires NothingForgotten(s.history, s.connId, handled, id, segs)
    ensures NothingForgotten(OnTimeout(s).history, s.connId, handled, id, segs)
  {
    forall x | Carries(s.history, s.connId, x) ensures Carries(OnTimeout(s).history, s.connId, x) {
      RequeueCarries(s, Timeout, x);
    }
    ForgottenAfterSend(s.history, OnTimeout(s).history, s.connId, handled, id, segs);
  }

  // ----- retransmission -----

  /** Entries numbered below `bound` were there before. */
  ghost predicate OldEntries(h: seq<Packet>, h': seq<Packet>, bound: nat) {
    forall p :: p in h' && p.pn < bound ==> exists q :: q in h && q.pn == p.pn && q.buf == p.buf
  }

  lemma ResendOldEntries(h: seq<Packet>, s: Sender, p: Packet, ok: bool, bound: nat)
    requires OldEntries(h, s.history, bound) && bound <= s.nextPN
    ensures OldEntries(h, Resend(s, p, ok).history, bound) && bound <= Resend(s, p, ok).nextPN
  {
    var t := Resend(s, p, ok);
    forall x | x in t.history && x.pn < bound ensures exists q :: q in h && q.pn == x.pn && q.buf == x.buf {
      var i :| 0 <= i < |t.history| && t.history[i] == x;
      if i < |s.history| {
        assert s.history[i].pn == x.pn && s.history[i].buf == x.buf;
        assert s.history[i] in s.history;
      }
    }
  }

  lemma {:induction false} ResendAllOldEntries(h: seq<Packet>, s: Sender, todo: seq<Packet>, fails: set<nat>,
                                               bound: nat)
    requires OldEntries(h, s.history, bound) && bound <= s.nextPN
    ensures OldEntries(h, ResendAll(s, todo, fails).history, bound) && bound <= ResendAll(s, todo, fails).nextPN
    decreases |todo|
  {
    if todo != [] {
      ResendOldEntries(h, s, todo[0], todo[0].pn !in fails, bound);
      ResendAllOldEntries(h, Resend(s, todo[0], todo[0].pn !in fails), todo[1..], fails, bound);
    }
  }

  lemma FlushOldEntries(s: Sender, fails: set<nat>)
    ensures OldEntries(s.history, FlushQueue(s, fails).history, s.nextPN) && s.nextPN <= FlushQueue(s, fails).nextPN
  {
    assert OldEntries(s.history, s.history, s.nextPN);
    ResendAllOldEntries(s.history, s.(queue := []), s.queue, fails, s.nextPN);
  }

  /** A packet of the flushed history carries a payload that was on the wire already. */
  lemma ResentIsGood(s: Sender, t: Sender, wire: set<Datagram>, id: nat, segs: seq<seq<byte>>, closed: bool, p: Packet)
    requires forall d :: d in wire ==> OnTheWire(d, s, id, segs, closed)
    requires t.connId == s.connId && Faithful(t, t.queue, Payloads(s.connId, wire))
    requires p in t.history && !IsLong(p)
    ensures OnTheWire(Datagram(p.pn, p.buf), t, id, segs, closed)
  {
    var i :| 0 <= i < |t.history| && t.history[i] == p;
    assert Framed(s.connId, t.history[i], Payloads(s.connId, wire));
    var d :| d in wire && PayloadIn(s.connId, d) == PayloadOf(s.connId, p);
    assert OnTheWire(d, s, id, segs, closed);
    assert PayloadIn(s.connId, Datagram(p.pn, p.buf)) == PayloadOf(s.connId, p);
  }

  lemma FlushOneEach(s: Sender, t: Sender, wire: set<Datagram>)
    requires OneEach(wire) && TrackedOnWire(s.history, wire)
    requires forall d :: d in wire ==> d.pn < s.nextPN
    requires Increasing(t.history, t.nextPN) && OldEntries(s.history, t.history, s.nextPN)
    ensures OneEach(wire + OnWire(t.history))
  {
    forall d, e | d in wire + OnWire(t.history) && e in wire + OnWire(t.history) && d.pn == e.pn ensures d == e {
      if d in wire {
        if e !in wire {
          NewIsOld(s, t, wire, e);
        }
      } else if e in wire {
        NewIsOld(s, t, wire, d);
      } else {
        var p :| p in t.history && !IsLong(p) && d == Datagram(p.pn, p.buf);
        var q :| q in t.history && !IsLong(q) && e == Datagram(q.pn, q.buf);
        var i :| 0 <= i < |t.history| && t.history[i] == p;
        var j :| 0 <= j < |t.history| && t.history[j] == q;
        assert i < j || j < i || i == j;
      }
    }
  }

  lemma NewIsOld(s: Sender, t: Sender, wire: set<Datagram>, d: Datagram)
    requires TrackedOnWire(s.history, wire) && OldEntries(s.history, t.history, s.nextPN)
    requires d in OnWire(t.history) && d.pn < s.nextPN
    ensures d in wire
  {
    var p :| p in t.history && !IsLong(p) && d == Datagram(p.pn, p.buf);
    var q :| q in s.history && q.pn == p.pn && q.buf == p.buf;
    assert !IsLong(q);
  }

  lemma FlushWire(s: Sender, wire: set<Datagram>, id: nat, segs: seq<seq<byte>>, closed: bool, fails: set<nat>)
    requires WireInv(s, wire, id, segs, closed)
    ensures var t := FlushQueue(s, fails);
            WireInv(t, wire + OnWire(t.history), id, segs, closed) && t.connId == s.connId
  {
    var t := FlushQueue(s, fails);
    FlushFaithful(s, fails, Payloads(s.connId, wire));
    FlushOldEntries(s, fails);
    FlushOneEach(s, t, wire);
    forall d | d in wire + OnWire(t.history) ensures OnTheWire(d, t, id, segs, closed) {
      if d in wire {
        assert OnTheWire(d, s, id, segs, closed);
      } else {
        var p :| p in t.history && !IsLong(p) && d == Datagram(p.pn, p.buf);
        ResentIsGood(s, t, wire, id, segs, closed, p);
      }
    }
    MorePayloads(t, Payloads(s.connId, wire), Payloads(s.connId, wire + OnWire(t.history)));
  }

  // ----- arrivals -----

  /** Whatever number the peer decodes, it finds the payload where it starts. */
  lemma ReceiveAnyTime(p: Peer, d: Datagram, connId: seq<byte>, id: nat)
    requires d.bytes == Header(connId, d.pn) + PayloadIn(connId, d)
    ensures var q := Receive(p, d.bytes, |connId|, id);
            q == p.(largest := q.largest, recorded := q.recorded,
                    recv := Effect(p.recv, Header(connId, d.pn), PayloadIn(connId, d), id))
  {
    ShortHeaderRoundTrip(connId, d.pn, PnLength(d.pn), PayloadIn(connId, d));
  }

  /** In time, the peer decodes the sender's number and finds the payload where it starts. */
  lemma ReceiveInTime(p: Peer, d: Datagram, connId: seq<byte>, id: nat)
    requires d.bytes == Header(connId, d.pn) + PayloadIn(connId, d)
    requires InWindow(PnLength(d.pn), p.largest, d.pn) && d.pn < TWO_62 && p.largest + 1 < TWO_62
    ensures Receive(p, d.bytes, |connId|, id)
            == p.(largest := Max(p.largest, d.pn),
                  recorded := Record(p.recorded, d.pn),
                  recv := Effect(p.recv, Header(connId, d.pn), PayloadIn(connId, d), id))
  {
    ShortHeaderRoundTrip(connId, d.pn, PnLength(d.pn), PayloadIn(connId, d));
    DecodeExact(PnLength(d.pn), p.largest, d.pn);
  }

  lemma GotMore(handled: set<Datagram>, d: Datagram, connId: seq<byte>, id: nat, segs: seq<seq<byte>>, i: nat)
    requires Proper(segs) && BringsNth(PayloadIn(connId, d), id, segs, i)
    ensures Got(handled + {d}, connId, id, segs) == Got(handled, connId, id, segs) + {i}
  {
    forall j: nat
      ensures j in Got(handled + {d}, connId, id, segs) <==> j in Got(handled, connId, id, segs) || j == i
    {
      if j < |segs| {
        HandledMore(handled, d, connId, id, segs, j);
        if j != i && BringsNth(PayloadIn(connId, d), id, segs, j) {
          SegmentUnique(PayloadIn(connId, d), id, Off(segs, i), segs[i], Off(segs, j), segs[j]);
          OffMonotone(segs, i, |segs|);
          OffMonotone(segs, Min(i, j), Max(i, j));
          assert false;
        }
      }
    }
  }

  lemma HandledMore(handled: set<Datagram>, d: Datagram, connId: seq<byte>, id: nat, segs: seq<seq<byte>>, j: nat)
    ensures HandledSegment(handled + {d}, connId, id, segs, j)
            <==> HandledSegment(handled, connId, id, segs, j) || BringsNth(PayloadIn(connId, d), id, segs, j)
  {
    assert d in handled + {d};
    if HandledSegment(handled, connId, id, segs, j) {
      var e :| e in handled && BringsNth(PayloadIn(connId, e), id, segs, j);
      assert e in handled + {d};
    }
  }

  lemma GotSame(handled: set<Datagram>, d: Datagram, connId: seq<byte>, id: nat, segs: seq<seq<byte>>)
    requires Proper(segs)
    requires BringsNothing(PayloadIn(connId, d), id) || BringsFin(PayloadIn(connId, d), id, Total(segs))
    ensures Got(handled + {d}, connId, id, segs) == Got(handled, connId, id, segs)
  {
    forall j: nat
      ensures j in Got(handled + {d}, connId, id, segs) <==> j in Got(handled, connId, id, segs)
    {
      if j < |segs| {
        HandledMore(handled, d, connId, id, segs, j);
        if BringsNth(PayloadIn(connId, d), id, segs, j) {
          SegmentOnly(PayloadIn(connId, d), id, Off(segs, j), segs[j]);
        }
      }
    }
  }

  lemma {:induction false} SegmentInSource(segs: seq<seq<byte>>, i: nat)
    requires i <= |segs|
    ensures |Concat(segs)| == Total(segs)
    ensures i < |segs| ==> SliceOf(Concat(segs), Off(segs, i), segs[i])
    ensures SliceOf(Concat(segs), Total(segs), [])
    decreases |segs|
  {
    if segs != [] {
      var before, last := segs[..|segs| - 1], segs[|segs| - 1];
      assert segs == before + [last];
      ConcatSnoc(before, last);
      OffExtended(before, last, |before|);
      SegmentInSource(before, Min(i, |before|));
      if i < |before| {
        OffExtended(before, last, i);
        SliceLonger(Concat(before), last, Off(before, i), before[i]);
      }
    }
  }

  lemma SliceLonger(a: seq<byte>, b: seq<byte>, offset: nat, data: seq<byte>)
    requires SliceOf(a, offset, data)
    ensures SliceOf(a + b, offset, data)
  {
  }

  lemma PrefixLonger(recv: Recv, delivered: seq<byte>, source: seq<byte>, more: seq<byte>)
    requires PrefixInv(recv, delivered, source)
    ensures PrefixInv(recv, delivered, source + more)
  {
    assert (source + more)[..recv.reassembly] == source[..recv.reassembly];
    forall o | o in recv.pending ensures SliceOf(source + more, o, recv.pending[o]) {
      SliceLonger(source, more, o, recv.pending[o]);
    }
  }

  /** What handling one payload does to the stream's part of the invariant. */
  lemma StreamAfter(recv: Recv, delivered: seq<byte>, segs: seq<seq<byte>>, handled: set<Datagram>, d: Datagram,
                    connId: seq<byte>, id: nat, closed: bool, recv': Recv)
    requires Proper(segs) && StreamInv(recv, delivered, segs, Got(handled, connId, id, segs), closed)
    requires Good(PayloadIn(connId, d), id, segs, closed)
    requires recv' == Effect(recv, Header(connId, d.pn), PayloadIn(connId, d), id)
    ensures StreamInv(recv', delivered, segs, Got(handled + {d}, connId, id, segs), closed)
    ensures recv' == recv || exists o: nat, data: seq<byte>, fin :: recv' == Handle(recv, o, data, fin)
  {
    var payload, got := PayloadIn(connId, d), Got(handled, connId, id, segs);
    if i: nat :| BringsNth(payload, id, segs, i) {
      GotMore(handled, d, connId, id, segs, i);
      SegmentInSource(segs, i);
      HandleKeepsPrefix(recv, Off(segs, i), segs[i], false, delivered, Concat(segs));
      SegmentReassembled(recv, segs, got, closed, i);
    } else if closed && BringsFin(payload, id, Total(segs)) {
      GotSame(handled, d, connId, id, segs);
      SegmentInSource(segs, 0);
      HandleKeepsPrefix(recv, Total(segs), [], true, delivered, Concat(segs));
      FinReassembled(recv, segs, got);
    } else {
      GotSame(handled, d, connId, id, segs);
    }
  }

  lemma SegmentReassembled(recv: Recv, segs: seq<seq<byte>>, got: set<nat>, closed: bool, i: nat)
    requires i < |segs|
    requires Reassembled(recv, segs, got, false) || (closed && Reassembled(recv, segs, got, true))
    ensures var t := Handle(recv, Off(segs, i), segs[i], false);
            Reassembled(t, segs, got + {i}, false) || (closed && Reassembled(t, segs, got + {i}, true))
  {
    SegmentArrives(recv, segs, got, !Reassembled(recv, segs, got, false), i);
  }

  lemma FinReassembled(recv: Recv, segs: seq<seq<byte>>, got: set<nat>)
    requires Reassembled(recv, segs, got, false) || Reassembled(recv, segs, got, true)
    ensures var t := Handle(recv, Total(segs), [], true);
            Reassembled(t, segs, got, false) || Reassembled(t, segs, got, true)
  {
    FinArrives(recv, segs, got, !Reassembled(recv, segs, got, false));
  }

  lemma FlowAfter(recv: Recv, recv': Recv, maxData: nat, limits: set<nat>, segs: seq<seq<byte>>)
    requires FlowInv(recv, maxData, limits, segs)
    requires recv' == recv || exists o: nat, data: seq<byte>, fin :: recv' == Handle(recv, o, data, fin)
    ensures FlowInv(recv', maxData,
                    if recv'.readMaxData != recv.readMaxData then limits + {recv'.readMaxData} else limits, segs)
  {
    if recv' != recv {
      var o: nat, data: seq<byte>, fin :| recv' == Handle(recv, o, data, fin);
      WindowKept(recv, o, data, fin);
    }
  }

  lemma PeerAfter(handled: set<Datagram>, setup: nat, recorded: seq<nat>, acks: set<seq<AckRange>>, d: Datagram)
    requires PeerInv(handled, setup, recorded, acks)
    ensures PeerInv(handled + {d}, setup, Record(recorded, d.pn), acks)
  {
    assert d in handled + {d};
    forall pn: int | HandledNumber(handled, pn) ensures HandledNumber(handled + {d}, pn) {
      var e :| e in handled && e.pn == pn;
      assert e in handled + {d};
    }
    RecordedTrue(handled + {d}, setup, recorded, acks, d.pn);
  }

  lemma RecordedTrue(handled: set<Datagram>, setup: nat, recorded: seq<nat>, acks: set<seq<AckRange>>, pn: nat)
    requires PeerInv(handled, setup, recorded, acks) && TrueNumber(handled, setup, pn)
    ensures PeerInv(handled, setup, Record(recorded, pn), acks)
  {
    var all := recorded + [pn];
    assert forall x :: x in Record(recorded, pn) ==> x in all;
  }

  lemma ForgottenAfterArrival(h: seq<Packet>, connId: seq<byte>, handled: set<Datagram>, d: Datagram, id: nat,
                              segs: seq<seq<byte>>)
    requires NothingForgotten(h, connId, handled, id, segs)
    ensures NothingForgotten(h, connId, handled + {d}, id, segs)
  {
    forall i: nat | i < |segs|
      ensures HandledSegment(handled + {d}, connId, id, segs, i) || HeldSegment(h, connId, id, segs, i)
    {
      HandledMore(handled, d, connId, id, segs, i);
    }
  }
}
