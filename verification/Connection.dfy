/**
 The sending half of a connection as the object it is in conn.go: a history of packet objects
 in packet-number order, a map that indexes the same objects, the retransmit queue of copies
 and the queue of control frames. Each method is proved equal to a function of module Sender.
 */
module Connection {
  import opened Bytes
  import opened AckRanges
  import opened Sender
  import Engine = Sender
  import opened Recovery
  import opened Frames
  import opened Packing
  import StreamIO
  import AckFrame
  import StreamFrame

  const INITIAL_PACKET_SIZE := 1280

  /** What a packet says is settled when it is built; only its three flags change afterwards. */
  class SentPacket {
    const pn: nat
    const buf: seq<byte>
    const eliciting: bool
    const isRetransmit: bool
    var acked: bool
    var lost: bool
    var retransmitted: bool

    constructor (p: Packet)
      ensures Value() == p
    {
      pn, buf, eliciting, isRetransmit := p.pn, p.buf, p.eliciting, p.isRetransmit;
      acked, lost, retransmitted := p.acked, p.lost, p.retransmitted;
    }

    function Value(): Packet
      reads this
    {
      Packet(pn, buf, eliciting, acked, lost, retransmitted, isRetransmit)
    }
  }

  function Values(h: seq<SentPacket>): (r: seq<Packet>)
    reads h
  {
    seq(|h|, i requires 0 <= i < |h| reads h => h[i].Value())
  }

  ghost predicate Ordered(h: seq<SentPacket>)
  {
    forall i, j :: 0 <= i < j < |h| ==> h[i].pn < h[j].pn
  }

  /** The map finds exactly the packets of the history, each under its number. */
  ghost predicate Indexes(packets: map<int, SentPacket>, h: seq<SentPacket>)
  {
    && (forall i :: 0 <= i < |h| ==> h[i].pn in packets && packets[h[i].pn] == h[i])
    && (forall pn :: pn in packets ==> packets[pn] in h && packets[pn].pn == pn)
  }

  // ----- acknowledging number by number -----

  /** The history after the packets with these numbers were acknowledged. */
  function MarkSet(h: seq<Packet>, done: set<int>): seq<Packet> {
    seq(|h|, i requires 0 <= i < |h| => if h[i].pn in done then h[i].(acked := true) else h[i])
  }

  /** Their bytes, as far as they were not acknowledged before. */
  function BytesIn(h: seq<Packet>, done: set<int>): nat
    decreases |h|
  {
    if h == [] then 0
    else
      var last := h[|h| - 1];
      BytesIn(h[..|h| - 1], done) + if last.pn in done && !last.acked then |last.buf| else 0
  }

  lemma {:induction false} NoNewBytes(h: seq<Packet>, done: set<int>, pn: int)
    requires forall i :: 0 <= i < |h| && h[i].pn == pn ==> h[i].acked || pn in done
    ensures BytesIn(h, done + {pn}) == BytesIn(h, done)
    decreases |h|
  {
    if h != [] {
      NoNewBytes(h[..|h| - 1], done, pn);
      assert h[|h| - 1].pn == pn ==> h[|h| - 1].acked || pn in done;
    }
  }

  lemma {:induction false} NewBytes(h: seq<Packet>, done: set<int>, k: nat)
    requires k < |h| && !h[k].acked && h[k].pn !in done
    requires forall i :: 0 <= i < |h| && i != k ==> h[i].pn != h[k].pn
    ensures BytesIn(h, done + {h[k].pn}) == BytesIn(h, done) + |h[k].buf|
    decreases |h|
  {
    var before := h[..|h| - 1];
    if k == |h| - 1 {
      NoNewBytes(before, done, h[k].pn);
    } else {
      assert before[k] == h[k];
      NewBytes(before, done, k);
    }
  }

  lemma NewlyMarked(h: seq<Packet>, done: set<int>, k: nat)
    requires k < |h| && !h[k].acked && h[k].pn !in done
    requires forall i :: 0 <= i < |h| && i != k ==> h[i].pn != h[k].pn
    ensures MarkSet(h, done + {h[k].pn}) == MarkSet(h, done)[k := h[k].(acked := true)]
    ensures BytesIn(h, done + {h[k].pn}) == BytesIn(h, done) + |h[k].buf|
  {
    NewBytes(h, done, k);
  }

  lemma NothingMarked(h: seq<Packet>, done: set<int>, pn: int)
    requires forall i :: 0 <= i < |h| && h[i].pn == pn ==> h[i].acked || pn in done
    ensures MarkSet(h, done + {pn}) == MarkSet(h, done) && BytesIn(h, done + {pn}) == BytesIn(h, done)
  {
    NoNewBytes(h, done, pn);
  }

  lemma {:induction false} BytesCovered(h: seq<Packet>, done: set<int>, ranges: seq<AckFrame.AckRange>)
    requires forall q: int :: q in done <==> Covers(ranges, q)
    ensures BytesIn(h, done) == AckedBytes(h, ranges)
    decreases |h|
  {
    if h != [] {
      BytesCovered(h[..|h| - 1], done, ranges);
    }
  }

  lemma {:induction false} NoBytes(h: seq<Packet>)
    ensures BytesIn(h, {}) == 0
    decreases |h|
  {
    if h != [] {
      NoBytes(h[..|h| - 1]);
    }
  }

  lemma CoveredMarked(s: Sender, t: Sender, done: set<int>, ranges: seq<AckFrame.AckRange>)
    requires forall q: int :: q in done <==> Covers(ranges, q)
    requires t == s.(history := MarkSet(s.history, done), inFlight := s.inFlight - BytesIn(s.history, done))
    ensures t == MarkAcked(s, ranges)
  {
    BytesCovered(s.history, done, ranges);
    assert MarkSet(s.history, done) == AckAll(s.history, ranges);
  }

  /** The numbers of some ranges, one after the other. */
  ghost function UpTo(done: set<int>, smallest: int, end: int): set<int>
    decreases end - smallest
  {
    if end <= smallest then done else UpTo(done, smallest, end - 1) + {end - 1}
  }

  ghost function NumbersOf(ranges: seq<AckFrame.AckRange>, k: nat): set<int>
    requires k <= |ranges|
  {
    if k == 0 then {} else UpTo(NumbersOf(ranges, k - 1), ranges[k - 1].smallest, ranges[k - 1].largest + 1)
  }

  lemma {:induction false} UpToExact(done: set<int>, smallest: int, end: int, q: int)
    ensures q in UpTo(done, smallest, end) <==> q in done || smallest <= q < end
    decreases end - smallest
  {
    if end > smallest {
      UpToExact(done, smallest, end - 1, q);
    }
  }

  lemma {:induction false} NumbersExact(ranges: seq<AckFrame.AckRange>, k: nat, q: int)
    requires k <= |ranges|
    ensures q in NumbersOf(ranges, k) <==> Covers(ranges[..k], q)
  {
    if k > 0 {
      NumbersExact(ranges, k - 1, q);
      UpToExact(NumbersOf(ranges, k - 1), ranges[k - 1].smallest, ranges[k - 1].largest + 1, q);
      assert ranges[..k] == ranges[..k - 1] + [ranges[k - 1]];
      CoversSnoc(ranges[..k - 1], ranges[k - 1], q);
    }
  }

  class Connection {
    const connId: seq<byte>
    var nextPN: nat
    var history: seq<SentPacket>
    var packets: map<int, SentPacket>
    var queue: seq<Packet>
    var inFlight: int
    var pendingFrames: seq<Frame>
    var maxPacketSize: nat
    var largestAcked: int
    var ackSeen: bool
    var ptoCount: nat
    var closed: bool

    ghost predicate Valid()
      reads this`nextPN, this`history, this`packets
    {
      && Ordered(history)
      && (forall i :: 0 <= i < |history| ==> history[i].pn < nextPN)
      && Indexes(packets, history)
    }

    function State(): Sender
      reads this`nextPN, this`history, this`queue, this`inFlight, history
    {
      Sender(connId, nextPN, Values(history), queue, inFlight)
    }

    constructor (connId: seq<byte>)
      ensures Valid() && history == [] && State() == Sender(connId, 0, [], [], 0)
      ensures pendingFrames == [] && maxPacketSize == INITIAL_PACKET_SIZE && !closed
    {
      this.connId := connId;
      nextPN, history, packets, queue, inFlight := 0, [], map[], [], 0;
      pendingFrames, maxPacketSize, closed := [], INITIAL_PACKET_SIZE, false;
      largestAcked, ackSeen, ptoCount := 0, false, 0;
    }

    method SetMaxPacketSize(size: nat)
      modifies this`maxPacketSize
      ensures size < 1200 ==> maxPacketSize == old(maxPacketSize)
      ensures 1200 <= size <= 1452 ==> maxPacketSize == size
      ensures size > 1452 ==> maxPacketSize == 1452
    {
      var limited := if size > MAX_BUFFER_SIZE then MAX_BUFFER_SIZE else size;
      if limited >= MIN_PACKET_SIZE {
        maxPacketSize := limited;
      }
    }

    /** A packet of the history is marked as acknowledged. */
    method Acknowledge(p: SentPacket, ghost k: nat)
      requires Valid() && k < |history| && history[k] == p
      modifies p`acked
      ensures Valid()
      ensures Values(history) == old(Values(history))[k := old(p.Value()).(acked := true)]
    {
      p.acked := true;
      forall i | 0 <= i < |history| && i != k ensures history[i] != p {
        assert history[i].pn != history[k].pn;
      }
    }

    lemma Found(pn: int) returns (k: nat)
      requires Valid() && pn in packets
      ensures k < |history| && history[k] == packets[pn] && packets[pn].pn == pn
      ensures forall i :: 0 <= i < |history| && i != k ==> history[i].pn != pn
    {
      k :| k < |history| && history[k] == packets[pn];
    }

    lemma NotFound(pn: int)
      requires Valid() && (pn !in packets || packets[pn].acked)
      ensures forall i :: 0 <= i < |history| && history[i].pn == pn ==> history[i].acked
    {
      forall i | 0 <= i < |history| && history[i].pn == pn ensures history[i].acked {
        assert packets[history[i].pn] == history[i];
      }
    }

    // ----- acknowledgements -----

    /** The packets with these numbers have been acknowledged since `before`. */
    ghost predicate Marked(before: Sender, done: set<int>)
      reads this, history
    {
      && Values(history) == MarkSet(before.history, done)
      && inFlight == before.inFlight - BytesIn(before.history, done)
    }

    lemma MarkedEach(before: Sender, done: set<int>)
      requires Marked(before, done)
      ensures |before.history| == |history|
      ensures forall i :: 0 <= i < |history| ==>
                && before.history[i].pn == history[i].pn
                && (history[i].acked <==> before.history[i].acked || history[i].pn in done)
                && (!history[i].acked ==> before.history[i] == history[i].Value())
    {
      forall i | 0 <= i < |history| ensures history[i].Value() == MarkSet(before.history, done)[i] {
        assert Values(history)[i] == MarkSet(before.history, done)[i];
      }
    }

    /** One number of an ACK is looked up; the packet found is marked, if it was not before. */
    method AckPacket(pn: int, ghost before: Sender, ghost done: set<int>)
      requires Valid() && Marked(before, done)
      modifies this`inFlight, history
      ensures Valid() && Marked(before, done + {pn})
    {
      MarkedEach(before, done);
      if pn in packets && !packets[pn].acked {
        var p := packets[pn];
        ghost var k := Found(pn);
        NewlyMarked(before.history, done, k);
        inFlight := inFlight - |p.buf|;
        Acknowledge(p, k);
      } else {
        NotFound(pn);
        NothingMarked(before.history, done, pn);
      }
    }

    method ProcessRange(smallest: int, largest: int, ghost before: Sender, ghost done: set<int>)
      requires Valid() && Marked(before, done)
      modifies this`inFlight, history
      ensures Valid() && Marked(before, UpTo(done, smallest, largest + 1))
    {
      ghost var marked := done;
      var pn := smallest;
      while pn <= largest
        invariant Valid() && smallest <= pn && (pn == smallest || pn <= largest + 1)
        invariant marked == UpTo(done, smallest, pn) && Marked(before, marked)
        decreases largest - pn
      {
        AckPacket(pn, before, marked);
        marked := marked + {pn};
        pn := pn + 1;
      }
    }

    method MarkRanges(ranges: seq<AckFrame.AckRange>, ghost before: Sender)
      requires Valid() && Marked(before, {})
      modifies this`inFlight, history
      ensures Valid() && Marked(before, NumbersOf(ranges, |ranges|))
    {
      ghost var done := {};
      for k := 0 to |ranges|
        invariant Valid() && done == NumbersOf(ranges, k) && Marked(before, done)
      {
        ProcessRange(ranges[k].smallest, ranges[k].largest, before, done);
        done := UpTo(done, ranges[k].smallest, ranges[k].largest + 1);
      }
    }

    /** The packets that an ACK covers are looked up number by number and marked. */
    method ProcessRanges(ranges: seq<AckFrame.AckRange>)
      requires Valid()
      modifies this`inFlight, history
      ensures Valid() && State() == MarkAcked(old(State()), ranges)
    {
      ghost var before := State();
      NoneMarked(before.history);
      MarkRanges(ranges, before);
      AllNumbers(before, State(), ranges, NumbersOf(ranges, |ranges|));
    }

    // ----- losses and timeouts -----

    method MarkRetransmitted(p: SentPacket, ghost k: nat)
      requires Valid() && k < |history| && history[k] == p
      modifies p`retransmitted
      ensures p.Value() == old(p.Value()).(retransmitted := true)
      ensures Values(history) == old(Values(history))[k := p.Value()]
    {
      p.retransmitted := true;
      forall i | 0 <= i < |history| && i != k ensures history[i] != p {
        assert history[i].pn != history[k].pn;
      }
    }

    /** The bytes of a packet leave the flight the first time it is declared lost. */
    method DiscountOnce(p: SentPacket, ghost k: nat)
      requires Valid() && k < |history| && history[k] == p
      modifies this`inFlight, p`lost
      ensures p.Value() == old(p.Value()).(lost := true)
      ensures Values(history) == old(Values(history))[k := p.Value()]
      ensures inFlight == old(inFlight) - if old(p.lost) then 0 else |p.buf|
    {
      if !p.lost {
        p.lost := true;
        inFlight := inFlight - |p.buf|;
      }
      forall i | 0 <= i < |history| && i != k ensures history[i] != p {
        assert history[i].pn != history[k].pn;
      }
    }

    /** A packet is marked, a copy goes to the queue, and its bytes leave the flight. */
    method DeclareLost(p: SentPacket, ghost k: nat)
      requires Valid() && k < |history| && history[k] == p
      modifies this`queue, this`inFlight, p
      ensures Valid() && State() == LostAt(old(State()), k)
    {
      ghost var s, v := State(), p.Value();
      assert s.history[k] == v;
      MarkRetransmitted(p, k);
      queue := queue + [p.Value()];
      DiscountOnce(p, k);
      LostIs(s, State(), k, v);
    }

    /** Loss detection: every late packet still waiting is put in the queue. */
    method DetectLosses(late: set<nat>)
      requires Valid()
      modifies this`queue, this`inFlight, history
      ensures Valid() && State() == Requeue(old(State()), Late(late))
    {
      ghost var before := State();
      DetectEach(late);
      ExaminedAll(before, Late(late));
    }

    method DetectEach(late: set<nat>)
      requires Valid()
      modifies this`queue, this`inFlight, history
      ensures Valid() && State() == Examine(old(State()), Late(late), |history|)
    {
      ghost var before, cause := State(), Late(late);
      for i := 0 to |history|
        invariant Valid() && State() == Examine(before, cause, i)
      {
        DetectLoss(history[i], late, i);
      }
    }

    method DetectLoss(p: SentPacket, late: set<nat>, ghost k: nat)
      requires Valid() && k < |history| && history[k] == p
      modifies this`queue, this`inFlight, p
      ensures Valid() && State() == ExamineAt(old(State()), Late(late), k)
    {
      assert State().history[k] == p.Value();
      if p.acked || p.retransmitted {
        return;
      }
      if p.eliciting && p.pn in late {
        DeclareLost(p, k);
      }
    }

    /** A probe timeout: every original still waiting is put in the queue. */
    method RequeueOriginals()
      requires Valid()
      modifies this`queue, this`inFlight, history
      ensures Valid() && State() == OnTimeout(old(State()))
    {
      ghost var before := State();
      RequeueEach();
      ExaminedAll(before, Timeout);
    }

    method RequeueEach()
      requires Valid()
      modifies this`queue, this`inFlight, history
      ensures Valid() && State() == Examine(old(State()), Timeout, |history|)
    {
      ghost var before, cause := State(), Timeout;
      for i := 0 to |history|
        invariant Valid() && State() == Examine(before, cause, i)
      {
        RequeueOriginal(history[i], i);
      }
    }

    method RequeueOriginal(p: SentPacket, ghost k: nat)
      requires Valid() && k < |history| && history[k] == p
      modifies this`queue, this`inFlight, p
      ensures Valid() && State() == ExamineAt(old(State()), Timeout, k)
    {
      assert State().history[k] == p.Value();
      if p.acked || p.retransmitted || p.isRetransmit {
        return;
      }
      DeclareLost(p, k);
    }

    // ----- compaction -----

    /** Acknowledged packets leave the map; the others move to the front of the history. */
    method DropAcked()
      modifies this`history, this`packets
      ensures history == old(Kept(history)) && packets == old(packets - Gone(history))
    {
      ghost var all, index := history, packets;
      ghost var gone := {};
      var h, m, n := history, packets, 0;
      for i := 0 to |h|
        invariant n <= i && |h| == |all| && h[i..] == all[i..]
        invariant h[..n] == Kept(all[..i]) && gone == Gone(all[..i])
        invariant m == index - gone
      {
        var p := h[i];
        CompactStep(all, h, n, i);
        if p.acked {
          m := m - {p.pn};
          gone := gone + {p.pn};
        } else {
          h := h[n := p];
          n := n + 1;
        }
      }
      assert all[..|all|] == all;
      history, packets := h[..n], m;
    }

    method CompactSentHistory()
      requires Valid()
      modifies this`history, this`packets
      ensures Valid() && State() == Compact(old(State()))
      ensures forall i :: 0 <= i < |history| ==> history[i] in old(history)
    {
      KeptIndexed(history, packets);
      KeptValues(history);
      if |history| == 0 {
        return;
      }
      DropAcked();
    }

    // ----- retransmission -----

    /** The packet of this number, if it is still tracked, counts as acknowledged. */
    method MarkOriginal(pn: nat)
      requires Valid()
      modifies history
      ensures Valid() && Values(history) == MarkPn(old(Values(history)), pn)
    {
      if pn in packets {
        var p := packets[pn];
        ghost var k := Found(pn);
        Acknowledge(p, k);
        assert Values(history) == MarkPn(old(Values(history)), pn);
      } else {
        assert forall i :: 0 <= i < |history| ==> history[i].pn != pn;
        assert Values(history) == MarkPn(old(Values(history)), pn);
      }
    }

    /** The packet just numbered is tracked. */
    method Remember(value: Packet) returns (p: SentPacket)
      requires Valid() && value.pn < nextPN && forall i :: 0 <= i < |history| ==> history[i].pn < value.pn
      modifies this`history, this`packets
      ensures Valid() && Values(history) == old(Values(history)) + [value]
      ensures history == old(history) + [p] && fresh(p)
    {
      p := new SentPacket(value);
      history := history + [p];
      packets := packets[p.pn := p];
    }

    /** The new copy replaces the packet it was made from. */
    method Replace(again: Packet, pn: nat)
      requires Valid() && again.pn < nextPN && forall i :: 0 <= i < |history| ==> history[i].pn < again.pn
      modifies this`history, this`packets, this`inFlight, history
      ensures Valid() && Values(history) == MarkPn(old(Values(history)) + [again], pn)
      ensures inFlight == old(inFlight) + |again.buf|
      ensures old(history) <= history && forall i :: |old(history)| <= i < |history| ==> fresh(history[i])
    {
      ghost var before := Values(history);
      inFlight := inFlight + |again.buf|;
      assert Values(history) == before;
      var p := Remember(again);
      assert Values(history) == before + [again];
      MarkOriginal(pn);
    }

    /** The packet with the payload of q under the next number. */
    method Renumber(q: Packet) returns (again: Packet)
      requires Valid() && !IsLong(q)
      modifies this`nextPN
      ensures Valid() && nextPN == old(nextPN) + 1
      ensures again == Engine.Rebuilt(old(State()), q) && again.pn == old(nextPN)
    {
      var pn := nextPN;
      nextPN := nextPN + 1;
      var oldHdrLen := 1 + |connId| + PnLength(q.pn);
      var framePayload := if oldHdrLen < |q.buf| then q.buf[oldHdrLen..] else [];
      again := Packet(pn, Header(connId, pn) + framePayload, true, false, false, false, true);
    }

    /** One turn of the flush loop; the packet is kept when the socket did not take it. */
    method ResendOne(q: Packet, ok: bool) returns (keep: bool)
      requires Valid()
      modifies this`nextPN, this`history, this`packets, this`inFlight, history
      ensures Valid() && keep == (!IsLong(q) && !ok)
      ensures Resent(old(State()), State(), q, ok)
      ensures old(history) <= history && forall i :: |old(history)| <= i < |history| ==> fresh(history[i])
    {
      if |q.buf| > 0 && q.buf[0] >= 0x80 {
        MarkOriginal(q.pn);
        return false;
      }
      var again := Renumber(q);
      keep := !ok;
      if ok {
        Replace(again, q.pn);
      }
    }

    method FlushTurn(k: nat, remaining: seq<Packet>, fails: set<nat>) returns (kept: seq<Packet>)
      requires Valid() && k < |queue|
      modifies this`nextPN, this`history, this`packets, this`inFlight, history
      ensures Valid()
      ensures ResendAll(old(State()).(queue := remaining), queue[k..], fails)
              == ResendAll(State().(queue := kept), queue[k + 1..], fails)
      ensures old(history) <= history && forall i :: |old(history)| <= i < |history| ==> fresh(history[i])
    {
      var q := queue[k];
      var keep := ResendOne(q, q.pn !in fails);
      ResendTurn(old(State()), State(), queue, k, remaining, keep, fails);
      kept := if keep then remaining + [q] else remaining;
    }

    method FlushFrom(fails: set<nat>) returns (remaining: seq<Packet>)
      requires Valid()
      modifies this`nextPN, this`history, this`packets, this`inFlight, history
      ensures Valid() && State().(queue := remaining) == FlushQueue(old(State()), fails)
      ensures old(history) <= history && forall i :: |old(history)| <= i < |history| ==> fresh(history[i])
    {
      ghost var goal := FlushQueue(State(), fails);
      remaining := [];
      assert queue[0..] == queue;
      var k := 0;
      while k < |queue|
        invariant k <= |queue| && Valid()
        invariant ResendAll(State().(queue := remaining), queue[k..], fails) == goal
        invariant old(history) <= history && forall i :: |old(history)| <= i < |history| ==> fresh(history[i])
      {
        remaining := FlushTurn(k, remaining, fails);
        k := k + 1;
      }
      assert queue[k..] == [];
    }

    /** `fails` are the queued packets whose write fails; they stay in the queue. */
    method FlushRetransmitQueue(fails: set<nat>)
      requires Valid()
      modifies this`nextPN, this`history, this`packets, this`queue, this`inFlight, history
      ensures Valid() && State() == FlushQueue(old(State()), fails)
    {
      if |queue| == 0 {
        return;
      }
      var remaining := FlushFrom(fails);
      queue := remaining;
    }

    // ----- the two entry points of the receiving goroutine -----

    method MarkAndDetect(ranges: seq<AckFrame.AckRange>, late: set<nat>)
      requires Valid()
      modifies this`queue, this`inFlight, history
      ensures Valid() && State() == Requeue(MarkAcked(old(State()), ranges), Late(late))
    {
      ProcessRanges(ranges);
      DetectLosses(late);
    }

    method ApplyAck(ranges: seq<AckFrame.AckRange>, late: set<nat>)
      requires Valid()
      modifies this`history, this`packets, this`queue, this`inFlight, history
      ensures Valid() && State() == OnAck(old(State()), ranges, late)
      ensures forall i :: 0 <= i < |history| ==> history[i] in old(history)
    {
      MarkAndDetect(ranges, late);
      CompactSentHistory();
    }

    method ApplyAckAndFlush(ranges: seq<AckFrame.AckRange>, late: set<nat>, fails: set<nat>)
      requires Valid()
      modifies this`nextPN, this`history, this`packets, this`queue, this`inFlight, history
      ensures Valid() && State() == FlushQueue(OnAck(old(State()), ranges, late), fails)
    {
      ApplyAck(ranges, late);
      FlushRetransmitQueue(fails);
    }

    method NoteAck(largest: int)
      modifies this`ackSeen, this`ptoCount, this`largestAcked
      ensures ackSeen && ptoCount == 0 && largestAcked == Max(old(largestAcked), largest)
    {
      ackSeen, ptoCount := true, 0;
      if largest > largestAcked {
        largestAcked := largest;
      }
    }

    /** An ACK: mark, detect losses, compact, flush. `late` are the packets found overdue. */
    method HandleAckFrame(ranges: seq<AckFrame.AckRange>, late: set<nat>, fails: set<nat>)
      requires Valid() && ranges != []
      modifies this`nextPN, this`history, this`packets, this`queue, this`inFlight, history
      modifies this`ackSeen, this`ptoCount, this`largestAcked
      ensures Valid() && State() == FlushQueue(OnAck(old(State()), ranges, late), fails)
      ensures ackSeen && ptoCount == 0 && largestAcked == Max(old(largestAcked), ranges[0].largest)
    {
      ghost var before := State();
      NoteAck(ranges[0].largest);
      assert State() == before;
      ApplyAckAndFlush(ranges, late, fails);
    }

    method ProbeAndFlush(fails: set<nat>)
      requires Valid()
      modifies this`nextPN, this`history, this`packets, this`queue, this`inFlight, history
      ensures Valid() && State() == FlushQueue(OnTimeout(old(State())), fails)
    {
      RequeueOriginals();
      FlushRetransmitQueue(fails);
    }

    function ProbeTimer(): Timer
      reads this`nextPN, this`history, this`queue, this`inFlight, history
      reads this`ackSeen, this`ptoCount, this`closed
    {
      Timer(State(), ackSeen, ptoCount, closed)
    }

    /** The probe timer ticks; `expired` is whether an ACK is overdue. */
    method CheckPTO(expired: bool, fails: set<nat>)
      requires Valid()
      modifies this`nextPN, this`history, this`packets, this`queue, this`inFlight, history
      modifies this`ptoCount, this`closed
      ensures Valid()
      ensures ProbeTimer() == if expired then Expire(old(ProbeTimer()), fails) else old(ProbeTimer())
    {
      if |history| == 0 && ptoCount == 0 {
        return;
      }
      if !ackSeen || !expired {
        return;
      }
      ghost var before := State();
      if ptoCount >= MAX_PTO_COUNT {
        closed := true;
        assert State() == before;
        return;
      }
      ptoCount := ptoCount + 1;
      assert State() == before;
      ProbeAndFlush(fails);
    }

    // ----- sending -----

    /** Adds the queued control frames that still fit; the one that does not is rolled back. */
    method AppendPending(start: seq<byte>) returns (sendBuf: seq<byte>)
      ensures sendBuf == start + Payload(Taken(|start|, pendingFrames, maxPacketSize))
    {
      sendBuf := start;
      assert pendingFrames[0..] == pendingFrames;
      for i := 0 to |pendingFrames|
        invariant sendBuf + Payload(Taken(|sendBuf|, pendingFrames[i..], maxPacketSize))
                  == start + Payload(Taken(|start|, pendingFrames, maxPacketSize))
      {
        var prevLen := |sendBuf|;
        NextTaken(sendBuf, pendingFrames[i..], maxPacketSize);
        assert pendingFrames[i..][1..] == pendingFrames[i + 1..];
        if !Appendable(pendingFrames[i]) {
          break;
        }
        sendBuf := sendBuf + Encoding(pendingFrames[i]);
        if |sendBuf| > maxPacketSize {
          sendBuf := sendBuf[..prevLen];
          break;
        }
      }
      EmptyTaken(sendBuf, maxPacketSize);
    }

    /** The guards sendFrame checks before it takes the lock for sending. */
    predicate Admits(frame: Frame)
      reads this`closed, this`history
    {
      !closed && |history| < if frame.Stream? then MAX_OUTSTANDING else MAX_TRACKED
    }

    /** sendFrame turns the frame away before it has touched anything. */
    predicate Refuses(frame: Frame, canSend: bool)
      reads this`closed, this`history
    {
      !Admits(frame) || (frame.Stream? && !canSend)
    }

    /** The frame as it goes out: STREAM data is cut to what fits. */
    function Outgoing(frame: Frame): (f: Frame)
      reads this
      requires Appendable(frame)
      ensures Appendable(f)
    {
      if frame.Stream? then Frames.Stream(Truncate(frame.stream, |connId|, maxPacketSize)) else frame
    }

    function PacketFor(f: Frame): (buf: seq<byte>)
      reads this
      requires Appendable(f)
    {
      Assembled(Header(connId, nextPN), f, pendingFrames, maxPacketSize)
    }

    method BuildPacket(header: seq<byte>, f: Frame) returns (sendBuf: seq<byte>)
      requires Appendable(f)
      ensures sendBuf == Assembled(header, f, pendingFrames, maxPacketSize)
    {
      var part := Encoding(f);
      FirstFrameFirst(header, f, Taken(|header| + |part|, pendingFrames, maxPacketSize), part);
      sendBuf := AppendPending(header + part);
    }

    /** A packet around the frame is built and tracked; what control frames did not fit is dropped. */
    method Transmit(f: Frame, eliciting: bool) returns (sendBuf: seq<byte>)
      requires Valid() && Appendable(f)
      modifies this`nextPN, this`history, this`packets, this`inFlight, this`pendingFrames
      ensures Valid() && pendingFrames == []
      ensures sendBuf == old(PacketFor(f)) && State() == Track(old(State()), sendBuf, eliciting)
      ensures exists p :: fresh(p) && history == old(history) + [p]
    {
      ghost var before := State();
      var pn := nextPN;
      sendBuf := BuildPacket(Header(connId, pn), f);
      nextPN := nextPN + 1;
      pendingFrames := [];
      assert State() == before.(nextPN := pn + 1);
      var p := Remember(Packet(pn, sendBuf, eliciting, false, false, false, false));
      inFlight := inFlight + |sendBuf|;
    }

    /** The first half of sendFrame. What it found may be out of date when the second half begins. */
    method CheckFrame(frame: Frame) returns (admitted: bool)
      ensures admitted == Admits(frame)
      ensures admitted <==> !closed && |history| < 5000 && (frame.Stream? ==> |history| < 4000)
    {
      var trackedCount := |history|;
      admitted := !(closed || (frame.Stream? && trackedCount >= MAX_OUTSTANDING) || trackedCount >= MAX_TRACKED);
    }

    /**
     The second half, under the lock for sending, whatever the state is by then.
     `canSend` is whether the congestion window lets STREAM data through.
     */
    method SendAdmitted(frame: Frame, canSend: bool) returns (r: SendResult)
      requires Valid() && Appendable(frame)
      modifies this`nextPN, this`history, this`packets, this`inFlight, this`pendingFrames
      ensures Valid() && r.NotSent? == (frame.Stream? && !canSend)
      ensures r.NotSent? ==> State() == old(State()) && pendingFrames == old(pendingFrames) && history == old(history)
      ensures r.Sent? ==>
                && r.frame == Outgoing(frame) && r.datagram == old(PacketFor(Outgoing(frame)))
                && State() == Track(old(State()), r.datagram, !(frame.Padding? || frame.Ack?))
                && pendingFrames == []
                && exists p :: fresh(p) && history == old(history) + [p]
    {
      var f := Outgoing(frame);
      if frame.Stream? && !canSend {
        return NotSent;
      }
      var sendBuf := Transmit(f, !(frame.Padding? || frame.Ack?));
      r := Sent(f, sendBuf);
    }

    /** Both halves, when nothing comes between them. */
    method SendFrame(frame: Frame, canSend: bool) returns (r: SendResult)
      requires Valid() && Appendable(frame)
      modifies this`nextPN, this`history, this`packets, this`inFlight, this`pendingFrames
      ensures Valid() && r.NotSent? == old(Refuses(frame, canSend))
      ensures r.NotSent? ==> State() == old(State()) && pendingFrames == old(pendingFrames) && history == old(history)
      ensures r.Sent? ==>
                && r.frame == Outgoing(frame) && r.datagram == old(PacketFor(Outgoing(frame)))
                && State() == Track(old(State()), r.datagram, !(frame.Padding? || frame.Ack?))
                && pendingFrames == []
                && exists p :: fresh(p) && history == old(history) + [p]
    {
      var admitted := CheckFrame(frame);
      if !admitted {
        return NotSent;
      }
      r := SendAdmitted(frame, canSend);
    }

    /** Control frames go out on their own, untracked; those that do not fit are dropped. */
    method FlushPendingFrames() returns (datagram: Option<seq<byte>>)
      requires Valid()
      modifies this`nextPN, this`pendingFrames
      ensures Valid()
      ensures if old(pendingFrames) == [] || closed
              then datagram == None && State() == old(State()) && pendingFrames == old(pendingFrames)
              else
                && State() == SendUntracked(old(State())) && pendingFrames == []
                && var header := Header(connId, old(nextPN));
                   datagram == Some(header + Payload(Taken(|header|, old(pendingFrames), maxPacketSize)))
    {
      if |pendingFrames| == 0 || closed {
        return None;
      }
      var header := Header(connId, nextPN);
      nextPN := nextPN + 1;
      var sendBuf := AppendPending(header);
      pendingFrames := [];
      datagram := Some(sendBuf);
    }

    // ----- writing a stream -----

    /** Returns how many bytes were sent: the packet may hold less than all of the data. */
    method SendStreamData(id: nat, offset: nat, data: seq<byte>, fin: bool, canSend: bool)
      returns (n: nat, datagram: seq<byte>)
      requires Valid() && |connId| <= MAX_CONN_ID && maxPacketSize >= MIN_PACKET_SIZE && |data| < TWO_63
      modifies this`nextPN, this`history, this`packets, this`inFlight, this`pendingFrames
      ensures Valid()
      ensures var refused := old(Refuses(Frames.Stream(StreamFrame.Stream(id, offset, data, fin, true)), canSend));
              if refused then n == 0 && State() == old(State()) && history == old(history)
              else
                && n <= |data| && (data != [] ==> n > 0)
                && n == Portion(StreamFrame.Stream(id, offset, data, fin, true), |connId|, maxPacketSize)
                && State() == Track(old(State()), datagram, true)
                && HoldsFrame(datagram, Header(connId, old(nextPN)),
                              StreamFrame.Stream(id, offset, data[..n], fin, true), maxPacketSize)
                && exists p :: fresh(p) && history == old(history) + [p]
    {
      var whole := StreamFrame.Stream(id, offset, data, fin, true);
      TruncateFills(whole, |connId|, maxPacketSize);
      StreamSent(whole, connId, nextPN, pendingFrames, maxPacketSize);
      var r := SendFrame(Frames.Stream(whole), canSend);
      if r.NotSent? {
        return 0, [];
      }
      n := |r.frame.stream.data|;
      datagram := r.datagram;
    }

    /** One turn of the write loop. Nothing is sent while the chunk does not fit the window. */
    method WriteTurn(s: StreamIO.Stream, id: nat, rest: seq<byte>, turn: Turn)
      returns (n: nat, datagram: seq<byte>)
      requires Valid() && |connId| <= MAX_CONN_ID && maxPacketSize >= MIN_PACKET_SIZE && rest != []
      modifies this`nextPN, this`history, this`packets, this`inFlight, this`pendingFrames
      modifies s`writeOffset, s`maxData
      ensures Valid() && s.maxData == Max(old(s.maxData), turn.limit)
      ensures n <= |rest| && s.writeOffset == old(s.writeOffset) + n
      ensures n > 0 ==> s.writeOffset <= s.maxData
      ensures n > 0 <==>
                && old(s.writeOffset) + Min(|rest|, 1200) <= s.maxData
                && !old(closed) && |old(history)| < 4000 && turn.canSend
      ensures n == 0 ==> State() == old(State())
      ensures n > 0 ==> n == Portion(StreamFrame.Stream(id, old(s.writeOffset), rest[..Min(|rest|, 1200)], false, true),
                                     |connId|, maxPacketSize)
      ensures n > 0 ==>
                && State() == Track(old(State()), datagram, true)
                && HoldsFrame(datagram, Header(connId, old(nextPN)),
                              StreamFrame.Stream(id, old(s.writeOffset), rest[..n], false, true), maxPacketSize)
    {
      ghost var before := State();
      s.UpdateMaxData(turn.limit);
      assert State() == before;
      n, datagram := 0, [];
      var chunkSize := Min(|rest|, StreamIO.WRITE_CHUNK);
      if s.writeOffset + chunkSize <= s.maxData {
        var chunk := rest[..chunkSize];
        n, datagram := SendStreamData(id, s.writeOffset, chunk, false, turn.canSend);
        assert chunk != [] && chunk[..n] == rest[..n];
        s.writeOffset := s.writeOffset + n;
      }
    }

    /** The turn as far as the whole of the data is concerned: where it stands, and what went out. */
    method WriteNext(s: StreamIO.Stream, id: nat, b: seq<byte>, done: nat, turn: Turn, ghost start: nat)
      returns (n: nat, datagram: seq<byte>, ghost f: StreamFrame.Stream)
      requires Valid() && |connId| <= MAX_CONN_ID && maxPacketSize >= MIN_PACKET_SIZE
      requires done < |b| && s.writeOffset == start + done
      modifies this`nextPN, this`history, this`packets, this`inFlight, this`pendingFrames
      modifies s`writeOffset, s`maxData
      ensures Valid() && done + n <= |b| && s.writeOffset == start + done + n
      ensures old(s.writeOffset) <= old(s.maxData) ==> s.writeOffset <= s.maxData
      ensures Sends(old(State()), State(), b, done, n, id, start, maxPacketSize, datagram, f)
    {
      n, datagram := WriteTurn(s, id, b[done..], turn);
      f := StreamFrame.Stream(id, start + done, b[done..][..n], false, true);
    }

    method WriteStep(s: StreamIO.Stream, id: nat, b: seq<byte>, done: nat, turn: Turn, sent: seq<seq<byte>>,
                     ghost first: Sender, ghost before: seq<StreamFrame.Stream>, ghost start: nat)
      returns (written: nat, datagrams: seq<seq<byte>>, ghost frames: seq<StreamFrame.Stream>)
      requires Valid() && |connId| <= MAX_CONN_ID && maxPacketSize >= MIN_PACKET_SIZE
      requires done < |b| && s.writeOffset == start + done
      requires InChunks(first, State(), sent, before, id, start, b[..done], maxPacketSize) && first.connId == connId
      modifies this`nextPN, this`history, this`packets, this`inFlight, this`pendingFrames
      modifies s`writeOffset, s`maxData
      ensures Valid() && done <= written <= |b| && s.writeOffset == start + written
      ensures old(s.writeOffset) <= old(s.maxData) ==> s.writeOffset <= s.maxData
      ensures InChunks(first, State(), datagrams, frames, id, start, b[..written], maxPacketSize)
    {
      ghost var now := State();
      var n, datagram, f := WriteNext(s, id, b, done, turn, start);
      ChunkTurn(first, now, State(), sent, before, id, start, b, done, n, maxPacketSize, datagram, f);
      written := done + n;
      datagrams := if n > 0 then sent + [datagram] else sent;
      frames := if n > 0 then before + [f] else before;
    }

    /**
     Write: the data goes out in consecutive STREAM frames, one packet each. `turns` is what
     happens meanwhile: window updates, and whether the congestion window has room.
     */
    method Write(s: StreamIO.Stream, id: nat, b: seq<byte>, turns: seq<Turn>)
      returns (written: nat, datagrams: seq<seq<byte>>, ghost frames: seq<StreamFrame.Stream>)
      requires Valid() && |connId| <= MAX_CONN_ID && maxPacketSize >= MIN_PACKET_SIZE
      modifies this`nextPN, this`history, this`packets, this`inFlight, this`pendingFrames
      modifies s`writeOffset, s`maxData
      ensures Valid() && written <= |b|
      ensures s.writeOffset == old(s.writeOffset) + written
      ensures old(s.writeOffset) <= old(s.maxData) ==> s.writeOffset <= s.maxData
      ensures Tiles(frames, id, old(s.writeOffset), b[..written])
      ensures State() == TrackAll(old(State()), datagrams)
      ensures HoldAll(datagrams, connId, old(nextPN), frames, maxPacketSize)
    {
      written, datagrams, frames := 0, [], [];
      ghost var first, start := State(), s.writeOffset;
      var t := 0;
      while written < |b| && t < |turns|
        invariant t <= |turns| && written <= |b|
        invariant Valid() && s.writeOffset == start + written
        invariant old(s.writeOffset) <= old(s.maxData) ==> s.writeOffset <= s.maxData
        invariant first.connId == connId
        invariant InChunks(first, State(), datagrams, frames, id, start, b[..written], maxPacketSize)
        decreases |turns| - t
      {
        written, datagrams, frames := WriteStep(s, id, b, written, turns[t], datagrams, first, frames, start);
        t := t + 1;
      }
    }
  }

  /** The data went out in consecutive frames, each in its own tracked packet. */
  ghost predicate InChunks(s: Sender, t: Sender, bufs: seq<seq<byte>>, frames: seq<StreamFrame.Stream>, id: nat,
                           start: nat, data: seq<byte>, limit: nat) {
    && Tiles(frames, id, start, data)
    && t == TrackAll(s, bufs)
    && HoldAll(bufs, s.connId, s.nextPN, frames, limit)
  }

  /** A turn of the write loop sends nothing, or one packet with the next n bytes. */
  ghost predicate Sends(t: Sender, u: Sender, b: seq<byte>, written: nat, n: nat, id: nat, start: nat, limit: nat,
                        buf: seq<byte>, f: StreamFrame.Stream) {
    && written + n <= |b|
    && (n == 0 ==> u == t)
    && (n > 0 ==>
          && f == StreamFrame.Stream(id, start + written, b[written..][..n], false, true)
          && HoldsFrame(buf, Header(t.connId, t.nextPN), f, limit) && u == Track(t, buf, true))
  }

  lemma ChunkTurn(s: Sender, t: Sender, u: Sender, bufs: seq<seq<byte>>, frames: seq<StreamFrame.Stream>, id: nat,
                  start: nat, b: seq<byte>, written: nat, n: nat, limit: nat, buf: seq<byte>, f: StreamFrame.Stream)
    requires written <= |b| && s.connId == t.connId
    requires InChunks(s, t, bufs, frames, id, start, b[..written], limit)
    requires Sends(t, u, b, written, n, id, start, limit, buf, f)
    ensures InChunks(s, u, if n > 0 then bufs + [buf] else bufs, if n > 0 then frames + [f] else frames, id, start,
                     b[..written + n], limit)
  {
    if n > 0 {
      ChunkNext(s, t, u, bufs, frames, id, start, b, written, n, limit, buf, f);
    }
  }

  lemma ChunkNext(s: Sender, t: Sender, u: Sender, bufs: seq<seq<byte>>, frames: seq<StreamFrame.Stream>, id: nat,
                start: nat, b: seq<byte>, written: nat, n: nat, limit: nat, buf: seq<byte>, f: StreamFrame.Stream)
    requires 0 < n && written + n <= |b|
    requires f == StreamFrame.Stream(id, start + written, b[written..][..n], false, true)
    requires InChunks(s, t, bufs, frames, id, start, b[..written], limit)
    requires HoldsFrame(buf, Header(s.connId, t.nextPN), f, limit) && u == Track(t, buf, true)
    ensures InChunks(s, u, bufs + [buf], frames + [f], id, start, b[..written + n], limit)
  {
    assert t.nextPN == s.nextPN + |bufs|;
    TilesNext(frames, id, start, b, written, n, f);
    TrackedNext(s, bufs, buf);
    HoldNext(bufs, s.connId, s.nextPN, frames, limit, buf, f);
  }

  datatype Turn = Turn(limit: nat, canSend: bool)

  /** Consecutive non-empty frames from offset start on, whose data together is `data`. */
  ghost predicate Tiles(frames: seq<StreamFrame.Stream>, id: nat, start: nat, data: seq<byte>)
    decreases |frames|
  {
    if frames == [] then data == []
    else
      var last := frames[|frames| - 1];
      var n := |last.data|;
      && 0 < n <= |data|
      && last == StreamFrame.Stream(id, start + |data| - n, data[|data| - n..], false, true)
      && Tiles(frames[..|frames| - 1], id, start, data[..|data| - n])
  }

  lemma TilesNext(frames: seq<StreamFrame.Stream>, id: nat, start: nat, b: seq<byte>, written: nat, n: nat,
                  f: StreamFrame.Stream)
    requires written + n <= |b| && n > 0 && Tiles(frames, id, start, b[..written])
    requires f == StreamFrame.Stream(id, start + written, b[written..][..n], false, true)
    ensures Tiles(frames + [f], id, start, b[..written + n])
  {
    assert (frames + [f])[..|frames|] == frames;
    assert b[..written + n][..written] == b[..written] && b[..written + n][written..] == b[written..][..n];
  }

  /** The packet built around a STREAM frame holds the frame behind its header and fits. */
  ghost predicate HoldsFrame(buf: seq<byte>, header: seq<byte>, f: StreamFrame.Stream, limit: nat) {
    header <= buf && At(buf, |header|, StreamFrame.Encoding(f)) && |buf| <= limit
  }

  /** One packet for each frame, in order, under consecutive numbers. */
  ghost predicate HoldAll(bufs: seq<seq<byte>>, connId: seq<byte>, pn: nat, frames: seq<StreamFrame.Stream>, limit: nat)
    decreases |frames|
  {
    && |bufs| == |frames|
    && (frames != [] ==>
          var n := |frames| - 1;
          && HoldsFrame(bufs[n], Header(connId, pn + n), frames[n], limit)
          && HoldAll(bufs[..n], connId, pn, frames[..n], limit))
  }

  lemma HoldNext(bufs: seq<seq<byte>>, connId: seq<byte>, pn: nat, frames: seq<StreamFrame.Stream>, limit: nat,
                 buf: seq<byte>, f: StreamFrame.Stream)
    requires HoldAll(bufs, connId, pn, frames, limit) && HoldsFrame(buf, Header(connId, pn + |bufs|), f, limit)
    ensures HoldAll(bufs + [buf], connId, pn, frames + [f], limit)
  {
    assert (bufs + [buf])[..|bufs|] == bufs && (frames + [f])[..|frames|] == frames;
  }

  function TrackAll(s: Sender, bufs: seq<seq<byte>>): (t: Sender)
    ensures t.nextPN == s.nextPN + |bufs|
    decreases |bufs|
  {
    if bufs == [] then s else Track(TrackAll(s, bufs[..|bufs| - 1]), bufs[|bufs| - 1], true)
  }

  lemma TrackedNext(s: Sender, bufs: seq<seq<byte>>, buf: seq<byte>)
    ensures TrackAll(s, bufs + [buf]) == Track(TrackAll(s, bufs), buf, true)
  {
    assert (bufs + [buf])[..|bufs|] == bufs;
  }

  lemma StreamSent(s: StreamFrame.Stream, connId: seq<byte>, pn: nat, pending: seq<Frame>, limit: nat)
    requires |connId| <= MAX_CONN_ID && limit >= MIN_PACKET_SIZE && |s.data| < TWO_63 && s.lenPresent
    ensures var f := Truncate(s, |connId|, limit);
            && |f.data| <= |s.data| && f == s.(data := s.data[..|f.data|]) && (s.data != [] ==> f.data != [])
            && HoldsFrame(Assembled(Header(connId, pn), Frames.Stream(f), pending, limit), Header(connId, pn), f, limit)
  {
    var f := Truncate(s, |connId|, limit);
    TruncateFits(s, |connId|, limit);
    StreamPacketFits(s, connId, pn, pending, limit);
    FrameInside(Header(connId, pn), f, Taken(|Header(connId, pn)| + |StreamFrame.Encoding(f)|, pending, limit));
  }

  lemma FrameInside(header: seq<byte>, f: StreamFrame.Stream, taken: seq<Frame>)
    requires forall i :: 0 <= i < |taken| ==> Appendable(taken[i])
    ensures forall i :: 0 <= i < |[Frames.Stream(f)] + taken| ==> Appendable(([Frames.Stream(f)] + taken)[i])
    ensures At(header + Payload([Frames.Stream(f)] + taken), |header|, StreamFrame.Encoding(f))
  {
    PayloadCons(Frames.Stream(f), taken);
    AtFront(header, StreamFrame.Encoding(f), Payload(taken));
  }

  lemma AtFront(header: seq<byte>, part: seq<byte>, rest: seq<byte>)
    ensures At(header + (part + rest), |header|, part)
  {
  }

  datatype SendResult = NotSent | Sent(frame: Frame, datagram: seq<byte>)

  lemma NextTaken(sendBuf: seq<byte>, pending: seq<Frame>, limit: nat)
    requires pending != []
    ensures var taken := Taken(|sendBuf|, pending, limit);
            if Appendable(pending[0]) && |sendBuf + Encoding(pending[0])| <= limit
            then sendBuf + Payload(taken)
                 == sendBuf + Encoding(pending[0])
                    + Payload(Taken(|sendBuf + Encoding(pending[0])|, pending[1..], limit))
            else sendBuf + Payload(taken) == sendBuf
  {
    if Appendable(pending[0]) && |sendBuf + Encoding(pending[0])| <= limit {
      TakenCons(sendBuf, pending, Encoding(pending[0]), limit);
    } else {
      assert Parts([]) == [];
    }
  }

  lemma TakenCons(sendBuf: seq<byte>, pending: seq<Frame>, part: seq<byte>, limit: nat)
    requires pending != [] && Appendable(pending[0]) && part == Encoding(pending[0]) && |sendBuf| + |part| <= limit
    ensures sendBuf + Payload(Taken(|sendBuf|, pending, limit))
            == sendBuf + part + Payload(Taken(|sendBuf| + |part|, pending[1..], limit))
  {
    var rest := Taken(|sendBuf| + |part|, pending[1..], limit);
    assert Taken(|sendBuf|, pending, limit) == [pending[0]] + rest;
    PayloadCons(pending[0], rest);
    Regrouped(sendBuf, part, Payload(rest));
  }

  /** A packet around one frame: as many of the pending control frames as fit follow it. */
  function Assembled(header: seq<byte>, f: Frame, pending: seq<Frame>, limit: nat): seq<byte>
    requires Appendable(f)
  {
    header + Payload([f] + Taken(|header| + |Encoding(f)|, pending, limit))
  }

  lemma FirstFrameFirst(header: seq<byte>, f: Frame, taken: seq<Frame>, part: seq<byte>)
    requires Appendable(f) && part == Encoding(f) && forall i :: 0 <= i < |taken| ==> Appendable(taken[i])
    ensures forall i :: 0 <= i < |[f] + taken| ==> Appendable(([f] + taken)[i])
    ensures header + part + Payload(taken) == header + Payload([f] + taken)
  {
    PayloadCons(f, taken);
    Regrouped(header, part, Payload(taken));
  }

  lemma Regrouped(a: seq<byte>, b: seq<byte>, c: seq<byte>)
    ensures a + (b + c) == a + b + c
  {
  }

  lemma EmptyTaken(sendBuf: seq<byte>, limit: nat)
    ensures sendBuf + Payload(Taken(|sendBuf|, [], limit)) == sendBuf
  {
    assert Parts([]) == [];
  }

  /** One turn of the flush loop, apart from the queue. */
  ghost predicate Resent(s: Sender, t: Sender, q: Packet, ok: bool) {
    && t.connId == s.connId
    && (if IsLong(q) then (t.nextPN, t.history, t.inFlight) == (s.nextPN, MarkPn(s.history, q.pn), s.inFlight)
        else if ok then ResentAs(s, t, q.pn, Engine.Rebuilt(s, q))
        else (t.nextPN, t.history, t.inFlight) == (s.nextPN + 1, s.history, s.inFlight))
  }

  ghost predicate ResentAs(s: Sender, t: Sender, pn: nat, again: Packet) {
    && t.nextPN == s.nextPN + 1
    && t.history == MarkPn(s.history + [again], pn)
    && t.inFlight == s.inFlight + |again.buf|
  }

  lemma {:induction false} ResendTurn(s: Sender, t: Sender, todo: seq<Packet>, k: nat, rest: seq<Packet>, keep: bool,
                                      fails: set<nat>)
    requires k < |todo| && keep == (!IsLong(todo[k]) && todo[k].pn in fails)
    requires Resent(s, t, todo[k], todo[k].pn !in fails)
    ensures ResendAll(s.(queue := rest), todo[k..], fails)
            == ResendAll(t.(queue := if keep then rest + [todo[k]] else rest), todo[k + 1..], fails)
  {
    assert todo[k..][1..] == todo[k + 1..] && todo[k..][0] == todo[k];
  }

  // ----- losses, packet by packet -----

  function LostAt(s: Sender, k: nat): Sender
    requires k < |s.history|
  {
    var p := s.history[k];
    s.(history := s.history[k := p.(retransmitted := true, lost := true)],
       queue := s.queue + [p.(retransmitted := true)],
       inFlight := s.inFlight - if p.lost then 0 else |p.buf|)
  }

  lemma LostIs(s: Sender, t: Sender, k: nat, v: Packet)
    requires k < |s.history| && s.history[k] == v && (t.connId, t.nextPN) == (s.connId, s.nextPN)
    requires t.history == s.history[k := v.(retransmitted := true)][k := v.(retransmitted := true, lost := true)]
    requires t.queue == s.queue + [v.(retransmitted := true)]
    requires t.inFlight == s.inFlight - if v.lost then 0 else |v.buf|
    ensures t == LostAt(s, k)
  {
  }

  function ExamineAt(s: Sender, cause: Cause, k: nat): Sender
    requires k < |s.history|
  {
    if Hit(s.history[k], cause) then LostAt(s, k) else s
  }

  /** The first i packets of the history, one after the other. */
  function Examine(s: Sender, cause: Cause, i: nat): (t: Sender)
    requires i <= |s.history|
    ensures |t.history| == |s.history|
  {
    if i == 0 then s else ExamineAt(Examine(s, cause, i - 1), cause, i - 1)
  }

  /** The same, in one go. */
  function RequeueUpTo(s: Sender, cause: Cause, i: nat): Sender
    requires i <= |s.history|
  {
    s.(history := MarkHits(s.history[..i], cause) + s.history[i..],
       queue := s.queue + Hits(s.history[..i], cause),
       inFlight := s.inFlight - DiscardedBytes(s.history[..i], cause))
  }

  lemma {:induction false} ExaminedSoFar(s: Sender, cause: Cause, i: nat)
    requires i <= |s.history|
    ensures Examine(s, cause, i) == RequeueUpTo(s, cause, i)
  {
    if i > 0 {
      ExaminedSoFar(s, cause, i - 1);
      UpToNext(s, cause, i - 1);
    }
  }

  lemma UpToNext(s: Sender, cause: Cause, i: nat)
    requires i < |s.history|
    ensures RequeueUpTo(s, cause, i + 1) == ExamineAt(RequeueUpTo(s, cause, i), cause, i)
  {
    if Hit(s.history[i], cause) {
      UpToHit(s, cause, i);
    } else {
      UpToOther(s, cause, i);
    }
  }

  lemma UpToHit(s: Sender, cause: Cause, i: nat)
    requires i < |s.history| && Hit(s.history[i], cause)
    ensures RequeueUpTo(s, cause, i).history[i] == s.history[i]
    ensures RequeueUpTo(s, cause, i + 1) == LostAt(RequeueUpTo(s, cause, i), i)
  {
    ExaminedNext(s.history, cause, i, MarkHits(s.history[..i], cause));
  }

  lemma UpToOther(s: Sender, cause: Cause, i: nat)
    requires i < |s.history| && !Hit(s.history[i], cause)
    ensures RequeueUpTo(s, cause, i).history[i] == s.history[i]
    ensures RequeueUpTo(s, cause, i + 1) == RequeueUpTo(s, cause, i)
  {
    ExaminedNext(s.history, cause, i, MarkHits(s.history[..i], cause));
  }

  lemma ExaminedNext(h: seq<Packet>, cause: Cause, i: nat, marked: seq<Packet>)
    requires i < |h| && marked == MarkHits(h[..i], cause)
    ensures MarkHits(h[..i + 1], cause) == marked + [MarkHit(h[i], cause)]
    ensures Hits(h[..i + 1], cause)
            == Hits(h[..i], cause) + if Hit(h[i], cause) then [h[i].(retransmitted := true)] else []
    ensures DiscardedBytes(h[..i + 1], cause)
            == DiscardedBytes(h[..i], cause) + if Hit(h[i], cause) && !h[i].lost then |h[i].buf| else 0
    ensures (marked + h[i..])[i] == h[i]
    ensures (marked + h[i..])[i := MarkHit(h[i], cause)] == marked + [MarkHit(h[i], cause)] + h[i + 1..]
  {
    assert h[..i + 1][..i] == h[..i] && h[..i + 1][i] == h[i];
    ReplaceHead(marked, h[i..], MarkHit(h[i], cause));
    assert h[i..][1..] == h[i + 1..];
  }

  lemma ReplaceHead(a: seq<Packet>, b: seq<Packet>, p: Packet)
    requires b != []
    ensures (a + b)[|a|] == b[0] && (a + b)[|a| := p] == a + [p] + b[1..]
  {
  }

  lemma ExaminedAll(s: Sender, cause: Cause)
    ensures Examine(s, cause, |s.history|) == Requeue(s, cause)
  {
    ExaminedSoFar(s, cause, |s.history|);
    assert s.history[..|s.history|] == s.history;
  }

  // ----- the packets that compaction keeps -----

  ghost function Kept(h: seq<SentPacket>): seq<SentPacket>
    reads h
    decreases |h|
  {
    if h == [] then []
    else
      var before, last := Kept(h[..|h| - 1]), h[|h| - 1];
      if last.acked then before else before + [last]
  }

  /** The numbers of the others. */
  ghost function Gone(h: seq<SentPacket>): set<int>
    reads h
    decreases |h|
  {
    if h == [] then {}
    else
      var before, last := Gone(h[..|h| - 1]), h[|h| - 1];
      if last.acked then before + {last.pn} else before
  }

  lemma CompactStep(all: seq<SentPacket>, h: seq<SentPacket>, n: nat, i: nat)
    requires n <= i < |all| == |h| && h[i..] == all[i..] && h[..n] == Kept(all[..i])
    ensures h[i] == all[i] && h[i + 1..] == all[i + 1..] && h[n := h[i]][i + 1..] == all[i + 1..]
    ensures Kept(all[..i + 1]) == if h[i].acked then h[..n] else h[n := h[i]][..n + 1]
    ensures Gone(all[..i + 1]) == if h[i].acked then Gone(all[..i]) + {h[i].pn} else Gone(all[..i])
  {
    assert h[i..][0] == all[i..][0] && h[i..][1..] == all[i..][1..];
    assert all[..i + 1][..i] == all[..i] && all[..i + 1][i] == all[i];
    assert h[n := h[i]][..n + 1] == h[..n] + [h[i]];
  }

  lemma {:induction false} KeptValues(h: seq<SentPacket>)
    ensures Values(Kept(h)) == Unacked(Values(h))
    decreases |h|
  {
    if h != [] {
      KeptValues(h[..|h| - 1]);
      assert Values(h)[..|h| - 1] == Values(h[..|h| - 1]);
    }
  }

  lemma {:induction false} KeptMembers(h: seq<SentPacket>)
    ensures forall i :: 0 <= i < |Kept(h)| ==> Kept(h)[i] in h && !Kept(h)[i].acked
    ensures forall i :: 0 <= i < |h| && !h[i].acked ==> h[i] in Kept(h)
    decreases |h|
  {
    if h != [] {
      KeptMembers(h[..|h| - 1]);
      assert h == h[..|h| - 1] + [h[|h| - 1]];
    }
  }

  lemma {:induction false} KeptOrdered(h: seq<SentPacket>)
    requires Ordered(h)
    ensures Ordered(Kept(h))
    decreases |h|
  {
    if h != [] {
      var before, last := h[..|h| - 1], h[|h| - 1];
      KeptOrdered(before);
      KeptMembers(before);
      forall i | 0 <= i < |Kept(before)| ensures Kept(before)[i].pn < last.pn {
        assert Kept(before)[i] in before;
      }
    }
  }

  lemma {:induction false} GoneMembers(h: seq<SentPacket>, k: nat)
    requires Ordered(h) && k < |h|
    ensures h[k].pn in Gone(h) <==> h[k].acked
    decreases |h|
  {
    var before, last := h[..|h| - 1], h[|h| - 1];
    if k < |before| {
      assert h[k] == before[k] && h[k].pn < last.pn;
      GoneMembers(before, k);
    } else {
      NotGone(before, last.pn);
    }
  }

  lemma {:induction false} NotGone(h: seq<SentPacket>, pn: nat)
    requires forall i :: 0 <= i < |h| ==> h[i].pn < pn
    ensures pn !in Gone(h)
    decreases |h|
  {
    if h != [] {
      NotGone(h[..|h| - 1], pn);
    }
  }

  lemma KeptIndexed(h: seq<SentPacket>, packets: map<int, SentPacket>)
    requires Ordered(h) && Indexes(packets, h)
    ensures Ordered(Kept(h)) && Indexes(packets - Gone(h), Kept(h))
    ensures forall i :: 0 <= i < |Kept(h)| ==> Kept(h)[i] in h
  {
    KeptOrdered(h);
    KeptMembers(h);
    var kept, rest := Kept(h), packets - Gone(h);
    forall i | 0 <= i < |kept| ensures kept[i].pn in rest && rest[kept[i].pn] == kept[i] {
      var k: nat :| k < |h| && h[k] == kept[i];
      GoneMembers(h, k);
    }
    forall pn | pn in rest ensures rest[pn] in kept && rest[pn].pn == pn {
      var k: nat :| k < |h| && h[k] == packets[pn];
      GoneMembers(h, k);
    }
  }

  lemma NoneMarked(h: seq<Packet>)
    ensures MarkSet(h, {}) == h && BytesIn(h, {}) == 0
  {
    NoBytes(h);
  }

  lemma AllNumbers(s: Sender, t: Sender, ranges: seq<AckFrame.AckRange>, done: set<int>)
    requires done == NumbersOf(ranges, |ranges|)
    requires t == s.(history := MarkSet(s.history, done), inFlight := s.inFlight - BytesIn(s.history, done))
    ensures t == MarkAcked(s, ranges)
  {
    forall q: int ensures q in done <==> Covers(ranges, q) {
      NumbersExact(ranges, |ranges|, q);
      assert ranges[..|ranges|] == ranges;
    }
    CoveredMarked(s, t, done, ranges);
  }
}
