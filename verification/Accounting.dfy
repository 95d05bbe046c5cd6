/**
 What every operation of the sender keeps: packet numbers stay ordered, the bytes in flight
 are exactly those of the packets neither acknowledged nor lost, and the retransmit queue
 matches the history.
 */
module Accounting {
  import opened Bytes
  import opened AckFrame
  import opened AckRanges
  import opened Sender

  // ----- the invariant -----

  ghost predicate Increasing(h: seq<Packet>, bound: nat) {
    && (forall i, j :: 0 <= i < j < |h| ==> h[i].pn < h[j].pn)
    && (forall i :: 0 <= i < |h| ==> h[i].pn < bound)
  }

  /** Totals over the history. */
  datatype Totals = Totals(
    flight: nat,        // bytes of the packets neither acknowledged nor lost
    outstanding: nat,   // packets put in the queue and not acknowledged since
    originals: nat,     // unacknowledged originals that a probe timeout could still queue
    unacked: nat)       // packets not acknowledged

  function Weigh(p: Packet): Totals {
    Totals(if p.acked || p.lost then 0 else |p.buf|,
           if p.retransmitted && !p.acked then 1 else 0,
           if !p.acked && !p.retransmitted && !p.isRetransmit then 1 else 0,
           if p.acked then 0 else 1)
  }

  function Plus(a: Totals, b: Totals): Totals {
    Totals(a.flight + b.flight, a.outstanding + b.outstanding, a.originals + b.originals, a.unacked + b.unacked)
  }

  function Tally(h: seq<Packet>): Totals {
    if h == [] then Totals(0, 0, 0, 0) else Plus(Tally(h[..|h| - 1]), Weigh(h[|h| - 1]))
  }

  lemma TallySnoc(h: seq<Packet>, p: Packet)
    ensures Tally(h + [p]) == Plus(Tally(h), Weigh(p))
  {
    assert (h + [p])[..|h|] == h && (h + [p])[|h|] == p;
  }

  ghost predicate HasPending(h: seq<Packet>, q: Packet) {
    exists i :: 0 <= i < |h| && h[i].pn == q.pn && h[i].buf == q.buf && h[i].retransmitted && !h[i].acked
  }

  ghost predicate DistinctNumbers(queue: seq<Packet>) {
    forall i, j :: 0 <= i < j < |queue| ==> queue[i].pn != queue[j].pn
  }

  /** The queue holds, once each, the packets that are marked and not acknowledged. */
  ghost predicate QueueMatches(h: seq<Packet>, queue: seq<Packet>) {
    && (forall q :: q in queue ==> HasPending(h, q))
    && DistinctNumbers(queue)
    && |queue| == Tally(h).outstanding
  }

  ghost predicate WellFormed(s: Sender) {
    && Increasing(s.history, s.nextPN)
    && (forall i :: 0 <= i < |s.history| ==>
          s.history[i].buf != [] && s.history[i].lost == s.history[i].retransmitted)
  }

  ghost predicate Conserved(s: Sender) { s.inFlight == Tally(s.history).flight }

  ghost predicate Exact(s: Sender) {
    WellFormed(s) && Conserved(s) && QueueMatches(s.history, s.queue)
  }

  // ----- sending -----

  lemma PendingSnoc(h: seq<Packet>, p: Packet, q: Packet)
    requires HasPending(h, q)
    ensures HasPending(h + [p], q)
  {
    var i :| 0 <= i < |h| && h[i].pn == q.pn && h[i].buf == q.buf && h[i].retransmitted && !h[i].acked;
    assert (h + [p])[i] == h[i];
  }

  lemma MatchesSnoc(h: seq<Packet>, p: Packet, queue: seq<Packet>)
    requires QueueMatches(h, queue) && !p.retransmitted
    ensures QueueMatches(h + [p], queue)
  {
    TallySnoc(h, p);
    forall q | q in queue ensures HasPending(h + [p], q) {
      PendingSnoc(h, p, q);
    }
  }

  lemma TrackKeeps(s: Sender, buf: seq<byte>, eliciting: bool)
    requires Exact(s) && buf != []
    ensures Exact(Track(s, buf, eliciting))
  {
    var p := Fresh(s.nextPN, buf, eliciting);
    TallySnoc(s.history, p);
    MatchesSnoc(s.history, p, s.queue);
    TrackWellFormed(s, buf, eliciting);
  }

  lemma TrackWellFormed(s: Sender, buf: seq<byte>, eliciting: bool)
    requires WellFormed(s) && buf != []
    ensures WellFormed(Track(s, buf, eliciting))
  {
  }

  lemma {:induction false} TallyLimits(h: seq<Packet>)
    ensures Tally(h).outstanding + Tally(h).originals <= Tally(h).unacked <= |h|
  {
    if h != [] {
      TallyLimits(h[..|h| - 1]);
    }
  }

  // ----- acknowledgements -----

  /** Bytes of packets that an ACK covers although they were discounted as lost before. */
  function Twice(h: seq<Packet>, ranges: seq<AckRange>): nat {
    if h == [] then 0
    else
      var last := h[|h| - 1];
      Twice(h[..|h| - 1], ranges) + if Covers(ranges, last.pn) && !last.acked && last.lost then |last.buf| else 0
  }

  lemma {:induction false} AckTotals(h: seq<Packet>, ranges: seq<AckRange>)
    ensures var t := Tally(AckAll(h, ranges));
            && t.flight + AckedBytes(h, ranges) == Tally(h).flight + Twice(h, ranges)
            && t.originals <= Tally(h).originals
            && t.unacked <= Tally(h).unacked
            && t.outstanding <= Tally(h).outstanding
  {
    if h != [] {
      AckTotals(h[..|h| - 1], ranges);
      TallySnoc(AckAll(h[..|h| - 1], ranges), AckOne(h[|h| - 1], ranges));
    }
  }

  lemma {:induction false} TwiceIsZero(h: seq<Packet>, ranges: seq<AckRange>)
    requires forall i :: 0 <= i < |h| ==> h[i].buf != []
    ensures Twice(h, ranges) == 0
            <==> forall i :: 0 <= i < |h| && Covers(ranges, h[i].pn) && !h[i].acked ==> !h[i].lost
  {
    if h != [] {
      var before := h[..|h| - 1];
      TwiceIsZero(before, ranges);
      assert h == before + [h[|h| - 1]];
    }
  }

  /**
   An acknowledgement keeps the byte count exact if and only if it covers no packet that is
   lost and not yet retransmitted; for such a packet the bytes are taken off a second time.
   */
  lemma AckConserves(s: Sender, ranges: seq<AckRange>)
    requires WellFormed(s) && Conserved(s)
    ensures Conserved(MarkAcked(s, ranges))
            <==> forall i :: 0 <= i < |s.history| && Covers(ranges, s.history[i].pn) && !s.history[i].acked ==>
                   !s.history[i].lost
    ensures MarkAcked(s, ranges).inFlight <= Tally(MarkAcked(s, ranges).history).flight
  {
    AckTotals(s.history, ranges);
    TwiceIsZero(s.history, ranges);
  }

  // ----- the queue against the history -----

  /** The numbers of the packets that are marked and not acknowledged. */
  function Outstanding(h: seq<Packet>): set<nat> {
    if h == [] then {}
    else
      var last := h[|h| - 1];
      Outstanding(h[..|h| - 1]) + if last.retransmitted && !last.acked then {last.pn} else {}
  }

  lemma {:induction false} OutstandingExact(h: seq<Packet>, pn: nat)
    ensures pn in Outstanding(h) <==> exists i :: 0 <= i < |h| && h[i].pn == pn && h[i].retransmitted && !h[i].acked
  {
    if h != [] {
      var before := h[..|h| - 1];
      OutstandingExact(before, pn);
      assert h == before + [h[|h| - 1]];
      if pn in Outstanding(before) {
        var i :| 0 <= i < |before| && before[i].pn == pn && before[i].retransmitted && !before[i].acked;
        assert h[i] == before[i];
      }
    }
  }

  lemma {:induction false} OutstandingCount(h: seq<Packet>)
    requires forall i, j :: 0 <= i < j < |h| ==> h[i].pn < h[j].pn
    ensures |Outstanding(h)| == Tally(h).outstanding
  {
    if h != [] {
      var before, last := h[..|h| - 1], h[|h| - 1];
      OutstandingCount(before);
      OutstandingExact(before, last.pn);
    }
  }

  function QueuedNumbers(queue: seq<Packet>): (r: set<nat>)
    ensures forall q :: q in queue ==> q.pn in r
    ensures forall pn :: pn in r ==> exists q :: q in queue && q.pn == pn
  {
    set q | q in queue :: q.pn
  }

  lemma {:induction false} QueuedCount(queue: seq<Packet>)
    requires DistinctNumbers(queue)
    ensures |QueuedNumbers(queue)| == |queue|
  {
    if queue == [] {
      assert QueuedNumbers(queue) == {};
    } else {
      var before, last := queue[..|queue| - 1], queue[|queue| - 1];
      assert queue == before + [last];
      QueuedCount(before);
      NumbersSnoc(before, last);
      assert last.pn !in QueuedNumbers(before);
    }
  }

  lemma NumbersSnoc(before: seq<Packet>, last: Packet)
    ensures QueuedNumbers(before + [last]) == QueuedNumbers(before) + {last.pn}
  {
  }

  lemma SameSize(a: set<nat>, b: set<nat>)
    requires a <= b && |a| == |b|
    ensures a == b
  {
    assert b == a + (b - a);
    assert |b - a| == 0;
  }

  /** A packet that is marked and not acknowledged is in the queue, there being as many of both. */
  lemma MarkedIsQueued(h: seq<Packet>, queue: seq<Packet>, i: nat)
    requires forall i, j :: 0 <= i < j < |h| ==> h[i].pn < h[j].pn
    requires QueueMatches(h, queue) && i < |h| && h[i].retransmitted && !h[i].acked
    ensures exists q :: q in queue && q.pn == h[i].pn
  {
    forall pn | pn in QueuedNumbers(queue) ensures pn in Outstanding(h) {
      var q :| q in queue && q.pn == pn;
      assert HasPending(h, q);
      OutstandingExact(h, pn);
    }
    OutstandingCount(h);
    QueuedCount(queue);
    SameSize(QueuedNumbers(queue), Outstanding(h));
    OutstandingExact(h, h[i].pn);
  }

  /** The ACK is for no packet that waits in the queue. */
  ghost predicate SparesQueue(ranges: seq<AckRange>, queue: seq<Packet>) {
    forall q :: q in queue ==> !Covers(ranges, q.pn)
  }

  /**
   Marking for an ACK keeps order, byte count and the match of queue and history if and only
   if the ACK covers no queued packet; right after a flush without write errors there is none.
   */
  lemma AckExact(s: Sender, ranges: seq<AckRange>)
    requires Exact(s)
    ensures Exact(MarkAcked(s, ranges)) <==> SparesQueue(ranges, s.queue)
  {
    if SparesQueue(ranges, s.queue) {
      MarkAckedKeeps(s, ranges);
    } else {
      var q :| q in s.queue && Covers(ranges, q.pn);
      assert HasPending(s.history, q);
      AckConserves(s, ranges);
    }
  }

  lemma MarkAckedKeeps(s: Sender, ranges: seq<AckRange>)
    requires Exact(s) && SparesQueue(ranges, s.queue)
    ensures Exact(MarkAcked(s, ranges))
  {
    NoneLost(s, ranges);
    AckConserves(s, ranges);
    AckMatches(s, ranges);
    AckWellFormed(s, ranges);
  }

  lemma NoneLost(s: Sender, ranges: seq<AckRange>)
    requires Exact(s) && SparesQueue(ranges, s.queue)
    ensures forall i :: 0 <= i < |s.history| && Covers(ranges, s.history[i].pn) && !s.history[i].acked ==>
              !s.history[i].retransmitted && !s.history[i].lost
  {
    forall i | 0 <= i < |s.history| && Covers(ranges, s.history[i].pn) && !s.history[i].acked
      ensures !s.history[i].retransmitted
    {
      if s.history[i].retransmitted {
        MarkedIsQueued(s.history, s.queue, i);
      }
    }
  }

  lemma {:induction false} AckOutstanding(h: seq<Packet>, ranges: seq<AckRange>)
    requires forall i :: 0 <= i < |h| && Covers(ranges, h[i].pn) && !h[i].acked ==> !h[i].retransmitted
    ensures Tally(AckAll(h, ranges)).outstanding == Tally(h).outstanding
  {
    if h != [] {
      var before, last := h[..|h| - 1], h[|h| - 1];
      assert h == before + [last];
      AckOutstanding(before, ranges);
      TallySnoc(AckAll(before, ranges), AckOne(last, ranges));
    }
  }

  lemma AckMatches(s: Sender, ranges: seq<AckRange>)
    requires QueueMatches(s.history, s.queue) && SparesQueue(ranges, s.queue)
    requires forall i :: 0 <= i < |s.history| && Covers(ranges, s.history[i].pn) && !s.history[i].acked ==>
               !s.history[i].retransmitted
    ensures QueueMatches(MarkAcked(s, ranges).history, s.queue)
  {
    AckOutstanding(s.history, ranges);
    forall q | q in s.queue ensures HasPending(AckAll(s.history, ranges), q) {
      var i :| 0 <= i < |s.history| && s.history[i].pn == q.pn && s.history[i].buf == q.buf
               && s.history[i].retransmitted && !s.history[i].acked;
      assert AckAll(s.history, ranges)[i] == s.history[i];
    }
  }

  lemma AckWellFormed(s: Sender, ranges: seq<AckRange>)
    requires WellFormed(s)
    ensures WellFormed(MarkAcked(s, ranges))
  {
    assert forall i :: 0 <= i < |s.history| ==> AckOne(s.history[i], ranges).pn == s.history[i].pn;
  }

  // ----- losses and timeouts -----

  lemma {:induction false} HitTotals(h: seq<Packet>, cause: Cause)
    requires forall i :: 0 <= i < |h| ==> h[i].lost == h[i].retransmitted
    ensures var t := Tally(MarkHits(h, cause));
            && t.flight + DiscardedBytes(h, cause) == Tally(h).flight
            && t.outstanding == Tally(h).outstanding + |Hits(h, cause)|
            && t.unacked == Tally(h).unacked
            && t.originals + (if cause.Timeout? then |Hits(h, cause)| else 0) <= Tally(h).originals
  {
    if h != [] {
      var before, last := h[..|h| - 1], h[|h| - 1];
      HitTotals(before, cause);
      HitWeighed(last, cause);
      TallySnoc(MarkHits(before, cause), MarkHit(last, cause));
    }
  }

  lemma HitWeighed(p: Packet, cause: Cause)
    requires p.lost == p.retransmitted
    ensures var w, hit := Weigh(MarkHit(p, cause)), if Hit(p, cause) then 1 else 0;
            && w.flight + (if Hit(p, cause) && !p.lost then |p.buf| else 0) == Weigh(p).flight
            && w.outstanding == Weigh(p).outstanding + hit
            && w.unacked == Weigh(p).unacked
            && w.originals + (if cause.Timeout? then hit else 0) <= Weigh(p).originals
  {
  }

  ghost predicate HasUnmarked(h: seq<Packet>, pn: nat) {
    exists i :: 0 <= i < |h| && h[i].pn == pn && !h[i].retransmitted
  }

  /** The packets newly queued: copies of history entries that were not marked before. */
  lemma {:induction false} HitsArePending(h: seq<Packet>, cause: Cause, q: Packet)
    requires q in Hits(h, cause)
    ensures HasPending(MarkHits(h, cause), q) && HasUnmarked(h, q.pn)
  {
    var before, last := h[..|h| - 1], h[|h| - 1];
    if q in Hits(before, cause) {
      HitsArePending(before, cause, q);
      PendingSnoc(MarkHits(before, cause), MarkHit(last, cause), q);
      var i :| 0 <= i < |before| && before[i].pn == q.pn && !before[i].retransmitted;
      assert h[i] == before[i];
    } else {
      assert MarkHits(h, cause)[|h| - 1] == MarkHit(last, cause);
    }
  }

  lemma {:induction false} HitsAreDistinct(h: seq<Packet>, cause: Cause)
    requires forall i, j :: 0 <= i < j < |h| ==> h[i].pn < h[j].pn
    ensures DistinctNumbers(Hits(h, cause))
  {
    if h != [] {
      var before, last := h[..|h| - 1], h[|h| - 1];
      HitsAreDistinct(before, cause);
      forall q | q in Hits(before, cause) ensures q.pn != last.pn {
        HitsArePending(before, cause, q);
      }
    }
  }

  lemma PendingStays(h: seq<Packet>, cause: Cause, q: Packet)
    requires HasPending(h, q)
    ensures HasPending(MarkHits(h, cause), q)
  {
    var i :| 0 <= i < |h| && h[i].pn == q.pn && h[i].buf == q.buf && h[i].retransmitted && !h[i].acked;
    assert MarkHits(h, cause)[i] == h[i];
  }

  lemma DistinctConcat(a: seq<Packet>, b: seq<Packet>)
    requires DistinctNumbers(a) && DistinctNumbers(b)
    requires forall p, q :: p in a && q in b ==> p.pn != q.pn
    ensures DistinctNumbers(a + b)
  {
    var all := a + b;
    forall i, j | 0 <= i < j < |all| ensures all[i].pn != all[j].pn {
      if i < |a| <= j {
        assert all[i] in a && all[j] in b;
      }
    }
  }

  lemma RequeuePending(h: seq<Packet>, queue: seq<Packet>, cause: Cause)
    requires forall q :: q in queue ==> HasPending(h, q)
    ensures forall q :: q in queue + Hits(h, cause) ==> HasPending(MarkHits(h, cause), q)
  {
    forall q | q in queue + Hits(h, cause) ensures HasPending(MarkHits(h, cause), q) {
      if q in queue {
        PendingStays(h, cause, q);
      } else {
        HitsArePending(h, cause, q);
      }
    }
  }

  lemma PendingIsMarked(h: seq<Packet>, q: Packet, pn: nat)
    requires forall i, j :: 0 <= i < j < |h| ==> h[i].pn < h[j].pn
    requires HasPending(h, q) && HasUnmarked(h, pn)
    ensures q.pn != pn
  {
    var i :| 0 <= i < |h| && h[i].pn == q.pn && h[i].retransmitted;
    var j :| 0 <= j < |h| && h[j].pn == pn && !h[j].retransmitted;
    assert i < j || j < i;
  }

  lemma RequeueDistinct(h: seq<Packet>, queue: seq<Packet>, cause: Cause)
    requires forall i, j :: 0 <= i < j < |h| ==> h[i].pn < h[j].pn
    requires DistinctNumbers(queue) && forall q :: q in queue ==> HasPending(h, q)
    ensures DistinctNumbers(queue + Hits(h, cause))
  {
    HitsAreDistinct(h, cause);
    forall p, q | p in queue && q in Hits(h, cause) ensures p.pn != q.pn {
      HitsArePending(h, cause, q);
      PendingIsMarked(h, p, q.pn);
    }
    DistinctConcat(queue, Hits(h, cause));
  }

  lemma RequeueWellFormed(s: Sender, cause: Cause)
    requires WellFormed(s)
    ensures WellFormed(Requeue(s, cause))
  {
    assert forall i :: 0 <= i < |s.history| ==> MarkHit(s.history[i], cause).pn == s.history[i].pn;
  }

  lemma RequeueKeeps(s: Sender, cause: Cause)
    requires Exact(s)
    ensures Exact(Requeue(s, cause))
  {
    RequeuePending(s.history, s.queue, cause);
    RequeueDistinct(s.history, s.queue, cause);
    RequeueWellFormed(s, cause);
    HitTotals(s.history, cause);
  }

  // ----- compaction -----

  lemma {:induction false} CompactTotals(h: seq<Packet>)
    ensures Tally(Unacked(h)) == Tally(h) && |Unacked(h)| == Tally(h).unacked
  {
    if h != [] {
      var before, last := h[..|h| - 1], h[|h| - 1];
      CompactTotals(before);
      if last.acked {
        WeighAcked(Tally(before), last);
      } else {
        TallySnoc(Unacked(before), last);
      }
    }
  }

  lemma WeighAcked(t: Totals, p: Packet)
    requires p.acked
    ensures Plus(t, Weigh(p)) == t
  {
  }

  /** Compaction keeps exactly the packets that are not acknowledged. */
  lemma {:induction false} CompactMembers(h: seq<Packet>, p: Packet)
    ensures p in Unacked(h) <==> p in h && !p.acked
  {
    if h != [] {
      CompactMembers(h[..|h| - 1], p);
      assert h == h[..|h| - 1] + [h[|h| - 1]];
    }
  }

  lemma {:induction false} CompactIncreasing(h: seq<Packet>, bound: nat)
    requires Increasing(h, bound)
    ensures Increasing(Unacked(h), bound)
    decreases |h|
  {
    if h != [] {
      var before, last := h[..|h| - 1], h[|h| - 1];
      assert Increasing(before, last.pn);
      CompactIncreasing(before, last.pn);
    }
  }

  lemma PendingIsMember(h: seq<Packet>, q: Packet)
    ensures HasPending(h, q) <==> exists p :: p in h && p.pn == q.pn && p.buf == q.buf && p.retransmitted && !p.acked
  {
    if HasPending(h, q) {
      var i :| 0 <= i < |h| && h[i].pn == q.pn && h[i].buf == q.buf && h[i].retransmitted && !h[i].acked;
      assert h[i] in h;
    }
  }

  lemma PendingAfterCompact(h: seq<Packet>, q: Packet)
    requires HasPending(h, q)
    ensures HasPending(Unacked(h), q)
  {
    PendingIsMember(h, q);
    var p :| p in h && p.pn == q.pn && p.buf == q.buf && p.retransmitted && !p.acked;
    CompactMembers(h, p);
    PendingIsMember(Unacked(h), q);
  }

  lemma CompactWellFormed(s: Sender)
    requires WellFormed(s)
    ensures WellFormed(Compact(s))
  {
    var h := s.history;
    CompactIncreasing(h, s.nextPN);
    forall i | 0 <= i < |Unacked(h)|
      ensures Unacked(h)[i].buf != [] && Unacked(h)[i].lost == Unacked(h)[i].retransmitted
    {
      CompactMembers(h, Unacked(h)[i]);
    }
  }

  lemma CompactKeeps(s: Sender)
    requires Exact(s)
    ensures Exact(Compact(s))
  {
    var h := s.history;
    CompactTotals(h);
    forall q | q in s.queue ensures HasPending(Unacked(h), q) {
      PendingAfterCompact(h, q);
    }
    CompactWellFormed(s);
  }

  lemma AckKeeps(s: Sender, ranges: seq<AckRange>, late: set<nat>)
    requires Exact(s) && SparesQueue(ranges, s.queue)
    ensures Exact(OnAck(s, ranges, late))
  {
    MarkAckedKeeps(s, ranges);
    RequeueKeeps(MarkAcked(s, ranges), Late(late));
    CompactKeeps(Requeue(MarkAcked(s, ranges), Late(late)));
  }

  /** An ACK for a queued packet leaves too few bytes in flight, whatever else it does. */
  lemma AckSpoils(s: Sender, ranges: seq<AckRange>, late: set<nat>)
    requires Exact(s) && !SparesQueue(ranges, s.queue)
    ensures OnAck(s, ranges, late).inFlight < Tally(OnAck(s, ranges, late).history).flight
  {
    QueuedDiscounted(s, ranges);
    AckWellFormed(s, ranges);
    FlightKept(MarkAcked(s, ranges), Late(late));
  }

  lemma QueuedDiscounted(s: Sender, ranges: seq<AckRange>)
    requires Exact(s) && !SparesQueue(ranges, s.queue)
    ensures MarkAcked(s, ranges).inFlight < Tally(MarkAcked(s, ranges).history).flight
  {
    var q :| q in s.queue && Covers(ranges, q.pn);
    assert HasPending(s.history, q);
    AckConserves(s, ranges);
  }

  /** Declaring packets lost and compacting take as much off the count as off the packets. */
  lemma FlightKept(s: Sender, cause: Cause)
    requires WellFormed(s)
    ensures var t := Compact(Requeue(s, cause));
            t.inFlight - Tally(t.history).flight == s.inFlight - Tally(s.history).flight
  {
    HitTotals(s.history, cause);
    CompactTotals(Requeue(s, cause).history);
  }

  /** So handling an ACK keeps the bookkeeping if and only if the ACK covers no queued packet. */
  lemma AckKeepsExactly(s: Sender, ranges: seq<AckRange>, late: set<nat>)
    requires Exact(s)
    ensures Exact(OnAck(s, ranges, late)) <==> SparesQueue(ranges, s.queue)
  {
    if SparesQueue(ranges, s.queue) {
      AckKeeps(s, ranges, late);
    } else {
      AckSpoils(s, ranges, late);
    }
  }

  lemma TimeoutKeeps(s: Sender)
    requires Exact(s)
    ensures Exact(OnTimeout(s))
  {
    RequeueKeeps(s, Timeout);
  }

  // ----- retransmission -----

  /** The invariant in the middle of the flush loop, with `todo` still to be resent. */
  ghost predicate Flushing(s: Sender, todo: seq<Packet>) {
    WellFormed(s) && Conserved(s) && QueueMatches(s.history, s.queue + todo)
  }

  /** One marked packet fewer is waiting. */
  ghost predicate OneFewer(t: Totals, u: Totals) {
    && u.flight == t.flight && u.originals == t.originals
    && u.outstanding == t.outstanding - 1 && u.unacked == t.unacked - 1
  }

  lemma {:induction false} MarkPnTotals(h: seq<Packet>, k: nat)
    requires forall i, j :: 0 <= i < j < |h| ==> h[i].pn < h[j].pn
    requires k < |h| && h[k].retransmitted && h[k].lost && !h[k].acked
    ensures OneFewer(Tally(h), Tally(MarkPn(h, h[k].pn)))
    decreases |h|
  {
    var before, last := h[..|h| - 1], h[|h| - 1];
    if k == |h| - 1 {
      MarkedLast(before, last);
    } else {
      MarkPnTotals(before, k);
      MarkedBefore(before, last, h[k].pn);
    }
    assert h == before + [last];
  }

  lemma MarkedLast(before: seq<Packet>, p: Packet)
    requires forall i :: 0 <= i < |before| ==> before[i].pn != p.pn
    requires p.retransmitted && p.lost && !p.acked
    ensures OneFewer(Tally(before + [p]), Tally(MarkPn(before + [p], p.pn)))
  {
    MarkPnAbsent(before, p.pn);
    MarkPnSnoc(before, p, p.pn);
    AckedLast(before, p, p.(acked := true));
  }

  lemma AckedLast(before: seq<Packet>, p: Packet, q: Packet)
    requires p.retransmitted && p.lost && !p.acked && q == p.(acked := true)
    ensures OneFewer(Tally(before + [p]), Tally(before + [q]))
  {
    WeighMarked(p);
    TallySnoc(before, p);
    TallySnoc(before, q);
  }

  lemma MarkPnSnoc(before: seq<Packet>, p: Packet, pn: nat)
    ensures MarkPn(before + [p], pn) == MarkPn(before, pn) + [MarkIfPn(p, pn)]
  {
    assert (before + [p])[..|before|] == before;
  }

  lemma MarkedBefore(before: seq<Packet>, p: Packet, pn: nat)
    requires p.pn != pn && OneFewer(Tally(before), Tally(MarkPn(before, pn)))
    ensures OneFewer(Tally(before + [p]), Tally(MarkPn(before + [p], pn)))
  {
    MarkPnSnoc(before, p, pn);
    TallySnoc(before, p);
    TallySnoc(MarkPn(before, pn), p);
  }

  lemma MarkPnAbsent(h: seq<Packet>, pn: nat)
    requires forall i :: 0 <= i < |h| ==> h[i].pn != pn
    ensures MarkPn(h, pn) == h
  {
  }

  lemma WeighMarked(p: Packet)
    requires p.retransmitted && p.lost && !p.acked
    ensures Weigh(p) == Totals(0, 1, 0, 1)
    ensures Weigh(p.(acked := true)) == Totals(0, 0, 0, 0)
  {
  }

  lemma MarkPnWellFormed(s: Sender, pn: nat)
    requires WellFormed(s)
    ensures WellFormed(s.(history := MarkPn(s.history, pn)))
  {
    assert forall i :: 0 <= i < |s.history| ==> MarkIfPn(s.history[i], pn).pn == s.history[i].pn;
  }

  lemma PendingAfterMark(h: seq<Packet>, pn: nat, q: Packet)
    requires HasPending(h, q) && q.pn != pn
    ensures HasPending(MarkPn(h, pn), q)
  {
    var i :| 0 <= i < |h| && h[i].pn == q.pn && h[i].buf == q.buf && h[i].retransmitted && !h[i].acked;
    assert MarkPn(h, pn)[i] == h[i];
  }

  lemma DistinctWithout(kept: seq<Packet>, p: Packet, rest: seq<Packet>)
    requires DistinctNumbers(kept + ([p] + rest))
    ensures DistinctNumbers(kept + rest)
    ensures forall q :: q in kept + rest ==> q.pn != p.pn
  {
    var was, now := kept + ([p] + rest), kept + rest;
    assert was[|kept|] == p;
    assert forall i :: 0 <= i < |now| ==> now[i] == was[if i < |kept| then i else i + 1];
  }

  /** Marking the packet at the head of the work list leaves the others queued. */
  lemma MarkedMatches(h: seq<Packet>, kept: seq<Packet>, p: Packet, rest: seq<Packet>)
    requires forall i, j :: 0 <= i < j < |h| ==> h[i].pn < h[j].pn
    requires forall i :: 0 <= i < |h| ==> h[i].lost == h[i].retransmitted
    requires QueueMatches(h, kept + ([p] + rest))
    ensures QueueMatches(MarkPn(h, p.pn), kept + rest)
    ensures Tally(MarkPn(h, p.pn)).flight == Tally(h).flight
  {
    assert p in kept + ([p] + rest);
    var k :| 0 <= k < |h| && h[k].pn == p.pn && h[k].buf == p.buf && h[k].retransmitted && !h[k].acked;
    MarkPnTotals(h, k);
    DistinctWithout(kept, p, rest);
    forall q | q in kept + rest ensures HasPending(MarkPn(h, p.pn), q) {
      assert q in kept + ([p] + rest);
      PendingAfterMark(h, p.pn, q);
    }
  }

  lemma ResendLong(s: Sender, p: Packet, rest: seq<Packet>)
    requires Flushing(s, [p] + rest)
    ensures Flushing(s.(history := MarkPn(s.history, p.pn)), rest)
  {
    MarkedMatches(s.history, s.queue, p, rest);
    MarkPnWellFormed(s, p.pn);
  }

  lemma ResendFailed(s: Sender, p: Packet, rest: seq<Packet>)
    requires Flushing(s, [p] + rest)
    ensures Flushing(s.(nextPN := s.nextPN + 1, queue := s.queue + [p]), rest)
  {
    assert s.queue + [p] + rest == s.queue + ([p] + rest);
  }

  lemma ResendSent(s: Sender, p: Packet, rest: seq<Packet>, again: Packet, v: Sender, t: Sender)
    requires Flushing(s, [p] + rest)
    requires again.pn == s.nextPN && again.buf != []
    requires !again.acked && !again.lost && !again.retransmitted && again.isRetransmit
    requires v == s.(nextPN := s.nextPN + 1, history := s.history + [again], inFlight := s.inFlight + |again.buf|)
    requires t == v.(history := MarkPn(v.history, p.pn))
    ensures Flushing(t, rest)
  {
    AgainTracked(s, [p] + rest, again, v);
    MarkedMatches(v.history, v.queue, p, rest);
    MarkPnWellFormed(v, p.pn);
  }

  lemma AgainTracked(s: Sender, todo: seq<Packet>, again: Packet, v: Sender)
    requires Flushing(s, todo)
    requires again.pn == s.nextPN && again.buf != []
    requires !again.acked && !again.lost && !again.retransmitted && again.isRetransmit
    requires v == s.(nextPN := s.nextPN + 1, history := s.history + [again], inFlight := s.inFlight + |again.buf|)
    ensures Flushing(v, todo)
  {
    TallySnoc(s.history, again);
    MatchesSnoc(s.history, again, s.queue + todo);
    AgainWellFormed(s, again, v);
  }

  lemma AgainWellFormed(s: Sender, again: Packet, v: Sender)
    requires WellFormed(s) && again.pn == s.nextPN && again.buf != [] && again.lost == again.retransmitted
    requires v.nextPN == s.nextPN + 1 && v.history == s.history + [again]
    ensures WellFormed(v)
  {
  }

  lemma ResendKeeps(s: Sender, p: Packet, rest: seq<Packet>, ok: bool)
    requires Flushing(s, [p] + rest)
    ensures Flushing(Resend(s, p, ok), rest)
  {
    if IsLong(p) {
      ResendLong(s, p, rest);
    } else if !ok {
      ResendFailed(s, p, rest);
    } else {
      var again := Rebuilt(s, p);
      var v := s.(nextPN := s.nextPN + 1, history := s.history + [again], inFlight := s.inFlight + |again.buf|);
      ResendSent(s, p, rest, again, v, Resend(s, p, ok));
    }
  }

  lemma {:induction false} ResendAllKeeps(s: Sender, todo: seq<Packet>, fails: set<nat>)
    requires Flushing(s, todo)
    ensures Exact(ResendAll(s, todo, fails))
    decreases |todo|
  {
    if todo == [] {
      assert s.queue + todo == s.queue;
    } else {
      assert todo == [todo[0]] + todo[1..];
      ResendKeeps(s, todo[0], todo[1..], todo[0].pn !in fails);
      ResendAllKeeps(Resend(s, todo[0], todo[0].pn !in fails), todo[1..], fails);
    }
  }

  lemma {:induction false} QueueDrained(s: Sender, todo: seq<Packet>)
    ensures ResendAll(s, todo, {}).queue == s.queue
    decreases |todo|
  {
    if todo != [] {
      QueueDrained(Resend(s, todo[0], true), todo[1..]);
    }
  }

  lemma FlushKeeps(s: Sender, fails: set<nat>)
    requires Exact(s)
    ensures Exact(FlushQueue(s, fails))
    ensures fails == {} ==> FlushQueue(s, fails).queue == []
  {
    assert [] + s.queue == s.queue;
    ResendAllKeeps(s.(queue := []), s.queue, fails);
    QueueDrained(s.(queue := []), s.queue);
  }
}
