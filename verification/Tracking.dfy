/**
 How many packets each operation of the sender leaves tracked. Acknowledgements may cover any
 packet here, also one that waits in the retransmit queue because its write failed. Such a
 packet leaves the history, its copy stays queued, and a flush tracks it once more.
 */
module Tracking {
  import opened Bytes
  import opened AckFrame
  import opened Sender
  import opened Accounting
  import AckRanges

  // ----- the queue and the history -----

  /** Every packet of the history with this number is acknowledged or marked as queued. */
  ghost predicate MarkedIn(h: seq<Packet>, pn: nat) {
    forall i :: 0 <= i < |h| && h[i].pn == pn && !h[i].acked ==> h[i].retransmitted
  }

  /** Whatever is marked and not acknowledged waits in the queue; `todo` is what a flush has still to send. */
  ghost predicate Waiting(s: Sender, todo: seq<Packet>) {
    && WellFormed(s)
    && (forall q :: q in s.queue + todo ==> q.pn < s.nextPN && MarkedIn(s.history, q.pn))
    && Outstanding(s.history) <= QueuedNumbers(s.queue + todo)
  }

  ghost predicate Tracked(s: Sender) { Waiting(s, []) }

  /** Copies in the queue whose originals have been acknowledged. */
  function Strays(s: Sender, todo: seq<Packet>): int { |s.queue| + |todo| - Tally(s.history).outstanding }

  lemma {:induction false} AtMost(queue: seq<Packet>)
    ensures |QueuedNumbers(queue)| <= |queue|
  {
    if queue == [] {
      assert QueuedNumbers(queue) == {};
    } else {
      var before, last := queue[..|queue| - 1], queue[|queue| - 1];
      AtMost(before);
      assert queue == before + [last];
      NumbersSnoc(before, last);
    }
  }

  lemma Smaller(a: set<nat>, b: set<nat>)
    requires a <= b
    ensures |a| <= |b|
  {
    assert b == a + (b - a);
  }

  lemma StraysCounted(s: Sender, todo: seq<Packet>)
    requires Waiting(s, todo)
    ensures Strays(s, todo) >= 0
  {
    OutstandingCount(s.history);
    AtMost(s.queue + todo);
    Smaller(Outstanding(s.history), QueuedNumbers(s.queue + todo));
  }

  lemma ExactTracked(s: Sender)
    requires Exact(s)
    ensures Tracked(s) && Strays(s, []) == 0
  {
    assert s.queue + [] == s.queue;
    forall pn | pn in Outstanding(s.history) ensures pn in QueuedNumbers(s.queue) {
      OutstandingExact(s.history, pn);
      var i :| 0 <= i < |s.history| && s.history[i].pn == pn && s.history[i].retransmitted && !s.history[i].acked;
      MarkedIsQueued(s.history, s.queue, i);
    }
    forall q | q in s.queue ensures q.pn < s.nextPN && MarkedIn(s.history, q.pn) {
      assert HasPending(s.history, q);
    }
  }

  // ----- the bound -----

  /**
   Unacknowledged packets and strays together, and tracked packets, queued packets and originals
   that may still be queued together; `admitted` senders have passed the check of sendFrame and
   will add one packet each.
   */
  ghost predicate Within(s: Sender, todo: seq<Packet>, admitted: nat, limit: nat) {
    && Tally(s.history).unacked + Strays(s, todo) + admitted <= limit
    && |s.history| + |s.queue| + |todo| + Tally(s.history).originals + 2 * admitted <= 2 * limit
  }

  ghost predicate Bounded(s: Sender, admitted: nat, limit: nat) { Within(s, [], admitted, limit) }

  /** The most packets that can be unacknowledged with at most m senders between check and append. */
  function Limit(m: nat): nat
    requires m > 0
  {
    MAX_TRACKED + m - 1
  }

  /** The check of sendFrame: one sender more is let through, out of at most m at a time. */
  lemma AdmitBounded(s: Sender, admitted: nat, m: nat, strays: nat)
    requires Tracked(s) && |s.history| < MAX_TRACKED && admitted < m && Strays(s, []) <= strays
    ensures Bounded(s, admitted + 1, Limit(m) + strays)
  {
    TallyLimits(s.history);
  }

  // ----- sending -----

  /** The append, when others may have appended since the check. */
  lemma TrackBounded(s: Sender, buf: seq<byte>, eliciting: bool, admitted: nat, limit: nat)
    requires Tracked(s) && buf != [] && Bounded(s, admitted, limit) && admitted > 0
    ensures var t := Track(s, buf, eliciting);
            Tracked(t) && Strays(t, []) == Strays(s, []) && Bounded(t, admitted - 1, limit)
  {
    TallySnoc(s.history, Fresh(s.nextPN, buf, eliciting));
    TrackWaits(s, buf, eliciting);
  }

  lemma TrackWaits(s: Sender, buf: seq<byte>, eliciting: bool)
    requires Tracked(s) && buf != []
    ensures Tracked(Track(s, buf, eliciting))
  {
    var h := s.history + [Fresh(s.nextPN, buf, eliciting)];
    TrackWellFormed(s, buf, eliciting);
    OutstandingSnoc(s.history, Fresh(s.nextPN, buf, eliciting));
    forall q | q in s.queue + [] ensures q.pn < s.nextPN && MarkedIn(h, q.pn) {
      assert MarkedIn(s.history, q.pn);
    }
  }

  lemma OutstandingSnoc(h: seq<Packet>, p: Packet)
    requires !p.retransmitted
    ensures Outstanding(h + [p]) == Outstanding(h)
  {
    assert (h + [p])[..|h|] == h;
  }

  // ----- acknowledgements -----

  /** Packets an ACK covers although they wait in the queue. */
  function Taken(h: seq<Packet>, ranges: seq<AckRange>): nat {
    if h == [] then 0
    else
      var last := h[|h| - 1];
      var covered := AckRanges.Covers(ranges, last.pn) && !last.acked && last.retransmitted;
      Taken(h[..|h| - 1], ranges) + if covered then 1 else 0
  }

  lemma {:induction false} AckCounts(h: seq<Packet>, ranges: seq<AckRange>)
    ensures var t := Tally(AckAll(h, ranges));
            && t.outstanding == Tally(h).outstanding - Taken(h, ranges)
            && t.unacked <= Tally(h).unacked - Taken(h, ranges)
            && t.originals <= Tally(h).originals
  {
    if h != [] {
      AckCounts(h[..|h| - 1], ranges);
      TallySnoc(AckAll(h[..|h| - 1], ranges), AckOne(h[|h| - 1], ranges));
    }
  }

  lemma MarkAckedWaits(s: Sender, ranges: seq<AckRange>)
    requires Tracked(s)
    ensures Tracked(MarkAcked(s, ranges))
  {
    var h := AckAll(s.history, ranges);
    AckWellFormed(s, ranges);
    forall q | q in s.queue + [] ensures MarkedIn(h, q.pn) {
      assert MarkedIn(s.history, q.pn);
    }
    forall pn | pn in Outstanding(h) ensures pn in Outstanding(s.history) {
      OutstandingExact(h, pn);
      var i :| 0 <= i < |h| && h[i].pn == pn && h[i].retransmitted && !h[i].acked;
      assert h[i] == AckOne(s.history[i], ranges);
      OutstandingExact(s.history, pn);
    }
  }

  lemma RequeueWaits(s: Sender, cause: Cause)
    requires Tracked(s)
    ensures Tracked(Requeue(s, cause))
  {
    var queue := s.queue + Hits(s.history, cause);
    assert queue + [] == queue && s.queue + [] == s.queue;
    RequeueWellFormed(s, cause);
    forall q | q in queue ensures q.pn < s.nextPN && MarkedIn(MarkHits(s.history, cause), q.pn) {
      if q in s.queue {
        MarkedStays(s.history, cause, q.pn);
      } else {
        HitMarked(s, cause, q);
      }
    }
    forall pn | pn in Outstanding(MarkHits(s.history, cause)) ensures pn in QueuedNumbers(queue) {
      RequeuedNumber(s, cause, pn);
    }
  }

  lemma MarkedStays(h: seq<Packet>, cause: Cause, pn: nat)
    requires MarkedIn(h, pn)
    ensures MarkedIn(MarkHits(h, cause), pn)
  {
    forall i | 0 <= i < |h| && MarkHits(h, cause)[i].pn == pn && !MarkHits(h, cause)[i].acked
      ensures MarkHits(h, cause)[i].retransmitted
    {
      assert MarkHits(h, cause)[i] == MarkHit(h[i], cause);
    }
  }

  lemma RequeuedNumber(s: Sender, cause: Cause, pn: nat)
    requires Outstanding(s.history) <= QueuedNumbers(s.queue) && pn in Outstanding(MarkHits(s.history, cause))
    ensures pn in QueuedNumbers(s.queue + Hits(s.history, cause))
  {
    var h := MarkHits(s.history, cause);
    OutstandingExact(h, pn);
    var i :| 0 <= i < |h| && h[i].pn == pn && h[i].retransmitted && !h[i].acked;
    assert h[i] == MarkHit(s.history[i], cause);
    if s.history[i].retransmitted {
      OutstandingExact(s.history, pn);
      var q :| q in s.queue && q.pn == pn;
      assert q in s.queue + Hits(s.history, cause);
    } else {
      HitQueued(s.history, cause, i);
      assert s.history[i].(retransmitted := true) in s.queue + Hits(s.history, cause);
    }
  }

  lemma HitMarked(s: Sender, cause: Cause, q: Packet)
    requires WellFormed(s) && q in Hits(s.history, cause)
    ensures q.pn < s.nextPN && MarkedIn(MarkHits(s.history, cause), q.pn)
  {
    var h := MarkHits(s.history, cause);
    HitsArePending(s.history, cause, q);
    var k :| 0 <= k < |h| && h[k].pn == q.pn && h[k].buf == q.buf && h[k].retransmitted && !h[k].acked;
    forall i | 0 <= i < |h| && h[i].pn == q.pn ensures i == k {
      assert h[i].pn == s.history[i].pn && h[k].pn == s.history[k].pn;
      assert !(i < k) && !(k < i);
    }
  }

  lemma {:induction false} HitQueued(h: seq<Packet>, cause: Cause, i: nat)
    requires i < |h| && Hit(h[i], cause)
    ensures h[i].(retransmitted := true) in Hits(h, cause)
    decreases |h|
  {
    if i < |h| - 1 {
      HitQueued(h[..|h| - 1], cause, i);
    }
  }

  lemma CompactWaits(s: Sender)
    requires Tracked(s)
    ensures Tracked(Compact(s))
  {
    var h := Unacked(s.history);
    CompactWellFormed(s);
    forall q | q in s.queue + [] ensures MarkedIn(h, q.pn) {
      forall i | 0 <= i < |h| && h[i].pn == q.pn ensures h[i].retransmitted {
        CompactMembers(s.history, h[i]);
        assert MarkedIn(s.history, q.pn);
      }
    }
    forall pn | pn in Outstanding(h) ensures pn in Outstanding(s.history) {
      OutstandingExact(h, pn);
      var i :| 0 <= i < |h| && h[i].pn == pn && h[i].retransmitted && !h[i].acked;
      CompactMembers(s.history, h[i]);
      OutstandingExact(s.history, pn);
    }
  }

  /** An ACK adds as many strays as it covers queued packets, and no more than it acknowledges. */
  lemma AckBounded(s: Sender, ranges: seq<AckRange>, late: set<nat>, admitted: nat, limit: nat)
    requires Tracked(s) && Bounded(s, admitted, limit)
    ensures var t := OnAck(s, ranges, late);
            && Tracked(t) && Strays(t, []) == Strays(s, []) + Taken(s.history, ranges)
            && Bounded(t, admitted, limit)
  {
    var u := MarkAcked(s, ranges);
    var v := Requeue(u, Late(late));
    MarkAckedWaits(s, ranges);
    RequeueWaits(u, Late(late));
    CompactWaits(v);
    AckCounts(s.history, ranges);
    HitTotals(u.history, Late(late));
    CompactTotals(v.history);
    TallyLimits(v.history);
    StraysCounted(Compact(v), []);
  }

  lemma TimeoutBounded(s: Sender, admitted: nat, limit: nat)
    requires Tracked(s) && Bounded(s, admitted, limit)
    ensures var t := OnTimeout(s);
            Tracked(t) && Strays(t, []) == Strays(s, []) && Bounded(t, admitted, limit)
  {
    RequeueWaits(s, Timeout);
    HitTotals(s.history, Timeout);
  }

  // ----- retransmission -----

  /** A turn of the flush loop takes a queued packet or a stray away for each packet it adds. */
  ghost predicate TurnTracks(s: Sender, todo: seq<Packet>, t: Sender, rest: seq<Packet>) {
    && Waiting(t, rest)
    && Strays(t, rest) <= Strays(s, todo)
    && Tally(t.history).unacked + Strays(t, rest) <= Tally(s.history).unacked + Strays(s, todo)
    && Tally(t.history).originals == Tally(s.history).originals
    && |t.history| + |t.queue| + |rest| <= |s.history| + |s.queue| + |todo|
  }

  /** What marking the packet of a queued copy as acknowledged does to the totals. */
  lemma MarkCounts(h: seq<Packet>, pn: nat)
    requires forall i, j :: 0 <= i < j < |h| ==> h[i].pn < h[j].pn
    requires (forall i :: 0 <= i < |h| ==> h[i].lost == h[i].retransmitted) && MarkedIn(h, pn)
    ensures Tally(MarkPn(h, pn)) == Tally(h) || OneFewer(Tally(h), Tally(MarkPn(h, pn)))
    ensures Outstanding(MarkPn(h, pn)) <= Outstanding(h) && pn !in Outstanding(MarkPn(h, pn))
  {
    if k :| 0 <= k < |h| && h[k].pn == pn && !h[k].acked {
      MarkPnTotals(h, k);
    } else {
      assert MarkPn(h, pn) == h;
    }
    forall x | x in Outstanding(MarkPn(h, pn)) ensures x in Outstanding(h) && x != pn {
      OutstandingExact(MarkPn(h, pn), x);
      var i :| 0 <= i < |h| && MarkPn(h, pn)[i].pn == x && MarkPn(h, pn)[i].retransmitted && !MarkPn(h, pn)[i].acked;
      assert h[i] == MarkPn(h, pn)[i];
      OutstandingExact(h, x);
    }
  }

  lemma MarkedWaits(s: Sender, p: Packet, rest: seq<Packet>)
    requires Waiting(s, [p] + rest)
    ensures var t := s.(history := MarkPn(s.history, p.pn));
            && TurnTracks(s, [p] + rest, t, rest)
            && Tally(t.history).unacked + Strays(t, rest) == Tally(s.history).unacked + Strays(s, [p] + rest) - 1
  {
    assert p in s.queue + ([p] + rest);
    MarkCounts(s.history, p.pn);
    OthersWait(s, p, rest);
  }

  lemma OthersWait(s: Sender, p: Packet, rest: seq<Packet>)
    requires Waiting(s, [p] + rest)
    ensures Waiting(s.(history := MarkPn(s.history, p.pn)), rest)
  {
    var h := MarkPn(s.history, p.pn);
    var was, now := s.queue + ([p] + rest), s.queue + rest;
    assert p in was;
    MarkCounts(s.history, p.pn);
    MarkPnWellFormed(s, p.pn);
    forall q | q in now ensures MarkedIn(h, q.pn) && q.pn < s.nextPN {
      assert q in was && MarkedIn(s.history, q.pn);
    }
    forall pn | pn in Outstanding(h) ensures pn in QueuedNumbers(now) {
      var q :| q in was && q.pn == pn;
      assert q in now;
    }
  }

  lemma FailedWaits(s: Sender, p: Packet, rest: seq<Packet>)
    requires Waiting(s, [p] + rest)
    ensures TurnTracks(s, [p] + rest, s.(nextPN := s.nextPN + 1, queue := s.queue + [p]), rest)
  {
    assert s.queue + [p] + rest == s.queue + ([p] + rest);
  }

  /** The copy is tracked: one packet more than before. */
  lemma AgainWaits(s: Sender, todo: seq<Packet>, again: Packet, v: Sender)
    requires Waiting(s, todo)
    requires again.pn == s.nextPN && again.buf != []
    requires !again.acked && !again.lost && !again.retransmitted && again.isRetransmit
    requires v == s.(nextPN := s.nextPN + 1, history := s.history + [again], inFlight := s.inFlight + |again.buf|)
    ensures Waiting(v, todo)
    ensures Tally(v.history) == Plus(Tally(s.history), Totals(|again.buf|, 0, 0, 1))
  {
    TallySnoc(s.history, again);
    AgainWellFormed(s, again, v);
    OutstandingSnoc(s.history, again);
    forall q | q in s.queue + todo ensures MarkedIn(v.history, q.pn) {
      assert MarkedIn(s.history, q.pn);
    }
  }

  lemma SentWaits(s: Sender, p: Packet, rest: seq<Packet>, again: Packet, v: Sender, t: Sender)
    requires Waiting(s, [p] + rest)
    requires again.pn == s.nextPN && again.buf != []
    requires !again.acked && !again.lost && !again.retransmitted && again.isRetransmit
    requires v == s.(nextPN := s.nextPN + 1, history := s.history + [again], inFlight := s.inFlight + |again.buf|)
    requires t == v.(history := MarkPn(v.history, p.pn))
    ensures TurnTracks(s, [p] + rest, t, rest)
  {
    AgainWaits(s, [p] + rest, again, v);
    MarkedWaits(v, p, rest);
    SentTurn(s, [p] + rest, again, v, t, rest);
  }

  lemma SentTurn(s: Sender, todo: seq<Packet>, again: Packet, v: Sender, t: Sender, rest: seq<Packet>)
    requires Waiting(t, rest) && |v.history| == |s.history| + 1 && v.queue == s.queue == t.queue
    requires |todo| == |rest| + 1 && |t.history| == |v.history|
    requires Tally(v.history) == Plus(Tally(s.history), Totals(|again.buf|, 0, 0, 1))
    requires TurnTracks(v, todo, t, rest)
    requires Tally(t.history).unacked + Strays(t, rest) == Tally(v.history).unacked + Strays(v, todo) - 1
    ensures TurnTracks(s, todo, t, rest)
  {
  }

  lemma ResendWaits(s: Sender, p: Packet, rest: seq<Packet>, ok: bool)
    requires Waiting(s, [p] + rest)
    ensures TurnTracks(s, [p] + rest, Resend(s, p, ok), rest)
  {
    if IsLong(p) {
      MarkedWaits(s, p, rest);
    } else if !ok {
      FailedWaits(s, p, rest);
    } else {
      var again := Rebuilt(s, p);
      var v := s.(nextPN := s.nextPN + 1, history := s.history + [again], inFlight := s.inFlight + |again.buf|);
      SentWaits(s, p, rest, again, v, Resend(s, p, ok));
    }
  }

  lemma {:induction false} ResendAllWaits(s: Sender, todo: seq<Packet>, fails: set<nat>)
    requires Waiting(s, todo)
    ensures TurnTracks(s, todo, ResendAll(s, todo, fails), [])
    decreases |todo|
  {
    if todo != [] {
      var t := Resend(s, todo[0], todo[0].pn !in fails);
      assert todo == [todo[0]] + todo[1..];
      ResendWaits(s, todo[0], todo[1..], todo[0].pn !in fails);
      ResendAllWaits(t, todo[1..], fails);
    }
  }

  lemma FlushBounded(s: Sender, fails: set<nat>, admitted: nat, limit: nat)
    requires Tracked(s) && Bounded(s, admitted, limit)
    ensures var t := FlushQueue(s, fails);
            Tracked(t) && Strays(t, []) <= Strays(s, []) && Bounded(t, admitted, limit)
  {
    assert s.queue + [] == [] + s.queue;
    ResendAllWaits(s.(queue := []), s.queue, fails);
  }
}
