/**
 What acknowledgements, timeouts and the flush of the queue achieve: exactly which packets
 stay tracked, which are queued, and which go out again with what payload.
 */
module Recovery {
  import opened Bytes
  import opened AckFrame
  import opened AckRanges
  import opened Sender
  import opened Accounting

  // ----- acknowledgements and timeouts -----

  lemma AckMarks(s: Sender, ranges: seq<AckRange>, late: set<nat>, p: Packet)
    ensures p in OnAck(s, ranges, late).history
            <==> exists q :: q in s.history && !q.acked && !Covers(ranges, q.pn) && p == MarkHit(q, Late(late))
  {
    CompactMembers(MarkHits(AckAll(s.history, ranges), Late(late)), p);
    if p in MarkHits(AckAll(s.history, ranges), Late(late)) && !p.acked {
      MarkedFrom(s.history, ranges, late, p);
    }
    if q :| q in s.history && !q.acked && !Covers(ranges, q.pn) && p == MarkHit(q, Late(late)) {
      MarkedTo(s.history, ranges, late, q);
    }
  }

  lemma MarkedFrom(h: seq<Packet>, ranges: seq<AckRange>, late: set<nat>, p: Packet)
    requires p in MarkHits(AckAll(h, ranges), Late(late)) && !p.acked
    ensures exists q :: q in h && !q.acked && !Covers(ranges, q.pn) && p == MarkHit(q, Late(late))
  {
    var acked := AckAll(h, ranges);
    var i :| 0 <= i < |acked| && p == MarkHits(acked, Late(late))[i];
    assert h[i] in h && acked[i] == AckOne(h[i], ranges);
  }

  lemma MarkedTo(h: seq<Packet>, ranges: seq<AckRange>, late: set<nat>, q: Packet)
    requires q in h && !q.acked && !Covers(ranges, q.pn)
    ensures MarkHit(q, Late(late)) in MarkHits(AckAll(h, ranges), Late(late)) && !MarkHit(q, Late(late)).acked
  {
    var i :| 0 <= i < |h| && q == h[i];
    assert AckAll(h, ranges)[i] == q;
    assert MarkHits(AckAll(h, ranges), Late(late))[i] == MarkHit(q, Late(late));
  }

  /**
   Still tracked after an ACK: the packets not acknowledged by it or before. Those overdue are
   marked as lost and queued, originals and copies alike, if they ask for an acknowledgement
   and were not marked before; nothing else is changed.
   */
  lemma AckSettles(s: Sender, ranges: seq<AckRange>, late: set<nat>, p: Packet)
    ensures p in OnAck(s, ranges, late).history
            <==> exists q :: q in s.history && !q.acked && !Covers(ranges, q.pn)
                             && p == if !q.retransmitted && q.eliciting && q.pn in late
                                     then q.(retransmitted := true, lost := true) else q
  {
    AckMarks(s, ranges, late, p);
    if p in OnAck(s, ranges, late).history {
      var q :| q in s.history && !q.acked && !Covers(ranges, q.pn) && p == MarkHit(q, Late(late));
      assert Hit(q, Late(late)) <==> !q.retransmitted && q.eliciting && q.pn in late;
    }
    if q :| q in s.history && !q.acked && !Covers(ranges, q.pn)
            && p == if !q.retransmitted && q.eliciting && q.pn in late
                    then q.(retransmitted := true, lost := true) else q {
      assert p == MarkHit(q, Late(late));
    }
  }

  lemma {:induction false} HitsExact(h: seq<Packet>, cause: Cause, q: Packet)
    ensures q in Hits(h, cause) <==> exists p :: p in h && Hit(p, cause) && q == p.(retransmitted := true)
    decreases |h|
  {
    if h != [] {
      var before, last := h[..|h| - 1], h[|h| - 1];
      HitsExact(before, cause, q);
      assert h == before + [last];
      if q in Hits(before, cause) {
        var p :| p in before && Hit(p, cause) && q == p.(retransmitted := true);
        assert p in h;
      }
    }
  }

  lemma AckHits(s: Sender, ranges: seq<AckRange>, late: set<nat>, q: Packet)
    ensures q in OnAck(s, ranges, late).queue
            <==> q in s.queue
                 || exists p :: p in s.history && !Covers(ranges, p.pn) && Hit(p, Late(late))
                                && q == p.(retransmitted := true)
  {
    var h := AckAll(s.history, ranges);
    HitsExact(h, Late(late), q);
    if p :| p in h && Hit(p, Late(late)) && q == p.(retransmitted := true) {
      var i :| 0 <= i < |h| && p == h[i];
      assert s.history[i] in s.history && p == AckOne(s.history[i], ranges);
    }
    if p :| p in s.history && !Covers(ranges, p.pn) && Hit(p, Late(late)) && q == p.(retransmitted := true) {
      var i :| 0 <= i < |s.history| && p == s.history[i];
      assert h[i] == p;
    }
  }

  /**
   Queued by an ACK: the packets overdue, originals and copies alike, that ask for an
   acknowledgement, have none, also not by this ACK, and were not queued before.
   */
  lemma AckQueues(s: Sender, ranges: seq<AckRange>, late: set<nat>, q: Packet)
    ensures q in OnAck(s, ranges, late).queue
            <==> q in s.queue
                 || exists p :: p in s.history && !p.acked && !p.retransmitted && p.eliciting && p.pn in late
                                && !Covers(ranges, p.pn) && q == p.(retransmitted := true)
  {
    AckHits(s, ranges, late, q);
    if p :| p in s.history && !p.acked && !p.retransmitted && p.eliciting && p.pn in late
            && !Covers(ranges, p.pn) && q == p.(retransmitted := true) {
      assert Hit(p, Late(late));
    }
  }

  /** Queued by a timeout: every original that is neither acknowledged nor queued already. */
  lemma TimeoutQueues(s: Sender, q: Packet)
    ensures q in OnTimeout(s).queue
            <==> q in s.queue
                 || exists p :: p in s.history && !p.acked && !p.retransmitted && !p.isRetransmit
                                && q == p.(retransmitted := true)
  {
    HitsExact(s.history, Timeout, q);
    if p :| p in s.history && !p.acked && !p.retransmitted && !p.isRetransmit && q == p.(retransmitted := true) {
      assert Hit(p, Timeout);
    }
  }

  // ----- the flush -----

  predicate IsSent(q: Packet, fails: set<nat>) { !IsLong(q) && q.pn !in fails }

  predicate IsKept(q: Packet, fails: set<nat>) { !IsLong(q) && q.pn in fails }

  /** The queued packets that go out again, and those whose write fails. */
  function SentOf(todo: seq<Packet>, fails: set<nat>): seq<Packet>
    decreases |todo|
  {
    if todo == [] then []
    else (if IsSent(todo[0], fails) then [todo[0]] else []) + SentOf(todo[1..], fails)
  }

  function KeptOf(todo: seq<Packet>, fails: set<nat>): seq<Packet>
    decreases |todo|
  {
    if todo == [] then []
    else (if IsKept(todo[0], fails) then [todo[0]] else []) + KeptOf(todo[1..], fails)
  }

  /** A tracked packet of this number counts as acknowledged after the flush. */
  ghost predicate Retired(todo: seq<Packet>, fails: set<nat>, pn: nat) {
    exists q :: q in todo && q.pn == pn && !IsKept(q, fails)
  }

  /** A copy of q under a number not used before. */
  ghost predicate CopyOf(connId: seq<byte>, again: Packet, q: Packet, nextPN: nat) {
    && again == Packet(again.pn, Header(connId, again.pn) + PayloadOf(connId, q), true, false, false, false, true)
    && again.pn >= nextPN
  }

  /** What was tracked before stays in place; the originals of what was settled are retired. */
  ghost predicate OldRetired(h: seq<Packet>, t: seq<Packet>, todo: seq<Packet>, fails: set<nat>) {
    |h| <= |t| && forall i :: 0 <= i < |h| ==> t[i] == h[i].(acked := h[i].acked || Retired(todo, fails, h[i].pn))
  }

  /** Behind the first n packets stand copies of those sent. */
  ghost predicate CopiesAdded(connId: seq<byte>, t: seq<Packet>, n: nat, sent: seq<Packet>, nextPN: nat) {
    |t| == n + |sent| && forall j :: 0 <= j < |sent| ==> CopyOf(connId, t[n + j], sent[j], nextPN)
  }

  ghost predicate Flushed(s: Sender, t: Sender, todo: seq<Packet>, fails: set<nat>) {
    && t.connId == s.connId
    && t.queue == s.queue + KeptOf(todo, fails)
    && OldRetired(s.history, t.history, todo, fails)
    && CopiesAdded(s.connId, t.history, |s.history|, SentOf(todo, fails), s.nextPN)
  }

  /** Retired by the first packet of the list or by the others. */
  ghost predicate RetiredAt(todo: seq<Packet>, fails: set<nat>, pn: nat)
    requires todo != []
  {
    Retired(todo, fails, pn) <==> (todo[0].pn == pn && !IsKept(todo[0], fails)) || Retired(todo[1..], fails, pn)
  }

  ghost predicate RetiredStep(todo: seq<Packet>, fails: set<nat>)
    requires todo != []
  {
    forall pn: nat :: RetiredAt(todo, fails, pn)
  }

  lemma RetiredCons(todo: seq<Packet>, fails: set<nat>, pn: nat)
    requires todo != []
    ensures RetiredAt(todo, fails, pn)
  {
    assert todo == [todo[0]] + todo[1..];
    if Retired(todo[1..], fails, pn) {
      var q :| q in todo[1..] && q.pn == pn && !IsKept(q, fails);
      assert q in todo;
    }
  }

  lemma {:induction false} ResendAllFlushes(s: Sender, todo: seq<Packet>, fails: set<nat>)
    requires forall q :: q in todo ==> q.pn < s.nextPN
    ensures Flushed(s, ResendAll(s, todo, fails), todo, fails)
    decreases |todo|
  {
    if todo != [] {
      var q, u := todo[0], Resend(s, todo[0], todo[0].pn !in fails);
      ResendAllFlushes(u, todo[1..], fails);
      forall pn: nat ensures RetiredAt(todo, fails, pn) {
        RetiredCons(todo, fails, pn);
      }
      if IsSent(q, fails) {
        TurnSends(s, u, ResendAll(u, todo[1..], fails), q, todo, fails, Rebuilt(s, q));
      } else if IsLong(q) {
        TurnLong(s, u, ResendAll(u, todo[1..], fails), q, todo, fails);
      } else {
        TurnKept(s, u, ResendAll(u, todo[1..], fails), q, todo, fails);
      }
    }
  }

  lemma TurnLong(s: Sender, u: Sender, t: Sender, q: Packet, todo: seq<Packet>, fails: set<nat>)
    requires todo != [] && q == todo[0] && IsLong(q)
    requires u == s.(history := MarkPn(s.history, q.pn)) && Flushed(u, t, todo[1..], fails)
    requires RetiredStep(todo, fails)
    ensures Flushed(s, t, todo, fails)
  {
    assert SentOf(todo, fails) == SentOf(todo[1..], fails) && KeptOf(todo, fails) == KeptOf(todo[1..], fails);
    RetiredBehind(s.history, u.history, t.history, q, todo, fails);
  }

  /** One packet retired, and then those of the rest of the list. */
  lemma RetiredBehind(h: seq<Packet>, u: seq<Packet>, t: seq<Packet>, q: Packet, todo: seq<Packet>, fails: set<nat>)
    requires todo != [] && q == todo[0] && !IsKept(q, fails)
    requires u == MarkPn(h, q.pn) && OldRetired(u, t, todo[1..], fails)
    requires RetiredStep(todo, fails)
    ensures OldRetired(h, t, todo, fails)
  {
    forall i | 0 <= i < |h| ensures t[i] == h[i].(acked := h[i].acked || Retired(todo, fails, h[i].pn)) {
      assert u[i] == MarkIfPn(h[i], q.pn);
    }
  }

  lemma TurnKept(s: Sender, u: Sender, t: Sender, q: Packet, todo: seq<Packet>, fails: set<nat>)
    requires todo != [] && q == todo[0] && IsKept(q, fails)
    requires u == s.(nextPN := s.nextPN + 1, queue := s.queue + [q]) && Flushed(u, t, todo[1..], fails)
    requires RetiredStep(todo, fails)
    ensures Flushed(s, t, todo, fails)
  {
  }

  lemma CopiesCons(connId: seq<byte>, t: seq<Packet>, n: nat, q: Packet, sent: seq<Packet>, nextPN: nat)
    requires CopiesAdded(connId, t, n + 1, sent, nextPN + 1) && CopyOf(connId, t[n], q, nextPN)
    ensures CopiesAdded(connId, t, n, [q] + sent, nextPN)
  {
    forall j | 0 <= j < |[q] + sent| ensures CopyOf(connId, t[n + j], ([q] + sent)[j], nextPN) {
      if j > 0 {
        assert CopyOf(connId, t[n + 1 + (j - 1)], sent[j - 1], nextPN + 1);
      }
    }
  }

  /** A new packet behind the history is not retired, its number being in no work list yet. */
  lemma RetiredBefore(h: seq<Packet>, again: Packet, t: seq<Packet>, todo: seq<Packet>, fails: set<nat>)
    requires OldRetired(h + [again], t, todo, fails) && forall p :: p in todo ==> p.pn < again.pn
    requires !again.acked
    ensures OldRetired(h, t, todo, fails) && t[|h|] == again
  {
    var all := h + [again];
    assert all[|h|] == again && !Retired(todo, fails, again.pn);
    forall i | 0 <= i < |h| ensures t[i] == h[i].(acked := h[i].acked || Retired(todo, fails, h[i].pn)) {
      assert all[i] == h[i];
    }
  }

  lemma TurnSends(s: Sender, u: Sender, t: Sender, q: Packet, todo: seq<Packet>, fails: set<nat>, again: Packet)
    requires todo != [] && q == todo[0] && IsSent(q, fails)
    requires forall p :: p in todo ==> p.pn < s.nextPN
    requires again == Rebuilt(s, q) && (u.connId, u.queue, u.nextPN) == (s.connId, s.queue, s.nextPN + 1)
    requires u.history == MarkPn(s.history + [again], q.pn) && Flushed(u, t, todo[1..], fails)
    requires RetiredStep(todo, fails)
    ensures Flushed(s, t, todo, fails)
  {
    RetiredBehind(s.history + [again], u.history, t.history, q, todo, fails);
    RetiredBefore(s.history, again, t.history, todo, fails);
    CopiesCons(s.connId, t.history, |s.history|, q, SentOf(todo[1..], fails), s.nextPN);
  }

  /**
   What a flush does: every queued packet under a short header whose write succeeds goes out
   again, in order, with the same payload under a new number, and its original is retired;
   failed ones stay queued; long-header ones are retired without being sent.
   */
  lemma FlushSends(s: Sender, fails: set<nat>)
    requires forall q :: q in s.queue ==> q.pn < s.nextPN
    ensures var t := FlushQueue(s, fails);
            && t.queue == KeptOf(s.queue, fails)
            && Flushed(s.(queue := []), t, s.queue, fails)
  {
    ResendAllFlushes(s.(queue := []), s.queue, fails);
  }

  function ShortHeaders(todo: seq<Packet>): nat
    decreases |todo|
  {
    if todo == [] then 0
    else (if todo[0].buf != [] && todo[0].buf[0] >= 0x80 then 0 else 1) + ShortHeaders(todo[1..])
  }

  /** Each packet under a short header takes a number, whether or not its write succeeds. */
  lemma {:induction false} FlushNumbers(s: Sender, todo: seq<Packet>, fails: set<nat>)
    ensures ResendAll(s, todo, fails).nextPN == s.nextPN + ShortHeaders(todo)
    decreases |todo|
  {
    if todo != [] {
      FlushNumbers(Resend(s, todo[0], todo[0].pn !in fails), todo[1..], fails);
    }
  }

  // ----- what is lost is sent again -----

  lemma {:induction false} SentOfIndex(todo: seq<Packet>, fails: set<nat>, q: Packet) returns (j: nat)
    requires q in todo && IsSent(q, fails)
    ensures j < |SentOf(todo, fails)| && SentOf(todo, fails)[j] == q
    decreases |todo|
  {
    if todo[0] == q {
      j := 0;
    } else {
      var k := SentOfIndex(todo[1..], fails, q);
      j := if IsSent(todo[0], fails) then k + 1 else k;
    }
  }

  /** A packet under a new number carries q's payload and waits for its own acknowledgement. */
  ghost predicate SentAgain(connId: seq<byte>, h: seq<Packet>, q: Packet, nextPN: nat) {
    exists again :: again in h && CopyOf(connId, again, q, nextPN)
  }

  ghost predicate RetiredIn(h: seq<Packet>, pn: nat, n: nat) {
    n <= |h| && forall i :: 0 <= i < n && h[i].pn == pn ==> h[i].acked
  }

  lemma QueuedSentAgain(s: Sender, fails: set<nat>, q: Packet)
    requires q in s.queue && IsSent(q, fails) && forall x :: x in s.queue ==> x.pn < s.nextPN
    ensures SentAgain(s.connId, FlushQueue(s, fails).history, q, s.nextPN)
    ensures RetiredIn(FlushQueue(s, fails).history, q.pn, |s.history|)
  {
    var t := FlushQueue(s, fails);
    FlushSends(s, fails);
    var j := SentOfIndex(s.queue, fails, q);
    assert CopyOf(s.connId, t.history[|s.history| + j], q, s.nextPN);
    assert t.history[|s.history| + j] in t.history;
    assert Retired(s.queue, fails, q.pn);
  }

  lemma SameCopies(connId: seq<byte>, h: seq<Packet>, p: Packet, nextPN: nat)
    requires SentAgain(connId, h, p.(retransmitted := true), nextPN)
    ensures SentAgain(connId, h, p, nextPN)
  {
    var again :| again in h && CopyOf(connId, again, p.(retransmitted := true), nextPN);
    assert CopyOf(connId, again, p, nextPN);
  }

  /**
   What handling an ACK achieves for a lost packet: overdue, asking for an acknowledgement it has
   not got, not queued before and with a short header, an original or a copy, it goes out again
   under a new number unless the write fails, and its entry counts as settled.
   */
  lemma LostSentAgain(s: Sender, ranges: seq<AckRange>, late: set<nat>, fails: set<nat>, p: Packet)
    requires Numbered(s) && p in s.history && !p.acked && !p.retransmitted && p.eliciting && p.pn in late
    requires !Covers(ranges, p.pn) && !IsLong(p) && p.pn !in fails
    ensures var u := OnAck(s, ranges, late);
            && SentAgain(s.connId, FlushQueue(u, fails).history, p, s.nextPN)
            && RetiredIn(FlushQueue(u, fails).history, p.pn, |u.history|)
  {
    var u, q := OnAck(s, ranges, late), p.(retransmitted := true);
    forall x | x in u.queue ensures x.pn < u.nextPN {
      AckQueues(s, ranges, late, x);
    }
    AckQueues(s, ranges, late, q);
    QueuedSentAgain(u, fails, q);
    SameCopies(s.connId, FlushQueue(u, fails).history, p, s.nextPN);
  }

  // ----- probes -----

  /** Numbers used so far, as in every run (Accounting). */
  ghost predicate Numbered(s: Sender) {
    Increasing(s.history, s.nextPN) && forall q :: q in s.queue ==> q.pn < s.nextPN
  }

  lemma {:induction false} SentOfExact(todo: seq<Packet>, fails: set<nat>)
    ensures SentOf(todo, fails) != [] <==> exists q :: q in todo && IsSent(q, fails)
    decreases |todo|
  {
    if todo != [] {
      SentOfExact(todo[1..], fails);
      assert todo == [todo[0]] + todo[1..];
    }
  }

  lemma TimeoutNumbered(s: Sender)
    requires Numbered(s)
    ensures Numbered(OnTimeout(s))
  {
    forall q | q in OnTimeout(s).queue ensures q.pn < s.nextPN {
      TimeoutQueues(s, q);
    }
  }

  /**
   When a probe sends a packet: if and only if the write of one succeeds that is queued already
   or is an original neither acknowledged nor queued before. Retransmissions still out are not
   sent again, so a probe with nothing else to send is silent.
   */
  lemma ProbeSends(s: Sender, fails: set<nat>)
    requires Numbered(s)
    ensures |FlushQueue(OnTimeout(s), fails).history| > |s.history|
            <==> || (exists q :: q in s.queue && IsSent(q, fails))
                 || (exists p :: p in s.history && Hit(p, Timeout) && IsSent(p, fails))
  {
    var t := OnTimeout(s);
    TimeoutNumbered(s);
    FlushSends(t, fails);
    SentOfExact(t.queue, fails);
    if q :| q in t.queue && IsSent(q, fails) {
      TimeoutQueues(s, q);
      if q !in s.queue {
        var p :| p in s.history && !p.acked && !p.retransmitted && !p.isRetransmit && q == p.(retransmitted := true);
        assert Hit(p, Timeout) && IsSent(p, fails);
      }
    }
    if p :| p in s.history && Hit(p, Timeout) && IsSent(p, fails) {
      TimeoutQueues(s, p.(retransmitted := true));
      assert IsSent(p.(retransmitted := true), fails);
    }
  }

  /** Nothing is queued and no original is left to queue. */
  ghost predicate NothingToProbe(s: Sender) {
    s.queue == [] && forall p :: p in s.history ==> !Hit(p, Timeout)
  }

  lemma {:induction false} NoneHit(h: seq<Packet>, cause: Cause)
    requires forall p :: p in h ==> !Hit(p, cause)
    ensures MarkHits(h, cause) == h && Hits(h, cause) == [] && DiscardedBytes(h, cause) == 0
    decreases |h|
  {
    if h != [] {
      NoneHit(h[..|h| - 1], cause);
    }
  }

  lemma {:induction false} NumbersGrow(s: Sender, todo: seq<Packet>, fails: set<nat>)
    ensures ResendAll(s, todo, fails).nextPN >= s.nextPN
    decreases |todo|
  {
    if todo != [] {
      NumbersGrow(Resend(s, todo[0], todo[0].pn !in fails), todo[1..], fails);
    }
  }

  lemma {:induction false} KeptNoMore(todo: seq<Packet>, fails: set<nat>)
    ensures |KeptOf(todo, fails)| <= |todo|
    decreases |todo|
  {
    if todo != [] {
      KeptNoMore(todo[1..], fails);
    }
  }

  /** A flush of a queue always changes something: it empties it or uses up a number. */
  lemma FlushChanges(s: Sender, fails: set<nat>)
    requires s.queue != [] && forall q :: q in s.queue ==> q.pn < s.nextPN
    ensures FlushQueue(s, fails) != s
  {
    FlushSends(s, fails);
    KeptNoMore(s.queue[1..], fails);
    if IsKept(s.queue[0], fails) {
      NumbersGrow(Resend(s.(queue := []), s.queue[0], false), s.queue[1..], fails);
    }
  }

  /** A timeout that queues an original leaves a mark that no flush takes away. */
  lemma HitChanges(s: Sender, fails: set<nat>, k: nat)
    requires Numbered(s) && k < |s.history| && Hit(s.history[k], Timeout)
    ensures FlushQueue(OnTimeout(s), fails) != s
  {
    TimeoutNumbered(s);
    FlushSends(OnTimeout(s), fails);
    assert OnTimeout(s).history[k].retransmitted;
  }

  /** A probe changes nothing at all exactly when there is nothing to probe with. */
  lemma SilentProbe(s: Sender, fails: set<nat>)
    requires Numbered(s)
    ensures FlushQueue(OnTimeout(s), fails) == s <==> NothingToProbe(s)
  {
    if p :| p in s.history && Hit(p, Timeout) {
      var k :| 0 <= k < |s.history| && s.history[k] == p;
      HitChanges(s, fails, k);
    } else {
      NoneHit(s.history, Timeout);
      assert OnTimeout(s) == s;
      if s.queue != [] {
        FlushChanges(s, fails);
      }
    }
  }

  // ----- the probe timer -----

  const MAX_PTO_COUNT := 5

  datatype Timer = Timer(sender: Sender, ackSeen: bool, count: nat, closed: bool)

  /** checkPTO leaves everything as it is: nothing is tracked, or no ACK has ever arrived. */
  predicate Idle(t: Timer) { (t.sender.history == [] && t.count == 0) || !t.ackSeen }

  /**
   The probe timer goes off, an ACK being overdue. With MAX_PTO_COUNT timeouts behind it the
   connection closes instead of sending again.
   */
  function Expire(t: Timer, fails: set<nat>): Timer {
    if Idle(t) then t
    else if t.count >= MAX_PTO_COUNT then t.(closed := true)
    else t.(sender := FlushQueue(OnTimeout(t.sender), fails), count := t.count + 1)
  }

  /**
   What a timeout does that is not idle, up to the fifth. The history grows if and only if the
   write succeeds of a packet queued already or of an original neither acknowledged nor queued.
   */
  lemma ExpireSends(t: Timer, fails: set<nat>)
    requires Numbered(t.sender) && t.ackSeen && (t.sender.history != [] || t.count > 0) && t.count < 5
    ensures var u := Expire(t, fails);
            && (|u.sender.history| > |t.sender.history|
                <==> || (exists q :: q in t.sender.queue && IsSent(q, fails))
                     || (exists p :: p in t.sender.history && !p.acked && !p.retransmitted && !p.isRetransmit
                                     && IsSent(p, fails)))
            && |u.sender.history| >= |t.sender.history|
            && (u.ackSeen, u.count, u.closed) == (true, t.count + 1, t.closed)
  {
    ProbeSends(t.sender, fails);
    TimeoutNumbered(t.sender);
    FlushSends(OnTimeout(t.sender), fails);
    forall p ensures Hit(p, Timeout) <==> !p.acked && !p.retransmitted && !p.isRetransmit {
    }
  }

  /** Every such original with a short header has then been sent again and its entry is settled. */
  lemma ExpireResends(t: Timer, fails: set<nat>, p: Packet)
    requires Numbered(t.sender) && t.ackSeen && t.count < 5
    requires p in t.sender.history && !p.acked && !p.retransmitted && !p.isRetransmit
    requires !IsLong(p) && p.pn !in fails
    ensures var u := Expire(t, fails);
            && SentAgain(t.sender.connId, u.sender.history, p, t.sender.nextPN)
            && RetiredIn(u.sender.history, p.pn, |t.sender.history|)
  {
    var u, q := OnTimeout(t.sender), p.(retransmitted := true);
    TimeoutNumbered(t.sender);
    TimeoutQueues(t.sender, q);
    QueuedSentAgain(u, fails, q);
    SameCopies(t.sender.connId, FlushQueue(u, fails).history, p, t.sender.nextPN);
  }

  /** A timeout keeps the bookkeeping exact, and so takes the bytes of what it queues out of flight. */
  lemma ExpireKeeps(t: Timer, fails: set<nat>)
    requires Accounting.Exact(t.sender)
    ensures Accounting.Exact(Expire(t, fails).sender)
  {
    TimeoutKeeps(t.sender);
    FlushKeeps(OnTimeout(t.sender), fails);
  }

  function ExpireAll(t: Timer, fails: seq<set<nat>>): Timer {
    if fails == [] then t else Expire(ExpireAll(t, fails[..|fails| - 1]), fails[|fails| - 1])
  }

  lemma {:induction false} NeverShorter(s: Sender, todo: seq<Packet>, fails: set<nat>)
    ensures |ResendAll(s, todo, fails).history| >= |s.history|
    decreases |todo|
  {
    if todo != [] {
      NeverShorter(Resend(s, todo[0], todo[0].pn !in fails), todo[1..], fails);
    }
  }

  /** Whatever there is to probe with: without an ACK five timeouts are counted, and the sixth closes. */
  lemma {:induction false} ClosesAtSixth(s: Sender, fails: seq<set<nat>>)
    requires s.history != []
    ensures var t := ExpireAll(Timer(s, true, 0, false), fails);
            t.sender.history != [] && t.ackSeen && t.count == Min(|fails|, 5) && (t.closed <==> |fails| > 5)
    decreases |fails|
  {
    if fails != [] {
      ClosesAtSixth(s, fails[..|fails| - 1]);
      var t := ExpireAll(Timer(s, true, 0, false), fails[..|fails| - 1]);
      var u := OnTimeout(t.sender);
      NeverShorter(u.(queue := []), u.queue, fails[|fails| - 1]);
    }
  }

  /**
   When only retransmissions are out and none is queued, the probes do not send them again:
   five timeouts change nothing, and the sixth closes the connection. With nothing tracked at
   all no timeout does anything.
   */
  lemma {:induction false} SilentUntilClosed(s: Sender, fails: seq<set<nat>>)
    requires Numbered(s) && NothingToProbe(s)
    ensures ExpireAll(Timer(s, true, 0, false), fails)
            == if s.history == [] then Timer(s, true, 0, false)
               else Timer(s, true, Min(|fails|, MAX_PTO_COUNT), |fails| > MAX_PTO_COUNT)
    decreases |fails|
  {
    if fails != [] {
      SilentUntilClosed(s, fails[..|fails| - 1]);
      SilentProbe(s, fails[|fails| - 1]);
    }
  }

  // ----- before the first acknowledgement -----

  /** What a connection does on its own while no ACK arrives. */
  datatype LoneStep = SendPacket(buf: seq<byte>, eliciting: bool) | SendControl | Expiry(fails: set<nat>)

  function LoneTurn(t: Timer, step: LoneStep): Timer {
    match step
    case SendPacket(buf, eliciting) => t.(sender := Track(t.sender, buf, eliciting))
    case SendControl => t.(sender := SendUntracked(t.sender))
    case Expiry(fails) => Expire(t, fails)
  }

  function LoneRun(t: Timer, steps: seq<LoneStep>): Timer {
    if steps == [] then t else LoneTurn(LoneRun(t, steps[..|steps| - 1]), steps[|steps| - 1])
  }

  /** How many packet numbers are used up. */
  function NumbersUsed(steps: seq<LoneStep>): nat {
    if steps == [] then 0
    else NumbersUsed(steps[..|steps| - 1]) + if steps[|steps| - 1].Expiry? then 0 else 1
  }

  /** The packets sent and not marked in any way, in order, numbered as they went out. */
  function PacketsSent(steps: seq<LoneStep>): seq<Packet> {
    if steps == [] then []
    else
      var before, last := PacketsSent(steps[..|steps| - 1]), steps[|steps| - 1];
      if !last.SendPacket? then before
      else before + [Packet(NumbersUsed(steps[..|steps| - 1]), last.buf, last.eliciting, false, false, false, false)]
  }

  /**
   Until the first ACK arrives the timer does nothing, however often it goes off: of a fresh
   connection each packet sent is tracked once, in order, none is ever declared lost, queued or
   sent again, and the connection does not close.
   */
  lemma {:induction false} NothingBeforeFirstAck(connId: seq<byte>, steps: seq<LoneStep>)
    ensures var t := LoneRun(Timer(Sender(connId, 0, [], [], 0), false, 0, false), steps);
            && t.sender.history == PacketsSent(steps) && t.sender.nextPN == NumbersUsed(steps)
            && t.sender.connId == connId && t.sender.queue == [] && !t.ackSeen && t.count == 0 && !t.closed
    decreases |steps|
  {
    if steps != [] {
      NothingBeforeFirstAck(connId, steps[..|steps| - 1]);
    }
  }
}
