/**
 How many packets a run of the sender's operations can leave unacknowledged. MAX_TRACKED is
 exceeded in two ways: several senders pass the check together, and ACKs cover packets whose
 retransmission waits in the queue, which is sent all the same. By how much is stated exactly.
 */
module SenderLimits {
  import opened Bytes
  import opened AckFrame
  import opened Sender
  import opened Accounting
  import opened Tracking
  import opened SenderRuns
  import AckRanges

  // ----- the bound -----

  function TakenBy(s: Sender, op: Op): nat { if op.AckOp? then Taken(s.history, op.ranges) else 0 }

  /** The queued packets that the ACKs of the run covered. */
  function TakenAll(s: Sender, ops: seq<Op>): nat
    decreases |ops|
  {
    if ops == [] then 0
    else
      var before := ops[..|ops| - 1];
      TakenAll(s, before) + TakenBy(ApplyAll(s, before), ops[|ops| - 1])
  }

  lemma MoreAllowed(s: Sender, admitted: nat, limit: nat, more: nat)
    requires Bounded(s, admitted, limit)
    ensures Bounded(s, admitted, limit + more)
  {
  }

  lemma OpBounded(s: Sender, admitted: nat, m: nat, op: Op, strays: nat)
    requires m > 0 && Tracked(s) && Strays(s, []) <= strays
    requires Bounded(s, admitted, Limit(m) + strays) && Enabled(s, admitted, m, op)
    ensures var t, n := Apply(s, op), strays + TakenBy(s, op);
            Tracked(t) && Strays(t, []) <= n && Bounded(t, Admitted(admitted, op), Limit(m) + n)
  {
    match op
    case AdmitOp => AdmitBounded(s, admitted, m, strays);
    case GiveUpOp =>
    case SendOp(payload, eliciting) =>
      TrackBounded(s, Header(s.connId, s.nextPN) + payload, eliciting, admitted, Limit(m) + strays);
    case UntrackedOp =>
    case AckOp(ranges, late) =>
      AckBounded(s, ranges, late, admitted, Limit(m) + strays);
      MoreAllowed(OnAck(s, ranges, late), admitted, Limit(m) + strays, TakenBy(s, op));
    case TimeoutOp => TimeoutBounded(s, admitted, Limit(m) + strays);
    case FlushOp(fails) => FlushBounded(s, fails, admitted, Limit(m) + strays);
  }

  /**
   Over every run, with at most m senders between check and append and any ACKs: the packets
   unacknowledged are at most MAX_TRACKED + m - 1 and as many more as ACKs covered queued
   packets, and the history never exceeds twice that.
   */
  lemma {:induction false} RunsStayBounded(s: Sender, m: nat, ops: seq<Op>)
    requires m > 0 && Accounting.Exact(s) && Bounded(s, 0, Limit(m)) && EnabledAll(s, m, ops)
    ensures var t, n := ApplyAll(s, ops), TakenAll(s, ops);
            && Tracked(t) && Strays(t, []) <= n && Bounded(t, AdmittedAll(ops), Limit(m) + n)
            && Tally(t.history).unacked <= Limit(m) + n && |t.history| <= 2 * (Limit(m) + n)
    decreases |ops|
  {
    if ops == [] {
      ExactTracked(s);
    } else {
      var before := ops[..|ops| - 1];
      ShorterRun(s, m, ops);
      RunsStayBounded(s, m, before);
      OpBounded(ApplyAll(s, before), AdmittedAll(before), m, ops[|ops| - 1], TakenAll(s, before));
    }
    TallyLimits(ApplyAll(s, ops).history);
    StraysCounted(ApplyAll(s, ops), []);
  }

  /** As long as the ACKs spare the queue, no queued packet is covered. */
  lemma {:induction false} SparedNotTaken(s: Sender, ops: seq<Op>)
    requires Accounting.Exact(s) && AllSpare(s, ops)
    ensures TakenAll(s, ops) == 0
    decreases |ops|
  {
    if ops != [] {
      var before, op := ops[..|ops| - 1], ops[|ops| - 1];
      SparedNotTaken(s, before);
      RunsStayExact(s, before);
      if op.AckOp? {
        NoneLost(ApplyAll(s, before), op.ranges);
        NoneTaken(ApplyAll(s, before).history, op.ranges);
      }
    }
  }

  lemma {:induction false} NoneTaken(h: seq<Packet>, ranges: seq<AckRange>)
    requires forall i :: 0 <= i < |h| && AckRanges.Covers(ranges, h[i].pn) && !h[i].acked ==> !h[i].retransmitted
    ensures Taken(h, ranges) == 0
  {
    if h != [] {
      NoneTaken(h[..|h| - 1], ranges);
    }
  }

  /** From the start of any connection; without write errors, say, the bound is MAX_TRACKED + m - 1. */
  lemma ConnectionsStayBounded(connId: seq<byte>, setup: seq<seq<byte>>, m: nat, ops: seq<Op>)
    requires |setup| <= MAX_TRACKED && forall i :: 0 <= i < |setup| ==> setup[i] != []
    requires m > 0 && EnabledAll(Setup(connId, setup), m, ops)
    ensures var s := Setup(connId, setup);
            && Tally(ApplyAll(s, ops).history).unacked <= Limit(m) + TakenAll(s, ops)
            && |ApplyAll(s, ops).history| <= 2 * (Limit(m) + TakenAll(s, ops))
            && (AllSpare(s, ops) ==> TakenAll(s, ops) == 0)
  {
    var s := Setup(connId, setup);
    SetupExact(connId, setup);
    ExactTracked(s);
    TallyLimits(s.history);
    RunsStayBounded(s, m, ops);
    if AllSpare(s, ops) {
      SparedNotTaken(s, ops);
    }
  }

  // ----- the bound is reached -----

  /** n packets tracked, none acknowledged, and r strays in the queue. */
  ghost predicate Laden(t: Sender, n: nat, r: nat) {
    && |t.history| == Tally(t.history).unacked == n && |t.queue| == r
    && (forall i :: 0 <= i < |t.history| ==> t.history[i].pn < t.nextPN)
    && forall q :: q in t.queue ==>
         !IsLong(q) && q.pn < t.nextPN && forall i :: 0 <= i < |t.history| ==> t.history[i].pn != q.pn
  }

  /** The run stands there, with k senders admitted. */
  ghost predicate StandsAt(s: Sender, m: nat, ops: seq<Op>, n: nat, k: nat, r: nat) {
    EnabledAll(s, m, ops) && AdmittedAll(ops) == k && TakenAll(s, ops) == r && Laden(ApplyAll(s, ops), n, r)
  }

  lemma TakenLonger(s: Sender, ops: seq<Op>, op: Op)
    ensures TakenAll(s, ops + [op]) == TakenAll(s, ops) + TakenBy(ApplyAll(s, ops), op)
  {
    assert (ops + [op])[..|ops|] == ops;
  }

  /** One operation more that covers no queued packet. */
  lemma NextStand(s: Sender, m: nat, ops: seq<Op>, op: Op, t: Sender, n: nat, k: nat, r: nat)
    requires EnabledAll(s, m, ops) && TakenAll(s, ops) == r && Enabled(ApplyAll(s, ops), AdmittedAll(ops), m, op)
    requires !op.AckOp? && t == Apply(ApplyAll(s, ops), op) && Laden(t, n, r) && k == Admitted(AdmittedAll(ops), op)
    ensures StandsAt(s, m, ops + [op], n, k, r)
  {
    LongerRun(s, m, ops, op);
    TakenLonger(s, ops, op);
  }

  lemma OneMoreAdmitted(s: Sender, m: nat, ops: seq<Op>, n: nat, k: nat, r: nat)
    requires StandsAt(s, m, ops, n, k, r) && n < MAX_TRACKED && k < m
    ensures StandsAt(s, m, ops + [AdmitOp], n, k + 1, r)
  {
    NextStand(s, m, ops, AdmitOp, ApplyAll(s, ops), n, k + 1, r);
  }

  lemma SentLaden(t: Sender, u: Sender, n: nat, r: nat)
    requires Laden(t, n, r) && u == Apply(t, SendOp([], true))
    ensures Laden(u, n + 1, r)
  {
    TallySnoc(t.history, Fresh(t.nextPN, Header(t.connId, t.nextPN) + [], true));
  }

  lemma OneMoreSent(s: Sender, m: nat, ops: seq<Op>, n: nat, k: nat, r: nat)
    requires StandsAt(s, m, ops, n, k, r) && k > 0
    ensures StandsAt(s, m, ops + [SendOp([], true)], n + 1, k - 1, r)
  {
    var u := Apply(ApplyAll(s, ops), SendOp([], true));
    SentLaden(ApplyAll(s, ops), u, n, r);
    NextStand(s, m, ops, SendOp([], true), u, n + 1, k - 1, r);
  }

  // ----- one stray more -----

  lemma OneTimedOut(p: Packet)
    requires JustSent(p)
    ensures MarkHits([p], Timeout) == [AsLost(p)] && Hits([p], Timeout) == [p.(retransmitted := true)]
  {
    assert [p][..0] == [];
  }

  /** No write succeeds: the queue stays as it is. */
  lemma {:induction false} AllKept(s: Sender, todo: seq<Packet>, fails: set<nat>)
    requires forall q :: q in todo ==> !IsLong(q) && q.pn in fails
    ensures ResendAll(s, todo, fails) == s.(nextPN := s.nextPN + |todo|, queue := s.queue + todo)
    decreases |todo|
  {
    if todo == [] {
      assert s.queue + todo == s.queue;
    } else {
      var t := s.(nextPN := s.nextPN + 1, queue := s.queue + [todo[0]]);
      assert Resend(s, todo[0], todo[0].pn !in fails) == t;
      AllKept(t, todo[1..], fails);
      assert s.queue + [todo[0]] + todo[1..] == s.queue + todo;
    }
  }

  lemma FlushKept(s: Sender, fails: set<nat>)
    requires forall q :: q in s.queue ==> !IsLong(q) && q.pn in fails
    ensures FlushQueue(s, fails) == s.(nextPN := s.nextPN + |s.queue|)
  {
    AllKept(s.(queue := []), s.queue, fails);
    assert [] + s.queue == s.queue;
  }

  function OneRange(pn: nat): seq<AckRange> { [AckRange(pn, pn)] }

  lemma OneRangeCovers(pn: nat)
    ensures forall x :: AckRanges.Covers(OneRange(pn), x) <==> x == pn
  {
    forall x: int ensures AckRanges.Covers(OneRange(pn), x) <==> x == pn {
      assert AckRanges.Covers(OneRange(pn), x) <==> AckRanges.InRange(OneRange(pn)[0], x);
    }
  }

  /** The ACK for the one packet tracked, lost and queued as it is, takes it out of the history. */
  lemma LoneTaken(s: Sender, p: Packet)
    requires s.history == [AsLost(p)] && JustSent(p)
    ensures OnAck(s, OneRange(p.pn), {}).history == [] && OnAck(s, OneRange(p.pn), {}).queue == s.queue
    ensures OnAck(s, OneRange(p.pn), {}).nextPN == s.nextPN
    ensures Taken(s.history, OneRange(p.pn)) == 1
  {
    OneRangeCovers(p.pn);
    OneAcked(AsLost(p), OneRange(p.pn));
    AckedDropped(MarkAcked(s, OneRange(p.pn)));
    assert [AsLost(p)][..0] == [];
  }

  lemma AckedDropped(s: Sender)
    requires forall p :: p in s.history ==> p.acked
    ensures var t := Compact(Requeue(s, Late({})));
            t.history == [] && t.queue == s.queue && t.nextPN == s.nextPN
  {
    AckedGone(s.history);
  }

  lemma {:induction false} AckedGone(h: seq<Packet>)
    requires forall p :: p in h ==> p.acked
    ensures MarkHits(h, Late({})) == h && Hits(h, Late({})) == [] && Unacked(h) == []
    decreases |h|
  {
    if h != [] {
      AckedGone(h[..|h| - 1]);
    }
  }

  /** A packet is sent, times out, cannot be written again, and is acknowledged. */
  function StrayOps(t: Sender): seq<Op> {
    [AdmitOp, SendOp([], true), TimeoutOp, FlushOp(QueuedNumbers(t.queue) + {t.nextPN}), AckOp(OneRange(t.nextPN), {})]
  }

  /** The states in between, the last one with one stray more. */
  lemma StrayStates(t: Sender, r: nat)
    requires Laden(t, 0, r)
    ensures var a := Send(t, [], true);
            var b := OnTimeout(a);
            var c := FlushQueue(b, QueuedNumbers(t.queue) + {t.nextPN});
            && Taken(c.history, OneRange(t.nextPN)) == 1
            && Laden(OnAck(c, OneRange(t.nextPN), {}), 0, r + 1)
  {
    var p := Fresh(t.nextPN, Header(t.connId, t.nextPN) + [], true);
    var a := Send(t, [], true);
    assert a.history == [p];
    OneTimedOut(p);
    var b := OnTimeout(a);
    assert b.history == [AsLost(p)] && b.queue == t.queue + [p.(retransmitted := true)];
    FlushKept(b, QueuedNumbers(t.queue) + {t.nextPN});
    LoneTaken(FlushQueue(b, QueuedNumbers(t.queue) + {t.nextPN}), p);
  }

  lemma OneMoreStray(s: Sender, m: nat, ops: seq<Op>, r: nat) returns (longer: seq<Op>)
    requires m > 0 && StandsAt(s, m, ops, 0, 0, r)
    ensures StandsAt(s, m, longer, 0, 0, r + 1)
  {
    var t := ApplyAll(s, ops);
    StrayStates(t, r);
    var steps := StrayOps(t);
    longer := ops;
    for i := 0 to 4
      invariant EnabledAll(s, m, longer) && AdmittedAll(longer) == if i == 1 then 1 else 0
      invariant TakenAll(s, longer) == r
      invariant i == 0 ==> ApplyAll(s, longer) == t
      invariant i == 1 ==> ApplyAll(s, longer) == t
      invariant i == 2 ==> ApplyAll(s, longer) == Send(t, [], true)
      invariant i == 3 ==> ApplyAll(s, longer) == OnTimeout(Send(t, [], true))
      invariant i == 4 ==> ApplyAll(s, longer)
                           == FlushQueue(OnTimeout(Send(t, [], true)), QueuedNumbers(t.queue) + {t.nextPN})
    {
      LongerRun(s, m, longer, steps[i]);
      TakenLonger(s, longer, steps[i]);
      longer := longer + [steps[i]];
    }
    LongerRun(s, m, longer, steps[4]);
    TakenLonger(s, longer, steps[4]);
    longer := longer + [steps[4]];
  }

  lemma {:induction false} StraysGathered(s: Sender, m: nat, r: nat) returns (ops: seq<Op>)
    requires m > 0 && s.history == [] && s.queue == []
    ensures StandsAt(s, m, ops, 0, 0, r)
  {
    if r == 0 {
      ops := [];
    } else {
      var before := StraysGathered(s, m, r - 1);
      ops := OneMoreStray(s, m, before, r - 1);
    }
  }

  // ----- the history filled -----

  /** n packets sent one by one. */
  lemma {:induction false} SentOneByOne(s: Sender, m: nat, before: seq<Op>, n: nat, r: nat) returns (ops: seq<Op>)
    requires m > 0 && n <= MAX_TRACKED && StandsAt(s, m, before, 0, 0, r)
    ensures StandsAt(s, m, ops, n, 0, r)
    decreases n
  {
    if n == 0 {
      ops := before;
    } else {
      var most := SentOneByOne(s, m, before, n - 1, r);
      OneMoreAdmitted(s, m, most, n - 1, 0, r);
      OneMoreSent(s, m, most + [AdmitOp], n - 1, 1, r);
      ops := most + [AdmitOp] + [SendOp([], true)];
    }
  }

  /** k senders pass the check with n packets tracked. */
  lemma {:induction false} AllAdmitted(s: Sender, m: nat, before: seq<Op>, n: nat, k: nat, r: nat)
    returns (ops: seq<Op>)
    requires StandsAt(s, m, before, n, 0, r) && n < MAX_TRACKED && k <= m
    ensures StandsAt(s, m, ops, n, k, r)
    decreases k
  {
    if k == 0 {
      ops := before;
    } else {
      var most := AllAdmitted(s, m, before, n, k - 1, r);
      OneMoreAdmitted(s, m, most, n, k - 1, r);
      ops := most + [AdmitOp];
    }
  }

  /** And then all of them append. */
  lemma {:induction false} AllSent(s: Sender, m: nat, before: seq<Op>, n: nat, k: nat, r: nat) returns (ops: seq<Op>)
    requires StandsAt(s, m, before, n, k, r)
    ensures StandsAt(s, m, ops, n + k, 0, r)
    decreases k
  {
    if k == 0 {
      ops := before;
    } else {
      OneMoreSent(s, m, before, n, k, r);
      ops := AllSent(s, m, before + [SendOp([], true)], n + 1, k - 1, r);
    }
  }

  // ----- the strays sent -----

  lemma AbsentUnmarked(h: seq<Packet>, again: Packet, pn: nat)
    requires again.pn != pn && forall i :: 0 <= i < |h| ==> h[i].pn != pn
    ensures MarkPn(h + [again], pn) == h + [again]
  {
    MarkPnAbsent(h + [again], pn);
  }

  lemma {:induction false} StraysSent(s: Sender, todo: seq<Packet>)
    requires forall i :: 0 <= i < |s.history| ==> s.history[i].pn < s.nextPN
    requires forall q :: q in todo ==>
               !IsLong(q) && q.pn < s.nextPN && forall i :: 0 <= i < |s.history| ==> s.history[i].pn != q.pn
    ensures Tally(ResendAll(s, todo, {}).history).unacked == Tally(s.history).unacked + |todo|
    decreases |todo|
  {
    if todo != [] {
      var again := Rebuilt(s, todo[0]);
      AbsentUnmarked(s.history, again, todo[0].pn);
      TallySnoc(s.history, again);
      StraysSent(Resend(s, todo[0], true), todo[1..]);
    }
  }

  lemma FlushLaden(t: Sender, n: nat, r: nat)
    requires Laden(t, n, r)
    ensures Tally(FlushQueue(t, {}).history).unacked == n + r
  {
    StraysSent(t.(queue := []), t.queue);
  }

  /** m senders pass the check while there is room for one more, and then r strays go out. */
  lemma LimitReached(s: Sender, m: nat, r: nat) returns (ops: seq<Op>)
    requires m > 0 && s.history == [] && s.queue == []
    ensures EnabledAll(s, m, ops) && TakenAll(s, ops) == r
    ensures Tally(ApplyAll(s, ops).history).unacked == Limit(m) + r
  {
    var gathered := StraysGathered(s, m, r);
    var filled := SentOneByOne(s, m, gathered, MAX_TRACKED - 1, r);
    var waiting := AllAdmitted(s, m, filled, MAX_TRACKED - 1, m, r);
    var sent := AllSent(s, m, waiting, MAX_TRACKED - 1, m, r);
    LongerRun(s, m, sent, FlushOp({}));
    TakenLonger(s, sent, FlushOp({}));
    FlushLaden(ApplyAll(s, sent), Limit(m), r);
    ops := sent + [FlushOp({})];
  }

  /** No run whose ACKs cover at most n queued packets has more than `bound` packets unacknowledged. */
  ghost predicate UnackedAtMost(s: Sender, m: nat, n: nat, bound: nat) {
    forall ops :: EnabledAll(s, m, ops) && TakenAll(s, ops) <= n ==> Tally(ApplyAll(s, ops).history).unacked <= bound
  }

  /**
   The exact limit, with at most m senders between check and append and ACKs that cover at most
   n queued packets: MAX_TRACKED + m - 1 + n. So MAX_TRACKED itself holds if and only if m is 1
   and n is 0, and without a limit on n no bound holds.
   */
  lemma TrackedLimitExact(connId: seq<byte>, m: nat, n: nat, bound: nat)
    requires m > 0
    ensures UnackedAtMost(Setup(connId, []), m, n, bound) <==> 5000 + m - 1 + n <= bound
    ensures UnackedAtMost(Setup(connId, []), m, n, 5000) <==> m == 1 && n == 0
  {
    var s := Setup(connId, []);
    forall ops | EnabledAll(s, m, ops) ensures Tally(ApplyAll(s, ops).history).unacked <= Limit(m) + TakenAll(s, ops) {
      ConnectionsStayBounded(connId, [], m, ops);
    }
    var ops := LimitReached(s, m, n);
    assert EnabledAll(s, m, ops) && TakenAll(s, ops) <= n;
  }
}
