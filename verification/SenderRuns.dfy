/**
 Runs of the sender's operations, several goroutines sending at once: when the bookkeeping stays
 exact, and what a failed write does to the byte count.
 */
module SenderRuns {
  import opened Bytes
  import opened AckFrame
  import opened Sender
  import opened Accounting
  import AckRanges

  // ----- the operations -----

  /**
   The sender's operations. Sending takes two: sendFrame checks the size of the history and
   releases its lock, and only later appends, unless it gives up in between. Several
   goroutines send at once.
   */
  datatype Op =
    | AdmitOp
    | GiveUpOp
    | SendOp(payload: seq<byte>, eliciting: bool)
    | UntrackedOp
    | AckOp(ranges: seq<AckRange>, late: set<nat>)
    | TimeoutOp
    | FlushOp(fails: set<nat>)

  /** At most m senders are between check and append; any ACK may arrive. */
  ghost predicate Enabled(s: Sender, admitted: nat, m: nat, op: Op) {
    && (op.AdmitOp? ==> |s.history| < MAX_TRACKED && admitted < m)
    && (op.SendOp? || op.GiveUpOp? ==> admitted > 0)
  }

  function Apply(s: Sender, op: Op): Sender {
    match op
    case AdmitOp => s
    case GiveUpOp => s
    case SendOp(payload, eliciting) => Send(s, payload, eliciting)
    case UntrackedOp => SendUntracked(s)
    case AckOp(ranges, late) => OnAck(s, ranges, late)
    case TimeoutOp => OnTimeout(s)
    case FlushOp(fails) => FlushQueue(s, fails)
  }

  function ApplyAll(s: Sender, ops: seq<Op>): Sender {
    if ops == [] then s else Apply(ApplyAll(s, ops[..|ops| - 1]), ops[|ops| - 1])
  }

  function Admitted(admitted: nat, op: Op): nat {
    if op.AdmitOp? then admitted + 1
    else if (op.SendOp? || op.GiveUpOp?) && admitted > 0 then admitted - 1
    else admitted
  }

  /** How many senders are between check and append after these operations. */
  function AdmittedAll(ops: seq<Op>): nat {
    if ops == [] then 0 else Admitted(AdmittedAll(ops[..|ops| - 1]), ops[|ops| - 1])
  }

  ghost predicate EnabledAll(s: Sender, m: nat, ops: seq<Op>) {
    forall i :: 0 <= i < |ops| ==> Enabled(ApplyAll(s, ops[..i]), AdmittedAll(ops[..i]), m, ops[i])
  }

  lemma ShorterRun(s: Sender, m: nat, ops: seq<Op>)
    requires ops != [] && EnabledAll(s, m, ops)
    ensures var before := ops[..|ops| - 1];
            EnabledAll(s, m, before) && Enabled(ApplyAll(s, before), AdmittedAll(before), m, ops[|ops| - 1])
  {
    var before := ops[..|ops| - 1];
    forall i | 0 <= i < |before| ensures Enabled(ApplyAll(s, before[..i]), AdmittedAll(before[..i]), m, before[i]) {
      assert before[..i] == ops[..i] && before[i] == ops[i];
    }
  }

  lemma LongerRun(s: Sender, m: nat, ops: seq<Op>, op: Op)
    requires EnabledAll(s, m, ops) && Enabled(ApplyAll(s, ops), AdmittedAll(ops), m, op)
    ensures EnabledAll(s, m, ops + [op])
    ensures ApplyAll(s, ops + [op]) == Apply(ApplyAll(s, ops), op)
    ensures AdmittedAll(ops + [op]) == Admitted(AdmittedAll(ops), op)
  {
    var longer := ops + [op];
    assert longer[..|ops|] == ops && longer[|ops|] == op;
    assert forall i :: 0 <= i < |ops| ==> longer[..i] == ops[..i] && longer[i] == ops[i];
  }

  // ----- exact bookkeeping over whole runs -----

  /** An ACK covers no packet that waits in the queue, its retransmission not yet written. */
  ghost predicate Spares(s: Sender, op: Op) { op.AckOp? ==> SparesQueue(op.ranges, s.queue) }

  lemma SendExact(s: Sender, payload: seq<byte>, eliciting: bool)
    requires Accounting.Exact(s)
    ensures Accounting.Exact(Send(s, payload, eliciting))
  {
    TrackKeeps(s, Header(s.connId, s.nextPN) + payload, eliciting);
  }

  lemma UntrackedExact(s: Sender)
    requires Accounting.Exact(s)
    ensures Accounting.Exact(SendUntracked(s))
  {
  }

  lemma OpExact(s: Sender, op: Op)
    requires Accounting.Exact(s)
    ensures Accounting.Exact(Apply(s, op)) <==> Spares(s, op)
  {
    match op
    case AdmitOp =>
    case GiveUpOp =>
    case SendOp(payload, eliciting) => SendExact(s, payload, eliciting);
    case UntrackedOp => UntrackedExact(s);
    case AckOp(ranges, late) => AckKeepsExactly(s, ranges, late);
    case TimeoutOp => TimeoutKeeps(s);
    case FlushOp(fails) => FlushKeeps(s, fails);
  }

  /** The bookkeeping is exact after the run and was after each of its operations. */
  ghost predicate AlwaysExact(s: Sender, ops: seq<Op>)
    decreases |ops|
  {
    Accounting.Exact(ApplyAll(s, ops)) && (ops != [] ==> AlwaysExact(s, ops[..|ops| - 1]))
  }

  /** Each ACK spared the queue in its turn. */
  ghost predicate AllSpare(s: Sender, ops: seq<Op>)
    decreases |ops|
  {
    ops != [] ==>
      var before := ops[..|ops| - 1];
      Spares(ApplyAll(s, before), ops[|ops| - 1]) && AllSpare(s, before)
  }

  /**
   Over every run of these operations, whatever ACKs arrive, the bytes in flight are all along
   exactly those of the packets neither acknowledged nor lost, numbers stay ordered and the
   queue matches the history, if and only if no ACK covers a packet that waits in the queue.
   */
  lemma {:induction false} RunsStayExact(s: Sender, ops: seq<Op>)
    requires Accounting.Exact(s)
    ensures AlwaysExact(s, ops) <==> AllSpare(s, ops)
    decreases |ops|
  {
    if ops != [] {
      var before := ops[..|ops| - 1];
      RunsStayExact(s, before);
      if Accounting.Exact(ApplyAll(s, before)) {
        OpExact(ApplyAll(s, before), ops[|ops| - 1]);
      }
    }
  }

  lemma {:induction false} SetupExact(connId: seq<byte>, setup: seq<seq<byte>>)
    requires forall i :: 0 <= i < |setup| ==> setup[i] != []
    ensures var s := Setup(connId, setup);
            && Accounting.Exact(s) && s.queue == []
            && |s.history| == |setup| == Tally(s.history).unacked
    decreases |setup|
  {
    if setup != [] {
      var before := Setup(connId, setup[..|setup| - 1]);
      SetupExact(connId, setup[..|setup| - 1]);
      TrackKeeps(before, setup[|setup| - 1], false);
      TallySnoc(before.history, Fresh(before.nextPN, setup[|setup| - 1], false));
    }
  }

  /** The same from the start of a connection; then the bytes in flight are never negative. */
  lemma ConnectionsStayExact(connId: seq<byte>, setup: seq<seq<byte>>, ops: seq<Op>)
    requires forall i :: 0 <= i < |setup| ==> setup[i] != []
    ensures var s := Setup(connId, setup);
            && (AlwaysExact(s, ops) <==> AllSpare(s, ops))
            && (AllSpare(s, ops) ==>
                  && ApplyAll(s, ops).inFlight == Tally(ApplyAll(s, ops).history).flight >= 0
                  && Increasing(ApplyAll(s, ops).history, ApplyAll(s, ops).nextPN))
  {
    SetupExact(connId, setup);
    RunsStayExact(Setup(connId, setup), ops);
  }

  // ----- after a write error -----

  predicate JustSent(p: Packet) {
    p == Fresh(p.pn, p.buf, true) && p.buf != [] && !IsLong(p)
  }

  function AsLost(p: Packet): Packet { p.(lost := true, retransmitted := true) }

  lemma OneAcked(p: Packet, ranges: seq<AckRange>)
    ensures AckAll([p], ranges) == [AckOne(p, ranges)]
    ensures AckedBytes([p], ranges) == if AckRanges.Covers(ranges, p.pn) && !p.acked then |p.buf| else 0
  {
    assert [p][..0] == [];
  }

  lemma OneLost(p: Packet)
    requires JustSent(p)
    ensures MarkHits([p], Late({p.pn})) == [AsLost(p)] && Hits([p], Late({p.pn})) == [p.(retransmitted := true)]
    ensures DiscardedBytes([p], Late({p.pn})) == |p.buf| && Unacked([AsLost(p)]) == [AsLost(p)]
  {
    assert [p][..0] == [] && [AsLost(p)][..0] == [];
  }

  lemma OneWeighed(p: Packet)
    ensures Tally([p]) == Weigh(p)
  {
    TallySnoc([], p);
    assert [] + [p] == [p];
  }

  /** An ACK that does not cover the one packet that is out finds it late. */
  lemma LoneLost(s: Sender, p: Packet, ranges: seq<AckRange>)
    requires s.history == [p] && s.queue == [] && s.inFlight == |p.buf| && JustSent(p)
    requires !AckRanges.Covers(ranges, p.pn)
    ensures OnAck(s, ranges, {p.pn}) == s.(history := [AsLost(p)], queue := [p.(retransmitted := true)], inFlight := 0)
  {
    OneAcked(p, ranges);
    OneLost(p);
    assert MarkAcked(s, ranges) == s;
  }

  /** Its retransmission cannot be written. */
  lemma LoneKept(s: Sender, q: Packet)
    requires s.queue == [q] && !IsLong(q)
    ensures FlushQueue(s, {q.pn}) == s.(nextPN := s.nextPN + 1)
  {
    assert [q][1..] == [];
    assert ResendAll(s.(queue := []), [q], {q.pn}) == ResendAll(Resend(s.(queue := []), q, false), [], {q.pn});
  }

  /**
   Where the byte count goes wrong: a packet is found late, the write of its retransmission
   fails, and the original is acknowledged after all. Its bytes leave the flight twice.
   */
  lemma WriteErrorDiscountsTwice(s: Sender, p: Packet, first: seq<AckRange>, second: seq<AckRange>)
    requires s.history == [p] && s.queue == [] && s.inFlight == |p.buf| && JustSent(p)
    requires !AckRanges.Covers(first, p.pn) && AckRanges.Covers(second, p.pn)
    ensures var t := MarkAcked(FlushQueue(OnAck(s, first, {p.pn}), {p.pn}), second);
            t.inFlight == -|p.buf| < Tally(t.history).flight == 0
  {
    LoneLost(s, p, first);
    LoneKept(OnAck(s, first, {p.pn}), p.(retransmitted := true));
    OneAcked(AsLost(p), second);
    OneWeighed(AckOne(AsLost(p), second));
  }
}
