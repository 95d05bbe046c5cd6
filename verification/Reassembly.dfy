/**
 What the receiving half of a stream guarantees: whatever arrives, in whatever order,
 the application reads a prefix of what was written; and when the data was cut into
 segments once and for all, the buffer depends only on the set of segments received.
 */
module Reassembly {
  import opened Bytes
  import opened StreamIO

  // ----- prefix safety, for any segmentation and overlap -----

  ghost predicate SliceOf(source: seq<byte>, offset: nat, data: seq<byte>) {
    offset + |data| <= |source| && source[offset..offset + |data|] == data
  }

  ghost predicate PrefixInv(s: Recv, delivered: seq<byte>, source: seq<byte>) {
    && s.reassembly <= |source|
    && delivered + s.readBuf == source[..s.reassembly]
    && s.readOffset == |delivered|
    && forall o :: o in s.pending ==> SliceOf(source, o, s.pending[o])
  }

  lemma {:induction false} FlushKeepsPrefix(s: Recv, delivered: seq<byte>, source: seq<byte>)
    requires PrefixInv(s, delivered, source)
    ensures PrefixInv(Flush(s), delivered, source)
    decreases |s.pending|
  {
    if s.reassembly in s.pending {
      var chunk, t := s.pending[s.reassembly], TakeNext(s);
      ExtendPrefix(source, s.reassembly, chunk);
      assert delivered + t.readBuf == (delivered + s.readBuf) + chunk;
      FlushKeepsPrefix(t, delivered, source);
    }
  }

  lemma ExtendPrefix(source: seq<byte>, at: nat, chunk: seq<byte>)
    requires SliceOf(source, at, chunk)
    ensures source[..at] + chunk == source[..at + |chunk|]
  {
  }

  lemma HandleKeepsPrefix(s: Recv, offset: nat, data: seq<byte>, fin: bool, delivered: seq<byte>, source: seq<byte>)
    requires PrefixInv(s, delivered, source) && SliceOf(source, offset, data)
    ensures PrefixInv(Handle(s, offset, data, fin), delivered, source)
  {
    if !s.finRead && offset + |data| <= s.reassembly {
      FlushKeepsPrefix(s, delivered, source);
    } else if !s.finRead && offset == s.reassembly {
      AppendKeepsPrefix(s, data, fin, delivered, source);
    }
  }

  lemma AppendKeepsPrefix(s: Recv, data: seq<byte>, fin: bool, delivered: seq<byte>, source: seq<byte>)
    requires PrefixInv(s, delivered, source) && SliceOf(source, s.reassembly, data)
    ensures PrefixInv(Accept(s, s.reassembly, data, fin), delivered, source)
  {
    var t := Append(s, data, fin);
    ExtendPrefix(source, s.reassembly, data);
    assert delivered + t.readBuf == (delivered + s.readBuf) + data;
    FlushKeepsPrefix(t, delivered, source);
  }

  lemma ReadKeepsPrefix(s: Recv, n: nat, delivered: seq<byte>, source: seq<byte>)
    requires PrefixInv(s, delivered, source)
    ensures var (t, r) := ReadOnce(s, n);
            PrefixInv(t, if r.Data? then delivered + r.bytes else delivered, source)
  {
    if s.readBuf != [] {
      var k := Min(n, |s.readBuf|);
      assert (delivered + s.readBuf[..k]) + s.readBuf[k..] == delivered + s.readBuf;
    }
  }

  /** Reading with a buffer of n bytes until nothing is left. */
  function Drain(s: Recv, n: nat): (Recv, seq<byte>)
    requires n > 0
    decreases |s.readBuf|
  {
    if s.readBuf == [] then (s, [])
    else
      var (t, r) := ReadOnce(s, n);
      var (u, rest) := Drain(t, n);
      (u, r.bytes + rest)
  }

  /** Whatever the buffer size, the reads together return exactly what was buffered. */
  lemma {:induction false} ReadsDrain(s: Recv, n: nat)
    requires n > 0
    ensures Drain(s, n) == (s.(readBuf := [], readOffset := s.readOffset + |s.readBuf|), s.readBuf)
    decreases |s.readBuf|
  {
    if s.readBuf != [] {
      var k := Min(n, |s.readBuf|);
      var t := s.(readBuf := s.readBuf[k..], readOffset := s.readOffset + k);
      ReadsDrain(t, n);
      assert s.readBuf[..k] + s.readBuf[k..] == s.readBuf;
    }
  }

  /** How many reads it takes until nothing is left. */
  function ReadsNeeded(s: Recv, n: nat): nat
    requires n > 0
    decreases |s.readBuf|
  {
    if s.readBuf == [] then 0 else 1 + ReadsNeeded(ReadOnce(s, n).0, n)
  }

  /** Each read fills its buffer as long as there is enough: m bytes take m / n reads, rounded up. */
  lemma {:induction false} ReadsCounted(s: Recv, n: nat)
    requires n > 0
    ensures n * (ReadsNeeded(s, n) - 1) < |s.readBuf| <= n * ReadsNeeded(s, n)
    decreases |s.readBuf|
  {
    if s.readBuf != [] {
      ReadsCounted(ReadOnce(s, n).0, n);
      OneReadMore(n, ReadsNeeded(ReadOnce(s, n).0, n), |ReadOnce(s, n).0.readBuf|, |s.readBuf|);
    }
  }

  lemma OneReadMore(n: nat, turns: nat, left: nat, size: nat)
    requires n > 0 && size > 0 && left == size - Min(n, size) && n * (turns - 1) < left <= n * turns
    ensures n * turns < size <= n * (turns + 1)
  {
    assert n * (turns + 1) == n * turns + n && n * (turns - 1) == n * turns - n;
    if turns > 0 {
      assert left > 0 by {
        assert n * (turns - 1) >= 0;
      }
    }
  }

  datatype Event = Arrive(offset: nat, data: seq<byte>, fin: bool) | ReadCall(n: nat)

  /** A run of arrivals and reads: the final state and the bytes the reads returned. */
  function Run(events: seq<Event>): (Recv, seq<byte>) {
    if events == [] then (NEW_RECV, [])
    else
      var (s, delivered) := Run(events[..|events| - 1]);
      match events[|events| - 1]
      case Arrive(offset, data, fin) => (Handle(s, offset, data, fin), delivered)
      case ReadCall(n) =>
        var (t, r) := ReadOnce(s, n);
        (t, if r.Data? then delivered + r.bytes else delivered)
  }

  /**
   Prefix safety: if every arrival is a slice of one source, however the slices overlap,
   repeat or are ordered, what was read plus what is buffered is the source up to the
   reassembly offset, and the offsets account for every byte.
   */
  lemma {:induction false} PrefixSafety(events: seq<Event>, source: seq<byte>)
    requires forall i :: 0 <= i < |events| && events[i].Arrive? ==> SliceOf(source, events[i].offset, events[i].data)
    ensures var (s, delivered) := Run(events);
            && PrefixInv(s, delivered, source)
            && s.readOffset + |s.readBuf| == s.reassembly
    decreases |events|
  {
    if events != [] {
      var before := events[..|events| - 1];
      assert forall i :: 0 <= i < |before| ==> before[i] == events[i];
      PrefixSafety(before, source);
      var (s, delivered) := Run(before);
      match events[|events| - 1]
      case Arrive(offset, data, fin) => HandleKeepsPrefix(s, offset, data, fin, delivered, source);
      case ReadCall(n) => ReadKeepsPrefix(s, n, delivered, source);
    }
  }

  /** A run in which a read is the last event: it returns what is buffered, up to the size asked for. */
  lemma ReadsWithinSize(events: seq<Event>)
    requires events != [] && events[|events| - 1].ReadCall?
    ensures var (s, delivered) := Run(events[..|events| - 1]);
            var (t, more) := Run(events);
            && |more| == |delivered| + Min(events[|events| - 1].n, |s.readBuf|)
            && more + t.readBuf == delivered + s.readBuf
  {
    var before := Run(events[..|events| - 1]);
    ReadTurn(before.0, events[|events| - 1].n, before.1);
  }

  lemma ReadTurn(s: Recv, n: nat, delivered: seq<byte>)
    ensures var (t, r) := ReadOnce(s, n);
            var more := if r.Data? then delivered + r.bytes else delivered;
            |more| == |delivered| + Min(n, |s.readBuf|) && more + t.readBuf == delivered + s.readBuf
  {
    var k := Min(n, |s.readBuf|);
    assert (delivered + s.readBuf[..k]) + s.readBuf[k..] == delivered + s.readBuf;
  }

  // ----- flow-control window -----

  /**
   When the window is raised, and to what: by an arrival with bytes above the offset, unless the
   stream has ended, that leaves less than half of the window; then to a whole window ahead.
   */
  lemma WindowRaisedExactly(s: Recv, offset: nat, data: seq<byte>, fin: bool)
    ensures var t := Handle(s, offset, data, fin);
            t.readMaxData == if !s.finRead && offset + |data| > s.reassembly && s.readMaxData - t.reassembly < 524288
                             then t.reassembly + 1048576 else s.readMaxData
  {
  }

  /** A read raises the window by a whole one exactly when it finds nothing and something came before. */
  lemma ReadRaisesExactly(s: Recv, n: nat)
    ensures var (t, r) := ReadOnce(s, n);
            && t.readMaxData == s.readMaxData + (if r.Blocked? && s.reassembly > 0 then 1048576 else 0)
            && (r.Blocked? <==> s.readBuf == [] && !s.finRead)
  {
  }

  /** The reads of the run that found nothing and waited. */
  function BlockedReads(events: seq<Event>): nat
    decreases |events|
  {
    if events == [] then 0
    else
      var before, e := events[..|events| - 1], events[|events| - 1];
      BlockedReads(before) + if e.ReadCall? && ReadOnce(Run(before).0, e.n).1.Blocked? then 1 else 0
  }

  /**
   Over every run of arrivals and reads the grant is at least half a window ahead of reassembly,
   and at most one window and another for each read that waited.
   */
  lemma {:induction false} GrantBounded(events: seq<Event>)
    ensures var s := Run(events).0;
            && s.reassembly !in s.pending
            && 524288 <= s.readMaxData - s.reassembly <= 1048576 * (1 + BlockedReads(events))
    decreases |events|
  {
    if events != [] {
      var before, e := events[..|events| - 1], events[|events| - 1];
      GrantBounded(before);
      match e
      case Arrive(offset, data, fin) => ArrivalGrant(Run(before).0, offset, data, fin, BlockedReads(before));
      case ReadCall(n) => ReadRaisesExactly(Run(before).0, n);
    }
  }

  lemma ArrivalGrant(s: Recv, offset: nat, data: seq<byte>, fin: bool, blocked: nat)
    requires s.reassembly !in s.pending && 524288 <= s.readMaxData - s.reassembly <= 1048576 * (1 + blocked)
    ensures var t := Handle(s, offset, data, fin);
            && t.reassembly !in t.pending
            && 524288 <= t.readMaxData - t.reassembly <= 1048576 * (1 + blocked)
  {
    WindowKept(s, offset, data, fin);
    WindowRaisedExactly(s, offset, data, fin);
    OffsetGrows(s, offset, data, fin);
  }

  lemma OffsetGrows(s: Recv, offset: nat, data: seq<byte>, fin: bool)
    ensures Handle(s, offset, data, fin).reassembly >= s.reassembly
  {
  }

  /** The window only grows and never closes to less than half of its initial size. */
  lemma WindowKept(s: Recv, offset: nat, data: seq<byte>, fin: bool)
    requires s.readMaxData - s.reassembly >= UPDATE_THRESHOLD
    requires s.reassembly !in s.pending
    ensures var t := Handle(s, offset, data, fin);
            && t.readMaxData >= s.readMaxData
            && t.readMaxData - t.reassembly >= UPDATE_THRESHOLD
            && t.reassembly !in t.pending
  {
  }

  // ----- a fixed segmentation -----

  /** Segments are what Write sent, in order; none is empty. */
  ghost predicate Proper(segs: seq<seq<byte>>) {
    forall i :: 0 <= i < |segs| ==> segs[i] != []
  }

  /** Stream offset of segment k. */
  function Off(segs: seq<seq<byte>>, k: nat): nat
    requires k <= |segs|
  {
    if k == 0 then 0 else Off(segs, k - 1) + |segs[k - 1]|
  }

  function Total(segs: seq<seq<byte>>): nat { Off(segs, |segs|) }

  lemma {:induction false} OffMonotone(segs: seq<seq<byte>>, i: nat, j: nat)
    requires i <= j <= |segs| && Proper(segs)
    ensures Off(segs, i) <= Off(segs, j)
    ensures i < j ==> Off(segs, i) + |segs[i]| <= Off(segs, j) && Off(segs, i) < Off(segs, j)
    decreases j
  {
    if i < j {
      OffMonotone(segs, i, j - 1);
    }
  }

  /** First segment from k on that has not been received, out of m. */
  function Frontier(got: set<nat>, m: nat, k: nat): (f: nat)
    requires k <= m
    ensures k <= f <= m
    ensures f < m ==> f !in got
    ensures forall i :: k <= i < f ==> i in got
    decreases m - k
  {
    if k < m && k in got then Frontier(got, m, k + 1) else k
  }

  lemma FrontierUnique(got: set<nat>, m: nat, k: nat, f: nat)
    requires k <= f <= m && (f < m ==> f !in got) && forall i :: k <= i < f ==> i in got
    ensures Frontier(got, m, k) == f
  {
    var g := Frontier(got, m, k);
    assert g < f ==> g in got;
    assert f < g ==> f in got;
  }

  /** Out-of-order data from segment k on, by offset, and the empty chunk of an early FIN. */
  function Waiting(segs: seq<seq<byte>>, got: set<nat>, early: bool, k: nat): map<nat, seq<byte>>
    requires k <= |segs|
    decreases |segs| - k
  {
    if k == |segs| then if early then map[Total(segs) := []] else map[]
    else
      var rest := Waiting(segs, got, early, k + 1);
      if k in got then rest[Off(segs, k) := segs[k]] else rest
  }

  lemma {:induction false} WaitingKeys(segs: seq<seq<byte>>, got: set<nat>, early: bool, k: nat)
    requires Proper(segs) && k <= |segs|
    ensures forall o :: o in Waiting(segs, got, early, k) ==> o >= Off(segs, k)
    ensures k < |segs| ==> (Off(segs, k) in Waiting(segs, got, early, k) <==> k in got)
    ensures early ==> Total(segs) in Waiting(segs, got, early, k)
    decreases |segs| - k
  {
    if k < |segs| {
      WaitingKeys(segs, got, early, k + 1);
      OffMonotone(segs, k, k + 1);
    }
  }

  lemma {:induction false} WaitingMore(segs: seq<seq<byte>>, got: set<nat>, early: bool, k: nat, i: nat)
    requires Proper(segs) && k <= i < |segs|
    ensures Waiting(segs, got + {i}, early, k) == Waiting(segs, got, early, k)[Off(segs, i) := segs[i]]
    decreases |segs| - k
  {
    if k < i {
      WaitingMore(segs, got, early, k + 1, i);
      OffMonotone(segs, k, i);
    } else {
      WaitingIrrelevant(segs, got, early, k + 1, i);
    }
  }

  lemma {:induction false} WaitingIrrelevant(segs: seq<seq<byte>>, got: set<nat>, early: bool, k: nat, i: nat)
    requires i < k <= |segs|
    ensures Waiting(segs, got + {i}, early, k) == Waiting(segs, got, early, k)
    decreases |segs| - k
  {
    if k < |segs| {
      WaitingIrrelevant(segs, got, early, k + 1, i);
    }
  }

  lemma {:induction false} WaitingFin(segs: seq<seq<byte>>, got: set<nat>, early: bool, k: nat)
    requires Proper(segs) && k <= |segs|
    ensures Waiting(segs, got, true, k) == Waiting(segs, got, early, k)[Total(segs) := []]
    decreases |segs| - k
  {
    if k < |segs| {
      WaitingFin(segs, got, early, k + 1);
      OffMonotone(segs, k, |segs|);
    }
  }

  /**
   The receiver's state as a function of the set of segments received, and of whether the
   FIN, which carries no data, ever arrived while data was still missing.
   */
  ghost predicate Reassembled(s: Recv, segs: seq<seq<byte>>, got: set<nat>, early: bool) {
    var k := Frontier(got, |segs|, 0);
    && Proper(segs)
    && s.reassembly == Off(segs, k)
    && s.pendingFin == (early && k < |segs|)
    && s.finRead == (early && k == |segs|)
    && s.pending == (if k < |segs| then Waiting(segs, got, early, k) else map[])
  }

  /** The flush loop runs to the frontier and leaves exactly what is still waiting. */
  lemma {:induction false} FlushReaches(s: Recv, segs: seq<seq<byte>>, got: set<nat>, early: bool, k: nat)
    requires Proper(segs) && k <= |segs|
    requires s.reassembly == Off(segs, k) && s.pending == Waiting(segs, got, early, k)
    ensures var f := Frontier(got, |segs|, k);
            && Flush(s).reassembly == Off(segs, f)
            && Flush(s).pending == if f < |segs| then Waiting(segs, got, early, f) else map[]
    decreases |segs| - k
  {
    WaitingKeys(segs, got, early, k);
    if k == |segs| {
      FlushEnd(s);
    } else if k in got {
      SegmentTaken(s, segs, got, early, k);
      FlushReaches(TakeNext(s), segs, got, early, k + 1);
    }
  }

  /** One turn of the flush loop moves on by one segment. */
  lemma SegmentTaken(s: Recv, segs: seq<seq<byte>>, got: set<nat>, early: bool, k: nat)
    requires Proper(segs) && k < |segs| && k in got
    requires s.reassembly == Off(segs, k) && s.pending == Waiting(segs, got, early, k)
    ensures s.reassembly in s.pending && Flush(s) == Flush(TakeNext(s))
    ensures TakeNext(s).reassembly == Off(segs, k + 1) && TakeNext(s).pending == Waiting(segs, got, early, k + 1)
  {
    WaitingKeys(segs, got, early, k + 1);
    OffMonotone(segs, k, k + 1);
    TakenSegment(s, Waiting(segs, got, early, k + 1), segs[k]);
  }

  lemma TakenSegment(s: Recv, rest: map<nat, seq<byte>>, chunk: seq<byte>)
    requires s.pending == rest[s.reassembly := chunk] && s.reassembly !in rest
    ensures TakeNext(s).pending == rest && TakeNext(s).reassembly == s.reassembly + |chunk|
    ensures Flush(s) == Flush(TakeNext(s))
  {
  }

  /** At the end only the empty chunk of a FIN can be left. */
  lemma FlushEnd(s: Recv)
    requires s.pending == map[] || s.pending == map[s.reassembly := []]
    ensures Flush(s).reassembly == s.reassembly && Flush(s).pending == map[]
  {
    if s.pending != map[] {
      var t := TakeNext(s);
      assert t.pending == map[] && t.reassembly == s.reassembly;
      assert Flush(t) == t;
    }
  }

  /** A segment arrives, for the first time or again. */
  lemma SegmentArrives(s: Recv, segs: seq<seq<byte>>, got: set<nat>, early: bool, i: nat)
    requires Reassembled(s, segs, got, early) && i < |segs|
    ensures Reassembled(Handle(s, Off(segs, i), segs[i], false), segs, got + {i}, early)
  {
    var k := Frontier(got, |segs|, 0);
    if i < k {
      assert got + {i} == got;
      OffMonotone(segs, i, k);
    } else if i == k {
      NextSegment(s, segs, got, early, k);
    } else {
      FrontierUnique(got + {i}, |segs|, 0, k);
      WaitingMore(segs, got, early, k, i);
      OffMonotone(segs, k, i);
    }
  }

  lemma NextSegment(s: Recv, segs: seq<seq<byte>>, got: set<nat>, early: bool, k: nat)
    requires Reassembled(s, segs, got, early) && k == Frontier(got, |segs|, 0) < |segs|
    ensures Reassembled(Handle(s, Off(segs, k), segs[k], false), segs, got + {k}, early)
  {
    var t := Append(s, segs[k], false);
    WaitingIrrelevant(segs, got, early, k + 1, k);
    AppendedSegment(t, segs, got + {k}, early, k);
    HandleInOrder(s, segs[k]);
  }

  lemma HandleInOrder(s: Recv, data: seq<byte>)
    requires data != [] && !s.finRead
    ensures Handle(s, s.reassembly, data, false) == Replenish(TryFlush(Append(s, data, false)))
  {
  }

  lemma AppendedSegment(t: Recv, segs: seq<seq<byte>>, got: set<nat>, early: bool, k: nat)
    requires Proper(segs) && k < |segs| && forall i :: 0 <= i <= k ==> i in got
    requires t.reassembly == Off(segs, k + 1) && t.pending == Waiting(segs, got, early, k + 1)
    requires !t.finRead && t.pendingFin == early
    ensures Reassembled(Replenish(TryFlush(t)), segs, got, early)
  {
    FlushReaches(t, segs, got, early, k + 1);
    var f := Frontier(got, |segs|, k + 1);
    FrontierUnique(got, |segs|, 0, f);
    FinTaken(t, segs, got, early, f);
  }

  /** Whether the FIN takes effect after a flush. */
  lemma FinTaken(t: Recv, segs: seq<seq<byte>>, got: set<nat>, early: bool, f: nat)
    requires Proper(segs) && f == Frontier(got, |segs|, 0)
    requires Flush(t).reassembly == Off(segs, f)
    requires Flush(t).pending == if f < |segs| then Waiting(segs, got, early, f) else map[]
    requires !t.finRead && t.pendingFin == early
    ensures Reassembled(Replenish(TryFlush(t)), segs, got, early)
  {
    if f < |segs| {
      WaitingKeys(segs, got, early, f);
    }
  }

  /** The FIN counts only while data is missing; arriving after the last byte it is dropped. */
  lemma FinArrives(s: Recv, segs: seq<seq<byte>>, got: set<nat>, early: bool)
    requires Reassembled(s, segs, got, early)
    ensures Reassembled(Handle(s, Total(segs), [], true), segs, got, early || Frontier(got, |segs|, 0) < |segs|)
  {
    var k := Frontier(got, |segs|, 0);
    OffMonotone(segs, k, |segs|);
    if k < |segs| {
      WaitingFin(segs, got, early, k);
    }
  }

  /** A new segment at the end changes nothing for the receiver, as long as no FIN has been sent. */
  lemma SegmentSent(s: Recv, segs: seq<seq<byte>>, got: set<nat>, data: seq<byte>)
    requires Reassembled(s, segs, got, false) && data != [] && |segs| !in got
    ensures Reassembled(s, segs + [data], got, false)
  {
    var k := Frontier(got, |segs|, 0);
    FrontierUnique(got, |segs| + 1, 0, k);
    OffExtended(segs, data, k);
    WaitingExtended(segs, got, data, k);
  }

  lemma {:induction false} OffExtended(segs: seq<seq<byte>>, data: seq<byte>, k: nat)
    requires k <= |segs|
    ensures Off(segs + [data], k) == Off(segs, k)
  {
    if k > 0 {
      OffExtended(segs, data, k - 1);
    }
  }

  lemma {:induction false} WaitingExtended(segs: seq<seq<byte>>, got: set<nat>, data: seq<byte>, k: nat)
    requires k <= |segs| && |segs| !in got
    ensures Waiting(segs + [data], got, false, k) == Waiting(segs, got, false, k)
    decreases |segs| - k
  {
    if k < |segs| {
      WaitingExtended(segs, got, data, k + 1);
      OffExtended(segs, data, k);
    } else {
      assert Waiting(segs + [data], got, false, k + 1) == map[];
    }
  }

  // ----- whole runs over a fixed segmentation -----

  datatype Arrival = Segment(index: nat) | Fin

  predicate Within(segs: seq<seq<byte>>, arrivals: seq<Arrival>) {
    forall i :: 0 <= i < |arrivals| ==> arrivals[i].Segment? ==> arrivals[i].index < |segs|
  }

  function Deliver(s: Recv, segs: seq<seq<byte>>, a: Arrival): Recv
    requires a.Segment? ==> a.index < |segs|
  {
    match a
    case Segment(i) => Handle(s, Off(segs, i), segs[i], false)
    case Fin => Handle(s, Total(segs), [], true)
  }

  /** The receiver after a list of arrivals. */
  function ReceiveAll(segs: seq<seq<byte>>, arrivals: seq<Arrival>): Recv
    requires Within(segs, arrivals)
  {
    if arrivals == [] then NEW_RECV
    else Deliver(ReceiveAll(segs, arrivals[..|arrivals| - 1]), segs, arrivals[|arrivals| - 1])
  }

  /** The segments that arrived. */
  function ArrivedSegments(arrivals: seq<Arrival>): set<nat> {
    if arrivals == [] then {}
    else
      var before, last := ArrivedSegments(arrivals[..|arrivals| - 1]), arrivals[|arrivals| - 1];
      if last.Segment? then before + {last.index} else before
  }

  lemma {:induction false} ArrivedExact(arrivals: seq<Arrival>, i: nat)
    ensures i in ArrivedSegments(arrivals) <==> Segment(i) in arrivals
  {
    if arrivals != [] {
      var m := |arrivals| - 1;
      ArrivedExact(arrivals[..m], i);
      assert arrivals == arrivals[..m] + [arrivals[m]];
    }
  }

  /** Some FIN arrived while data was still missing. */
  function EarlyFin(m: nat, arrivals: seq<Arrival>): bool {
    if arrivals == [] then false
    else
      var before := arrivals[..|arrivals| - 1];
      EarlyFin(m, before) || (arrivals[|arrivals| - 1].Fin? && Frontier(ArrivedSegments(before), m, 0) < m)
  }

  lemma {:induction false} RunReassembles(segs: seq<seq<byte>>, arrivals: seq<Arrival>)
    requires Proper(segs) && Within(segs, arrivals)
    ensures Reassembled(ReceiveAll(segs, arrivals), segs, ArrivedSegments(arrivals), EarlyFin(|segs|, arrivals))
    decreases |arrivals|
  {
    if arrivals == [] {
      NothingReceived(segs, 0);
    } else {
      var before, last := arrivals[..|arrivals| - 1], arrivals[|arrivals| - 1];
      RunReassembles(segs, before);
      match last
      case Segment(i) =>
        SegmentArrives(ReceiveAll(segs, before), segs, ArrivedSegments(before), EarlyFin(|segs|, before), i);
      case Fin =>
        FinArrives(ReceiveAll(segs, before), segs, ArrivedSegments(before), EarlyFin(|segs|, before));
    }
  }

  lemma {:induction false} NothingReceived(segs: seq<seq<byte>>, k: nat)
    requires k <= |segs|
    ensures Waiting(segs, {}, false, k) == map[]
    decreases |segs| - k
  {
    if k < |segs| {
      NothingReceived(segs, k + 1);
    }
  }

  /**
   Delivery does not depend on order or duplicates: after any list of arrivals the
   reassembly offset is the end of the longest run of segments received from the start,
   and lists with the same segments leave the same offset and the same out-of-order data.
   Only an early FIN, an empty chunk at the final size, may be there in one and not the other.
   */
  lemma OrderIndependent(segs: seq<seq<byte>>, a: seq<Arrival>, b: seq<Arrival>)
    requires Proper(segs) && Within(segs, a) && Within(segs, b)
    requires forall i: nat :: Segment(i) in a <==> Segment(i) in b
    ensures ReceiveAll(segs, a).reassembly == ReceiveAll(segs, b).reassembly
            == Off(segs, Frontier(ArrivedSegments(a), |segs|, 0))
    ensures ReceiveAll(segs, a).pending - {Total(segs)} == ReceiveAll(segs, b).pending - {Total(segs)}
    ensures EarlyFin(|segs|, a) == EarlyFin(|segs|, b) ==>
              var s, t := ReceiveAll(segs, a), ReceiveAll(segs, b);
              (s.pending, s.pendingFin, s.finRead) == (t.pending, t.pendingFin, t.finRead)
  {
    RunReassembles(segs, a);
    RunReassembles(segs, b);
    forall i: nat ensures i in ArrivedSegments(a) <==> i in ArrivedSegments(b) {
      ArrivedExact(a, i);
      ArrivedExact(b, i);
    }
    assert ArrivedSegments(a) == ArrivedSegments(b);
    OnlyFinDiffers(segs, ArrivedSegments(a), Frontier(ArrivedSegments(a), |segs|, 0));
  }

  lemma OnlyFinDiffers(segs: seq<seq<byte>>, got: set<nat>, k: nat)
    requires Proper(segs) && k <= |segs|
    ensures Waiting(segs, got, true, k) - {Total(segs)} == Waiting(segs, got, false, k) - {Total(segs)}
  {
    WaitingFin(segs, got, false, k);
  }

  /**
   When end-of-stream is reported: exactly when every segment has arrived and some FIN came
   before the data was complete. So it is never early, and a FIN that comes last is lost.
   */
  lemma EndOfStreamExact(segs: seq<seq<byte>>, arrivals: seq<Arrival>)
    requires Proper(segs) && Within(segs, arrivals)
    ensures ReceiveAll(segs, arrivals).finRead
            <==> EarlyFin(|segs|, arrivals) && forall i :: 0 <= i < |segs| ==> Segment(i) in arrivals
    ensures ReceiveAll(segs, arrivals).finRead ==> ReceiveAll(segs, arrivals).reassembly == Total(segs)
  {
    RunReassembles(segs, arrivals);
    var k := Frontier(ArrivedSegments(arrivals), |segs|, 0);
    forall i: nat ensures i in ArrivedSegments(arrivals) <==> Segment(i) in arrivals {
      ArrivedExact(arrivals, i);
    }
  }

  /** The smallest failing case: one segment, then the FIN. End-of-stream is never reported. */
  lemma LateFinIsLost(data: seq<byte>)
    requires data != []
    ensures !ReceiveAll([data], [Segment(0), Fin]).finRead
    ensures ReceiveAll([data], [Fin, Segment(0)]).finRead
  {
    LateAndEarly([data]);
  }

  lemma LateAndEarly(segs: seq<seq<byte>>)
    requires |segs| == 1 && Proper(segs)
    ensures !ReceiveAll(segs, [Segment(0), Fin]).finRead
    ensures ReceiveAll(segs, [Fin, Segment(0)]).finRead
  {
    TwoArrivals(Segment(0), Fin);
    Late(segs, [Segment(0), Fin]);
    TwoArrivals(Fin, Segment(0));
    assert [Fin, Segment(0)][1] == Segment(0);
    Early(segs, [Fin, Segment(0)]);
  }

  lemma Late(segs: seq<seq<byte>>, arrivals: seq<Arrival>)
    requires Proper(segs) && Within(segs, arrivals) && !EarlyFin(|segs|, arrivals)
    ensures !ReceiveAll(segs, arrivals).finRead
  {
    EndOfStreamExact(segs, arrivals);
  }

  lemma Early(segs: seq<seq<byte>>, arrivals: seq<Arrival>)
    requires |segs| == 1 && Proper(segs) && Within(segs, arrivals) && EarlyFin(1, arrivals) && Segment(0) in arrivals
    ensures ReceiveAll(segs, arrivals).finRead
  {
    EndOfStreamExact(segs, arrivals);
  }

  lemma TwoArrivals(a: Arrival, b: Arrival)
    ensures EarlyFin(1, [a, b]) <==> a.Fin? || (b.Fin? && a != Segment(0))
  {
    assert [a, b][..1] == [a] && [a][..0] == [];
    assert ArrivedSegments([]) == {} && EarlyFin(1, [a]) == a.Fin?;
    assert ArrivedSegments([a]) == if a.Segment? then {a.index} else {};
  }
}
