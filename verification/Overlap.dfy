/**
 Segments that overlap. What is read stays a prefix of what was written (PrefixSafety), but
 data that was received can be left lying or thrown away: exactly when is stated here.
 */
module Overlap {
  import opened Bytes
  import opened StreamIO
  import opened Reassembly

  ghost predicate Holds(pending: map<nat, seq<byte>>, o: nat, p: nat) {
    o in pending && o <= p < o + |pending[o]|
  }

  /** Some pending chunk holds stream position p. */
  ghost predicate InPending(pending: map<nat, seq<byte>>, p: nat) {
    exists o :: Holds(pending, o, p)
  }

  /** Position p has been delivered to the buffer or waits among the pending data. */
  ghost predicate Has(s: Recv, p: nat) { p < s.reassembly || InPending(s.pending, p) }

  /** What the receiver has is exactly what was received. */
  ghost predicate Accounts(s: Recv, received: set<nat>) { forall p: nat :: p in received <==> Has(s, p) }

  /**
   Of the positions received none is lost, and reassembly stands at the first that is missing:
   all that could be delivered has been.
   */
  ghost predicate Whole(s: Recv, received: set<nat>) {
    && s.reassembly !in s.pending
    && s.reassembly !in received
    && Accounts(s, received)
  }

  /** The n positions from offset on. */
  function Span(offset: nat, n: nat): (r: set<nat>)
    ensures forall p: nat :: p in r <==> offset <= p < offset + n
  {
    if n == 0 then {} else Span(offset, n - 1) + {offset + n - 1}
  }

  // ----- where a flush ends -----

  /** The end of the run of chunks that continue one another from `at` on. */
  function Stop(pending: map<nat, seq<byte>>, at: nat): nat
    decreases |pending|
  {
    if at !in pending then at
    else
      assert (pending - {at}).Keys == pending.Keys - {at};
      Stop(pending - {at}, at + |pending[at]|)
  }

  lemma {:induction false} FlushStops(s: Recv, pending: map<nat, seq<byte>>, at: nat)
    requires s.pending == pending && s.reassembly == at
    ensures Flush(s).reassembly == Stop(pending, at)
    decreases |pending|
  {
    if at in pending {
      assert (pending - {at}).Keys == pending.Keys - {at};
      FlushStops(TakeNext(s), pending - {at}, at + |pending[at]|);
    }
  }

  lemma Without(pending: map<nat, seq<byte>>, offset: nat, p: nat)
    ensures InPending(pending, p)
            <==> (offset in pending && offset <= p < offset + |pending[offset]|) || InPending(pending - {offset}, p)
  {
    var others := pending - {offset};
    if InPending(pending, p) {
      var o :| Holds(pending, o, p);
      assert o != offset ==> Holds(others, o, p);
    }
    if InPending(others, p) {
      var o :| Holds(others, o, p);
      assert Holds(pending, o, p);
    }
    assert Holds(pending, offset, p) ==> InPending(pending, p);
  }

  lemma TakeNextHas(s: Recv, p: nat)
    requires s.reassembly in s.pending
    ensures Has(TakeNext(s), p) <==> Has(s, p)
  {
    Without(s.pending, s.reassembly, p);
    assert TakeNext(s).pending == s.pending - {s.reassembly};
  }

  lemma {:induction false} FlushHas(s: Recv, p: nat)
    ensures Has(Flush(s), p) <==> Has(s, p)
    decreases |s.pending|
  {
    if s.reassembly in s.pending {
      TakeNextHas(s, p);
      FlushHas(TakeNext(s), p);
    }
  }

  // ----- one arrival -----

  /** What a chunk replaced by a shorter one held beyond its end is held by other chunks as well. */
  ghost predicate TailHeld(pending: map<nat, seq<byte>>, offset: nat, end: nat) {
    offset in pending ==> forall p: nat :: end <= p < offset + |pending[offset]| ==> InPending(pending - {offset}, p)
  }

  /**
   When an arrival does no harm, by the branch it takes: after end-of-stream only if it brings
   nothing new; behind the reassembly offset always; across it never; at it, if the chunks that
   continue the data end at a position no other chunk holds; beyond it, if it does not replace
   a longer chunk whose rest is held nowhere else.
   */
  ghost predicate Harmless(s: Recv, offset: nat, data: seq<byte>) {
    var end := offset + |data|;
    if s.finRead then forall p: nat :: offset <= p < end ==> Has(s, p)
    else if end <= s.reassembly then true
    else if offset < s.reassembly then false
    else if offset == s.reassembly then !InPending(s.pending, Stop(s.pending, end))
    else TailHeld(s.pending, offset, end)
  }

  /** Exactly the harmless arrivals keep all that was received. */
  lemma ArrivalKeepsWhole(s: Recv, received: set<nat>, offset: nat, data: seq<byte>, fin: bool)
    requires Whole(s, received)
    ensures Whole(Handle(s, offset, data, fin), received + Span(offset, |data|)) <==> Harmless(s, offset, data)
  {
    var end, all := offset + |data|, received + Span(offset, |data|);
    if s.finRead {
      Unchanged(s, received, offset, data);
    } else if end <= s.reassembly {
      assert all == received;
    } else if offset < s.reassembly {
      assert s.reassembly in all;
    } else if offset == s.reassembly {
      var t, v := Append(s, data, fin), Handle(s, offset, data, fin);
      HandledInOrder(s, data, fin, t, v);
      FlushedHas(t, v, s.pending, end);
      InOrderWhole(s, received, v, all, end);
    } else {
      AheadWhole(s, received, offset, data, fin);
    }
  }

  lemma Unchanged(s: Recv, received: set<nat>, offset: nat, data: seq<byte>)
    requires Whole(s, received)
    ensures Whole(s, received + Span(offset, |data|)) <==> forall p: nat :: offset <= p < offset + |data| ==> Has(s, p)
  {
    var all := received + Span(offset, |data|);
    if forall p: nat :: offset <= p < offset + |data| ==> Has(s, p) {
      assert all == received;
    } else {
      var p: nat :| offset <= p < offset + |data| && !Has(s, p);
      assert p in all;
    }
  }

  /** After data at the reassembly offset the receiver stands where a flush of it ends. */
  lemma HandledInOrder(s: Recv, data: seq<byte>, fin: bool, t: Recv, v: Recv)
    requires !s.finRead && data != [] && t == Append(s, data, fin) && v == Handle(s, s.reassembly, data, fin)
    ensures v.reassembly == Flush(t).reassembly && v.pending == Flush(t).pending
  {
    assert v == Replenish(TryFlush(t));
    EndKeepsData(t);
  }

  lemma EndKeepsData(t: Recv)
    ensures var v := Replenish(TryFlush(t)); v.reassembly == Flush(t).reassembly && v.pending == Flush(t).pending
  {
  }

  lemma FlushedHas(t: Recv, v: Recv, pending: map<nat, seq<byte>>, at: nat)
    requires v.reassembly == Flush(t).reassembly && v.pending == Flush(t).pending
    requires t.pending == pending && t.reassembly == at
    ensures v.reassembly >= at && v.reassembly !in v.pending && v.reassembly == Stop(pending, at)
    ensures forall p: nat :: Has(v, p) <==> p < at || InPending(pending, p)
  {
    FlushStops(t, pending, at);
    forall p: nat ensures Has(v, p) <==> p < at || InPending(pending, p) {
      FlushHas(t, p);
    }
  }

  lemma InOrderWhole(s: Recv, received: set<nat>, v: Recv, all: set<nat>, at: nat)
    requires Whole(s, received) && s.reassembly <= at && all == received + Span(s.reassembly, at - s.reassembly)
    requires forall p: nat :: Has(v, p) <==> p < at || InPending(s.pending, p)
    requires v.reassembly >= at && v.reassembly !in v.pending
    ensures Whole(v, all) <==> !InPending(s.pending, v.reassembly)
  {
    assert v.reassembly in all <==> Has(s, v.reassembly);
  }

  lemma SameData(u: Recv, v: Recv, received: set<nat>)
    requires (v.reassembly, v.pending) == (u.reassembly, u.pending)
    ensures Whole(v, received) <==> Whole(u, received)
  {
    assert forall p: nat :: Has(v, p) <==> Has(u, p);
  }

  lemma AheadWhole(s: Recv, received: set<nat>, offset: nat, data: seq<byte>, fin: bool)
    requires Whole(s, received) && !s.finRead && offset > s.reassembly
    ensures Whole(Handle(s, offset, data, fin), received + Span(offset, |data|))
            <==> TailHeld(s.pending, offset, offset + |data|)
  {
    var v, end, all := Handle(s, offset, data, fin), offset + |data|, received + Span(offset, |data|);
    forall p: nat ensures InPending(v.pending, p) <==> offset <= p < end || InPending(s.pending - {offset}, p) {
      Replaced(s.pending, offset, data, p);
    }
    forall p: nat ensures InPending(s.pending, p)
                          <==> (offset in s.pending && offset <= p < offset + |s.pending[offset]|)
                               || InPending(s.pending - {offset}, p) {
      Without(s.pending, offset, p);
    }
    if !TailHeld(s.pending, offset, end) {
      var p: nat :| end <= p < offset + |s.pending[offset]| && !InPending(s.pending - {offset}, p);
      assert Has(s, p) && !Has(v, p);
    }
  }

  lemma Replaced(pending: map<nat, seq<byte>>, offset: nat, data: seq<byte>, p: nat)
    ensures InPending(pending[offset := data], p)
            <==> offset <= p < offset + |data| || InPending(pending - {offset}, p)
  {
    assert pending[offset := data] - {offset} == pending - {offset};
    Without(pending[offset := data], offset, p);
  }

  // ----- runs -----

  function ReceivedIn(events: seq<Event>): set<nat> {
    if events == [] then {}
    else
      var before, e := ReceivedIn(events[..|events| - 1]), events[|events| - 1];
      if e.Arrive? then before + Span(e.offset, |e.data|) else before
  }

  ghost predicate WholeAfter(events: seq<Event>) { Whole(Run(events).0, ReceivedIn(events)) }

  ghost predicate HarmlessStep(s: Recv, e: Event) { e.Arrive? ==> Harmless(s, e.offset, e.data) }

  ghost predicate LastHarmless(events: seq<Event>)
    requires events != []
  {
    HarmlessStep(Run(events[..|events| - 1]).0, events[|events| - 1])
  }

  /** The receiver is whole after the run and was after each of its steps. */
  ghost predicate AlwaysWhole(events: seq<Event>)
    decreases |events|
  {
    WholeAfter(events) && (events != [] ==> AlwaysWhole(events[..|events| - 1]))
  }

  ghost predicate AllHarmless(events: seq<Event>)
    decreases |events|
  {
    events != [] ==> LastHarmless(events) && AllHarmless(events[..|events| - 1])
  }

  /**
   Over every run of arrivals and reads, with any overlap: nothing received is ever lost or held
   back behind a gap that has been filled if and only if every arrival is harmless in its turn.
   */
  lemma {:induction false} OverlapExact(events: seq<Event>)
    ensures AlwaysWhole(events) <==> AllHarmless(events)
    decreases |events|
  {
    if events == [] {
      assert WholeAfter(events);
    } else {
      OverlapExact(events[..|events| - 1]);
      if WholeAfter(events[..|events| - 1]) {
        LastStep(events);
      }
    }
  }

  lemma LastStep(events: seq<Event>)
    requires events != [] && WholeAfter(events[..|events| - 1])
    ensures WholeAfter(events) <==> LastHarmless(events)
  {
    var before := events[..|events| - 1];
    StepKeepsWhole(Run(before).0, ReceivedIn(before), events[|events| - 1], Run(events).0, ReceivedIn(events));
  }

  lemma StepKeepsWhole(s: Recv, received: set<nat>, e: Event, v: Recv, all: set<nat>)
    requires Whole(s, received)
    requires e.Arrive? ==> v == Handle(s, e.offset, e.data, e.fin) && all == received + Span(e.offset, |e.data|)
    requires e.ReadCall? ==> v == ReadOnce(s, e.n).0 && all == received
    ensures Whole(v, all) <==> HarmlessStep(s, e)
  {
    match e
    case Arrive(offset, data, fin) => ArrivalKeepsWhole(s, received, offset, data, fin);
    case ReadCall(n) => SameData(s, v, all);
  }

  // ----- the two failures -----

  /** A chunk below the reassembly offset is never taken out of the pending data again. */
  lemma {:induction false} FlushKeepsStale(s: Recv, o: nat)
    requires o in s.pending && o < s.reassembly
    ensures o in Flush(s).pending && Flush(s).pending[o] == s.pending[o]
    decreases |s.pending|
  {
    if s.reassembly in s.pending {
      FlushKeepsStale(TakeNext(s), o);
    }
  }

  lemma StaleChunkStays(s: Recv, o: nat, offset: nat, data: seq<byte>, fin: bool)
    requires o in s.pending && o < s.reassembly
    ensures o in Handle(s, offset, data, fin).pending && o < Handle(s, offset, data, fin).reassembly
  {
    if offset + |data| <= s.reassembly {
      FlushKeepsStale(s, o);
    } else if offset == s.reassembly {
      FlushKeepsStale(Append(s, data, fin), o);
    }
  }

  /**
   Why delivery in full needs segments that do not overlap: of three bytes the last two arrive,
   then the first two. All are there, but the third is never delivered.
   */
  lemma OverlapIsStuck(a: byte, b: byte, c: byte)
    ensures var s := Handle(Handle(NEW_RECV, 1, [b, c], false), 0, [a, b], false);
            && s.readBuf == [a, b] && s.reassembly == 2
            && 1 in s.pending && s.pending[1] == [b, c]
  {
    var t := Handle(NEW_RECV, 1, [b, c], false);
    assert t.pending == map[1 := [b, c]];
    var u := Append(t, [a, b], false);
    assert u.reassembly == 2 && 2 !in u.pending;
    assert Flush(u) == u;
  }

  /**
   A shorter segment replaces a longer one: two bytes arrive at 1, the first of them again, then
   the byte at 0. All three are received, and the third is held nowhere any more.
   */
  lemma ShorterReplaces(a: byte, b: byte, c: byte)
    ensures var s := Handle(Handle(Handle(NEW_RECV, 1, [b, c], false), 1, [b], false), 0, [a], false);
            && s.readBuf == [a, b] && s.reassembly == 2 && s.pending == map[] && !Has(s, 2)
  {
    var t := Handle(Handle(NEW_RECV, 1, [b, c], false), 1, [b], false);
    assert t.pending == map[1 := [b]];
    var u := Append(t, [a], false);
    var v := TakeNext(u);
    assert v.pending == map[] && Flush(v) == v && Flush(u) == v;
  }
}
