/** How a receiver turns the packet numbers it has recorded into ACK ranges (conn.go). */
module AckRanges {
  import opened Bytes
  import opened AckFrame

  const MAX_RANGES := 5
  const HISTORY_LIMIT := 1000

  // ----- recording -----

  /** recordReceivedPacket: only the newest numbers are kept, dropped a hundred at a time. */
  function Record(history: seq<nat>, pn: nat): (r: seq<nat>)
    ensures |history| + 1 - 100 <= |r| <= |history| + 1 && r == Last(history + [pn], |r|) && pn in r
    ensures |history| <= HISTORY_LIMIT ==> |r| <= HISTORY_LIMIT
    ensures |history| < HISTORY_LIMIT ==> r == history + [pn]
  {
    var longer := history + [pn];
    if |longer| > HISTORY_LIMIT then
      assert longer[100..][|longer| - 101] == pn;
      longer[100..]
    else
      assert longer[|longer| - 1] == pn;
      longer
  }

  function RecordAll(pns: seq<nat>): seq<nat> {
    if pns == [] then [] else Record(RecordAll(pns[..|pns| - 1]), pns[|pns| - 1])
  }

  /** How many of n recorded numbers are still there. */
  function KeptCount(n: nat): (k: nat)
    ensures Min(n, HISTORY_LIMIT - 99) <= k <= Min(n, HISTORY_LIMIT)
  {
    if n <= HISTORY_LIMIT then n else HISTORY_LIMIT - 99 + (n - HISTORY_LIMIT - 1) % 100
  }

  /** The same, number by number. */
  function Counted(n: nat): (k: nat)
    ensures k <= n && k <= HISTORY_LIMIT
  {
    if n == 0 then 0 else AfterOne(Counted(n - 1))
  }

  function AfterOne(k: nat): nat { if k == HISTORY_LIMIT then HISTORY_LIMIT - 99 else k + 1 }

  lemma {:induction false} CountedIs(n: nat)
    ensures Counted(n) == KeptCount(n)
  {
    if n > 0 {
      CountedIs(n - 1);
      NextCount(n - 1, (n - HISTORY_LIMIT - 2) % 100);
    }
  }

  lemma NextCount(n: nat, m: int)
    requires m == (n - HISTORY_LIMIT - 1) % 100
    ensures KeptCount(n + 1) == AfterOne(KeptCount(n))
  {
    assert (n - HISTORY_LIMIT) % 100 == if m == 99 then 0 else m + 1;
  }

  function Last(s: seq<nat>, k: nat): seq<nat>
    requires k <= |s|
  {
    s[|s| - k..]
  }

  /** Of all the numbers ever recorded exactly the newest KeptCount are there, in order of arrival. */
  lemma RecordedSuffix(pns: seq<nat>)
    ensures RecordAll(pns) == Last(pns, KeptCount(|pns|))
  {
    CountedIs(|pns|);
    RecordedByCount(pns);
  }

  /** That is all of the first thousand, and from then on 901 to 1000 of them, whole hundreds being dropped. */
  lemma RecordedCount(pns: seq<nat>) returns (k: nat)
    ensures k <= |pns| && RecordAll(pns) == pns[|pns| - k..]
    ensures if |pns| <= 1000 then k == |pns| else 901 <= k <= 1000 && (|pns| - k) % 100 == 0
  {
    k := CountKept(|pns|);
    RecordedByCount(pns);
  }

  lemma CountKept(n: nat) returns (k: nat)
    ensures k == Counted(n) <= n
    ensures if n <= 1000 then k == n else 901 <= k <= 1000 && (n - k) % 100 == 0
  {
    CountedIs(n);
    k := KeptCount(n);
    if n > 1000 {
      WholeHundreds(n, k);
    }
  }

  lemma WholeHundreds(n: nat, k: nat)
    requires n > 1000 && k == 901 + (n - 1001) % 100
    ensures 901 <= k <= 1000 && (n - k) % 100 == 0
  {
  }

  lemma {:induction false} RecordedByCount(pns: seq<nat>)
    ensures RecordAll(pns) == Last(pns, Counted(|pns|))
    decreases |pns|
  {
    if pns != [] {
      var before := pns[..|pns| - 1];
      RecordedByCount(before);
      RecordStep(pns, before, RecordAll(before), Counted(|before|));
    }
  }

  lemma RecordStep(pns: seq<nat>, before: seq<nat>, history: seq<nat>, k: nat)
    requires pns != [] && before == pns[..|pns| - 1]
    requires k <= |before| && k <= HISTORY_LIMIT && history == Last(before, k)
    ensures Record(history, pns[|pns| - 1]) == Last(pns, AfterOne(k))
  {
    var longer, n := history + [pns[|pns| - 1]], |before| - k;
    assert longer == pns[n..];
    if k == HISTORY_LIMIT {
      assert pns[n..][100..] == pns[n + 100..];
    }
  }

  // ----- sorting -----

  predicate Descending(s: seq<int>) {
    forall i, j :: 0 <= i < j < |s| ==> s[i] >= s[j]
  }

  /** The first i elements are in their final place: descending and not below any later one. */
  ghost predicate SortedUpTo(s: seq<int>, i: nat) {
    forall x, y :: 0 <= x < i && x < y < |s| ==> s[x] >= s[y]
  }

  lemma SwapKeeps(before: seq<int>, after: seq<int>, i: nat, j: nat)
    requires i < j < |before| && SortedUpTo(before, i)
    requires after == before[i := before[j]][j := before[i]]
    ensures SortedUpTo(after, i) && multiset(after) == multiset(before)
  {
  }

  /** The exchange sort of the source, in place. */
  method SortPacketNumbers(pns: array<int>)
    modifies pns
    ensures Descending(pns[..])
    ensures multiset(pns[..]) == multiset(old(pns[..]))
  {
    var n := pns.Length;
    for i := 0 to n
      invariant multiset(pns[..]) == multiset(old(pns[..]))
      invariant SortedUpTo(pns[..], i)
    {
      for j := i + 1 to n
        invariant multiset(pns[..]) == multiset(old(pns[..])) && SortedUpTo(pns[..], i)
        invariant forall y :: i <= y < j ==> pns[i] >= pns[y]
      {
        ExchangeIfLarger(pns, i, j);
      }
    }
  }

  /** One exchange: afterwards the larger of the two numbers is at i. */
  method ExchangeIfLarger(pns: array<int>, i: nat, j: nat)
    requires i < j < pns.Length && SortedUpTo(pns[..], i)
    modifies pns
    ensures multiset(pns[..]) == multiset(old(pns[..])) && SortedUpTo(pns[..], i)
    ensures pns[i] == Max(old(pns[i]), old(pns[j])) && pns[j] == Min(old(pns[i]), old(pns[j]))
    ensures forall k :: 0 <= k < pns.Length && k != i && k != j ==> pns[k] == old(pns[k])
  {
    if pns[j] > pns[i] {
      ghost var before := pns[..];
      pns[i], pns[j] := pns[j], pns[i];
      SwapKeeps(before, pns[..], i, j);
    }
  }

  // ----- building ranges -----

  predicate InRange(r: AckRange, pn: int) { r.smallest <= pn <= r.largest }

  predicate Covers(ranges: seq<AckRange>, pn: int) {
    exists i :: 0 <= i < |ranges| && InRange(ranges[i], pn)
  }

  /** Non-empty descending ranges separated by at least one number: no two could be merged. */
  predicate Maximal(ranges: seq<AckRange>) {
    && (forall i :: 0 <= i < |ranges| ==> ranges[i].smallest <= ranges[i].largest)
    && (forall i, j :: 0 <= i < j < |ranges| ==> ranges[j].largest <= ranges[i].smallest - 2)
  }

  /** Exactly the recorded numbers that are not below the last range. */
  ghost predicate Exact(ranges: seq<AckRange>, packets: seq<int>)
    requires ranges != []
  {
    forall pn :: Covers(ranges, pn) <==> pn in packets && pn >= ranges[|ranges| - 1].smallest
  }

  /** What buildAckRanges promises of its result. */
  ghost predicate AckRangesOf(ranges: seq<AckRange>, packets: seq<int>) {
    if packets == [] then ranges == []
    else 1 <= |ranges| <= 5 && Maximal(ranges) && Exact(ranges, packets)
         // numbers are left out only for lack of room
         && (|ranges| < 5 ==> forall pn :: pn in packets ==> Covers(ranges, pn))
  }

  method SortedCopy(packets: seq<int>) returns (sorted: seq<int>)
    ensures Descending(sorted) && |sorted| == |packets|
    ensures forall pn :: pn in sorted <==> pn in packets
  {
    var copy := new int[|packets|](i requires 0 <= i < |packets| => packets[i]);
    assert copy[..] == packets;
    SortPacketNumbers(copy);
    sorted := copy[..];
    assert forall pn :: pn in sorted <==> pn in multiset(sorted);
    assert forall pn :: pn in packets <==> pn in multiset(packets);
  }

  method BuildAckRanges(packets: seq<int>) returns (ranges: seq<AckRange>)
    ensures AckRangesOf(ranges, packets)
  {
    if |packets| == 0 {
      return [];
    }
    var sorted := SortedCopy(packets);
    ranges := GatherRanges(sorted);
    ghost var all := ranges;
    if |ranges| > MAX_RANGES {
      ranges := ranges[..MAX_RANGES];
    }
    Cut(all, sorted, |ranges|);
  }

  /** The pass over the sorted numbers. */
  method GatherRanges(sorted: seq<int>) returns (ranges: seq<AckRange>)
    requires sorted != [] && Descending(sorted)
    ensures ranges != [] && Gathered(ranges, sorted)
  {
    ranges := [];
    var current := AckRange(sorted[0], sorted[0]);
    assert Gathered([] + [current], sorted[..1]) by {
      assert ([] + [current])[0] == current;
    }
    var i := 1;
    while i < |sorted|
      invariant 1 <= i <= |sorted|
      invariant current.smallest == sorted[i - 1]
      invariant Gathered(ranges + [current], sorted[..i])
    {
      assert sorted[..i + 1] == sorted[..i] + [sorted[i]];
      assert sorted[i] <= sorted[i - 1];
      if sorted[i] == current.smallest - 1 {
        Extend(ranges, current, sorted[..i], sorted[i]);
        current := current.(smallest := sorted[i]);
      } else if sorted[i] < current.smallest - 1 {
        Split(ranges, current, sorted[..i], sorted[i]);
        ranges := ranges + [current];
        current := AckRange(sorted[i], sorted[i]);
      } else {
        Repeat(ranges, current, sorted[..i], sorted[i]);
      }
      i := i + 1;
    }
    assert sorted[..i] == sorted;
    ranges := ranges + [current];
  }

  /** The ranges found so far hold the numbers looked at so far, and nothing else. */
  ghost predicate Gathered(ranges: seq<AckRange>, packets: seq<int>) {
    Maximal(ranges) && forall pn :: Covers(ranges, pn) <==> pn in packets
  }

  lemma CoversSnoc(ranges: seq<AckRange>, r: AckRange, pn: int)
    ensures Covers(ranges + [r], pn) <==> Covers(ranges, pn) || InRange(r, pn)
  {
    var all := ranges + [r];
    assert all[|ranges|] == r;
    assert forall i :: 0 <= i < |ranges| ==> all[i] == ranges[i];
  }

  lemma Repeat(ranges: seq<AckRange>, current: AckRange, done: seq<int>, pn: int)
    requires Gathered(ranges + [current], done) && pn == current.smallest
    ensures Gathered(ranges + [current], done + [pn])
  {
    CoversSnoc(ranges, current, pn);
    assert (ranges + [current])[|ranges|] == current;
    assert Covers(ranges + [current], pn);
  }

  lemma Extend(ranges: seq<AckRange>, current: AckRange, done: seq<int>, pn: int)
    requires Gathered(ranges + [current], done) && pn == current.smallest - 1
    ensures Gathered(ranges + [current.(smallest := pn)], done + [pn])
  {
    var longer := current.(smallest := pn);
    var before, after := ranges + [current], ranges + [longer];
    assert before[|ranges|] == current && after[|ranges|] == longer;
    assert forall i :: 0 <= i < |ranges| ==> before[i] == ranges[i] && after[i] == ranges[i];
    forall x ensures Covers(after, x) <==> x in done + [pn] {
      CoversSnoc(ranges, current, x);
      CoversSnoc(ranges, longer, x);
      assert Covers(before, x) <==> x in done;
    }
  }

  lemma Split(ranges: seq<AckRange>, current: AckRange, done: seq<int>, pn: int)
    requires Gathered(ranges + [current], done) && pn < current.smallest - 1
    ensures Gathered(ranges + [current] + [AckRange(pn, pn)], done + [pn])
  {
    var before, next := ranges + [current], AckRange(pn, pn);
    var after := before + [next];
    assert before[|ranges|] == current && after[|before|] == next;
    assert forall i :: 0 <= i < |before| ==> after[i] == before[i];
    forall x ensures Covers(after, x) <==> x in done + [pn] {
      CoversSnoc(before, next, x);
      assert Covers(before, x) <==> x in done;
    }
  }

  lemma Cut(all: seq<AckRange>, packets: seq<int>, n: nat)
    requires Gathered(all, packets) && 1 <= n <= |all|
    ensures Maximal(all[..n]) && Exact(all[..n], packets)
    ensures n == |all| ==> forall pn :: pn in packets ==> Covers(all[..n], pn)
  {
    var kept := all[..n];
    assert forall i :: 0 <= i < n ==> kept[i] == all[i];
    forall pn ensures Covers(kept, pn) <==> pn in packets && pn >= kept[n - 1].smallest {
      if Covers(kept, pn) {
        var i :| 0 <= i < n && InRange(kept[i], pn);
        assert InRange(all[i], pn);
        assert Covers(all, pn);
      }
      if pn in packets && pn >= kept[n - 1].smallest {
        assert Covers(all, pn);
        var i :| 0 <= i < |all| && InRange(all[i], pn);
        assert InRange(kept[i], pn);
      }
    }
  }

  /** Ranges built from packet numbers can be put on the wire. */
  lemma MaximalIsCanonical(ranges: seq<AckRange>, packets: seq<int>)
    requires AckRangesOf(ranges, packets) && packets != []
    requires forall pn :: pn in packets ==> 0 <= pn < TWO_62
    ensures Canonical(ranges)
  {
    forall i | 0 <= i < |ranges|
      ensures 0 <= ranges[i].smallest <= ranges[i].largest < TWO_62
    {
      assert InRange(ranges[i], ranges[i].smallest) && InRange(ranges[i], ranges[i].largest);
      assert Covers(ranges, ranges[i].smallest) && Covers(ranges, ranges[i].largest);
    }
  }

  /**
   An acknowledgement made from the recorded numbers reaches the sender unchanged: whatever
   order and duplicates were recorded, and whatever else is in the packet, the ranges parsed
   from the wire cover exactly the recorded numbers from the last kept range up.
   */
  lemma AcknowledgesExactly(data: seq<byte>, start: nat, ranges: seq<AckRange>, packets: seq<int>, delay: int)
    requires AckRangesOf(ranges, packets) && packets != []
    requires forall pn :: pn in packets ==> 0 <= pn < TWO_62
    requires 0 <= delay < TWO_63
    requires At(data, start, Encoding(Ack(ranges, delay)))
    ensures Parse(data, start) == Ok(Received(Ack(ranges, delay)), start + |Encoding(Ack(ranges, delay))|)
    ensures Exact(Parse(data, start).value.ranges, packets)
  {
    MaximalIsCanonical(ranges, packets);
    RoundTrip(data, start, Ack(ranges, delay));
  }
}
