/** ACK frames (wire/ack_frame.go; section 19.3 of RFC 9000). */
module AckFrame {
  import opened Bytes
  import opened Varint

  // packet numbers are signed 64-bit integers
  datatype AckRange = AckRange(smallest: int, largest: int)

  /** The delay is in nanoseconds. */
  datatype Ack = Ack(ranges: seq<AckRange>, delay: int)

  /** Non-empty ranges of packet numbers, descending, with at least one number missing between two. */
  predicate Canonical(ranges: seq<AckRange>) {
    && (forall i :: 0 <= i < |ranges| ==> 0 <= ranges[i].smallest <= ranges[i].largest < TWO_62)
    && (forall i :: 0 <= i < |ranges| - 1 ==> ranges[i + 1].largest <= ranges[i].smallest - 2)
  }

  /** Whole milliseconds of a duration, rounded toward zero. */
  function Milliseconds(delay: int): int {
    if delay >= 0 then delay / 1_000_000 else -(-delay / 1_000_000)
  }

  /** The integers after the type byte: four for the head, then a gap and a length for each further range. */
  function Fields(f: Ack): seq<uint64>
    requires f.ranges != []
  {
    HeadFields(f) + RangeFields(f.ranges[0], f.ranges[1..])
  }

  function HeadFields(f: Ack): seq<uint64>
    requires f.ranges != []
  {
    [U64(f.ranges[0].largest), U64(Milliseconds(f.delay)), U64(|f.ranges| - 1),
     U64(f.ranges[0].largest - f.ranges[0].smallest)]
  }

  function PairFields(prev: AckRange, r: AckRange): seq<uint64> {
    [U64(prev.smallest - r.largest - 2), U64(r.largest - r.smallest)]
  }

  function RangeFields(prev: AckRange, rest: seq<AckRange>): seq<uint64>
    decreases |rest|
  {
    if rest == [] then [] else PairFields(prev, rest[0]) + RangeFields(rest[0], rest[1..])
  }

  function Encoding(f: Ack): (b: seq<byte>)
    requires f.ranges != []
  {
    [0x02] + Ints(Fields(f))
  }

  lemma {:induction false} RangeFieldsSnoc(prev: AckRange, rest: seq<AckRange>, r: AckRange)
    ensures RangeFields(prev, rest + [r])
            == RangeFields(prev, rest) + PairFields(if rest == [] then prev else rest[|rest| - 1], r)
    decreases |rest|
  {
    if rest == [] {
      assert rest + [r] == [r];
    } else {
      assert (rest + [r])[1..] == rest[1..] + [r];
      RangeFieldsSnoc(rest[0], rest[1..], r);
    }
  }

  /** The fields written once the first i ranges are out. */
  function Written(f: Ack, i: nat): seq<uint64>
    requires 1 <= i <= |f.ranges|
  {
    HeadFields(f) + RangeFields(f.ranges[0], f.ranges[1..i])
  }

  lemma PairBytes(prev: AckRange, r: AckRange)
    ensures Ints(PairFields(prev, r))
            == Encode(U64(prev.smallest - r.largest - 2)) + Encode(U64(r.largest - r.smallest))
  {
    var v := PairFields(prev, r);
    assert v[1..] == [v[1]] && v[1..][1..] == [];
    assert Ints(v[1..]) == Encode(v[1]) + Ints([]);
  }

  lemma HeadBytes(f: Ack)
    requires f.ranges != []
    ensures var v := HeadFields(f);
            Ints(v) == Encode(v[0]) + Encode(v[1]) + Encode(v[2]) + Encode(v[3])
  {
    var v := HeadFields(f);
    IntsConcat([v[0]], [v[1]]);
    IntsConcat([v[0], v[1]], [v[2]]);
    IntsConcat([v[0], v[1], v[2]], [v[3]]);
    assert [v[0]] + [v[1]] == [v[0], v[1]];
    assert [v[0], v[1]] + [v[2]] == [v[0], v[1], v[2]];
    assert [v[0], v[1], v[2]] + [v[3]] == v;
    forall x: uint64 ensures Ints([x]) == Encode(x) {
      assert [x][1..] == [];
    }
  }

  lemma WrittenStep(f: Ack, i: nat)
    requires 1 <= i < |f.ranges|
    ensures Ints(Written(f, i + 1))
            == Ints(Written(f, i)) + Encode(U64(f.ranges[i - 1].smallest - f.ranges[i].largest - 2))
               + Encode(U64(f.ranges[i].largest - f.ranges[i].smallest))
  {
    var pair := PairFields(f.ranges[i - 1], f.ranges[i]);
    assert f.ranges[1..i + 1] == f.ranges[1..i] + [f.ranges[i]];
    RangeFieldsSnoc(f.ranges[0], f.ranges[1..i], f.ranges[i]);
    assert Written(f, i + 1) == Written(f, i) + pair;
    IntsConcat(Written(f, i), pair);
    PairBytes(f.ranges[i - 1], f.ranges[i]);
  }

  lemma WrittenEnds(f: Ack)
    requires f.ranges != []
    ensures Written(f, 1) == HeadFields(f)
    ensures Written(f, |f.ranges|) == Fields(f)
  {
    assert f.ranges[1..1] == [];
    assert f.ranges[1..|f.ranges|] == f.ranges[1..];
  }

  /** Appends the frame to b; a frame without ranges is refused. */
  method Append(b: seq<byte>, f: Ack) returns (r: Option<seq<byte>>)
    ensures f.ranges == [] ==> r == None
    ensures f.ranges != [] ==> r == Some(b + Encoding(f))
  {
    if |f.ranges| == 0 {
      return None;
    }
    var v := HeadFields(f);
    var out := Encode(v[0]) + Encode(v[1]) + Encode(v[2]) + Encode(v[3]);
    HeadBytes(f);
    WrittenEnds(f);
    var i := 1;
    while i < |f.ranges|
      invariant 1 <= i <= |f.ranges|
      invariant out == Ints(Written(f, i))
    {
      WrittenStep(f, i);
      var gap := U64(f.ranges[i - 1].smallest - f.ranges[i].largest - 2);
      out := out + Encode(gap);
      var blockLen := U64(f.ranges[i].largest - f.ranges[i].smallest);
      out := out + Encode(blockLen);
      i := i + 1;
    }
    r := Some(b + ([0x02] + out));
  }

  /** The size Append will add. */
  method Length(f: Ack) returns (length: nat)
    requires f.ranges != []
    ensures length == |Encoding(f)|
  {
    length := 1;
    var v := HeadFields(f);
    length := length + Len(v[0]) + Len(v[1]) + Len(v[2]) + Len(v[3]);
    HeadBytes(f);
    WrittenEnds(f);
    var i := 1;
    while i < |f.ranges|
      invariant 1 <= i <= |f.ranges|
      invariant length == 1 + |Ints(Written(f, i))|
    {
      WrittenStep(f, i);
      length := length + Len(U64(f.ranges[i - 1].smallest - f.ranges[i].largest - 2));
      length := length + Len(U64(f.ranges[i].largest - f.ranges[i].smallest));
      i := i + 1;
    }
  }

  /** The layout with one range: its largest number, the delay in milliseconds, no further range, its length. */
  lemma OneRangeForm(r: AckRange, delay: int)
    requires 0 <= r.smallest <= r.largest < TWO_62 && 0 <= delay < TWO_63
    ensures Encoding(Ack([r], delay))
            == [0x02] + Encode(r.largest) + Encode(delay / 1_000_000) + Encode(0) + Encode(r.largest - r.smallest)
  {
    var f := Ack([r], delay);
    HeadBytes(f);
    assert f.ranges[0] == r && f.ranges[1..] == [];
    assert Fields(f) == HeadFields(f);
  }

  lemma PairForm(last: AckRange, r: AckRange)
    requires 0 <= r.smallest <= r.largest <= last.smallest - 2 && last.smallest < TWO_62
    ensures Ints(PairFields(last, r)) == Encode(last.smallest - r.largest - 2) + Encode(r.largest - r.smallest)
  {
    PairBytes(last, r);
  }

  /** Each further range adds how many numbers less one are missing above it and its own length. */
  lemma NextRangeForm(ranges: seq<AckRange>, last: AckRange, r: AckRange)
    requires ranges != [] && last == ranges[|ranges| - 1]
    requires 0 <= r.smallest <= r.largest <= last.smallest - 2 && last.smallest < TWO_62
    ensures Ints(RangeFields(ranges[0], ranges[1..] + [r]))
            == Ints(RangeFields(ranges[0], ranges[1..])) + Encode(last.smallest - r.largest - 2)
               + Encode(r.largest - r.smallest)
  {
    RangeFieldsSnoc(ranges[0], ranges[1..], r);
    IntsConcat(RangeFields(ranges[0], ranges[1..]), PairFields(last, r));
    PairForm(last, r);
  }

  // ----- parsing -----

  function NextRange(prev: AckRange, gap: int, blockLen: int): AckRange {
    AckRange(I64(prev.smallest - gap - 2 - blockLen), I64(prev.smallest - gap - 2))
  }

  /** Reads n further ranges below prev; the result starts with prev. */
  function ParseRanges(data: seq<byte>, offset: nat, n: nat, prev: AckRange): (r: Parsed<seq<AckRange>>)
    requires offset <= |data|
    ensures r.Ok? ==> |r.value| == n + 1 && offset <= r.next <= |data|
    decreases n
  {
    if n == 0 then Ok([prev], offset)
    else
      var (v, off) :- ParseInts(data, offset, 2);
      var (rest, end) :- ParseRanges(data, off, n - 1, NextRange(prev, v[0], v[1]));
      Ok([prev] + rest, end)
  }

  /** The range the head of the frame describes. */
  function FirstRange(head: seq<uint62>): AckRange
    requires |head| == 4
  {
    AckRange(I64(head[0] as int - head[3] as int), head[0])
  }

  function Nanoseconds(milliseconds: int): int { I64(milliseconds * 1_000_000) }

  /** Parses the frame that stands in data at start. */
  function Parse(data: seq<byte>, start: nat): (r: Parsed<Ack>)
    requires start <= |data|
    ensures r.Ok? ==> start < r.next <= |data| && r.value.ranges != []
  {
    if start == |data| || (data[start] != 0x02 && data[start] != 0x03) then Error
    else
      var (head, next) :- ParseInts(data, start + 1, 4);
      var (ranges, end) :- ParseRanges(data, next, head[2], FirstRange(head));
      Ok(Ack(ranges, Nanoseconds(head[1])), end)
  }

  /** The outcome still to come after `ranges` have been read and n more are announced. */
  function Remaining(data: seq<byte>, offset: nat, n: nat, ranges: seq<AckRange>): Parsed<seq<AckRange>>
    requires ranges != [] && offset <= |data|
  {
    match ParseRanges(data, offset, n, ranges[|ranges| - 1])
    case Ok(rest, end) => Ok(ranges[..|ranges| - 1] + rest, end)
    case Error => Error
  }

  lemma RemainingStart(data: seq<byte>, offset: nat, n: nat, first: AckRange)
    requires offset <= |data|
    ensures Remaining(data, offset, n, [first]) == ParseRanges(data, offset, n, first)
  {
    var whole := ParseRanges(data, offset, n, first);
    if whole.Ok? {
      assert [first][..0] + whole.value == whole.value;
    }
  }

  lemma RemainingStep(data: seq<byte>, offset: nat, n: nat, ranges: seq<AckRange>)
    requires ranges != [] && offset <= |data|
    ensures n == 0 ==> Remaining(data, offset, n, ranges) == Ok(ranges, offset)
    ensures n > 0 ==> Remaining(data, offset, n, ranges)
                      == match ParseInts(data, offset, 2)
                         case Ok(v, off) =>
                           Remaining(data, off, n - 1, ranges + [NextRange(ranges[|ranges| - 1], v[0], v[1])])
                         case Error => Error
  {
    var last := ranges[|ranges| - 1];
    assert ranges[..|ranges| - 1] + [last] == ranges;
    if n > 0 && ParseInts(data, offset, 2).Ok? {
      var v, off := ParseInts(data, offset, 2).value, ParseInts(data, offset, 2).next;
      var longer := ranges + [NextRange(last, v[0], v[1])];
      var after := ParseRanges(data, off, n - 1, NextRange(last, v[0], v[1]));
      assert longer[..|longer| - 1] == ranges;
      if after.Ok? {
        assert ranges[..|ranges| - 1] + ([last] + after.value) == ranges + after.value;
      }
    }
  }

  /** The loop of the parser: a moving offset and a growing list of ranges. */
  method ParseMoreRanges(data: seq<byte>, start: nat, numRanges: nat, first: AckRange)
    returns (r: Parsed<seq<AckRange>>)
    requires start <= |data|
    ensures r == ParseRanges(data, start, numRanges, first)
  {
    var offset: nat := start;
    var ranges := [first];
    RemainingStart(data, offset, numRanges, first);
    for i := 0 to numRanges
      invariant ranges != [] && offset <= |data|
      invariant Remaining(data, offset, numRanges - i, ranges) == ParseRanges(data, start, numRanges, first)
    {
      RemainingStep(data, offset, numRanges - i, ranges);
      var pair := ParseInts(data, offset, 2);
      if pair.Error? {
        return Error;
      }
      offset := pair.next;
      ranges := ranges + [NextRange(ranges[|ranges| - 1], pair.value[0], pair.value[1])];
    }
    RemainingStep(data, offset, 0, ranges);
    r := Ok(ranges, offset);
  }

  method ParseAckFrame(data: seq<byte>, start: nat) returns (r: Parsed<Ack>)
    requires start <= |data|
    ensures r == Parse(data, start)
  {
    if |data| - start < 1 {
      return Error;
    }
    if data[start] != 0x02 && data[start] != 0x03 {
      return Error;
    }
    var head := ParseInts(data, start + 1, 4);
    if head.Error? {
      return Error;
    }
    var more := ParseMoreRanges(data, head.next, head.value[2], FirstRange(head.value));
    if more.Error? {
      return Error;
    }
    r := Ok(Ack(more.value, Nanoseconds(head.value[1])), more.next);
  }

  lemma OneRangeParsed(data: seq<byte>, offset: nat, prev: AckRange, r: AckRange)
    requires Canonical([prev, r])
    requires At(data, offset, Ints(PairFields(prev, r)))
    ensures ParseInts(data, offset, 2) == Ok(PairFields(prev, r), offset + |Ints(PairFields(prev, r))|)
    ensures NextRange(prev, PairFields(prev, r)[0], PairFields(prev, r)[1]) == r
  {
    var both := [prev, r];
    assert both[0] == prev && both[1] == r;
    assert both[1].largest <= both[0].smallest - 2;
    var pair: seq<uint62> := [prev.smallest - r.largest - 2, r.largest - r.smallest];
    assert pair == PairFields(prev, r);
    IntsRoundTrip(data, offset, pair);
  }

  lemma RangeFieldsSplit(data: seq<byte>, offset: nat, prev: AckRange, rest: seq<AckRange>)
    requires rest != [] && At(data, offset, Ints(RangeFields(prev, rest)))
    ensures var pair, after := Ints(PairFields(prev, rest[0])), Ints(RangeFields(rest[0], rest[1..]));
            && At(data, offset, pair)
            && At(data, offset + |pair|, after)
            && |Ints(RangeFields(prev, rest))| == |pair| + |after|
  {
    IntsConcat(PairFields(prev, rest[0]), RangeFields(rest[0], rest[1..]));
    AtSplit(data, offset, Ints(PairFields(prev, rest[0])), Ints(RangeFields(rest[0], rest[1..])));
  }

  lemma ParseRangesStep(data: seq<byte>, offset: nat, pair: seq<uint64>, next: nat, prev: AckRange,
                        rest: seq<AckRange>, end: nat)
    requires offset <= |data| && next <= |data| && rest != [] && |pair| == 2
    requires ParseInts(data, offset, 2) == Ok(pair, next)
    requires NextRange(prev, pair[0], pair[1]) == rest[0]
    requires ParseRanges(data, next, |rest| - 1, rest[0]) == Ok(rest, end)
    ensures ParseRanges(data, offset, |rest|, prev) == Ok([prev] + rest, end)
  {
  }

  lemma RangesStep(data: seq<byte>, offset: nat, prev: AckRange, rest: seq<AckRange>, next: nat, end: nat)
    requires rest != [] && Canonical([prev, rest[0]]) && At(data, offset, Ints(PairFields(prev, rest[0])))
    requires next == offset + |Ints(PairFields(prev, rest[0]))|
    requires ParseRanges(data, next, |rest| - 1, rest[0]) == Ok([rest[0]] + rest[1..], end)
    ensures ParseRanges(data, offset, |rest|, prev) == Ok([prev] + rest, end)
  {
    OneRangeParsed(data, offset, prev, rest[0]);
    assert [rest[0]] + rest[1..] == rest;
    ParseRangesStep(data, offset, PairFields(prev, rest[0]), next, prev, rest, end);
  }

  lemma {:induction false} RangesRoundTrip(data: seq<byte>, offset: nat, prev: AckRange, rest: seq<AckRange>)
    requires Canonical([prev] + rest)
    requires At(data, offset, Ints(RangeFields(prev, rest)))
    ensures ParseRanges(data, offset, |rest|, prev)
            == Ok([prev] + rest, offset + |Ints(RangeFields(prev, rest))|)
    decreases |rest|
  {
    if rest == [] {
      assert [prev] + rest == [prev];
    } else {
      var first, others := rest[0], rest[1..];
      CanonicalParts(prev, rest);
      RangeFieldsSplit(data, offset, prev, rest);
      var next := offset + |Ints(PairFields(prev, first))|;
      RangesRoundTrip(data, next, first, others);
      RangesStep(data, offset, prev, rest, next, offset + |Ints(RangeFields(prev, rest))|);
    }
  }

  lemma CanonicalParts(prev: AckRange, rest: seq<AckRange>)
    requires rest != [] && Canonical([prev] + rest)
    ensures Canonical([prev, rest[0]])
    ensures Canonical([rest[0]] + rest[1..])
  {
    var all := [prev] + rest;
    assert all[0] == prev && all[1] == rest[0];
    assert [rest[0]] + rest[1..] == all[1..];
    assert forall i :: 0 <= i < |rest| ==> all[1..][i] == all[i + 1];
  }

  /** What a receiver recovers: the same ranges, and the delay cut to whole milliseconds. */
  function Received(f: Ack): Ack { f.(delay := Milliseconds(f.delay) * 1_000_000) }

  /** Frames whose fields fit their wire form. */
  predicate Sendable(f: Ack) {
    && f.ranges != [] && |f.ranges| < TWO_62
    && Canonical(f.ranges)
    && 0 <= f.delay < TWO_63
  }

  /**
   An ACK with canonical ranges survives the wire whatever stands around it, and the parser
   consumes exactly the bytes Append wrote.
   */
  lemma RoundTrip(data: seq<byte>, start: nat, f: Ack)
    requires Sendable(f) && At(data, start, Encoding(f))
    ensures Parse(data, start) == Ok(Received(f), start + |Encoding(f)|)
  {
    TypedRoundTrip(data, start, 0x02, f);
  }

  /** Both types are read, and of type 3 no more than of type 2: the ECN counts are left standing. */
  lemma TypedRoundTrip(data: seq<byte>, start: nat, t: byte, f: Ack)
    requires Sendable(f) && (t == 0x02 || t == 0x03) && At(data, start, [t] + Ints(Fields(f)))
    ensures Parse(data, start) == Ok(Received(f), start + |Encoding(f)|)
  {
    var next := HeadParsed(data, start, t, f);
    AfterHead(data, next, f.ranges);
    ParseFromParts(data, start, HeadFields(f), next, f.ranges, start + |Encoding(f)|);
  }

  /** The head is parsed, and the further ranges follow up to the end of the frame. */
  lemma HeadParsed(data: seq<byte>, start: nat, t: byte, f: Ack) returns (next: nat)
    requires Sendable(f) && At(data, start, [t] + Ints(Fields(f)))
    ensures start < |data| && data[start] == t && next <= |data|
    ensures var v := HeadFields(f);
            && ParseInts(data, start + 1, 4) == Ok(v, next)
            && v[2] == |f.ranges| - 1
            && FirstRange(ParseInts(data, start + 1, 4).value) == f.ranges[0]
            && Nanoseconds(v[1]) == Milliseconds(f.delay) * 1_000_000
    ensures var rest := Ints(RangeFields(f.ranges[0], f.ranges[1..]));
            At(data, next, rest) && next + |rest| == start + |Encoding(f)|
  {
    next := start + 1 + |Ints(HeadFields(f))|;
    EncodingParts(data, start, t, f);
    HeadRoundTrip(data, start + 1, f);
  }

  lemma AfterHead(data: seq<byte>, offset: nat, ranges: seq<AckRange>)
    requires ranges != [] && Canonical(ranges)
    requires At(data, offset, Ints(RangeFields(ranges[0], ranges[1..])))
    ensures ParseRanges(data, offset, |ranges| - 1, ranges[0])
            == Ok(ranges, offset + |Ints(RangeFields(ranges[0], ranges[1..]))|)
  {
    assert [ranges[0]] + ranges[1..] == ranges;
    RangesRoundTrip(data, offset, ranges[0], ranges[1..]);
  }

  lemma EncodingParts(data: seq<byte>, start: nat, t: byte, f: Ack)
    requires f.ranges != [] && At(data, start, [t] + Ints(Fields(f)))
    ensures var head, rest := Ints(HeadFields(f)), Ints(RangeFields(f.ranges[0], f.ranges[1..]));
            && data[start] == t
            && At(data, start + 1, head)
            && At(data, start + 1 + |head|, rest)
            && |Encoding(f)| == 1 + |head| + |rest|
  {
    IntsConcat(HeadFields(f), RangeFields(f.ranges[0], f.ranges[1..]));
    AtParts(data, start, t, Ints(HeadFields(f)), Ints(RangeFields(f.ranges[0], f.ranges[1..])));
  }

  lemma ParseFromParts(data: seq<byte>, start: nat, head: seq<uint64>, next: nat, ranges: seq<AckRange>, end: nat)
    requires start < |data| && (data[start] == 0x02 || data[start] == 0x03) && next <= |data| && ranges != []
    requires |head| == 4 && head[2] == |ranges| - 1
    requires ParseInts(data, start + 1, 4) == Ok(head, next)
    requires FirstRange(ParseInts(data, start + 1, 4).value) == ranges[0]
    requires ParseRanges(data, next, |ranges| - 1, ranges[0]) == Ok(ranges, end)
    ensures Parse(data, start) == Ok(Ack(ranges, Nanoseconds(head[1])), end)
  {
  }

  lemma HeadRoundTrip(data: seq<byte>, offset: nat, f: Ack)
    requires Sendable(f)
    requires At(data, offset, Ints(HeadFields(f)))
    ensures var v := HeadFields(f);
            && ParseInts(data, offset, 4) == Ok(v, offset + |Ints(v)|)
            && v[2] == |f.ranges| - 1
            && FirstRange(ParseInts(data, offset, 4).value) == f.ranges[0]
            && Nanoseconds(v[1]) == Milliseconds(f.delay) * 1_000_000
  {
    var first := f.ranges[0];
    var head: seq<uint62> := [first.largest, f.delay / 1_000_000, |f.ranges| - 1, first.largest - first.smallest];
    assert head == HeadFields(f);
    IntsRoundTrip(data, offset, head);
  }
}
