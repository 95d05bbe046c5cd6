/** Frames and the payload loop (wire/frame.go and the small frame files; conn.go parseAndHandleFrames). */
module Frames {
  import opened Bytes
  import opened Varint
  import AckFrame
  import StreamFrame

  type bytes8 = s: seq<byte> | |s| == 8 witness [0, 0, 0, 0, 0, 0, 0, 0]

  datatype Frame =
    | Padding(length: nat)
    | Ping
    | Ack(ack: AckFrame.Ack)
    | ResetStream(id: nat, code: nat, finalSize: nat)
    | StopSending(id: nat, code: nat)
    | Crypto(offset: nat, data: seq<byte>)
    | Stream(stream: StreamFrame.Stream)
    | MaxData(maximum: nat)
    | MaxStreamData(id: nat, maximum: nat)
    | MaxStreams(uni: bool, count: nat)
    | DataBlocked(maximum: nat)
    | StreamDataBlocked(id: nat, maximum: nat)
    | StreamsBlocked(uni: bool, count: nat)
    | PathChallenge(token: bytes8)
    | PathResponse(token: bytes8)
    | ConnectionClose(isApplication: bool, code: nat, reason: seq<byte>)

  // ----- appending -----

  /** Append fails only for an ACK without ranges. */
  predicate Appendable(f: Frame) {
    f.Ack? ==> f.ack.ranges != []
  }

  function Zeros(n: nat): (b: seq<byte>)
    ensures |b| == n && forall i :: 0 <= i < n ==> b[i] == 0
  {
    seq(n, _ => 0)
  }

  /** The frames that are a type byte, some integers and perhaps raw bytes. */
  predicate IsRecord(f: Frame) {
    !f.Padding? && !f.Ack? && !f.Stream?
  }

  function TypeByte(f: Frame): byte
    requires IsRecord(f)
  {
    match f
    case Ping => 0x01
    case ResetStream(_, _, _) => 0x04
    case StopSending(_, _) => 0x05
    case Crypto(_, _) => 0x06
    case MaxData(_) => 0x10
    case MaxStreamData(_, _) => 0x11
    case MaxStreams(uni, _) => if uni then 0x13 else 0x12
    case DataBlocked(_) => 0x14
    case StreamDataBlocked(_, _) => 0x15
    case StreamsBlocked(uni, _) => if uni then 0x17 else 0x16
    case PathChallenge(_) => 0x1a
    case PathResponse(_) => 0x1b
    case ConnectionClose(isApplication, _, _) => if isApplication then 0x1d else 0x1c
  }

  function Fields(f: Frame): seq<nat>
    requires IsRecord(f)
  {
    match f
    case Ping => []
    case ResetStream(id, code, finalSize) => [id, code, finalSize]
    case StopSending(id, code) => [id, code]
    case Crypto(offset, data) => [offset, |data|]
    case MaxData(maximum) => [maximum]
    case MaxStreamData(id, maximum) => [id, maximum]
    case MaxStreams(_, count) => [count]
    case DataBlocked(maximum) => [maximum]
    case StreamDataBlocked(id, maximum) => [id, maximum]
    case StreamsBlocked(_, count) => [count]
    case PathChallenge(_) => []
    case PathResponse(_) => []
    case ConnectionClose(isApplication, code, reason) =>
      // a transport close also names the triggering frame type, always 0 here
      if isApplication then [code, |reason|] else [code, 0, |reason|]
  }

  function Raw(f: Frame): seq<byte>
    requires IsRecord(f)
  {
    match f
    case Crypto(_, data) => data
    case PathChallenge(token) => token
    case PathResponse(token) => token
    case ConnectionClose(_, _, reason) => reason
    case _ => []
  }

  function Wrapped(vs: seq<nat>): seq<uint64> {
    seq(|vs|, i requires 0 <= i < |vs| => U64(vs[i]))
  }

  function RecordEncoding(f: Frame): seq<byte>
    requires IsRecord(f)
  {
    [TypeByte(f)] + Ints(Wrapped(Fields(f))) + Raw(f)
  }

  function Encoding(f: Frame): seq<byte>
    requires Appendable(f)
  {
    match f
    case Padding(length) => Zeros(length)
    case Ack(ack) => AckFrame.Encoding(ack)
    case Stream(stream) => StreamFrame.Encoding(stream)
    case _ => RecordEncoding(f)
  }

  // ----- parsing -----

  /** Where the run of zero bytes that starts at `start` ends. */
  function ZeroRun(data: seq<byte>, start: nat): (end: nat)
    requires start <= |data|
    ensures start <= end <= |data|
    ensures forall i :: start <= i < end ==> data[i] == 0
    ensures end < |data| ==> data[end] != 0
    decreases |data| - start
  {
    if start == |data| || data[start] != 0 then start else ZeroRun(data, start + 1)
  }

  method SkipPadding(data: seq<byte>, start: nat) returns (i: nat)
    requires start <= |data|
    ensures i == ZeroRun(data, start)
  {
    i := start;
    while i < |data| && data[i] == 0x00
      invariant start <= i <= |data|
      invariant forall j :: start <= j < i ==> data[j] == 0
    {
      i := i + 1;
    }
  }

  datatype RawKind = NoRaw | EightBytes | Counted

  /** What follows a type byte: some integers, then raw bytes counted by the last of them, eight raw bytes, or none. */
  datatype Shape = Shape(fields: nat, raw: RawKind)

  /** The record types the parser knows; the others are errors. */
  function ShapeOf(t: int): (r: Option<Shape>)
    ensures r.Some? && r.value.raw.Counted? ==> r.value.fields > 0
  {
    if t == 0x01 then Some(Shape(0, NoRaw))
    else if t == 0x04 then Some(Shape(3, NoRaw))
    else if t == 0x05 || t == 0x11 || t == 0x15 then Some(Shape(2, NoRaw))
    else if t == 0x10 || 0x12 <= t <= 0x14 || t == 0x16 || t == 0x17 then Some(Shape(1, NoRaw))
    else if t == 0x06 || t == 0x1d then Some(Shape(2, Counted))
    else if t == 0x1c then Some(Shape(3, Counted))
    else if t == 0x1a || t == 0x1b then Some(Shape(0, EightBytes))
    else None
  }

  function RawLength(shape: Shape, v: seq<nat>): int
    requires shape.raw.Counted? ==> |v| > 0
  {
    match shape.raw
    case NoRaw => 0
    case EightBytes => 8
    case Counted => v[|v| - 1]
  }

  function Build(t: int, v: seq<nat>, raw: seq<byte>): Frame
    requires ShapeOf(t).Some? && |v| == ShapeOf(t).value.fields
    requires ShapeOf(t).value.raw.EightBytes? ==> |raw| == 8
  {
    if t == 0x01 then Ping
    else if t == 0x04 then ResetStream(v[0], v[1], v[2])
    else if t == 0x05 then StopSending(v[0], v[1])
    else if t == 0x06 then Crypto(v[0], raw)
    else if t == 0x10 then MaxData(v[0])
    else if t == 0x11 then MaxStreamData(v[0], v[1])
    else if t == 0x12 || t == 0x13 then MaxStreams(t == 0x13, v[0])
    else if t == 0x14 then DataBlocked(v[0])
    else if t == 0x15 then StreamDataBlocked(v[0], v[1])
    else if t == 0x16 || t == 0x17 then StreamsBlocked(t == 0x17, v[0])
    else if t == 0x1a then PathChallenge(raw)
    else if t == 0x1b then PathResponse(raw)
    else ConnectionClose(t == 0x1d, v[0], raw)
  }

  /** Reads the integers and raw bytes of a record. */
  function ParseShape(data: seq<byte>, start: nat, shape: Shape): (r: Parsed<(seq<uint62>, seq<byte>)>)
    requires start <= |data| && (shape.raw.Counted? ==> shape.fields > 0)
    ensures r.Ok? ==> start <= r.next <= |data| && |r.value.0| == shape.fields
    ensures r.Ok? && shape.raw.EightBytes? ==> |r.value.1| == 8
  {
    var (v, offset) :- ParseInts(data, start, shape.fields);
    var rawLen := RawLength(shape, v);
    if offset + rawLen > |data| then Error
    else Ok((v, data[offset..offset + rawLen]), offset + rawLen)
  }

  /** The frames that are a type byte, integers and perhaps raw bytes. */
  function ParseRecord(data: seq<byte>, start: nat): (r: Parsed<Frame>)
    requires start < |data|
    ensures r.Ok? ==> start < r.next <= |data|
  {
    match ShapeOf(data[start])
    case None => Error
    case Some(shape) =>
      var (parts, end) :- ParseShape(data, start + 1, shape);
      Ok(Build(data[start], parts.0, parts.1), end)
  }

  /** Parses the frame that stands in data at start. */
  function ParseNext(data: seq<byte>, start: nat): (r: Parsed<Frame>)
    requires start <= |data|
    ensures r.Ok? ==> start < r.next <= |data|
  {
    if start == |data| then Error
    else
      var t: int := data[start];
      if t == 0x00 then Ok(Padding(ZeroRun(data, start) - start), ZeroRun(data, start))
      else if t == 0x02 || t == 0x03 then
        var (ack, end) :- AckFrame.Parse(data, start);
        Ok(Ack(ack), end)
      else if 0x08 <= t <= 0x0f then
        var (stream, end) :- StreamFrame.Parse(data, start);
        Ok(Stream(stream), end)
      else ParseRecord(data, start)
  }

  /** The types that have a frame: 0x00 to 0x06, 0x08 to 0x17 and 0x1a to 0x1d. */
  lemma KnownTypes(data: seq<byte>, start: nat)
    requires start < |data| && ParseNext(data, start).Ok?
    ensures 0x00 <= data[start] <= 0x06 || 0x08 <= data[start] <= 0x17 || 0x1a <= data[start] <= 0x1d
  {
  }

  /** The frames handled from offset on: all up to the first parse error. */
  function FramesFrom(data: seq<byte>, offset: nat): seq<Frame>
    requires offset <= |data|
    decreases |data| - offset
  {
    if offset == |data| then []
    else
      match ParseNext(data, offset)
      case Error => []
      case Ok(f, next) => [f] + FramesFrom(data, next)
  }

  /** The loop of the receiver. It ends on every input, since each frame consumes at least one byte. */
  method ParseAndHandleFrames(data: seq<byte>, start: nat) returns (handled: seq<Frame>)
    requires start <= |data|
    ensures handled == FramesFrom(data, start)
  {
    handled := [];
    var offset: nat := start;
    while offset < |data|
      invariant offset <= |data|
      invariant handled + FramesFrom(data, offset) == FramesFrom(data, start)
      decreases |data| - offset
    {
      var r := ParseNext(data, offset);
      if r.Error? {
        break;
      }
      offset := r.next;
      handled := handled + [r.value];
    }
  }

  // ----- round trips -----

  /** Values within the wire format; a padding frame has at least one byte. */
  predicate Sendable(f: Frame)
    ensures Sendable(f) ==> Appendable(f)
  {
    match f
    case Padding(length) => length > 0
    case Ack(ack) => AckFrame.Sendable(ack)
    case Stream(stream) => StreamFrame.Sendable(stream)
    case _ => forall i :: 0 <= i < |Fields(f)| ==> Fields(f)[i] < TWO_62
  }

  /** A receiver sees the same frame, except that an ACK delay is cut to whole milliseconds. */
  function Received(f: Frame): Frame {
    if f.Ack? then Ack(AckFrame.Received(f.ack)) else f
  }

  /** A length-less STREAM frame must end the packet, and padding must not run on. */
  predicate Delimited(f: Frame, data: seq<byte>, end: nat)
    requires end <= |data|
  {
    && (f.Padding? ==> end == |data| || data[end] != 0)
    && (f.Stream? && !f.stream.lenPresent ==> end == |data|)
  }

  /** The parser expects of each type byte what the frame writes after it. */
  lemma ShapeFits(f: Frame)
    requires IsRecord(f)
    ensures ShapeOf(TypeByte(f)).Some?
    ensures ShapeOf(TypeByte(f)).value.fields == |Fields(f)|
    ensures RawLength(ShapeOf(TypeByte(f)).value, Fields(f)) == |Raw(f)|
    ensures TypeByte(f) != 0 && TypeByte(f) != 2 && TypeByte(f) != 3 && !(0x08 <= TypeByte(f) <= 0x0f)
  {
  }

  /** Type byte, integers and raw bytes determine the frame. */
  lemma Rebuilt(f: Frame)
    requires IsRecord(f)
    ensures ShapeOf(TypeByte(f)).Some? && ShapeOf(TypeByte(f)).value.fields == |Fields(f)|
    ensures ShapeOf(TypeByte(f)).value.raw.EightBytes? ==> |Raw(f)| == 8
    ensures Build(TypeByte(f), Fields(f), Raw(f)) == f
  {
  }

  lemma ShapeParsed(data: seq<byte>, start: nat, shape: Shape, v: seq<uint64>, offset: nat, raw: seq<byte>)
    requires start <= |data| && |v| == shape.fields && (shape.raw.Counted? ==> shape.fields > 0)
    requires ParseInts(data, start, shape.fields) == Ok(v, offset)
    requires At(data, offset, raw) && |raw| == RawLength(shape, v)
    ensures ParseShape(data, start, shape) == Ok((v, raw), offset + |raw|)
  {
  }

  lemma RecordRoundTrip(f: Frame, data: seq<byte>, start: nat)
    requires IsRecord(f) && Sendable(f) && At(data, start, RecordEncoding(f))
    ensures start < |data| && data[start] == TypeByte(f)
    ensures ParseRecord(data, start) == Ok(f, start + |RecordEncoding(f)|)
  {
    ShapeFits(f);
    Rebuilt(f);
    FieldsInRange(f);
    PartsParsed(data, start, TypeByte(f), Fields(f), Raw(f));
  }

  lemma FieldsInRange(f: Frame)
    requires IsRecord(f) && Sendable(f)
    ensures forall i :: 0 <= i < |Fields(f)| ==> Fields(f)[i] < TWO_62
  {
  }

  lemma PartsParsed(data: seq<byte>, start: nat, t: byte, v: seq<nat>, raw: seq<byte>)
    requires forall i :: 0 <= i < |v| ==> v[i] < TWO_62
    requires At(data, start, [t] + Ints(Wrapped(v)) + raw)
    requires ShapeOf(t).Some? && ShapeOf(t).value.fields == |v| && RawLength(ShapeOf(t).value, v) == |raw|
    ensures start < |data| && data[start] == t
    ensures ParseShape(data, start + 1, ShapeOf(t).value) == Ok((v, raw), start + 1 + |Ints(Wrapped(v))| + |raw|)
  {
    AtParts(data, start, t, Ints(Wrapped(v)), raw);
    WrappedRoundTrip(v, data, start + 1);
    ShapeParsed(data, start + 1, ShapeOf(t).value, v, start + 1 + |Ints(Wrapped(v))|, raw);
  }

  lemma WrappedRoundTrip(v: seq<nat>, data: seq<byte>, offset: nat)
    requires forall i :: 0 <= i < |v| ==> v[i] < TWO_62
    requires At(data, offset, Ints(Wrapped(v)))
    ensures ParseInts(data, offset, |v|) == Ok(v, offset + |Ints(Wrapped(v))|)
  {
    var w: seq<uint62> := v;
    assert Wrapped(v) == w;
    IntsRoundTrip(data, offset, w);
  }

  lemma PaddingRoundTrip(n: nat, data: seq<byte>, start: nat)
    requires n > 0 && At(data, start, Zeros(n))
    requires start + n == |data| || data[start + n] != 0
    ensures data[start] == 0 && ZeroRun(data, start) == start + n
  {
    assert forall i :: start <= i < start + n ==> data[i] == data[start..start + n][i - start];
  }

  lemma StreamTypeByte(s: StreamFrame.Stream, data: seq<byte>, start: nat)
    requires At(data, start, StreamFrame.Encoding(s))
    ensures start < |data| && 0x08 <= data[start] <= 0x0f
  {
    AtParts(data, start, StreamFrame.TypeByte(s), Ints(StreamFrame.Fields(s)), s.data);
  }

  /** One frame is read back from where it stands in a packet. */
  lemma RoundTrip(f: Frame, data: seq<byte>, start: nat)
    requires Sendable(f) && At(data, start, Encoding(f))
    requires Delimited(f, data, start + |Encoding(f)|)
    ensures Encoding(f) != []
    ensures ParseNext(data, start) == Ok(Received(f), start + |Encoding(f)|)
  {
    if f.Padding? {
      PaddingRoundTrip(f.length, data, start);
    } else if f.Ack? {
      AckFrame.EncodingParts(data, start, 0x02, f.ack);
      AckFrame.RoundTrip(data, start, f.ack);
    } else if f.Stream? {
      StreamTypeByte(f.stream, data, start);
      StreamFrame.RoundTrip(data, start, f.stream);
    } else {
      ShapeFits(f);
      RecordRoundTrip(f, data, start);
    }
  }

  /** A type byte, some integers, and raw bytes. */
  function Laid(t: byte, ints: seq<byte>, raw: seq<byte>): seq<byte> { [t] + ints + raw }

  function Int64(x: nat): seq<byte> { Encode(U64(x)) }

  /** The layouts of section 19 of RFC 9000 but for padding, ACK and STREAM frames. */
  function Form(f: Frame): seq<byte>
    requires IsRecord(f)
  {
    match f
    case Ping => Laid(0x01, [], [])
    case ResetStream(id, code, finalSize) => Laid(0x04, Int64(id) + Int64(code) + Int64(finalSize), [])
    case StopSending(id, code) => Laid(0x05, Int64(id) + Int64(code), [])
    case Crypto(offset, data) => Laid(0x06, Int64(offset) + Int64(|data|), data)
    case MaxData(maximum) => Laid(0x10, Int64(maximum), [])
    case MaxStreamData(id, maximum) => Laid(0x11, Int64(id) + Int64(maximum), [])
    case MaxStreams(uni, count) => Laid(if uni then 0x13 else 0x12, Int64(count), [])
    case DataBlocked(maximum) => Laid(0x14, Int64(maximum), [])
    case StreamDataBlocked(id, maximum) => Laid(0x15, Int64(id) + Int64(maximum), [])
    case StreamsBlocked(uni, count) => Laid(if uni then 0x17 else 0x16, Int64(count), [])
    case PathChallenge(token) => Laid(0x1a, [], token)
    case PathResponse(token) => Laid(0x1b, [], token)
    case ConnectionClose(isApplication, code, reason) =>
      if isApplication then Laid(0x1d, Int64(code) + Int64(|reason|), reason)
      else Laid(0x1c, Int64(code) + Int64(0) + Int64(|reason|), reason)
  }

  lemma RecordForm(f: Frame, v: seq<nat>, ints: seq<byte>)
    requires IsRecord(f) && v == Fields(f)
    requires |v| == 0 ==> ints == []
    requires |v| == 1 ==> ints == Int64(v[0])
    requires |v| == 2 ==> ints == Int64(v[0]) + Int64(v[1])
    requires |v| == 3 ==> ints == Int64(v[0]) + Int64(v[1]) + Int64(v[2])
    ensures Laid(TypeByte(f), ints, Raw(f)) == Form(f)
  {
  }

  lemma FormExact(f: Frame)
    requires IsRecord(f)
    ensures Encoding(f) == Form(f)
  {
    IntsForm(Wrapped(Fields(f)));
    RecordForm(f, Fields(f), Ints(Wrapped(Fields(f))));
  }

  /** Frames that can stand in this order in one packet. */
  predicate CanonicalList(fs: seq<Frame>) {
    && (forall i :: 0 <= i < |fs| ==> Sendable(fs[i]))
    && (forall i :: 0 <= i < |fs| - 1 ==> fs[i].Padding? ==> !fs[i + 1].Padding?)
    && (forall i :: 0 <= i < |fs| - 1 ==> fs[i].Stream? ==> fs[i].stream.lenPresent)
  }

  /** The encodings of the frames of a packet. */
  function Parts(fs: seq<Frame>): (r: seq<seq<byte>>)
    requires forall i :: 0 <= i < |fs| ==> Appendable(fs[i])
    ensures |r| == |fs|
  {
    seq(|fs|, i requires 0 <= i < |fs| => Encoding(fs[i]))
  }

  function Concat(parts: seq<seq<byte>>): seq<byte> {
    if parts == [] then [] else parts[0] + Concat(parts[1..])
  }

  function Payload(fs: seq<Frame>): seq<byte>
    requires forall i :: 0 <= i < |fs| ==> Appendable(fs[i])
  {
    Concat(Parts(fs))
  }

  function ReceivedAll(fs: seq<Frame>): (r: seq<Frame>)
    ensures |r| == |fs| && forall i :: 0 <= i < |fs| ==> r[i] == Received(fs[i])
  {
    seq(|fs|, i requires 0 <= i < |fs| => Received(fs[i]))
  }

  lemma EndOfFrame(fs: seq<Frame>, k: nat, data: seq<byte>, next: nat)
    requires CanonicalList(fs) && k < |fs|
    requires if k + 1 < |fs| then At(data, next, Parts(fs)[k + 1]) else next == |data|
    ensures next <= |data| && Delimited(fs[k], data, next)
  {
    if k + 1 < |fs| {
      assert fs[k].Padding? ==> !fs[k + 1].Padding?;
      assert fs[k].Stream? ==> fs[k].stream.lenPresent;
      if fs[k].Padding? {
        FirstByte(fs[k + 1], data, next);
      }
    }
  }

  /** Frame k starts at offset; all that follows it is still to be handled. */
  lemma HandledNext(fs: seq<Frame>, k: nat, data: seq<byte>, offset: nat, next: nat)
    requires CanonicalList(fs) && k < |fs|
    requires At(data, offset, Parts(fs)[k]) && next == offset + |Parts(fs)[k]|
    requires if k + 1 < |fs| then At(data, next, Parts(fs)[k + 1]) else next == |data|
    ensures next <= |data|
    ensures FramesFrom(data, offset) == [Received(fs[k])] + FramesFrom(data, next)
  {
    EndOfFrame(fs, k, data, next);
    assert Sendable(fs[k]);
    RoundTrip(fs[k], data, offset);
    FirstFrame(data, offset, Received(fs[k]), next);
  }

  lemma FirstFrame(data: seq<byte>, start: nat, f: Frame, next: nat)
    requires start < next <= |data| && ParseNext(data, start) == Ok(f, next)
    ensures FramesFrom(data, start) == [f] + FramesFrom(data, next)
  {
  }

  /** The payload loop returns exactly the frames that were appended. */
  lemma PayloadRoundTrip(fs: seq<Frame>, data: seq<byte>, start: nat)
    requires CanonicalList(fs)
    requires At(data, start, Payload(fs)) && start + |Payload(fs)| == |data|
    ensures FramesFrom(data, start) == ReceivedAll(fs)
  {
    assert Parts(fs)[0..] == Parts(fs) && ReceivedAll(fs)[0..] == ReceivedAll(fs);
    SuffixRoundTrip(fs, 0, data, start);
  }

  lemma {:induction false} SuffixRoundTrip(fs: seq<Frame>, k: nat, data: seq<byte>, start: nat)
    requires CanonicalList(fs) && k <= |fs|
    requires At(data, start, Concat(Parts(fs)[k..])) && start + |Concat(Parts(fs)[k..])| == |data|
    ensures FramesFrom(data, start) == ReceivedAll(fs)[k..]
    decreases |fs| - k
  {
    if k < |fs| {
      var next := NextPart(Parts(fs), k, data, start);
      HandledNext(fs, k, data, start, next);
      SuffixRoundTrip(fs, k + 1, data, next);
      assert ReceivedAll(fs)[k..] == [Received(fs[k])] + ReceivedAll(fs)[k + 1..];
    }
  }

  /** Part k is here, and the rest of the data is the parts after it. */
  lemma NextPart(parts: seq<seq<byte>>, k: nat, data: seq<byte>, start: nat) returns (next: nat)
    requires k < |parts|
    requires At(data, start, Concat(parts[k..])) && start + |Concat(parts[k..])| == |data|
    ensures next == start + |parts[k]| && At(data, start, parts[k])
    ensures if k + 1 < |parts| then At(data, next, parts[k + 1]) else next == |data|
    ensures At(data, next, Concat(parts[k + 1..])) && next + |Concat(parts[k + 1..])| == |data|
  {
    next := start + |parts[k]|;
    HeadOfConcat(data, start, parts, k);
    if k + 1 < |parts| {
      HeadOfConcat(data, next, parts, k + 1);
    }
  }

  lemma HeadOfConcat(data: seq<byte>, start: nat, parts: seq<seq<byte>>, k: nat)
    requires k < |parts| && At(data, start, Concat(parts[k..]))
    ensures At(data, start, parts[k]) && At(data, start + |parts[k]|, Concat(parts[k + 1..]))
    ensures |Concat(parts[k..])| == |parts[k]| + |Concat(parts[k + 1..])|
    ensures k + 1 == |parts| ==> |Concat(parts[k + 1..])| == 0
  {
    assert parts[k..][1..] == parts[k + 1..];
    AtSplit(data, start, parts[k], Concat(parts[k + 1..]));
  }

  lemma FirstByte(f: Frame, data: seq<byte>, start: nat)
    requires Sendable(f) && !f.Padding? && At(data, start, Encoding(f))
    ensures start < |data| && data[start] != 0
  {
    if f.Ack? {
      AckFrame.EncodingParts(data, start, 0x02, f.ack);
    } else if f.Stream? {
      StreamTypeByte(f.stream, data, start);
    } else {
      ShapeFits(f);
      RecordRoundTrip(f, data, start);
    }
  }
}
