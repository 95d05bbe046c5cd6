/** STREAM frames (wire/stream_frame.go; section 19.8 of RFC 9000). */
module StreamFrame {
  import opened Bytes
  import opened Varint

  datatype Stream = Stream(id: nat, offset: nat, data: seq<byte>, fin: bool, lenPresent: bool)

  /** Values the wire format can carry. */
  predicate Sendable(s: Stream) {
    s.id < TWO_62 && s.offset < TWO_62 && |s.data| < TWO_62
  }

  function Bit(b: bool): int { if b then 1 else 0 }

  function TypeByte(s: Stream): byte {
    0x08 + Bit(s.fin) + 2 * Bit(s.lenPresent) + 4 * Bit(s.offset > 0)
  }

  /** The integers between the type byte and the data. */
  function Fields(s: Stream): seq<uint64> {
    [U64(s.id)] + (if s.offset > 0 then [U64(s.offset)] else []) + (if s.lenPresent then [U64(|s.data|)] else [])
  }

  function Encoding(s: Stream): seq<byte> {
    [TypeByte(s)] + Ints(Fields(s)) + s.data
  }

  /** Parses the frame that stands in data at start; without a length it reaches to the end. */
  function Parse(data: seq<byte>, start: nat): (r: Parsed<Stream>)
    requires start <= |data|
    ensures r.Ok? ==> start < r.next <= |data|
  {
    if start == |data| || data[start] as int / 8 != 1 then Error
    else
      var fin := data[start] as int % 2 == 1;
      var lenPresent := data[start] as int / 2 % 2 == 1;
      var hasOffset := data[start] as int / 4 % 2 == 1;
      var (v, offset) :- ParseInts(data, start + 1, 1 + Bit(hasOffset) + Bit(lenPresent));
      var dataLen: int := if lenPresent then v[|v| - 1] else |data| - offset;
      if offset + dataLen > |data| then Error
      else
        Ok(Stream(v[0], if hasOffset then v[1] else 0, data[offset..offset + dataLen], fin, lenPresent),
           offset + dataLen)
  }

  lemma TypeBits(s: Stream)
    ensures TypeByte(s) as int / 8 == 1
    ensures (TypeByte(s) as int % 2 == 1) == s.fin
    ensures (TypeByte(s) as int / 2 % 2 == 1) == s.lenPresent
    ensures (TypeByte(s) as int / 4 % 2 == 1) == (s.offset > 0)
  {
  }

  /** What Parse does once the integers are read. */
  lemma ParseFromFields(data: seq<byte>, start: nat, s: Stream, v: seq<uint64>, offset: nat)
    requires start < |data| && data[start] == TypeByte(s)
    requires |v| == 1 + Bit(s.offset > 0) + Bit(s.lenPresent)
    requires v[0] == s.id && (s.offset > 0 ==> v[1] == s.offset) && (s.lenPresent ==> v[|v| - 1] == |s.data|)
    requires ParseInts(data, start + 1, |v|) == Ok(v, offset)
    requires At(data, offset, s.data)
    requires !s.lenPresent ==> offset + |s.data| == |data|
    ensures Parse(data, start) == Ok(s, offset + |s.data|)
  {
    TypeBits(s);
  }

  /**
   A STREAM frame is read back whatever stands around it when it carries its length;
   without a length it must be the last thing in the packet.
   */
  lemma RoundTrip(data: seq<byte>, start: nat, s: Stream)
    requires Sendable(s) && At(data, start, Encoding(s))
    requires s.lenPresent || start + |Encoding(s)| == |data|
    ensures Parse(data, start) == Ok(s, start + |Encoding(s)|)
  {
    AtParts(data, start, TypeByte(s), Ints(Fields(s)), s.data);
    FieldsRoundTrip(data, start + 1, s);
    ParseFromFields(data, start, s, Fields(s), start + 1 + |Ints(Fields(s))|);
  }

  lemma FieldsRoundTrip(data: seq<byte>, offset: nat, s: Stream)
    requires Sendable(s) && At(data, offset, Ints(Fields(s)))
    ensures var v := Fields(s);
            && |v| == 1 + Bit(s.offset > 0) + Bit(s.lenPresent)
            && v[0] == s.id && (s.offset > 0 ==> v[1] == s.offset) && (s.lenPresent ==> v[|v| - 1] == |s.data|)
            && ParseInts(data, offset, |v|) == Ok(v, offset + |Ints(v)|)
  {
    var v: seq<uint62> := [s.id] + (if s.offset > 0 then [s.offset] else [])
                          + (if s.lenPresent then [|s.data|] else []);
    assert v == Fields(s);
    IntsRoundTrip(data, offset, v);
  }

  lemma FieldsForm(s: Stream, id: uint64, offset: uint64, length: uint64)
    requires Sendable(s) && id == s.id && offset == s.offset && length == |s.data|
    ensures Ints(Fields(s)) == Encode(id) + (if s.offset > 0 then Encode(offset) else [])
                               + (if s.lenPresent then Encode(length) else [])
  {
    var v := Fields(s);
    IntsForm(v);
    if s.offset > 0 && s.lenPresent {
      assert v == [id, offset, length];
    } else if s.offset > 0 {
      assert v == [id, offset];
    } else if s.lenPresent {
      assert v == [id, length];
    } else {
      assert v == [id];
    }
  }

  /** The layout: type, ID, offset unless it is 0, length if present, data. */
  lemma EncodingForm(s: Stream, id: uint64, offset: uint64, length: uint64)
    requires Sendable(s) && id == s.id && offset == s.offset && length == |s.data|
    ensures var flags := (if s.fin then 1 else 0) + (if s.lenPresent then 2 else 0) + (if s.offset > 0 then 4 else 0);
            Encoding(s) == [8 + flags] + (Encode(id) + (if s.offset > 0 then Encode(offset) else [])
                                          + (if s.lenPresent then Encode(length) else [])) + s.data
  {
    FieldsForm(s, id, offset, length);
  }

  // ----- sizes -----

  /** Header size without the length field. */
  function BaseHeaderLen(s: Stream): nat {
    1 + Len(U64(s.id)) + (if s.offset > 0 then Len(U64(s.offset)) else 0)
  }

  function Length(s: Stream): nat {
    BaseHeaderLen(s) + (if s.lenPresent then Len(U64(|s.data|)) else 0) + |s.data|
  }

  lemma IntsSize(v: seq<uint64>)
    ensures |v| == 1 ==> |Ints(v)| == Len(v[0])
    ensures |v| == 2 ==> |Ints(v)| == Len(v[0]) + Len(v[1])
    ensures |v| == 3 ==> |Ints(v)| == Len(v[0]) + Len(v[1]) + Len(v[2])
  {
    if |v| > 1 {
      IntsSize(v[1..]);
    }
  }

  lemma LengthExact(s: Stream)
    ensures Length(s) == |Encoding(s)|
  {
    IntsSize(Fields(s));
  }

  lemma LenMonotone(a: uint64, b: uint64)
    requires a <= b
    ensures Len(a) <= Len(b)
  {
  }

  predicate Fits(base: nat, maxSize: int, dataLen: nat) {
    base + Len(U64(dataLen)) + dataLen <= maxSize
  }

  /** The search of MaxDataLen from dataLen down. */
  function LargestFit(base: nat, maxSize: int, dataLen: int): (r: nat)
    ensures r <= Max(0, dataLen)
    ensures r > 0 ==> Fits(base, maxSize, r)
    ensures forall d :: r < d <= dataLen ==> !Fits(base, maxSize, d)
    decreases dataLen
  {
    if dataLen <= 0 then 0
    else if Fits(base, maxSize, dataLen) then dataLen
    else LargestFit(base, maxSize, dataLen - 1)
  }

  function MaxData(s: Stream, maxSize: int): nat {
    LargestFit(BaseHeaderLen(s), maxSize, maxSize - BaseHeaderLen(s) - 1)
  }

  /** No larger amount of data fits together with its own length prefix. */
  lemma MaxDataIsLargest(s: Stream, maxSize: int, d: nat)
    requires d > 0
    ensures Fits(BaseHeaderLen(s), maxSize, d) ==> d <= MaxData(s, maxSize)
    ensures d <= MaxData(s, maxSize) && d < TWO_64 && maxSize < TWO_64 ==> Fits(BaseHeaderLen(s), maxSize, d)
  {
    var m := MaxData(s, maxSize);
    if d <= m && m < TWO_64 && d < TWO_64 {
      LenMonotone(d, m);
    }
  }

  /** A frame under construction: splitting changes it in place. */
  class StreamFrame {
    var id: nat
    var offset: nat
    var data: seq<byte>
    var fin: bool
    var lenPresent: bool

    ghost function Value(): Stream
      reads this
    {
      Stream(id, offset, data, fin, lenPresent)
    }

    constructor (s: Stream)
      ensures Value() == s
    {
      id, offset, data, fin, lenPresent := s.id, s.offset, s.data, s.fin, s.lenPresent;
    }

    method MaxDataLen(maxSize: int) returns (r: nat)
      ensures r == MaxData(Value(), maxSize)
    {
      var baseHeaderLen := 1 + Len(U64(id));
      if offset > 0 {
        baseHeaderLen := baseHeaderLen + Len(U64(offset));
      }
      var dataLen := maxSize - baseHeaderLen - 1;
      while dataLen > 0
        invariant LargestFit(baseHeaderLen, maxSize, dataLen) == MaxData(Value(), maxSize)
      {
        if baseHeaderLen + Len(U64(dataLen)) + dataLen <= maxSize {
          return dataLen;
        }
        dataLen := dataLen - 1;
      }
      r := 0;
    }

    /** Cuts the frame to maxSize; the part cut off comes back as a new frame. */
    method MaybeSplitOffFrame(maxSize: int) returns (rest: StreamFrame?)
      requires |data| < TWO_62 && maxSize < TWO_63
      modifies this
      ensures rest == null <==> SplitOff(old(Value()), maxSize) == None
      ensures rest == null ==> Value() == old(Value())
      ensures rest != null ==> fresh(rest)
                               && SplitOff(old(Value()), maxSize) == Some((Value(), rest.Value()))
    {
      var length := 1 + Len(U64(id));
      if offset > 0 {
        length := length + Len(U64(offset));
      }
      if lenPresent {
        length := length + Len(U64(|data|));
      }
      length := length + |data|;
      if maxSize >= length {
        return null;
      }
      var maxDataLen := MaxDataLen(maxSize);
      if maxDataLen == 0 {
        return null;
      }
      CutIsProper(Value(), maxSize);
      rest := new StreamFrame(Stream(id, offset + maxDataLen, data[maxDataLen..], fin, lenPresent));
      data := data[..maxDataLen];
      fin := false;
    }
  }

  // ----- splitting -----

  /** When the frame is too large, what fits is strictly less than its data. */
  lemma CutIsProper(s: Stream, maxSize: int)
    requires |s.data| < TWO_62 && maxSize < Length(s)
    ensures MaxData(s, maxSize) > 0 ==> MaxData(s, maxSize) < |s.data|
  {
    var m := MaxData(s, maxSize);
    if m >= |s.data| && m > 0 {
      assert m < TWO_64;
      LenMonotone(|s.data|, m);
    }
  }

  /** The kept frame and the frame split off, or None when the frame fits or nothing would be kept. */
  function SplitOff(s: Stream, maxSize: int): (r: Option<(Stream, Stream)>)
    requires |s.data| < TWO_62
    ensures r.Some? ==> 0 < |r.value.0.data| < |s.data| && |r.value.1.data| == |s.data| - |r.value.0.data|
  {
    var m := MaxData(s, maxSize);
    if maxSize >= Length(s) || m == 0 then None
    else
      CutIsProper(s, maxSize);
      Some((s.(data := s.data[..m], fin := false), s.(offset := s.offset + m, data := s.data[m..])))
  }

  /** Splitting again and again until no split is possible. */
  function Pieces(s: Stream, maxSize: int): (r: seq<Stream>)
    requires |s.data| < TWO_62
    ensures r != []
    decreases |s.data|
  {
    match SplitOff(s, maxSize)
    case None => [s]
    case Some(parts) => [parts.0] + Pieces(parts.1, maxSize)
  }

  function Joined(pieces: seq<Stream>): seq<byte> {
    if pieces == [] then [] else pieces[0].data + Joined(pieces[1..])
  }

  /** The pieces continue each other's offsets, starting at `offset`. */
  predicate Contiguous(pieces: seq<Stream>, offset: nat) {
    pieces == [] || (pieces[0].offset == offset && Contiguous(pieces[1..], offset + |pieces[0].data|))
  }

  /**
   Splitting loses nothing: the pieces tile the frame's data in order, FIN stays on the last
   one only, every piece but the last is non-empty and fits, and the last one fits
   unless not even one byte of data would.
   */
  predicate Lossless(ps: seq<Stream>, s: Stream, maxSize: int)
    requires ps != []
  {
    var last := ps[|ps| - 1];
    && Joined(ps) == s.data
    && Contiguous(ps, s.offset)
    && (forall i :: 0 <= i < |ps| ==> ps[i].id == s.id && ps[i].lenPresent == s.lenPresent)
    && (forall i :: 0 <= i < |ps| - 1 ==> ps[i].data != [] && !ps[i].fin && Length(ps[i]) <= maxSize)
    && last.fin == s.fin
    && (Length(last) <= maxSize || MaxData(last, maxSize) == 0)
  }

  lemma OnePiece(s: Stream, maxSize: int)
    requires |s.data| < TWO_62 && SplitOff(s, maxSize) == None
    ensures Lossless([s], s, maxSize)
  {
    assert [s][1..] == [];
    assert s.data + [] == s.data;
  }

  lemma OnePieceMore(head: Stream, rest: Stream, tail: seq<Stream>, s: Stream, maxSize: int)
    requires |s.data| < TWO_62 && SplitOff(s, maxSize) == Some((head, rest))
    requires tail != [] && Lossless(tail, rest, maxSize)
    ensures Lossless([head] + tail, s, maxSize)
  {
    var ps := [head] + tail;
    assert ps[1..] == tail && ps[0] == head && ps[|ps| - 1] == tail[|tail| - 1];
    assert head.data + rest.data == s.data;
    KeptPieceFits(s, maxSize);
    assert forall i :: 1 <= i < |ps| ==> ps[i] == tail[i - 1];
  }

  lemma KeptPieceFits(s: Stream, maxSize: int)
    requires |s.data| < TWO_62 && SplitOff(s, maxSize).Some?
    ensures Length(SplitOff(s, maxSize).value.0) <= maxSize
  {
  }

  lemma {:induction false} SplittingIsLossless(s: Stream, maxSize: int)
    requires |s.data| < TWO_62 && maxSize < TWO_63
    ensures Lossless(Pieces(s, maxSize), s, maxSize)
    decreases |s.data|
  {
    match SplitOff(s, maxSize)
    case None =>
      OnePiece(s, maxSize);
    case Some(parts) =>
      SplittingIsLossless(parts.1, maxSize);
      OnePieceMore(parts.0, parts.1, Pieces(parts.1, maxSize), s, maxSize);
  }
}
