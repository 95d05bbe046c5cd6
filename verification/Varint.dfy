/**
 Variable-length integers (quicvarint/varint.go; section 16 of RFC 9000).
 Shifts and masks of the source are written as divisions and remainders.
 */
module Varint {
  import opened Bytes

  /** Number of bytes Append emits. */
  function Len(i: uint64): nat {
    if i <= 63 then 1
    else if i <= 16383 then 2
    else if i <= 1073741823 then 4
    else 8
  }

  /** The first byte: the length tag and what of i is left of the other bytes. */
  function First(i: uint64): byte {
    if i <= 63 then i
    else if i <= 16383 then i / 0x100 + 0x40
    else if i <= 1073741823 then i / 0x100_0000 + 0x80
    else i / 0x100_0000_0000_0000 % 0x40 + 0xc0
  }

  /**
   The bytes Append adds. In the eight-byte form the length tag is OR-ed over
   the two top bits of a uint64.
   */
  function Encode(i: uint64): (b: seq<byte>)
    ensures |b| == Len(i)
  {
    [First(i)] + Digits(i, Len(i) - 1)
  }

  /** Parses the integer that stands in data at offset. */
  function Parse(data: seq<byte>, offset: nat): (r: Parsed<nat>)
    requires offset <= |data|
    ensures r.Ok? ==> offset < r.next <= |data| && r.value < TWO_62
  {
    if offset == |data| then Error
    else
      var tag := data[offset] as int / 0x40;
      var low := data[offset] as int % 0x40;
      var end := offset + 1 + Tail(tag);
      if end > |data| then Error
      else
        BigEndianSplit(low, data[offset + 1..end]);
        ShlConstants(low);
        ShlConstants(1);
        Ok(BigEndian(low, data[offset + 1..end]), end)
  }

  /** Number of bytes after the first one, by length tag. */
  function Tail(tag: int): nat {
    if tag == 0 then 0 else if tag == 1 then 1 else if tag == 2 then 3 else 7
  }

  lemma ParseForm(data: seq<byte>, offset: nat, first: byte, digits: seq<byte>)
    requires |digits| == Tail(first / 0x40)
    requires At(data, offset, [first] + digits)
    ensures Parse(data, offset) == Ok(BigEndian(first % 0x40, digits), offset + 1 + |digits|)
  {
    AtSplit(data, offset, [first], digits);
    assert data[offset..offset + 1] == [first];
    assert data[offset] == data[offset..offset + 1][0];
  }

  lemma TopBits(i: uint64)
    ensures i / 0x100_0000_0000_0000 % 0x40 == i % TWO_62 / 0x100_0000_0000_0000
  {
  }

  lemma EightByteForm(i: uint64)
    ensures BigEndian(i / 0x100_0000_0000_0000 % 0x40, Digits(i, 7)) == i % TWO_62
  {
    var q, j := i / TWO_62, i % TWO_62;
    ShlConstants(0x40 * q);
    assert i == Shl(0x40 * q, 7) + j;
    DigitsOfShl(0x40 * q, j, 7);
    HighConstants(j);
    TopBits(i);
    DigitsInverse(j, 7);
  }

  lemma ShortForms(i: uint64)
    requires i <= 1073741823
    ensures BigEndian(First(i) % 0x40, Digits(i, Len(i) - 1)) == i
  {
    HighConstants(i);
    DigitsInverse(i, Len(i) - 1);
    TagTakenOff(i, First(i));
  }

  lemma TagTakenOff(i: nat, first: byte)
    requires i <= 63 ==> first == i
    requires 63 < i <= 16383 ==> first == i / 0x100 + 0x40
    requires 16383 < i <= 1073741823 ==> first == i / 0x100_0000 + 0x80
    requires i <= 1073741823
    ensures first % 0x40 == if i <= 63 then i else if i <= 16383 then i / 0x100 else i / 0x100_0000
  {
  }

  /** What the bytes of Encode stand for once the tag is taken off. */
  lemma EncodedValue(i: uint64)
    ensures BigEndian(First(i) % 0x40, Digits(i, Len(i) - 1)) == i % TWO_62
    ensures Len(i) - 1 == Tail(First(i) / 0x40)
  {
    if i <= 1073741823 {
      ShortForms(i);
    } else {
      EightByteForm(i);
    }
  }

  /**
   The round trip holds for exactly the integers below 2^62, whatever stands before and after.
   A larger uint64 is appended without complaint and read back without its top two bits.
   */
  lemma RoundTrip(data: seq<byte>, offset: nat, i: uint64)
    requires At(data, offset, Encode(i))
    ensures Parse(data, offset) == Ok(i % TWO_62, offset + Len(i))
    ensures Parse(data, offset) == Ok(i, offset + Len(i)) <==> i < TWO_62
  {
    EncodedValue(i);
    ParseForm(data, offset, First(i), Digits(i, Len(i) - 1));
  }

  /** Of all byte strings that stand for i, Encode gives the shortest, and no other is as short. */
  lemma ShortestForm(i: uint62, b: seq<byte>)
    requires Parse(b, 0) == Ok(i, |b|)
    ensures |b| >= Len(i) && (|b| == Len(i) <==> b == Encode(i))
  {
    var low, digits := b[0] as int % 0x40, b[1..];
    assert b[1..|b|] == digits && b == [b[0]] + digits;
    assert At(Encode(i), 0, Encode(i));
    RoundTrip(Encode(i), 0, i);
    BigEndianSplit(low, digits);
    ShlConstants(low);
    ShlConstants(1);
    if |b| == Len(i) {
      EncodedValue(i);
      var e := Encode(i);
      assert e[1..] == Digits(i, Len(i) - 1);
      SameDigits(low, digits, First(i) % 0x40, Digits(i, Len(i) - 1));
      assert b[0] as int / 0x40 == First(i) / 0x40;
      assert b[0] == First(i);
    }
  }

  lemma {:induction false} SameDigits(x: nat, a: seq<byte>, y: nat, b: seq<byte>)
    requires |a| == |b| && BigEndian(x, a) == BigEndian(y, b)
    ensures x == y && a == b
    decreases |a|
  {
    if a != [] {
      var n := |a| - 1;
      SameDigits(x, a[..n], y, b[..n]);
      assert a == a[..n] + [a[n]] && b == b[..n] + [b[n]];
    }
  }

  /** The four sample integers of appendix A.1 of RFC 9000. */
  lemma Samples()
    ensures Encode(37) == [0x25] && Encode(15293) == [0x7b, 0xbd]
    ensures Encode(494878333) == [0x9d, 0x7f, 0x3e, 0x7d]
    ensures Encode(151288809941952652) == [0xc2, 0x19, 0x7c, 0x5e, 0xff, 0x14, 0xe8, 0x8c]
  {
    assert Digits(0x3b, 0) == [];
    assert Digits(0x3bbd, 1) == [0xbd];
    assert Digits(0x1d7f, 1) == [0x7f];
    assert Digits(0x1d7f3e, 2) == [0x7f, 0x3e];
    assert Digits(0x1d7f3e7d, 3) == [0x7f, 0x3e, 0x7d];
    assert Digits(0x219, 1) == [0x19];
    assert Digits(0x2197c, 2) == [0x19, 0x7c];
    assert Digits(0x2197c5e, 3) == [0x19, 0x7c, 0x5e];
    assert Digits(0x2197c5eff, 4) == [0x19, 0x7c, 0x5e, 0xff];
    assert Digits(0x2197c5eff14, 5) == [0x19, 0x7c, 0x5e, 0xff, 0x14];
    assert Digits(0x2197c5eff14e8, 6) == [0x19, 0x7c, 0x5e, 0xff, 0x14, 0xe8];
  }

  lemma HighConstants(i: nat)
    ensures High(i, 1) == i / 0x100 && High(i, 3) == i / 0x100_0000 && High(i, 7) == i / 0x100_0000_0000_0000
  {
    var d1 := i / 0x100;
    var d2 := d1 / 0x100;
    var d3 := d2 / 0x100;
    var d4 := d3 / 0x100;
    var d5 := d4 / 0x100;
    var d6 := d5 / 0x100;
    var d7 := d6 / 0x100;
    assert d3 == i / 0x100_0000 && d5 == i / 0x100_0000_0000 && d7 == i / 0x100_0000_0000_0000;
    assert High(i, 3) == High(d1, 2) == High(d2, 1) == High(d3, 0);
    assert High(i, 7) == High(d1, 6) == High(d2, 5) == High(d3, 4) == High(d4, 3) == High(d5, 2) == High(d6, 1);
  }

  /** Several integers one after the other. */
  function Ints(vs: seq<uint64>): (b: seq<byte>) {
    if vs == [] then [] else Encode(vs[0]) + Ints(vs[1..])
  }

  lemma IntsForm(v: seq<uint64>)
    ensures |v| == 0 ==> Ints(v) == []
    ensures |v| == 1 ==> Ints(v) == Encode(v[0])
    ensures |v| == 2 ==> Ints(v) == Encode(v[0]) + Encode(v[1])
    ensures |v| == 3 ==> Ints(v) == Encode(v[0]) + Encode(v[1]) + Encode(v[2])
  {
    if |v| > 0 {
      IntsForm(v[1..]);
    }
  }

  /** Parses n integers of data from offset on, as the frame parsers do one by one. */
  function ParseInts(data: seq<byte>, offset: nat, n: nat): (r: Parsed<seq<uint62>>)
    requires offset <= |data|
    ensures r.Ok? ==> |r.value| == n && offset + n <= r.next <= |data|
    decreases |data| - offset
  {
    if n == 0 then Ok([], offset)
    else
      var (v, next) :- Parse(data, offset);
      var (vs, end) :- ParseInts(data, next, n - 1);
      Ok([v] + vs, end)
  }

  lemma ParseIntsStep(data: seq<byte>, offset: nat, next: nat, vs: seq<uint64>, end: nat)
    requires vs != [] && offset <= |data| && next <= |data|
    requires Parse(data, offset) == Ok(vs[0], next)
    requires ParseInts(data, next, |vs| - 1) == Ok(vs[1..], end)
    ensures ParseInts(data, offset, |vs|) == Ok(vs, end)
  {
    assert [vs[0]] + vs[1..] == vs;
  }

  /** Integers standing one after the other in a buffer are read back, up to their end. */
  lemma {:induction false} IntsRoundTrip(data: seq<byte>, offset: nat, vs: seq<uint62>)
    requires At(data, offset, Ints(vs))
    ensures ParseInts(data, offset, |vs|) == Ok(vs, offset + |Ints(vs)|)
    decreases |vs|
  {
    if vs != [] {
      var head, tail := Encode(vs[0]), Ints(vs[1..]);
      AtSplit(data, offset, head, tail);
      RoundTrip(data, offset, vs[0]);
      IntsRoundTrip(data, offset + |head|, vs[1..]);
      ParseIntsStep(data, offset, offset + |head|, vs, offset + |Ints(vs)|);
    }
  }

  lemma {:induction false} IntsConcat(a: seq<uint64>, b: seq<uint64>)
    ensures Ints(a + b) == Ints(a) + Ints(b)
  {
    if a == [] {
      assert a + b == b;
    } else {
      assert (a + b)[1..] == a[1..] + b;
      IntsConcat(a[1..], b);
    }
  }
}
