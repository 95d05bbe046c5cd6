/** Bytes, machine integers, big-endian digits and the result types shared by every module. */
module Bytes {
  type byte = x: int | 0 <= x < 256
  type uint64 = x: int | 0 <= x < TWO_64
  // what a variable-length integer can carry
  type uint62 = x: int | 0 <= x < TWO_62

  datatype Option<+T> = None | Some(value: T)

  /** What a parser returns: a value and the offset just after it, or an error. */
  datatype Parsed<+T> = Ok(value: T, next: nat) | Error {
    predicate IsFailure() { Error? }

    function PropagateFailure<U>(): Parsed<U>
      requires Error?
    {
      Error
    }

    function Extract(): (T, nat)
      requires Ok?
    {
      (value, next)
    }
  }

  const TWO_62: int := 0x4000_0000_0000_0000
  const TWO_63: int := 0x8000_0000_0000_0000
  const TWO_64: int := 0x1_0000_0000_0000_0000

  /** Conversion to a 64-bit unsigned integer: wraps around. */
  function U64(x: int): (r: uint64)
    ensures 0 <= x < TWO_64 ==> r == x
  {
    x % TWO_64
  }

  /** Conversion to a 64-bit signed integer: wraps around. */
  function I64(x: int): (r: int)
    ensures -TWO_63 <= r < TWO_63
    ensures -TWO_63 <= x < TWO_63 ==> r == x
  {
    (x + TWO_63) % TWO_64 - TWO_63
  }

  function Min(a: int, b: int): int { if a < b then a else b }

  function Max(a: int, b: int): int { if a < b then b else a }

  // ----- parts of a buffer -----

  /** The bytes `part` stand in data at `offset`. */
  ghost predicate At(data: seq<byte>, offset: nat, part: seq<byte>) {
    offset + |part| <= |data| && data[offset..offset + |part|] == part
  }

  lemma AtSplit(data: seq<byte>, offset: nat, a: seq<byte>, b: seq<byte>)
    requires At(data, offset, a + b)
    ensures At(data, offset, a) && At(data, offset + |a|, b)
  {
    assert data[offset..offset + |a|] == data[offset..offset + |a + b|][..|a|];
    assert data[offset + |a|..offset + |a| + |b|] == data[offset..offset + |a + b|][|a|..];
  }

  /** A type byte and two parts standing in a buffer. */
  lemma AtParts(data: seq<byte>, offset: nat, t: byte, a: seq<byte>, b: seq<byte>)
    requires At(data, offset, [t] + a + b) || At(data, offset, [t] + (a + b))
    ensures data[offset] == t && At(data, offset + 1, a) && At(data, offset + 1 + |a|, b)
  {
    assert [t] + a + b == [t] + (a + b);
    AtSplit(data, offset, [t], a + b);
    AtSplit(data, offset + 1, a, b);
    assert data[offset] == data[offset..offset + 1][0];
  }

  // ----- big-endian digits -----

  /** The n low bytes of i, most significant first. */
  function Digits(i: nat, n: nat): (b: seq<byte>)
    ensures |b| == n
  {
    if n == 0 then [] else Digits(i / 0x100, n - 1) + [i % 0x100]
  }

  /** i shifted right by n bytes. */
  function High(i: nat, n: nat): nat {
    if n == 0 then i else High(i / 0x100, n - 1)
  }

  /** i shifted left by n bytes. */
  function Shl(i: nat, n: nat): nat {
    if n == 0 then i else 0x100 * Shl(i, n - 1)
  }

  /** Reads b as digits that continue acc. */
  function BigEndian(acc: nat, b: seq<byte>): nat {
    if b == [] then acc else BigEndian(acc, b[..|b| - 1]) * 0x100 + b[|b| - 1]
  }

  lemma {:induction false} DigitsInverse(i: nat, n: nat)
    ensures BigEndian(High(i, n), Digits(i, n)) == i
  {
    if n > 0 {
      DigitsInverse(i / 0x100, n - 1);
      var b := Digits(i, n);
      assert b[..n - 1] == Digits(i / 0x100, n - 1) && b[n - 1] as int == i % 0x100;
      assert BigEndian(High(i, n), b) == BigEndian(High(i, n), b[..n - 1]) * 0x100 + b[n - 1] as int;
    }
  }

  /** Digits and High split i at byte n. */
  lemma {:induction false} DigitsOfShl(q: nat, j: nat, n: nat)
    ensures Digits(Shl(q, n) + j, n) == Digits(j, n)
    ensures High(Shl(q, n) + j, n) == q + High(j, n)
  {
    if n > 0 {
      var x := Shl(q, n - 1);
      assert Shl(q, n) + j == 0x100 * x + j;
      assert (0x100 * x + j) / 0x100 == x + j / 0x100;
      assert (0x100 * x + j) % 0x100 == j % 0x100;
      DigitsOfShl(q, j / 0x100, n - 1);
    }
  }

  lemma {:induction false} BigEndianSplit(acc: nat, b: seq<byte>)
    ensures BigEndian(acc, b) == Shl(acc, |b|) + BigEndian(0, b)
    ensures BigEndian(0, b) < Shl(1, |b|)
  {
    if b != [] {
      BigEndianSplit(acc, b[..|b| - 1]);
    }
  }

  /** Shl over the byte counts the formats use. */
  lemma ShlConstants(i: nat)
    ensures Shl(i, 1) == 0x100 * i && Shl(i, 2) == 0x1_0000 * i && Shl(i, 3) == 0x100_0000 * i
    ensures Shl(i, 4) == 0x1_0000_0000 * i && Shl(i, 7) == 0x100_0000_0000_0000 * i
  {
    var s1 := Shl(i, 1);
    assert s1 == 0x100 * Shl(i, 0);
    var s2 := Shl(i, 2);
    assert s2 == 0x100 * s1;
    var s3 := Shl(i, 3);
    assert s3 == 0x100 * s2;
    var s4 := Shl(i, 4);
    assert s4 == 0x100 * s3;
    var s5 := Shl(i, 5);
    assert s5 == 0x100 * s4;
    var s6 := Shl(i, 6);
    assert s6 == 0x100 * s5;
  }
}
