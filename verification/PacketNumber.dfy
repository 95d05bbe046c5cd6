/**
 Packet numbers and the short header that carries them (protocol/types.go,
 wire/header.go; section 17.1 and appendix A of RFC 9000).
 */
module PacketNumber {
  import opened Bytes

  /** Length of a truncated packet number: 1 to 4 bytes. */
  type PnLen = n: int | 1 <= n <= 4 witness 1

  /** The length the sender picks, given the largest acknowledged number it assumes. */
  function LengthForHeader(pn: nat, largestAcked: nat): PnLen {
    if pn <= 0x7f && largestAcked <= 0x7f then 1
    else
      var diff := pn - largestAcked;
      if diff <= 0x7fff then 2 else if diff <= 0x7f_ffff then 3 else 4
  }

  function Window(n: PnLen): (w: nat)
    ensures n == 1 ==> w == 0x100
    ensures n == 2 ==> w == 0x1_0000
    ensures n == 3 ==> w == 0x100_0000
    ensures n == 4 ==> w == 0x1_0000_0000
  {
    ShlConstants(1);
    Shl(1, n)
  }

  /** What is left of pn in n bytes. */
  function Truncated(pn: nat, n: PnLen): (t: nat)
    ensures t < Window(n)
  {
    pn % Window(n)
  }

  /** Recovers a packet number from its truncated form and the largest number seen so far. */
  function Decode(n: PnLen, largest: nat, truncated: nat): int
    requires truncated < Window(n)
  {
    var expected := largest + 1;
    var win := Window(n);
    var hwin := win / 2;
    var candidate := expected - expected % win + truncated;
    if candidate <= expected - hwin && candidate < TWO_62 - win then candidate + win
    else if candidate > expected + hwin && candidate >= win then candidate - win
    else candidate
  }

  /** The numbers a receiver that has seen `largest` recovers from n bytes. */
  predicate InWindow(n: PnLen, largest: nat, pn: nat) {
    var expected := largest + 1;
    var win := Window(n);
    || expected - win / 2 < pn <= expected + win / 2
    || expected + win / 2 < pn < win
    || TWO_62 - win <= pn <= expected - win / 2
  }

  /** Decoding returns the sender's number exactly when that number is in the receiver's window. */
  lemma DecodeExact(n: PnLen, largest: nat, pn: nat)
    requires pn < TWO_62 && largest + 1 < TWO_62
    ensures Decode(n, largest, Truncated(pn, n)) == pn <==> InWindow(n, largest, pn)
  {
    var expected := largest + 1;
    var win := Window(n);
    WindowDivides(n, expected, pn);
    InWindowExact(win, expected - expected % win, expected % win, pn - pn % win, pn % win);
  }

  /** Where two numbers stand relative to each other and to 2^62, counted in whole windows. */
  ghost predicate Aligned(win: nat, u: int, v: int) {
    && 0 <= u <= TWO_62 - win
    && 0 <= v <= TWO_62 - win
    && (u == v || u == v + win || u == v - win || u >= v + 2 * win || u <= v - 2 * win)
    && (u < win ==> u == 0)
    && (u > TWO_62 - 2 * win ==> u == TWO_62 - win)
    && (v < win ==> v == 0)
    && (v > TWO_62 - 2 * win ==> v == TWO_62 - win)
  }

  lemma WindowDivides(n: PnLen, x: nat, y: nat)
    requires x < TWO_62 && y < TWO_62
    ensures Aligned(Window(n), x - x % Window(n), y - y % Window(n))
  {
    var m := WindowsInAll(n);
    WholeWindows(Window(n), m, x);
    WholeWindows(Window(n), m, y);
    MultiplesAligned(Window(n), m, x / Window(n), y / Window(n));
  }

  lemma WindowsInAll(n: PnLen) returns (m: nat)
    ensures m * Window(n) == TWO_62 && Window(n) > 0
  {
    m := if n == 1 then 0x40_0000_0000_0000 else if n == 2 then 0x4000_0000_0000
         else if n == 3 then 0x40_0000_0000 else 0x4000_0000;
  }

  lemma WholeWindows(win: nat, m: nat, x: nat)
    requires win > 0 && m * win == TWO_62 && x < TWO_62
    ensures x - x % win == (x / win) * win && x / win < m
  {
    MulOrder(m, x / win, win);
  }

  lemma MulGap(a: int, b: int, k: nat, w: nat)
    requires a + k <= b
    ensures a * w + k * w <= b * w
  {
    assert (b - a - k) * w >= 0;
    assert (b - a - k) * w == b * w - a * w - k * w;
  }

  lemma MulOrder(a: int, b: int, w: nat)
    ensures a <= b ==> a * w <= b * w
    ensures a < b ==> a * w + w <= b * w
  {
    if a < b {
      MulGap(a, b, 1, w);
    }
  }

  lemma MultiplesAligned(win: nat, m: nat, a: nat, b: nat)
    requires win > 0 && m * win == TWO_62 && a < m && b < m
    ensures Aligned(win, a * win, b * win)
  {
    AlignedBelow(win, m, a);
    AlignedBelow(win, m, b);
    if a == b + 1 {
      assert a * win == b * win + win;
    } else if b == a + 1 {
      assert b * win == a * win + win;
    } else if a > b {
      MulGap(b, a, 2, win);
    } else if a < b {
      MulGap(a, b, 2, win);
    }
  }

  lemma AlignedBelow(win: nat, m: nat, a: nat)
    requires win > 0 && m * win == TWO_62 && a < m
    ensures 0 <= a * win <= TWO_62 - win
    ensures a * win < win ==> a * win == 0
    ensures a * win > TWO_62 - 2 * win ==> a * win == TWO_62 - win
  {
    MulGap(0, a, 0, win);
    MulGap(a, m, 1, win);
    if a >= 1 {
      MulGap(0, a, 1, win);
    }
    if a <= m - 2 {
      MulGap(a, m, 2, win);
    }
  }

  /** The window test, for expected == u + r and pn == v + t split at a multiple of win. */
  lemma InWindowExact(win: nat, u: int, r: int, v: int, t: int)
    requires win > 0 && win % 2 == 0 && 0 <= r < win && 0 <= t < win
    requires Aligned(win, u, v)
    ensures var expected, pn, hwin, candidate := u + r, v + t, win / 2, u + t;
            var decoded := if candidate <= expected - hwin && candidate < TWO_62 - win then candidate + win
                           else if candidate > expected + hwin && candidate >= win then candidate - win
                           else candidate;
            decoded == pn <==>
            (|| expected - hwin < pn <= expected + hwin
             || expected + hwin < pn < win
             || TWO_62 - win <= pn <= expected - hwin)
  {
  }

  /**
   The round trip as the sender uses it: a length chosen against an acknowledged number no
   larger than what the receiver has seen decodes back, as long as the packet is not older
   than half a window and, for four bytes, not more than 2^31 ahead.
   */
  lemma ChosenLengthDecodes(pn: nat, largestAcked: nat, largest: nat)
    requires pn < TWO_62 && largest + 1 < TWO_62
    requires largestAcked <= largest
    requires largest + 1 - Window(LengthForHeader(pn, largestAcked)) / 2 < pn
    requires pn - largestAcked <= 0x8000_0000
    ensures var n := LengthForHeader(pn, largestAcked);
            Decode(n, largest, Truncated(pn, n)) == pn
  {
    DecodeExact(LengthForHeader(pn, largestAcked), largest, pn);
  }

  /** No shorter length of two bytes or more has half a window that covers the distance; one byte is for 0 to 127. */
  lemma ChosenLengthShortest(pn: nat, largestAcked: nat, m: PnLen)
    requires largestAcked <= pn
    ensures var n := LengthForHeader(pn, largestAcked);
            && (n == 1 <==> pn <= 127)
            && (2 <= m < n ==> pn - largestAcked >= Window(m) / 2)
            && (n <= m < 4 && n > 1 ==> pn - largestAcked < Window(m) / 2)
  {
  }

  // ----- short header -----

  const SHORT_HEADER_BIT: byte := 0x40

  function ShortHeader(connId: seq<byte>, pn: nat, n: PnLen): (b: seq<byte>)
    ensures |b| == 1 + |connId| + n
    ensures b[0] < 0x80
  {
    [SHORT_HEADER_BIT + (n - 1)] + connId + Digits(pn, n)
  }

  datatype ParsedHeader = ParsedHeader(truncated: nat, pnLen: PnLen)

  function ParseShortHeader(data: seq<byte>, connIdLen: nat): (r: Parsed<ParsedHeader>)
    ensures r.Ok? ==> r.next <= |data| && r.value.truncated < Window(r.value.pnLen)
  {
    if |data| < 1 then Error
    else if data[0] >= 0x80 then Error
    else
      var n: PnLen := data[0] as int % 4 + 1;
      var offset := 1 + connIdLen;
      if offset + n > |data| then Error
      else
        BigEndianSplit(0, data[offset..offset + n]);
        Ok(ParsedHeader(BigEndian(0, data[offset..offset + n]), n), offset + n)
  }

  lemma DigitsTruncate(pn: nat, n: PnLen)
    ensures BigEndian(0, Digits(pn, n)) == Truncated(pn, n)
  {
    var h := High(pn, n);
    DigitsInverse(pn, n);
    BigEndianSplit(h, Digits(pn, n));
    ShlIsProduct(h, n);
    WindowRemainder(h, Window(n), BigEndian(0, Digits(pn, n)));
  }

  lemma {:induction false} ShlIsProduct(i: nat, n: nat)
    ensures Shl(i, n) == i * Shl(1, n)
  {
    if n > 0 {
      ShlIsProduct(i, n - 1);
    }
  }

  lemma WindowRemainder(q: nat, win: nat, t: nat)
    requires t < win
    ensures (q * win + t) % win == t
  {
    var x := q * win + t;
    var a := x / win;
    assert x == a * win + x % win;
    MulOrder(a, q, win);
    MulOrder(q, a, win);
  }

  /** Parsing a short header returns the truncated number and the exact start of the payload. */
  lemma ShortHeaderRoundTrip(connId: seq<byte>, pn: nat, n: PnLen, payload: seq<byte>)
    ensures ParseShortHeader(ShortHeader(connId, pn, n) + payload, |connId|)
            == Ok(ParsedHeader(Truncated(pn, n), n), |ShortHeader(connId, pn, n)|)
  {
    HeaderBytes(connId, Digits(pn, n), n, payload);
    HeaderParsed(ShortHeader(connId, pn, n) + payload, |connId|, n, Digits(pn, n));
    DigitsTruncate(pn, n);
  }

  lemma HeaderBytes(connId: seq<byte>, digits: seq<byte>, n: PnLen, payload: seq<byte>)
    requires |digits| == n
    ensures var data, offset := [SHORT_HEADER_BIT + (n - 1)] + connId + digits + payload, 1 + |connId|;
            && offset + n <= |data| && data[offset..offset + n] == digits
            && data[0] < 0x80 && data[0] as int % 4 + 1 == n
  {
  }

  lemma HeaderParsed(data: seq<byte>, connIdLen: nat, n: PnLen, digits: seq<byte>)
    requires 1 + connIdLen + n <= |data| && data[0] < 0x80 && data[0] as int % 4 + 1 == n
    requires data[1 + connIdLen..1 + connIdLen + n] == digits
    ensures ParseShortHeader(data, connIdLen) == Ok(ParsedHeader(BigEndian(0, digits), n), 1 + connIdLen + n)
  {
  }
}
