/**
 How a packet is filled (conn.go, sendFrame and flushPendingFrames): a STREAM frame is cut to
 the space left in the packet, then queued control frames are added as long as they fit.
 */
module Packing {
  import opened Bytes
  import opened Varint
  import opened Frames
  import opened Sender
  import StreamFrame

  const MIN_PACKET_SIZE := 1200
  const MAX_CONN_ID := 20

  /** Room for data: what is left after the largest header and the frame's own fields. */
  function Room(s: StreamFrame.Stream, connIdLen: nat, maxPacketSize: nat): nat {
    var shortHdrOverhead := 1 + connIdLen + 4;
    var frameOverhead := StreamFrame.BaseHeaderLen(s) + Len(U64(|s.data|));
    Max(0, maxPacketSize - shortHdrOverhead - frameOverhead)
  }

  /** The frame as sendFrame sends it. */
  function Truncate(s: StreamFrame.Stream, connIdLen: nat, maxPacketSize: nat): StreamFrame.Stream {
    var room := Room(s, connIdLen, maxPacketSize);
    if |s.data| > room then s.(data := s.data[..room], lenPresent := true) else s
  }

  /** The queued control frames that still fit, in order, up to the first that does not. */
  function Taken(size: nat, pending: seq<Frame>, limit: nat): (r: seq<Frame>)
    ensures |r| <= |pending| && r == pending[..|r|]
    ensures forall i :: 0 <= i < |r| ==> Appendable(r[i])
    decreases |pending|
  {
    if pending == [] || !Appendable(pending[0]) || size + |Encoding(pending[0])| > limit then []
    else [pending[0]] + Taken(size + |Encoding(pending[0])|, pending[1..], limit)
  }

  lemma ConcatCons(part: seq<byte>, parts: seq<seq<byte>>)
    ensures Concat([part] + parts) == part + Concat(parts)
  {
    assert ([part] + parts)[1..] == parts;
  }

  lemma {:induction false} ConcatSnoc(parts: seq<seq<byte>>, part: seq<byte>)
    ensures Concat(parts + [part]) == Concat(parts) + part
  {
    if parts == [] {
      ConcatCons(part, []);
      assert [] + [part] == [part] + [];
    } else {
      assert (parts + [part])[1..] == parts[1..] + [part];
      ConcatSnoc(parts[1..], part);
    }
  }

  lemma PayloadCons(f: Frame, fs: seq<Frame>)
    requires Appendable(f) && forall i :: 0 <= i < |fs| ==> Appendable(fs[i])
    ensures forall i :: 0 <= i < |[f] + fs| ==> Appendable(([f] + fs)[i])
    ensures Payload([f] + fs) == Encoding(f) + Payload(fs)
  {
    assert Parts([f] + fs) == [Encoding(f)] + Parts(fs);
    ConcatCons(Encoding(f), Parts(fs));
  }

  /** Coalescing never takes a packet over the limit. */
  lemma {:induction false} TakenFits(size: nat, pending: seq<Frame>, limit: nat)
    requires size <= limit
    ensures size + |Payload(Taken(size, pending, limit))| <= limit
    decreases |pending|
  {
    var taken := Taken(size, pending, limit);
    if taken != [] {
      var rest := Taken(size + |Encoding(pending[0])|, pending[1..], limit);
      TakenFits(size + |Encoding(pending[0])|, pending[1..], limit);
      PayloadCons(pending[0], rest);
    } else {
      assert Parts(taken) == [];
    }
  }

  /** These frames are all, or the next one would take the packet over the limit. */
  ghost predicate Full(size: nat, pending: seq<Frame>, taken: seq<Frame>, limit: nat)
    requires forall i :: 0 <= i < |pending| ==> Appendable(pending[i])
    requires forall i :: 0 <= i < |taken| ==> Appendable(taken[i])
  {
    |taken| < |pending| ==> size + |Payload(taken)| + |Encoding(pending[|taken|])| > limit
  }

  lemma FullEmpty(size: nat, pending: seq<Frame>, limit: nat)
    requires forall i :: 0 <= i < |pending| ==> Appendable(pending[i])
    requires pending != [] ==> size + |Encoding(pending[0])| > limit
    ensures Full(size, pending, [], limit)
  {
    assert Parts([]) == [];
  }

  lemma FullNext(size: nat, next: nat, pending: seq<Frame>, taken: seq<Frame>, limit: nat)
    requires pending != [] && forall i :: 0 <= i < |pending| ==> Appendable(pending[i])
    requires forall i :: 0 <= i < |taken| ==> Appendable(taken[i])
    requires next == size + |Encoding(pending[0])| && Full(next, pending[1..], taken, limit)
    ensures forall i :: 0 <= i < |[pending[0]] + taken| ==> Appendable(([pending[0]] + taken)[i])
    ensures Full(size, pending, [pending[0]] + taken, limit)
  {
    PayloadCons(pending[0], taken);
    assert |taken| < |pending[1..]| ==> pending[1..][|taken|] == pending[|[pending[0]] + taken|];
  }

  lemma {:induction false} TakenMaximal(size: nat, pending: seq<Frame>, limit: nat)
    requires forall i :: 0 <= i < |pending| ==> Appendable(pending[i])
    ensures Full(size, pending, Taken(size, pending, limit), limit)
    decreases |pending|
  {
    if pending == [] || size + |Encoding(pending[0])| > limit {
      FullEmpty(size, pending, limit);
    } else {
      var next := size + |Encoding(pending[0])|;
      TakenMaximal(next, pending[1..], limit);
      FullNext(size, next, pending, Taken(next, pending[1..], limit), limit);
    }
  }

  /**
   sendFrame and flushPendingFrames empty the queue of control frames in any case, also of
   frames that found no room. Nothing is dropped exactly when everything fits.
   */
  lemma {:induction false} NothingDropped(size: nat, pending: seq<Frame>, limit: nat)
    requires size <= limit && forall i :: 0 <= i < |pending| ==> Appendable(pending[i])
    ensures Taken(size, pending, limit) == pending <==> size + |Payload(pending)| <= limit
    decreases |pending|
  {
    if pending == [] {
      assert Parts(pending) == [];
    } else {
      var first, rest := pending[0], pending[1..];
      assert pending == [first] + rest;
      PayloadCons(first, rest);
      if size + |Encoding(first)| <= limit {
        NothingDropped(size + |Encoding(first)|, rest, limit);
      }
    }
  }

  // ----- STREAM packets -----

  /** What sendFrame puts behind the header. */
  function StreamPayload(s: StreamFrame.Stream, headerLen: nat, pending: seq<Frame>, limit: nat): seq<byte> {
    Payload(StreamFrames(s, headerLen, pending, limit))
  }

  function StreamFrames(s: StreamFrame.Stream, headerLen: nat, pending: seq<Frame>, limit: nat): (fs: seq<Frame>)
    ensures forall i :: 0 <= i < |fs| ==> Appendable(fs[i])
  {
    [Stream(s)] + Taken(headerLen + |StreamFrame.Encoding(s)|, pending, limit)
  }

  lemma OverheadSmall(s: StreamFrame.Stream, connIdLen: nat)
    requires connIdLen <= MAX_CONN_ID
    ensures 1 + connIdLen + 4 + StreamFrame.BaseHeaderLen(s) + Len(U64(|s.data|)) <= 50
  {
  }

  /**
   Whatever its data and whether or not it has a length field, a STREAM frame fits after it has
   been cut, for the header of any packet number, and a frame with data keeps at least one
   byte of it: Write makes progress.
   */
  lemma TruncateFits(s: StreamFrame.Stream, connIdLen: nat, maxPacketSize: nat)
    requires connIdLen <= MAX_CONN_ID && maxPacketSize >= MIN_PACKET_SIZE && |s.data| < TWO_63
    ensures var t := Truncate(s, connIdLen, maxPacketSize);
            && 1 + connIdLen + 4 + |StreamFrame.Encoding(t)| <= maxPacketSize
            && t.data <= s.data
            && (s.data != [] ==> t.data != [])
            && t == s.(data := t.data, lenPresent := s.lenPresent || t.data != s.data)
  {
    var t := Truncate(s, connIdLen, maxPacketSize);
    OverheadSmall(s, connIdLen);
    StreamFrame.LengthExact(t);
    StreamFrame.LenMonotone(|t.data|, |s.data|);
  }

  /** What goes out besides the data: the largest header, type, ID, offset unless it is 0, and length. */
  function Overhead(s: StreamFrame.Stream, connIdLen: nat): nat {
    1 + connIdLen + 4 + 1 + Len(U64(s.id)) + (if s.offset > 0 then Len(U64(s.offset)) else 0) + Len(U64(|s.data|))
  }

  /** How much data one packet takes: all of it, or what fills the packet to the last byte. */
  function Portion(s: StreamFrame.Stream, connIdLen: nat, maxPacketSize: nat): int {
    if Overhead(s, connIdLen) + |s.data| <= maxPacketSize then |s.data| else maxPacketSize - Overhead(s, connIdLen)
  }

  /** A frame is cut only if it would not fit as it is, and then it fills the packet and has a length field. */
  lemma TruncateFills(s: StreamFrame.Stream, connIdLen: nat, maxPacketSize: nat)
    requires connIdLen <= MAX_CONN_ID && maxPacketSize >= MIN_PACKET_SIZE && |s.data| < TWO_63
    ensures var t := Truncate(s, connIdLen, maxPacketSize);
            && |t.data| == Portion(s, connIdLen, maxPacketSize)
            && (|t.data| < |s.data| ==> t.lenPresent) && (|t.data| == |s.data| ==> t == s)
  {
    OverheadSmall(s, connIdLen);
  }

  /** Every packet built around a STREAM frame is within the packet size in force. */
  lemma StreamPacketFits(s: StreamFrame.Stream, connId: seq<byte>, pn: nat, pending: seq<Frame>, maxPacketSize: nat)
    requires |connId| <= MAX_CONN_ID && maxPacketSize >= MIN_PACKET_SIZE && |s.data| < TWO_63
    ensures var t := Truncate(s, |connId|, maxPacketSize);
            |Header(connId, pn) + StreamPayload(t, |Header(connId, pn)|, pending, maxPacketSize)| <= maxPacketSize
  {
    var t, n := Truncate(s, |connId|, maxPacketSize), |Header(connId, pn)|;
    TruncateFits(s, |connId|, maxPacketSize);
    var size := n + |StreamFrame.Encoding(t)|;
    TakenFits(size, pending, maxPacketSize);
    PayloadCons(Stream(t), Taken(size, pending, maxPacketSize));
  }

  /** Frames that sendAckIfNeeded and sendMaxStreamData queue. */
  predicate IsControl(f: Frame) {
    (f.Ack? || f.MaxStreamData?) && Sendable(f)
  }

  lemma StreamFramesCanonical(s: StreamFrame.Stream, headerLen: nat, pending: seq<Frame>, limit: nat)
    requires StreamFrame.Sendable(s) && s.lenPresent
    requires forall i :: 0 <= i < |pending| ==> IsControl(pending[i])
    ensures CanonicalList(StreamFrames(s, headerLen, pending, limit))
  {
    var taken := Taken(headerLen + |StreamFrame.Encoding(s)|, pending, limit);
    assert forall i :: 0 <= i < |taken| ==> taken[i] == pending[i];
    CanonicalWithControl(s, taken);
  }

  /**
   What the peer handles: parsing the packet behind its header gives the STREAM frame and
   then the control frames that were added, nothing else.
   */
  lemma StreamPacketParsed(s: StreamFrame.Stream, header: seq<byte>, pending: seq<Frame>, limit: nat, fs: seq<Frame>)
    requires StreamFrame.Sendable(s) && s.lenPresent
    requires forall i :: 0 <= i < |pending| ==> IsControl(pending[i])
    requires fs == StreamFrames(s, |header|, pending, limit)
    ensures FramesFrom(header + Payload(fs), |header|) == ReceivedAll(fs)
  {
    StreamFramesCanonical(s, |header|, pending, limit);
    ParsedBehind(header, fs);
  }

  lemma CanonicalWithControl(s: StreamFrame.Stream, taken: seq<Frame>)
    requires StreamFrame.Sendable(s) && s.lenPresent
    requires forall i :: 0 <= i < |taken| ==> IsControl(taken[i])
    ensures CanonicalList([Stream(s)] + taken)
  {
    var fs := [Stream(s)] + taken;
    assert fs[0] == Stream(s);
    assert forall i :: 1 <= i < |fs| ==> fs[i] == taken[i - 1];
  }

  lemma ParsedBehind(header: seq<byte>, fs: seq<Frame>)
    requires CanonicalList(fs)
    ensures FramesFrom(header + Payload(fs), |header|) == ReceivedAll(fs)
  {
    BehindAt(header, Payload(fs));
    PayloadRoundTrip(fs, header + Payload(fs), |header|);
  }

  lemma BehindAt(header: seq<byte>, payload: seq<byte>)
    ensures At(header + payload, |header|, payload)
  {
  }

  // ----- retransmitted packets -----

  /** Packets built to size m stay within the packet buffer under every number they may be sent again. */
  ghost predicate SurvivesRenumbering(connId: seq<byte>, m: nat) {
    forall pn: nat, again: nat, payload: seq<byte> ::
      |Header(connId, pn) + payload| <= m ==> |Header(connId, again) + payload| <= MAX_BUFFER_SIZE
  }

  /**
   Renumbering adds at most three bytes, so packet sizes up to 1449 are safe and no other is:
   SetMaxPacketSize admits 1450 to 1452 as well.
   */
  lemma RenumberingFits(connId: seq<byte>, m: nat)
    requires |connId| <= MAX_CONN_ID && m >= MIN_PACKET_SIZE
    ensures SurvivesRenumbering(connId, m) <==> m <= MAX_BUFFER_SIZE - 3
  {
    if m > MAX_BUFFER_SIZE - 3 {
      var payload: seq<byte> := seq(m - 2 - |connId|, _ => 0);
      assert |Header(connId, 0) + payload| == m;
      RenumberedOver(connId, 0, payload);
      assert |Header(connId, 0x80_0000) + payload| > MAX_BUFFER_SIZE;
    }
  }

  /** The overrun: a packet of more than 1449 bytes under a one-byte number, sent again under a four-byte one. */
  lemma RenumberedOver(connId: seq<byte>, pn: nat, payload: seq<byte>)
    requires pn <= 0x7f && |Header(connId, pn) + payload| > MAX_BUFFER_SIZE - 3
    ensures |Header(connId, 0x80_0000) + payload| > MAX_BUFFER_SIZE
  {
  }

  /** A packet of a safe size leaves its payload room in the buffer under any number. */
  lemma SafeSizeFits(connId: seq<byte>, pn: nat, payload: seq<byte>)
    requires |Header(connId, pn) + payload| <= MAX_BUFFER_SIZE - 3
    ensures FitsBuffer(connId, payload)
  {
  }
}
