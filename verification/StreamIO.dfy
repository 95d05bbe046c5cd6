/** Stream I/O (stream.go): reassembly, reading, writing and the two sides of flow control. */
module StreamIO {
  import opened Bytes

  const INITIAL_WINDOW := 1048576
  const UPDATE_THRESHOLD := 524288
  const WRITE_CHUNK := 1200

  // ----- the receiving half as a value -----

  datatype Recv = Recv(
    readBuf: seq<byte>,
    reassembly: nat,                // next expected stream offset
    pending: map<nat, seq<byte>>,   // out-of-order data by offset
    pendingFin: bool,
    finRead: bool,
    readOffset: nat,
    readMaxData: nat)

  const NEW_RECV := Recv([], 0, map[], false, false, 0, INITIAL_WINDOW)

  /** Moves the chunk that continues the buffer from the pending data into the buffer. */
  function TakeNext(s: Recv): (r: Recv)
    requires s.reassembly in s.pending
    ensures |r.pending| < |s.pending|
  {
    assert (s.pending - {s.reassembly}).Keys == s.pending.Keys - {s.reassembly};
    s.(readBuf := s.readBuf + s.pending[s.reassembly],
       reassembly := s.reassembly + |s.pending[s.reassembly]|,
       pending := s.pending - {s.reassembly})
  }

  /** The loop of tryFlushPending. */
  function Flush(s: Recv): (r: Recv)
    ensures r.reassembly !in r.pending && r.pending.Keys <= s.pending.Keys
    ensures r.reassembly >= s.reassembly
    ensures (r.pendingFin, r.finRead, r.readOffset, r.readMaxData)
         == (s.pendingFin, s.finRead, s.readOffset, s.readMaxData)
    decreases |s.pending|
  {
    if s.reassembly in s.pending then Flush(TakeNext(s)) else s
  }

  function TryFlush(s: Recv): Recv {
    var t := Flush(s);
    if t.pending == map[] && t.pendingFin then t.(finRead := true, pendingFin := false) else t
  }

  /** Raises the window when less than half of it is left. */
  function Replenish(s: Recv): Recv {
    if s.readMaxData - s.reassembly < UPDATE_THRESHOLD
    then s.(readMaxData := s.reassembly + INITIAL_WINDOW) else s
  }

  function Append(s: Recv, data: seq<byte>, fin: bool): Recv {
    s.(readBuf := s.readBuf + data, reassembly := s.reassembly + |data|, finRead := s.finRead || fin)
  }

  function Accept(s: Recv, offset: nat, data: seq<byte>, fin: bool): Recv {
    if offset == s.reassembly then TryFlush(Append(s, data, fin))
    else s.(pending := s.pending[offset := data], pendingFin := s.pendingFin || fin)
  }

  /** What an incoming STREAM frame does. */
  function Handle(s: Recv, offset: nat, data: seq<byte>, fin: bool): Recv {
    if s.finRead then s
    else if offset + |data| <= s.reassembly then if fin then TryFlush(s) else s
    else Replenish(Accept(s, offset, data, fin))
  }

  datatype ReadResult = Data(bytes: seq<byte>) | Eof | Blocked

  /** One turn of the read loop with a buffer of n bytes. */
  function ReadOnce(s: Recv, n: nat): (Recv, ReadResult) {
    if s.finRead && s.readBuf == [] then (s, Eof)
    else if s.readBuf != [] then
      var k := Min(n, |s.readBuf|);
      (s.(readBuf := s.readBuf[k..], readOffset := s.readOffset + k), Data(s.readBuf[..k]))
    else if s.reassembly > 0 then (s.(readMaxData := s.readMaxData + INITIAL_WINDOW), Blocked)
    else (s, Blocked)
  }

  // ----- the stream object -----

  class Stream {
    var readBuf: seq<byte>
    var reassemblyOffset: nat
    var pending: map<nat, seq<byte>>
    var pendingFin: bool
    var finRead: bool
    var readOffset: nat
    var readMaxData: nat

    var writeOffset: nat
    var maxData: nat
    var finSent: bool

    ghost function State(): Recv
      reads this
    {
      Recv(readBuf, reassemblyOffset, pending, pendingFin, finRead, readOffset, readMaxData)
    }

    constructor ()
      ensures State() == NEW_RECV
      ensures writeOffset == 0 && maxData == INITIAL_WINDOW && !finSent
    {
      readBuf, reassemblyOffset, pending, pendingFin, finRead := [], 0, map[], false, false;
      readOffset, readMaxData := 0, INITIAL_WINDOW;
      writeOffset, maxData, finSent := 0, INITIAL_WINDOW, false;
    }

    method TakeChunk()
      requires reassemblyOffset in pending
      modifies this`readBuf, this`reassemblyOffset, this`pending
      ensures State() == TakeNext(old(State()))
    {
      var key := reassemblyOffset;
      var chunk := pending[key];
      pending := pending - {key};
      readBuf := readBuf + chunk;
      reassemblyOffset := reassemblyOffset + |chunk|;
    }

    method TryFlushPending()
      modifies this`readBuf, this`reassemblyOffset, this`pending, this`pendingFin, this`finRead
      ensures State() == TryFlush(old(State()))
    {
      while reassemblyOffset in pending
        invariant Flush(State()) == Flush(old(State()))
        decreases |pending|
      {
        TakeChunk();
      }
      assert State() == Flush(old(State()));
      if |pending| == 0 && pendingFin {
        finRead := true;
        pendingFin := false;
      }
    }

    /** Returns the window update to send to the peer, if there is one. */
    method HandleStreamData(offset: nat, data: seq<byte>, fin: bool) returns (update: Option<nat>)
      modifies this`readBuf, this`reassemblyOffset, this`pending, this`pendingFin, this`finRead, this`readMaxData
      ensures State() == Handle(old(State()), offset, data, fin)
      ensures readMaxData == if !old(finRead) && offset + |data| > old(reassemblyOffset)
                                && old(readMaxData) - reassemblyOffset < 524288
                             then reassemblyOffset + 1048576 else old(readMaxData)
      ensures update == (if readMaxData != old(readMaxData) then Some(readMaxData) else None)
    {
      if finRead {
        return None;
      }
      var end := offset + |data|;
      if end <= reassemblyOffset {
        if fin {
          TryFlushPending();
        }
        return None;
      }
      if offset == reassemblyOffset {
        readBuf := readBuf + data;
        reassemblyOffset := end;
        if fin {
          finRead := true;
        }
        assert State() == Append(old(State()), data, fin);
        TryFlushPending();
      } else {
        pending := pending[offset := data];
        if fin {
          pendingFin := true;
        }
      }
      assert State() == Accept(old(State()), offset, data, fin);
      update := None;
      var available := readMaxData - reassemblyOffset;
      if available < UPDATE_THRESHOLD {
        readMaxData := reassemblyOffset + INITIAL_WINDOW;
        update := Some(readMaxData);
      }
    }

    method Read(n: nat) returns (r: ReadResult, update: Option<nat>)
      modifies this`readBuf, this`readOffset, this`readMaxData
      ensures (State(), r) == ReadOnce(old(State()), n)
      ensures r.Data? <==> old(readBuf) != []
      ensures r.Data? ==> |r.bytes| == Min(n, |old(readBuf)|) && old(readBuf) == r.bytes + readBuf
      ensures r.Eof? <==> old(readBuf) == [] && finRead
      ensures readMaxData == old(readMaxData) + if r.Blocked? && reassemblyOffset > 0 then 1048576 else 0
      ensures update == (if readMaxData != old(readMaxData) then Some(readMaxData) else None)
    {
      update := None;
      if finRead && |readBuf| == 0 {
        return Eof, None;
      }
      if |readBuf| > 0 {
        var k := Min(n, |readBuf|);
        r := Data(readBuf[..k]);
        readBuf := readBuf[k..];
        readOffset := readOffset + k;
        return;
      }
      if reassemblyOffset > 0 {
        readMaxData := readMaxData + INITIAL_WINDOW;
        update := Some(readMaxData);
      }
      r := Blocked;
    }

    method UpdateMaxData(limit: nat)
      modifies this`maxData
      ensures maxData == Max(old(maxData), limit)
    {
      if limit > maxData {
        maxData := limit;
      }
    }
  }
}
