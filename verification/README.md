# A verified model of the quic package

This Dafny project models the QUIC implementation under `quic/` and proves what it promises of
its data: that bytes written to a stream reach the peer in order and in full over a network
that loses, duplicates and reorders packets, that the bookkeeping of the sender stays exact,
that packets survive the way over the wire unchanged, that the congestion and round-trip
estimators stay within bounds, and that the listener's routing table stays a bijection.

`dafny verify dfyconfig.toml` checks everything. The modules, from the wire up:

| file | source | content |
|---|---|---|
| `Bytes`, `Varint` | `quicvarint/varint.go` | bytes, machine integers, variable-length integers |
| `PacketNumber` | `protocol/types.go`, `wire/header.go` | truncated packet numbers and the short header |
| `AckFrame`, `StreamFrame`, `Frames` | `wire/*.go` | the frames, the parse loop, the payload round trip |
| `AckRanges` | `conn.go` | from received packet numbers to ACK ranges |
| `Sender` | `conn.go` | the sending engine as functions on a value |
| `Accounting`, `Recovery`, `Carrying` | `conn.go` | what its operations keep, what they achieve, probes included, what packets carry |
| `SenderRuns` | `conn.go` | runs of these operations, and when the bookkeeping stays exact |
| `Tracking`, `SenderLimits` | `conn.go` | how many packets operations and runs leave unacknowledged, with several goroutines sending |
| `Packing` | `conn.go` | how a packet is filled |
| `Connection` | `conn.go`, `stream.go` | the connection object; its methods are proved equal to the functions of `Sender` |
| `StreamIO`, `Reassembly`, `Overlap` | `stream.go` | the stream object, reassembly, reading, segments that overlap |
| `Delivery`, `DeliveryInvariant`, `DeliverySafety`, `DeliverySteps` | both | one direction of a connection end to end, and what every step keeps |
| `DeliveryMemory`, `DeliveryProgress`, `DeliveryEnd` | both | what the sender remembers, why the window opens again, when the end is reported |
| `DeliveryTheorems` | both | the theorems over every run |
| `StaleNumbers` | both | where the end-to-end guarantee ends |
| `Rtt`, `NewReno`, `Bbr`, `BbrPacing` | `utils/*.go` | estimators and congestion controllers, how fast and how wide BBR sends |
| `Listener` | `listener.go` | the routing table under concurrent dispatch |

Functions carry the meaning; the objects that the Go code updates in place are classes whose
methods are proved equal to these functions, loops included. Theorems about runs are stated
over the functions, so they speak about the objects too.

## The end-to-end model

A `World` holds the writer, the sending engine, the packets on the wire as bytes, the peer and
what it has recorded, and the ACKs and window updates under way. The steps are a turn of the
write loop, closing, setting the packet size, queueing control frames, sending other frames
tracked or not, the arrival of any packet ever sent, setup packets included, reading, emitting
an ACK, the arrival of any ACK ever emitted with any set of packets found late, a probe timeout,
a flush of the retransmit queue in which any writes may fail, and the arrival of any window
update ever sent. A packet, ACK or update may arrive never, once or many times. A write may fall
between the handling of an ACK and the flush that follows it, and sends may come between a check
of the number of tracked packets and the send it lets through.

What is read, when the end of the stream is reported, what flow control promises and that
packets fit their buffers is proved for every run from the start of a connection. That nothing
is forgotten, and so that all is delivered once no packet waits for an acknowledgement, does
not hold in every run. It holds throughout a run if and only if each acknowledgement is harmless
when it arrives, which it is in particular in every run whose packets arrive in time.

## What does not hold

Where the code falls short of a promise, the project keeps the code as it is, gives the case,
and proves the exact condition under which the promise does hold.

- Packet numbers up to 127 always go out in one byte, since the sender measures against 0. A
  packet more than half a window late is taken for another number
  (`RecordedExactlyWhenTimely` says exactly when), and a packet the peer never got may be
  acknowledged. `LateDuplicateLosesData` is a run in which the sender so drops its only copy of
  undelivered data. Nothing is ever forgotten in a run if and only if each ACK that arrives is
  harmless: each segment not yet with the peer is carried by a waiting packet that the ACK does
  not cover (`AckRemembers`, `NothingIsForgotten`, `QuiescenceMeansDelivery`). No other step
  forgets anything, and timely arrivals make every ACK harmless (`TimelyRunsRemember`).
- A FIN that arrives after all data is dropped (`LateFinIsLost`). `EndOfStreamInRuns` says
  exactly when end-of-stream is reported over runs of the whole model: when all segments have
  been handled and a FIN came while data was missing. It is never early, and a stream without
  data never ends.
- `Close` takes the FIN for sent before sending it. When `sendFrame` refuses it, end-of-stream is
  never reported, whatever happens afterwards (`RefusedFinIsLost`).
- A probe timeout sends only originals and what is queued already (`ProbeSends` says exactly
  when it sends anything). With nothing but retransmissions out it is silent (`SilentProbe`), and
  without an acknowledgement the connection closes after five such timeouts
  (`SilentUntilClosed`).
- Before the first ACK of a connection has arrived, timeouts do nothing and no packet is declared
  lost: what is lost until then is not sent again, and the connection does not close
  (`NothingBeforeFirstAck`).
- Of segments that overlap, received data can be lost in two ways: a chunk that starts below
  the reassembly offset stays pending for ever (`OverlapIsStuck`, `StaleChunkStays`), and a
  shorter segment replaces a longer one at the same offset (`ShorterReplaces`).
  `ArrivalKeepsWhole` says for each arrival exactly when none is lost, branch by branch, and
  `OverlapExact` says it of whole runs. Delivery in full therefore rests on the sender's fixed
  segmentation, which retransmission preserves; prefix safety does not.
- After a failed write of a retransmission, an ACK for the original discounts its bytes twice
  (`WriteErrorDiscountsTwice`); `AckConserves` is the condition for the byte count. The whole
  bookkeeping stays exact throughout a run if and only if no ACK covers a packet that is still
  queued (`AckKeepsExactly`, `RunsStayExact`).
- MaxTrackedSentPackets is exceeded in two ways. `sendFrame` checks the number of tracked packets
  and releases the lock before it appends, so m goroutines sending at once can add m - 1 more.
  And a packet whose retransmission could not be written stays queued when an ACK covers it: it
  leaves the history, others take its place, and the flush tracks its copy all the same. With n
  such packets, MaxTrackedSentPackets + m - 1 + n is the exact limit; MaxTrackedSentPackets
  itself holds if and only if m is 1 and n is 0, and without a limit on n nothing bounds the
  unacknowledged packets (`RunsStayBounded`, `TrackedLimitExact`).
- `SetMaxPacketSize` admits packet sizes up to 1452, but a packet can outgrow the buffer of
  1452 bytes when it is renumbered: packets built to a size survive every renumbering if and
  only if that size is at most 1449 (`RenumberingFits`, `RenumberedOver`).
- An integer of 2^62 or more is appended without complaint and read back without its top
  bits (`Varint.RoundTrip`).
- An ACK frame of type 3 is parsed as one of type 2, so its ECN counts are taken for the next
  frames (`AckFrame.TypedRoundTrip`).
- BBR's test for growth compares the windowed maximum with the round just ended, not with the
  one before, so a growing rate ends Startup (`StartupExit`, `GrowthEndsStartup`).

## Model

| member | source | states |
|---|---|---|
| `Varint.RoundTrip` | quic/quicvarint/varint.go:50-98 | whatever stands around it, an appended uint64 is parsed back modulo 2^62, hence unchanged exactly below 2^62, and exactly its Len bytes are consumed |
| `Varint.ShortestForm` | quic/quicvarint/varint.go:50-98 | of all byte strings that parse to an integer the one appended is the shortest, and no other is as short |
| `Varint.Samples` | quic/quicvarint/varint.go:78-98 | the four sample integers of appendix A.1 of RFC 9000 have the bytes given there |
| `Varint.Parse` | quic/quicvarint/varint.go:50-75 | on any bytes, a successful parse consumes at least one byte, stays within the data and yields a value below 2^62 |
| `PacketNumber.DecodeExact` | quic/protocol/types.go:122-135 | decoding a truncated number against the largest seen returns the sender's number if and only if that number lies in the receiver's window |
| `PacketNumber.ChosenLengthDecodes` | quic/protocol/types.go:122-151 | a length chosen against an acknowledged number not above the receiver's largest decodes back for every packet less than half a window late and at most 2^31 ahead |
| `PacketNumber.ChosenLengthShortest` | quic/protocol/types.go:137-151 | one byte exactly for numbers to 127, and no shorter length of two bytes or more has half a window that covers the distance |
| `PacketNumber.ShortHeaderRoundTrip` | quic/wire/header.go:315-359 | a short header followed by any payload parses to the truncated number and its length and ends where the payload starts |
| `AckFrame.Append` | quic/wire/ack_frame.go:104-137 | the append loop writes type, head and a gap and length for each further range, and refuses only an empty list of ranges |
| `AckFrame.Length` | quic/wire/ack_frame.go:139-150 | the length loop counts exactly the bytes that Append writes |
| `AckFrame.ParseAckFrame` | quic/wire/ack_frame.go:29-101 | the parse loop with its moving offset computes the parse function, on every input, malformed ones included |
| `AckFrame.RoundTrip` | quic/wire/ack_frame.go:29-137 | ranges in descending order with gaps come back equal, the delay cut to whole milliseconds, and exactly the appended bytes are consumed |
| `AckFrame.TypedRoundTrip` | quic/wire/ack_frame.go:29-101 | types 2 and 3 are both parsed, and the ECN counts behind type 3 are left standing |
| `AckFrame.OneRangeForm` | quic/wire/ack_frame.go:104-137 | the layout with one range: type 2, largest number, whole milliseconds of delay, 0, length |
| `AckFrame.NextRangeForm` | quic/wire/ack_frame.go:104-137 | each further range adds its gap, one less than the numbers missing above it, and its length |
| `AckRanges.RecordedSuffix` | quic/conn.go:1128-1133 | of all n numbers ever recorded exactly the newest are kept, in order of arrival |
| `AckRanges.RecordedCount` | quic/conn.go:1128-1133 | how many: all of the first 1000, and beyond that 901 to 1000, such that whole hundreds have been dropped |
| `AckRanges.SortPacketNumbers` | quic/conn.go:1224-1233 | the exchange sort leaves a descending permutation in place |
| `AckRanges.BuildAckRanges` | quic/conn.go:1187-1222 | for any numbers in any order with duplicates: at most five maximal descending ranges that cover exactly the numbers from the last kept range up, all of them if fewer than five ranges come out |
| `AckRanges.MaximalIsCanonical` | quic/conn.go:1187-1222 | such ranges have non-negative wire gaps and lengths |
| `AckRanges.AcknowledgesExactly` | quic/conn.go:1142-1222 | the sender parses from the wire ranges that cover exactly the recorded numbers from the last kept range up |
| `StreamFrame.RoundTrip` | quic/wire/stream_frame.go:20-105 | a STREAM frame is parsed back equal with or without offset, length and FIN, where a frame without length must end the data |
| `StreamFrame.EncodingForm` | quic/wire/stream_frame.go:80-105 | the layout: type 8 with flags 1, 2 and 4 for FIN, length and offset, then ID, offset unless 0, length if present, data |
| `StreamFrame.LengthExact` | quic/wire/stream_frame.go:80-117 | Length counts exactly the bytes that Append writes |
| `StreamFrame.MaxDataIsLargest` | quic/wire/stream_frame.go:119-134 | a positive amount of data fits together with its own length prefix exactly up to MaxDataLen |
| `StreamFrame.StreamFrame.MaxDataLen` | quic/wire/stream_frame.go:120-134 | the countdown finds that largest amount |
| `StreamFrame.StreamFrame.MaybeSplitOffFrame` | quic/wire/stream_frame.go:142-165 | the frame is cut in place and the remainder returned; nothing changes when it fits or no byte would remain |
| `StreamFrame.SplittingIsLossless` | quic/wire/stream_frame.go:119-165 | splitting to the end yields contiguous pieces that join to the data, all but the last non-empty, fitting and without FIN |
| `Frames.ParseNext` | quic/wire/frame.go:21-77 | on any bytes, a successful parse consumes at least one byte and stays within the data |
| `Frames.SkipPadding` | quic/wire/frame.go:27-33 | a run of padding is consumed to its end |
| `Frames.ParseAndHandleFrames` | quic/conn.go:487-500 | the payload loop terminates on every input and handles exactly the frames up to the first error |
| `Frames.RoundTrip` | quic/wire/frame.go:21-319 | every frame type is parsed back from where it stands in a packet |
| `Frames.FormExact` | quic/wire/frame.go:98-319 | the bytes of every frame but padding, ACK and STREAM are those of section 19 of RFC 9000 |
| `Frames.KnownTypes` | quic/wire/frame.go:21-77 | only the types 0x00 to 0x06, 0x08 to 0x17 and 0x1a to 0x1d are parsed |
| `Frames.PayloadRoundTrip` | quic/conn.go:487-500 | for any list of frames without adjacent padding and with a length-less STREAM frame only last, the payload loop returns exactly that list |
| `Accounting.TrackKeeps` | quic/conn.go:887-904 | sending keeps order, byte count and queue exact |
| `Accounting.AckExact` | quic/conn.go:584-595 | marking for an ACK keeps order, byte count and the match of queue and history if and only if it covers no packet still queued |
| `Accounting.AckConserves` | quic/conn.go:584-595 | an ACK keeps bytes in flight equal to the sum over packets neither acknowledged nor lost if and only if it covers no packet that is lost and not yet retransmitted |
| `Accounting.AckKeeps` | quic/conn.go:584-619 | so does all of handling such an ACK, also when failed writes have left other packets in the queue |
| `Accounting.AckKeepsExactly` | quic/conn.go:584-619 | all of handling an ACK keeps order, byte count and the match of queue and history if and only if it covers no packet still queued |
| `Accounting.CompactKeeps` | quic/conn.go:1021-1036 | compaction keeps them too |
| `Accounting.TimeoutKeeps` | quic/conn.go:1002-1012 | a timeout keeps them |
| `Accounting.FlushKeeps` | quic/conn.go:629-707 | a flush keeps them, and leaves the queue empty when no write fails |
| `SenderRuns.RunsStayExact` | quic/conn.go:566-912 | over every run of sends, ACKs, timeouts and flushes, order, byte count and the match of queue and history are exact all along if and only if no ACK covers a packet queued at the time |
| `SenderRuns.ConnectionsStayExact` | quic/conn.go:566-912 | the same from the start of any connection; the byte count is then the sum over packets neither acknowledged nor lost, hence not negative |
| `Tracking.AdmitBounded` | quic/conn.go:810-820 | the check of sendFrame: with at most m senders between check and append and r queued copies whose originals are acknowledged, one more admitted keeps unacknowledged packets, admitted senders and such copies together within MaxTrackedSentPackets + m - 1 + r |
| `Tracking.TrackBounded` | quic/conn.go:822-901 | the append of a sender admitted earlier, whatever others have sent since, keeps the bound |
| `Tracking.AckBounded` | quic/conn.go:584-619 | any ACK keeps it, and leaves exactly as many more such copies as it covers queued packets |
| `Tracking.FlushBounded` | quic/conn.go:629-707 | any flush keeps it: what it tracks anew is taken off the packets or the copies |
| `SenderLimits.RunsStayBounded` | quic/conn.go:566-912 | over every run, with up to m senders at once and any ACKs, at most MaxTrackedSentPackets + m - 1 packets are unacknowledged and as many more as ACKs covered queued packets; the history stays within twice that |
| `SenderLimits.ConnectionsStayBounded` | quic/conn.go:566-912 | the same from the start of any connection; there are no more while each ACK spares the queue |
| `SenderLimits.TrackedLimitExact` | quic/conn.go:629-820 | for runs with up to m senders whose ACKs cover at most n queued packets a bound holds if and only if it is at least MaxTrackedSentPackets + m - 1 + n, so MaxTrackedSentPackets itself if and only if m is 1 and n is 0 |
| `SenderRuns.WriteErrorDiscountsTwice` | quic/conn.go:584-594 | lost, retransmission not written, then acknowledged: the byte count goes negative |
| `Recovery.AckSettles` | quic/conn.go:584-619 | after an ACK the history holds exactly the packets neither acknowledged before nor covered; those late, ack-eliciting and not queued before, originals and copies alike, are marked lost and queued, the others unchanged |
| `Recovery.AckQueues` | quic/conn.go:597-616 | it queues exactly the ack-eliciting packets found late, originals and copies alike, that are not acknowledged, not queued before and not covered |
| `Recovery.LostSentAgain` | quic/conn.go:597-706 | every such packet with a short header whose write succeeds has a copy under a new number in the history that the handling of the ACK leaves, and its own entry is settled |
| `Recovery.TimeoutQueues` | quic/conn.go:1001-1012 | a timeout queues exactly the originals neither acknowledged nor queued before |
| `Recovery.ProbeSends` | quic/conn.go:1001-1017 | a probe timeout sends a packet if and only if the write succeeds of one queued already or of an original neither acknowledged nor queued before |
| `Recovery.SilentProbe` | quic/conn.go:1001-1017 | a probe timeout changes nothing at all if and only if nothing is queued and no such original is left, whatever retransmissions are out |
| `Recovery.ExpireSends` | quic/conn.go:967-1017 | what the timer does that is not idle, up to the fifth time: the history grows if and only if the write succeeds of a packet queued already or of an original neither acknowledged nor queued; the count goes up by one |
| `Recovery.ExpireResends` | quic/conn.go:1001-1017 | each such original has then a copy under a new number, and its entry is settled |
| `Recovery.ExpireKeeps` | quic/conn.go:967-1017 | the timer keeps the bookkeeping exact, so what it queues is taken out of flight |
| `Recovery.ClosesAtSixth` | quic/conn.go:967-1017 | whatever there is to probe with, without an ACK five timeouts are counted and the sixth, no earlier one, closes the connection |
| `Recovery.SilentUntilClosed` | quic/conn.go:967-1017 | from such a state five timeouts without an ACK change nothing and the sixth closes the connection, or none does anything if no packet is tracked |
| `Recovery.NothingBeforeFirstAck` | quic/conn.go:967-989 | until the first ACK arrives, whatever is sent and however often the timer goes off, the history is exactly the packets sent, unmarked and numbered in order, none is queued, declared lost or sent again, and the connection does not close |
| `Recovery.FlushSends` | quic/conn.go:637-706 | in order, every queued short-header packet whose write succeeds goes out with the same payload under a new number and its original is retired; failed ones stay queued, long-header ones are only retired |
| `Recovery.FlushNumbers` | quic/conn.go:637-660 | each queued short-header packet uses up one number, whether or not its write succeeds |
| `Carrying.CutExact` | quic/conn.go:661-669 | the header length recomputed from the packet number is where the payload starts |
| `Carrying.AckKeepsOrAcknowledges` | quic/conn.go:584-619 | a payload carried by a live packet is still carried after an ACK unless the ACK covers a packet that carries it |
| `Carrying.FlushFaithful` | quic/conn.go:629-707 | no flush loses a carried payload, whichever writes fail, and every copy still fits its buffer |
| `Carrying.RetransmissionPreservesPayloads` | quic/conn.go:656-689 | over every run of packets first built to at most 1449 bytes, each tracked or queued short-header packet is a header and the untouched payload of a packet that was sent, at most three bytes longer than its first size, and fits the buffer of 1452 |
| `Packing.TakenFits` | quic/conn.go:871-882 | adding control frames with rollback never exceeds the packet size |
| `Packing.TakenMaximal` | quic/conn.go:871-882 | they are added until none is left or the next would exceed it |
| `Packing.NothingDropped` | quic/conn.go:871-883 | no control frame is dropped if and only if all of them fit |
| `Packing.TruncateFits` | quic/conn.go:825-843 | whatever its data, after truncation a STREAM frame fits behind the header of any packet number, holds a prefix of the data and at least one byte of it if there is any, and has a length field if it was cut |
| `Packing.TruncateFills` | quic/conn.go:825-843 | the frame is cut if and only if it would not fit behind the largest header, and then it fills the packet to the last byte |
| `Packing.StreamPacketFits` | quic/conn.go:825-885 | every packet built around a STREAM frame, of any data and with or without a length field, is within the packet size |
| `Packing.StreamPacketParsed` | quic/conn.go:857-883 | the peer parses from it the STREAM frame and the control frames added, nothing else |
| `Packing.RenumberingFits` | quic/conn.go:656-689 | packets built to a size stay within the buffer of 1452 bytes under every number if and only if the size is at most 1449 |
| `Packing.RenumberedOver` | quic/conn.go:957-964 | every packet of more than 1449 bytes with a one-byte number outgrows the buffer under a four-byte one |
| `StreamIO.Stream.constructor` | quic/stream.go:46-57 | the initial state and windows |
| `StreamIO.Stream.TryFlushPending` | quic/stream.go:235-250 | the flush loop terminates, also with empty chunks pending, and computes the flush function |
| `StreamIO.Stream.HandleStreamData` | quic/stream.go:253-292 | an incoming frame has the effect of the function Handle; the window is raised if and only if the stream has not ended, bytes above the offset arrive and less than 524288 is left afterwards, then to 1048576 above the new offset, and an update is sent exactly then |
| `StreamIO.Stream.Read` | quic/stream.go:65-92 | one turn of the read loop: min(n, buffered) bytes, split off the front of the buffer; end-of-stream exactly when nothing is buffered after the FIN; else blocked, with the window raised by 1048576 unless nothing has ever arrived |
| `StreamIO.Stream.UpdateMaxData` | quic/stream.go:295-302 | the writer's window never shrinks |
| `Reassembly.PrefixSafety` | quic/stream.go:65-92 | for any overlap, order and duplication of slices of one source, bytes read plus bytes buffered are the source up to the reassembly offset, and the offsets agree |
| `Reassembly.ReadsDrain` | quic/stream.go:81-86 | reads with a buffer of any size return together exactly what was buffered |
| `Reassembly.ReadsWithinSize` | quic/stream.go:81-86 | in every run a read with a buffer of n bytes returns min(n, buffered) bytes, those next in order |
| `Reassembly.ReadsCounted` | quic/stream.go:81-86 | draining m bytes with a buffer of n takes exactly m / n reads, rounded up |
| `Reassembly.WindowKept` | quic/stream.go:286-292 | the granted window never shrinks and stays at least half a window ahead |
| `Reassembly.WindowRaisedExactly` | quic/stream.go:253-292 | when an arrival raises the window, and that it is then 1048576 above the new offset |
| `Reassembly.ReadRaisesExactly` | quic/stream.go:65-92 | when a read raises it, and that it is then by 1048576 |
| `Reassembly.GrantBounded` | quic/stream.go:65-292 | over every run of arrivals and reads the grant is 524288 to 1048576 * (1 + reads that blocked) bytes above the offset |
| `Reassembly.RunReassembles` | quic/stream.go:235-292 | after any arrivals of a fixed segmentation, reassembly stands at the end of the longest contiguous run received from 0 and exactly the other segments received are pending |
| `Reassembly.OrderIndependent` | quic/stream.go:235-292 | so two arrival orders of the same segments leave the same offset and the same pending data, up to the empty chunk of an early FIN; if a FIN came early in both or neither, that and the FIN flags are the same too |
| `Reassembly.EndOfStreamExact` | quic/stream.go:235-292 | end-of-stream is set if and only if all segments arrived and a FIN came before the data was complete, and then the offset is the final size |
| `Reassembly.LateFinIsLost` | quic/stream.go:262-267 | the FIN after the last byte is never noticed; before it, it is |
| `Overlap.ArrivalKeepsWhole` | quic/stream.go:253-284 | from a state in which no received byte is lost and reassembly stands at the first missing one, an arrival leads to such a state if and only if it is harmless, which is said branch by branch of what is pending before it |
| `Overlap.OverlapExact` | quic/stream.go:65-292 | a run of arrivals, overlapping in any way, and reads never loses a received byte or holds it back behind a closed gap if and only if each arrival is harmless in its turn |
| `Overlap.StaleChunkStays` | quic/stream.go:278-284 | a pending chunk below the reassembly offset outlives every later arrival |
| `Overlap.OverlapIsStuck` | quic/stream.go:253-292 | three bytes received in two overlapping segments of which the last is never delivered |
| `Overlap.ShorterReplaces` | quic/stream.go:278-284 | three bytes received of which the last is thrown away, because a shorter segment replaced a longer one |
| `DeliveryInvariant.StreamPayloadEffect` | quic/conn.go:857-883 | behind any header, a packet built around a STREAM frame does to the peer's stream what that frame does |
| `DeliverySteps.StepSafe` | quic/conn.go:566-1036 | every step of the end-to-end model, however late a packet arrives, keeps the safety invariant of wire, stream, flow control and buffers |
| `DeliveryMemory.AckRemembers` | quic/conn.go:566-625 | after an ACK each segment written is handled by the peer or carried by a waiting packet if and only if before it each was handled or carried by a waiting packet that the ACK does not cover, whatever it finds late |
| `DeliveryMemory.StepRemembers` | quic/conn.go:566-1036 | every other step keeps each segment handled or carried, however late a packet arrives |
| `DeliveryTheorems.StepKeeps` | quic/conn.go:566-1036 | every step with a timely arrival keeps the global invariant, to which also belongs that acknowledgements tell the truth, and its ACK is harmless |
| `DeliveryTheorems.NothingIsForgotten` | quic/conn.go:566-707 | over every run, each segment written has all along been handled by the peer or sat in the payload of a tracked packet that is not acknowledged, if and only if each ACK was harmless when it arrived |
| `DeliveryTheorems.TimelyRunsRemember` | quic/conn.go:441-459 | in every run with timely arrivals each ACK is harmless, and so nothing is ever forgotten |
| `DeliveryTheorems.ReadsArePrefix` | quic/stream.go:65-92 | in every reachable state, late arrivals included, the bytes read are a prefix of the bytes written, and end-of-stream means all of them |
| `DeliveryTheorems.EndOfStreamInRuns` | quic/stream.go:235-292 | in every reachable state end-of-stream is set if and only if all segments have been handled and a packet with the FIN came while data was missing |
| `DeliveryTheorems.RefusedFinIsLost` | quic/stream.go:181-190 | after a Close whose FIN was refused no run ever sets end-of-stream |
| `DeliveryTheorems.QuiescenceMeansDelivery` | quic/conn.go:566-707 | in every reachable state in which no short-header packet waits for an acknowledgement the peer has reassembled every byte written if and only if nothing is forgotten, and so it has if each ACK was harmless |
| `DeliveryTheorems.FlowControlHolds` | quic/stream.go:135-168 | in every reachable state, late arrivals included: written <= window of the writer <= window granted, the grant stays 524288 ahead of reassembly, and once every packet sent and every window granted has arrived all is reassembled and the next chunk passes the window check |
| `DeliveryTheorems.PacketsFitBuffers` | quic/conn.go:656-691 | in every reachable state of a connection with packet size at most 1449 every tracked or queued short-header packet fits the buffer of 1452 bytes, so no copy is cut |
| `StaleNumbers.RecordedExactlyWhenTimely` | quic/conn.go:441-459 | the peer records the number a packet was sent under if and only if the packet arrives in time |
| `StaleNumbers.SetupRecordedExactly` | quic/conn.go:463-477 | of a setup packet it records number 0 if and only if that arrives in time |
| `StaleNumbers.LateDuplicateLosesData` | quic/conn.go:441-459 | a run that starts after the three setup packets, in which a late window update in packet 3 is taken for packet 259 and makes the sender drop its only copy of undelivered data: the segment is forgotten |
| `Connection.Connection.constructor` | quic/conn.go:150-186 | a new connection tracks nothing |
| `Connection.Connection.AckPacket` | quic/conn.go:586-594 | one number is looked up in the map; the packet is marked and discounted unless it was before |
| `Connection.Connection.ProcessRanges` | quic/conn.go:584-595 | the nested loops over ranges and numbers acknowledge exactly the tracked packets covered, and take each one's bytes off once |
| `Connection.Connection.DetectLosses` | quic/conn.go:597-616 | the loss loop marks, queues and discounts the late packets, of which Recovery.AckSettles and AckQueues say exactly which they are |
| `Connection.Connection.RequeueOriginals` | quic/conn.go:1001-1012 | the timeout loop does so for the originals |
| `Connection.Connection.DropAcked` | quic/conn.go:1025-1035 | in one pass the slice keeps the unacknowledged packets in order and the map loses the others |
| `Connection.Connection.CompactSentHistory` | quic/conn.go:1021-1036 | afterwards the map is again exactly the index of the history |
| `Connection.Connection.ResendOne` | quic/conn.go:638-704 | one queued packet is renumbered, rebuilt, tracked and its original retired, kept, or skipped |
| `Connection.Connection.FlushRetransmitQueue` | quic/conn.go:629-707 | the flush loop computes FlushQueue, and the map stays the exact index |
| `Connection.Connection.HandleAckFrame` | quic/conn.go:566-625 | mark, detect losses, compact and flush, in this order, with what Recovery.AckSettles, AckQueues and LostSentAgain prove of that; the probe counter is reset |
| `Connection.Connection.CheckPTO` | quic/conn.go:967-1017 | with no ACK overdue nothing, and otherwise what the timer function of Recovery does, of which ExpireSends, ExpireResends and ClosesAtSixth say what it is |
| `Connection.Connection.AppendPending` | quic/conn.go:871-882 | the loop with rollback adds exactly the leading control frames that fit |
| `Connection.Connection.CheckFrame` | quic/conn.go:805-820 | the guards of the first half of sendFrame |
| `Connection.Connection.SendAdmitted` | quic/conn.go:822-912 | the second half, from whatever state it finds: refused without any change exactly when the congestion window does not admit STREAM data; otherwise one packet, cut and filled as in Packing, is tracked |
| `Connection.Connection.SendFrame` | quic/conn.go:805-912 | both halves, when nothing comes between |
| `Connection.Connection.FlushPendingFrames` | quic/conn.go:915-954 | control frames go out alone under a fresh number, untracked |
| `Connection.Connection.SetMaxPacketSize` | quic/conn.go:957-964 | a size below 1200 changes nothing, one above 1452 counts as 1452, any other is taken |
| `Connection.Connection.SendStreamData` | quic/conn.go:775-789 | for data of any length: returns the number of bytes in the packet, all of the data or what fills the packet, and zero only when refused or given none; the packet holds that frame and fits |
| `Connection.Connection.WriteTurn` | quic/stream.go:135-174 | a turn of the write loop sends if and only if the next 1200 bytes or what is left pass the window check and sendFrame does not refuse; it sends these or what fills a packet, and never exceeds the window |
| `Connection.Connection.Write` | quic/stream.go:114-178 | the bytes accepted go out in consecutive non-empty frames that tile them, one tracked packet each, within the window |
| `Rtt.Sample` | quic/utils/rtt.go:36-57 | the time measured less the delay the peer reports, of which at most 25 ms count, unless nothing would be left; no time measured counts as 1 microsecond |
| `Rtt.RTTStats.UpdateRTT` | quic/utils/rtt.go:36-78 | the fields follow the update function; no send time, no change |
| `Rtt.SampleMoves` | quic/utils/rtt.go:65-77 | a sample moves the smoothed value an eighth of its distance and the variation a quarter of the way to that distance, rounded down, never past the sample |
| `Rtt.Settles` | quic/utils/rtt.go:65-77 | under a round-trip time that stays the same the smoothed value ends at most 7 ns below it, after no more samples than it was nanoseconds off |
| `Rtt.TimeoutsExact` | quic/utils/rtt.go:100-122 | both timeouts as the least values that meet their bounds |
| `Rtt.RTTStats.PTO` | quic/utils/rtt.go:102-108 | the probe timeout of the current estimate |
| `Rtt.RTTStats.LossDelay` | quic/utils/rtt.go:112-122 | at least twice the smoothed value and nine eighths of the latest |
| `Rtt.EstimatesWithin` | quic/utils/rtt.go:59-77 | after any samples the minimum is exact, minimum <= smoothed <= largest sample, and the variation is at most the largest sample |
| `Rtt.TimeoutsBounded` | quic/utils/rtt.go:100-122 | hence 200 ms <= PTO <= max(200 ms, 5 M), and the loss delay is bounded both ways |
| `NewReno.Controller.OnPacketAcked` | quic/utils/congestion.go:53-91 | the fields follow the event function; false exactly when the ACK is ignored in recovery |
| `NewReno.Controller.OnPacketLost` | quic/utils/congestion.go:94-113 | a loss outside recovery halves the window down to the floor |
| `NewReno.Controller.OnPacketNeedsRetransmit` | quic/utils/congestion.go:121-129 | a timeout resets the window to the floor |
| `NewReno.FlightBound` | quic/utils/congestion.go:132-140 | what CanSend gives: over any run the bytes in flight never exceed the largest window there was, plus one datagram in recovery, by more than what a packet holds besides the data asked for and the bytes sent although CanSend would have refused them |
| `NewReno.RunsStayFloored` | quic/utils/congestion.go:53-129 | over every run window and threshold are at least 2400 |
| `NewReno.FlightIsBalance` | quic/utils/congestion.go:47-118 | bytes in flight are bytes sent less bytes acknowledged and discarded, whatever else happens |
| `NewReno.OneReductionPerEpisode` | quic/utils/congestion.go:58-113 | one loss episode, however many losses, halves the window once, not below 2400, and the threshold with it |
| `NewReno.RecoveryEnds` | quic/utils/congestion.go:58-91 | it ends with the first ACK above the recovery point, which already opens the window |
| `NewReno.TimeoutCollapses` | quic/utils/congestion.go:121-129 | after a timeout in any run the window is 2400, the threshold half the window before, and no recovery is under way |
| `NewReno.SlowStartGrows` | quic/utils/congestion.go:73-79 | below the threshold the window grows by every byte acknowledged |
| `NewReno.SlowStartStops` | quic/utils/congestion.go:73-79 | the ACK that would take it past the threshold takes it there |
| `NewReno.AvoidanceBound` | quic/utils/congestion.go:81-87 | n ACKs covering S bytes grow a window W by at least n and at most 1200 S / W + n |
| `NewReno.AvoidanceGains` | quic/utils/congestion.go:81-87 | and, to a window W', by at least 1200 S / W' - n |
| `NewReno.WindowGrowth` | quic/utils/congestion.go:53-91 | both bounds for the controller at or above its threshold |
| `Bbr.Controller.UpdateBtlBw` | quic/utils/bbr.go:274-287 | the rate replaces the oldest in the ring buffer and the loop finds the maximum |
| `Bbr.Controller.StartNewRound` | quic/utils/bbr.go:188-203 | a round adds its delivery rate, if it has one, and resets the counters |
| `Bbr.Controller.AdvanceState` | quic/utils/bbr.go:289-326 | the phase follows the transition function |
| `Bbr.Controller.UpdatePacingAndCwnd` | quic/utils/bbr.go:336-377 | pacing rate and window follow the function Paced, which BbrPacing.RoundPaces determines |
| `Bbr.Controller.OnPacketAcked` | quic/utils/bbr.go:145-186 | an ACK is counted, ends the round if one is due, and then advances the phase |
| `Bbr.Controller.OnPacketLost` | quic/utils/bbr.go:207-220 | the third loss in Startup ends it; later losses only note a recovery and its point |
| `Bbr.Controller.OnPacketNeedsRetransmit` | quic/utils/bbr.go:228-233 | a timeout falls back to the minimal window and ends a recovery |
| `Bbr.BytesConserved` | quic/utils/bbr.go:140-226 | over every run the delivered count is the sum of the bytes acknowledged, and bytes in flight, delivered and discarded together are the bytes sent |
| `Bbr.BandwidthIsWindowedMax` | quic/utils/bbr.go:188-287 | after any run btlBw is the largest of the last ten round rates |
| `Bbr.RunsStayInBounds` | quic/utils/bbr.go:119-377 | over every run cwnd >= 2097152, pacingRate >= 4194304 and 0 < rtProp <= 100 ms |
| `Bbr.PhasesOnlyAdvance` | quic/utils/bbr.go:205-326 | Startup, Drain, then ProbeBW and ProbeRTT in turn, never back; rtProp never grows |
| `Bbr.StartupExit` | quic/utils/bbr.go:291-296 | a round ends Startup if and only if it is the third or later and its rate exceeds four fifths of the windowed maximum |
| `Bbr.GrowthEndsStartup` | quic/utils/bbr.go:328-334 | the best rate so far ends Startup |
| `BbrPacing.RoundEndsExactly` | quic/utils/bbr.go:145-203 | an ACK ends a round if and only if a round-trip time has passed in it or the packet number is a thousand per round ahead; the counters before and after |
| `BbrPacing.RateExactly` | quic/utils/bbr.go:165-198 | the rate times the length of the round gives the bytes acknowledged in it; the length is one round-trip time, or the time passed if more than two |
| `BbrPacing.PhasesMoveExactly` | quic/utils/bbr.go:289-326 | when exactly a round of a run leaves Drain, ProbeBW and ProbeRTT, and for what |
| `BbrPacing.LossesMoveExactly` | quic/utils/bbr.go:207-220 | the third loss ends Startup; later ones note a recovery and its point and change no phase |
| `BbrPacing.RoundPaces` | quic/utils/bbr.go:336-377 | after each round of a run, above the floors: the pacing rate is 2, 1/2.77, 1.25, 0.75 or 1 times the bandwidth by phase and place in the cycle, rounded down; the window 8 or 2 times the product of bandwidth and round-trip time, rounded up, or the minimum |
| `BbrPacing.DrainPaces` | quic/utils/bbr.go:336-358 | in Drain, 2.77 times the pacing rate is the bandwidth, up to the rounding |
| `BbrPacing.CycleAverages` | quic/utils/bbr.go:302-354 | the eight pacing rates of a ProbeBW cycle at one bandwidth add up to eight times that, up to their rounding |
| `BbrPacing.TimeoutPaces` | quic/utils/bbr.go:228-233 | a timeout leaves the minimal window, paced once per round-trip time, and phase and estimates as they are |
| `Listener.Server.DispatchPacket` | quic/listener.go:185-232 | the first half of dispatch: fast path, migration, drop, or a new connection |
| `Listener.Server.MoveTo` | quic/listener.go:209-216 | migration moves the map entry and the address together |
| `Listener.Server.RegisterConnection` | quic/listener.go:266-275 | the second half: entered in both maps unless a live connection took the address meanwhile |
| `Listener.Server.NewConnection` | quic/listener.go:256-264 | made without the lock, in neither map |
| `Listener.Server.CloseConnection` | quic/conn.go:341-344 | a connection closes at any time, and both maps stay as they are |
| `Listener.RunKeeps` | quic/listener.go:185-275 | in every run, whatever closes when, entries match addresses, live connections are found under theirs, and connections not yet registered are in neither map |
| `Listener.LiveConnectionsAndAddresses` | quic/listener.go:185-275 | in every interleaving a live registered connection is the one found under its address, so both correspond one to one |
| `Listener.PacketsReachTheirConnection` | quic/listener.go:192-237 | the owner of the address gets its packets; a delivery goes to a live connection of that address; a new one is asked for only when no live one has it |
| `Listener.RoutesExactly` | quic/listener.go:185-237 | exactly where a packet goes: to the owner of its address or, without one, to the live connection its short header names, which moves there; a connection is asked for under a long header without an owner; all else is dropped |
| `Listener.LateRegistration` | quic/listener.go:266-275 | a registration succeeds exactly when no live connection holds the address, and otherwise leaves both maps alone |
| `Listener.IdsStay` | quic/listener.go:207-218 | a connection stays known under its ID through every migration until the ID is given out again |

## Left out

Assumptions of the end-to-end model:

- One writer per stream and no write after Close; the code does not enforce the second.
- No RESET_STREAM, STOP_SENDING, CancelRead or CancelWrite, and the connection stays open.
- DeliveryTheorems.StepKeeps: holds for arrivals in time only, for the reason given under "What does not hold"; StepSafe holds for all, and StepRemembers says what else does.
- Packet sizes from 1200 to 1449, which may change at any time: at 1450 to 1452 a renumbered packet can outgrow its buffer, which the code does not survive.
- Window updates that find no room in a packet: the window counts as granted, and its update never arrives.
- Clocks: which packets are late, whether a probe timeout is due and when an ACK is emitted are free choices.
- Failing writes are a free choice for retransmissions; a failing write of a new packet is a loss in the network.
- Long-header setup packets are tracked, acknowledged and retired, but their frames are never delivered: `SetLength` does not recognise the packet type and writes over the length of the token. The peer drops the first two and takes the third for packet number 0 with padding; that is all the model admits of them, so a faithful round trip of long headers is false.
- Packets an earlier ACK covered may be acknowledged again by any later copy of it; ACKs are abstract sets of ranges here, and their way over the wire is the subject of AcknowledgesExactly.

Members that say less than the code does:

- ResendOne: the fixed buffer of a tracked packet is a sequence here, and that its 1452 bytes are never exceeded is proved instead; above packet size 1449 the object in Connection keeps the bytes that the code would cut.
- SendFrame: says what happens when nothing comes between its halves; for what happens when others send in between, CheckFrame and SendAdmitted are the steps, and SenderRuns has their runs.
- AppendPending: an ACK without ranges, which nothing queues, ends the loop here; in the code its Append returns nil and cutting that back fails.
- CheckPTO: the two readings of the clock are one parameter, and closing only sets a flag.
- LossDelay: 9/8 is rounded up exactly; the code goes through a float64, which is exact below 2^50 ns.
- Write: deadlines, write errors and the pause between attempts are part of the list of turns, and nothing but window updates happens between turns; in the end-to-end model every other step may.
- Read: the wait for data and deadlines are the caller's; only one turn of the loop is modelled.
- RegisterConnection: packet parsing between the two halves, the accept queue and the path challenge are not modelled; connection IDs are not assumed to be distinct.
- UpdatePacingAndCwnd: floats are reals, so rounding is not modelled.
- DropAcked: the slice and the map are worked on as local values and stored back at the end; packet structs are not recycled.

Not modelled at all:

- UDP sockets, buffer pools, goroutine timers, logging, dialing and everything under `cmd/`.
- CUBIC, which rests on floating-point cube roots, and BBR's pacing check against the clock in CanSend.
- `quicvarint.Read`, which is unused.
- Connection-level flow control and stream limits, which are stored and never enforced.
- The second trimming of received numbers in `sendAckIfNeeded`, which the first makes unreachable.
- int64 wrap-around of byte counts, offsets and packet numbers, except for the delay of an ACK frame.
