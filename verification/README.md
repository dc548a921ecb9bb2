# TQUIC transport core: a verified model

This project models the self-contained algorithms of the TQUIC transport (a QUIC
implementation in Rust) and proves what they promise, over all inputs, all runs or all
reachable states.

| module | models | main results |
|---|---|---|
| `Codec` (`Codec.dfy`) | `src/codec.rs` | big-endian integers and varints read back |
| `Ranges` (`Ranges.dfy`) | `src/ranges.rs` | `RangeSet` is a set of u64 over every run of operations; eviction and capacity; first gap |
| `Frames` (`Frame.dfy`) | `src/frame.rs` | whole payloads read back, exactly when; ACK frames and canonical range sets are inverse |
| `PacketNumbers` (`Packet.dfy`) | `src/packet.rs` | truncated packet numbers: when decoding is exact, and least length |
| `PacketHeaders` (`Header.dfy`) | `src/packet.rs` | header protection is undone for every mask function; 1-RTT end to end |
| `Window` (`Window.dfy`) | `src/window.rs` | the duplicate window against the full history; exactly when it errs |
| `MinMaxFilter` (`MinMax.dfy`) | `src/congestion_control/minmax.rs` | three samples against the full history, exactly when they suffice |
| `Pacing` (`Pacing.dfy`) | `src/congestion_control/pacing.rs` | rate bound over whole runs; waiting time tight; polling |
| `Pmtu` (`Pmtu.dfy`) | `src/connection/pmtu.rs` | the search ends, is never too large, and is within 1% |
| `Rounds` (`Rounds.dfy`) | `src/congestion_control/bbr.rs`, `delivery_rate.rs` | packet-timed rounds are real round trips |
| `Bbr3Machine` (`Bbr3.dfy`) | `src/congestion_control/bbr3.rs` | state and full-pipe flag agree; one reaction per probe; ProbeRTT lasts |
| `FramesOnTheWire`, `HeadersOnTheWire`, `TransParamsOnTheWire` (`*Wire.dfy`) | the same files | what is made of bytes put together by hand; protected bits |
| `Bbr3Moves` (`Bbr3Moves.dfy`) | `src/congestion_control/bbr3.rs` | what each event does, in one table; when ProbeRTT is entered and left |
| `TransParams` (`TransParam.dfy`) | `src/trans_param.rs` | encode/decode identity, exactly when; order of parameters irrelevant |

`Base` and `Bits` hold the option type, word limits and bitwise operators on naturals.

Integers are unbounded naturals, with u64, u128 and u32 limits, saturation and truncation
written out where the source depends on them. Instants and durations are nanoseconds.
Byte buffers are values: an encoder is a function that puts its bytes in front of a given
rest, a decoder returns what it read and the bytes left. Where the source updates fields
or a buffer in place (`RangeSet`, `SeqNumWindow`, `MinMax`, `Pacer`, `Dplpmtud`, the BBR
flows, header protection, the ACK and parameter loops) there is a class or a method with a
loop, proved to compute a specification function; the laws are proved about that
function. The header mask is an arbitrary function of the sample. Clocks are arguments.

Some results are about behaviour that a reader of the source may not expect; each comes
with the exact condition and a concrete input:

- `Window.ExactIffNeverAliases`, `Window.LargeJumpIsWrong`: the shift amount is cut to 32
  bits (src/window.rs:41), so after a jump of 2^32 or more an old bit can reappear and a
  number that was never inserted is taken for a duplicate.
- `Ranges.BoundKeptIff`, `Ranges.SplitLeavesBound`: `remove` does not look at the capacity,
  so splitting a range of a full set takes it above its bound, and `remove_until` can
  then evict.
- `Pacing.WaitIsTight`, `Pacing.RefusedAtReturnedTime`: the time `schedule` returns is
  rounded down, so the request is still refused exactly at that time unless the rate
  divides the missing amount.
- `Pacing.PollingGrantedIff`, `Pacing.FastPollingStarves`: asking again before a whole byte
  has been earned resets the refill clock without earning anything, so polling at such a
  spacing is refused forever.
- `MinMaxFilter.ExactIffNeverForgets`, `MinMaxFilter.WindowedExactIff`,
  `MinMaxFilter.ForgetsRecentSample`, `MinMaxFilter.ForgetsZeroMinimum`: once a best
  sample has aged out, the filter can miss a sample that came in just before. A minimum of
  zero is forgotten at the next sample, since zero stands for no sample
  (src/congestion_control/minmax.rs:176).
- `Frames.FrameRoundTripIff`, `Frames.PayloadRoundTrip`, `Frames.LongCryptoIsLost`,
  `Frames.TouchingPaddingsMerge`: which frames and payloads do not arrive as they were
  sent.
- `Bbr3Machine.GainsLagExactlyWhen`, `Bbr3Machine.LagIsReachable`: gains match the state
  after every processed ACK, but two events in between change the state without updating
  them.
- `TransParams.RoundTripIffSendable`, `TransParams.ZeroExponentIsLost`: which records the
  peer does not read as they were.

## Model

| member | source | states |
|---|---|---|
| Codec.BigEndianRoundTrip | src/codec.rs:102-141 | The k-byte big-endian form of any n reads back as n modulo 256^k: the truncation of the fixed-width writers. |
| Codec.WriteUint | src/codec.rs:102-141 | What is written is read back, cut to its width, and the reader stops right behind it. |
| Codec.VarintRoundTrip | src/codec.rs:148-170 | In every length 1, 2, 4 or 8 that holds it, a varint reads back whatever follows, although the length bits share its first byte. |
| Codec.WriteVarint | src/codec.rs:143-146 | The shortest varint has the announced length and reads back with the rest untouched, for every n up to 2^62-1. |
| Codec.ReadVarint | src/codec.rs:236-255 | A varint that parses is at most 2^62-1 and consumed at least one byte. |
| Codec.Read | src/codec.rs:257-266 | Reading k bytes succeeds exactly when there are k, and splits the buffer without loss. |
| Codec.WritesPrepend | src/codec.rs:102-178 | No writer's output depends on what follows it. |
| Codec.TwoByteLength | src/codec.rs:157-159 | A length that does not fit two bytes reads back cut to 14 bits, or, with bit 15 set, looks like an eight-byte varint. |
| Ranges.InsertedCanonical | src/ranges.rs:44-79 | Insert keeps ranges sorted, non-empty and separated by a missing value, for any capacity. |
| Ranges.InsertIsUnion | src/ranges.rs:44-79 | Whenever nothing is evicted, inserting is set union. |
| Ranges.InsertIsUnionByDefault | src/ranges.rs:44-79 | At default capacity inserting is always set union: a u64 set cannot fill it. |
| Ranges.InsertEvicts | src/ranges.rs:74-78 | An eviction loses exactly the lowest of the ranges that could not be merged, from any canonical set and at any capacity. |
| Ranges.BoundedInsert | src/ranges.rs:44-79 | From any canonical set, within its capacity or above it: the inserted range is contained, the exact resulting set is given with and without eviction, and the set never moves further above its capacity; a set within its capacity evicts iff it is full and nothing is touched. |
| Ranges.RemoveIsDifference | src/ranges.rs:87-126 | Removal is set difference and keeps the map canonical. |
| Ranges.FilterIsFirstGap | src/ranges.rs:157-181 | None iff the range is covered; otherwise the first maximal uncovered piece, never empty: everything before it is covered, nothing in it is, and it ends at the range end or at a covered value. |
| Ranges.ContainsIsMembership | src/ranges.rs:245-257 | The two-sided lookup is membership. |
| Ranges.PopMinDropsLowestRun | src/ranges.rs:266-271 | What stays is the part of the set above its first hole, a definition on sets alone. |
| Ranges.CanonicalIsUnique | src/ranges.rs:26-41 | A set of values has one canonical map, so a run's result is determined by its meaning. |
| Ranges.RangeSet.Insert | src/ranges.rs:44-79 | The merging loop computes `Inserted`. |
| Ranges.RangeSet.AddElem | src/ranges.rs:82-84 | Inserts one value. |
| Ranges.RangeSet.Remove | src/ranges.rs:87-126 | The cutting loop computes `Removed`. |
| Ranges.RangeSet.RemoveElem | src/ranges.rs:129-131 | Removes one value. |
| Ranges.RangeSet.RemoveUntil | src/ranges.rs:134-149 | The loop through `insert` computes `RemovedUntil`, from any canonical set and at any capacity. |
| Ranges.RemoveUntilIsRemoval | src/ranges.rs:134-149 | It is a plain removal of 0..=elem iff the tail of a straddling range finds room; otherwise it also loses the next range. |
| Ranges.RemoveUntilWithinCapacity | src/ranges.rs:134-149 | From a set within its capacity it never evicts. |
| Ranges.RangeSet.PopMin | src/ranges.rs:266-271 | Returns and removes the range with the least start, or None from an empty set. |
| Ranges.RangeSet.Contains | src/ranges.rs:245-257 | Answers membership in the denoted set. |
| Ranges.Apply | src/ranges.rs:44-149 | Each operation on the object, at any capacity, computes `After` and keeps the map canonical. |
| Ranges.AfterMeaning | src/ranges.rs:44-149 | At default capacity each operation does to the denoted set what it means. |
| Ranges.Execute | src/ranges.rs:44-149 | Over every sequence of the six operations from an empty set of any capacity the object is canonical; at default capacity it denotes exactly the set the operations describe. |
| Ranges.RunMeaning | src/ranges.rs:44-149 | The same of the maps: the union, difference and pop-min results over every run. |
| Ranges.BoundKeptStep | src/ranges.rs:87-126 | From within its capacity, an operation leaves it iff it removes from the inside of a range of a full set. |
| Ranges.BoundKeptIff | src/ranges.rs:44-149 | A run stays within its capacity iff no removal splits a range of a full set. |
| Ranges.SplitLeavesBound | src/ranges.rs:99-104 | Concrete run: at capacity 1, insert 0..10 and remove 3..4 leave two ranges, and remove_until(1) then evicts 4..10. |
| Frames.AckPairsRoundTrip | src/frame.rs:436-443 | The gap and length pairs of any chain of ranges read back; no subtraction underflows. |
| Frames.InsertAllChain | src/frame.rs:1204-1232 | Inserting a descending chain one range at a time never merges and never evicts: the set lists exactly that chain. |
| Frames.DescendingChain | src/frame.rs:428-443 | The ranges of a canonical set, highest first, form a chain, which is what the gap field needs. |
| Frames.AckListRestores | src/frame.rs:1186-1252 | Writing out the ranges of a set and inserting them again restores the set. |
| Frames.AckFrameRoundTrip | src/frame.rs:419-454 | Every non-empty canonical set of packet numbers up to 2^62-1 of default capacity, with or without ECN counts, parses back to the same ACK. |
| Frames.AckRead | src/frame.rs:1186-1252 | An ACK of any capacity parses back with the same ranges and the default capacity (two range sets are equal only if their capacities are). |
| Frames.ParsedAckIsCanonical | src/frame.rs:1186-1252 | Every ACK that parses yields a canonical set with exactly one range more than the ACK Range Count read from the frame, in the order read. |
| Frames.EncodedLength | src/frame.rs:617-771 | Every encodable frame occupies exactly `wire_len` bytes. |
| Frames.FrameRoundTrip | src/frame.rs:185-370 | Every encodable frame, followed by anything (a non-zero byte after PADDING), reads back if the packet type allows it and is refused otherwise. |
| Frames.FrameRoundTripIff | src/frame.rs:185-614 | For every frame the encoder can write: it reads back iff its length matches its data and fits two bytes, the stream limit is kept, an ACK has the default capacity, a PING has no metadata, PADDING is not empty and followed by something else, and the packet type allows it. |
| Frames.LongCryptoIsLost | src/frame.rs:1129-1137 | Concrete case: a CRYPTO frame of 16384 bytes does not come back. |
| Frames.Decode | src/frame.rs:185-400 | A frame that parses consumed something and is allowed in the packet type. |
| Frames.EncodePrepend | src/frame.rs:403-614 | The bytes of a frame do not depend on what follows: a payload is a concatenation. |
| Frames.FirstByte | src/frame.rs:403-614 | Only PADDING starts with a zero byte. |
| Frames.PayloadReads | src/frame.rs:185-614 | For every list of encodable frames, what the peer reads is known exactly: an error if one is forbidden, otherwise the same list with PADDING runs in a row taken together. |
| Frames.PayloadRoundTrip | src/frame.rs:185-614 | For any list of frames the encoder can write (data below 64 kbyte each): it reads back as that list, and is used up, iff every frame is encodable and allowed and no two PADDING runs touch. A too long frame could only be read as itself shifted into what follows, which no encoded frame allows. |
| Frames.TouchingPaddingsMerge | src/frame.rs:191-198 | Concrete case: two PADDING runs of one byte come back as one of two. |
| FramesOnTheWire.StreamOnTheWire | src/frame.rs:239-271 | For each of the eight STREAM types and all fields, the bytes put together by hand decode to exactly that frame: offset iff bit 2, length iff bit 1, end of stream iff bit 0; without a length the data is all that is left. |
| FramesOnTheWire.BadStreamOnTheWire | src/frame.rs:252-262 | A STREAM frame that ends past the limit is refused as malformed, one that announces more data than there is as too short. |
| FramesOnTheWire.NoFieldsOnTheWire | src/frame.rs:200-348 | PING and HANDSHAKE_DONE from their types. |
| FramesOnTheWire.OneIntegerOnTheWire | src/frame.rs:273-327 | The seven frames of one integer, each from its type and a varint. |
| FramesOnTheWire.TwoIntegersOnTheWire | src/frame.rs:214-300 | The three frames of two integers, in the order of their fields. |
| FramesOnTheWire.ThreeIntegersOnTheWire | src/frame.rs:208-362 | RESET_STREAM and PATH_STATUS, in the order of their fields. |
| FramesOnTheWire.LengthAndBytesOnTheWire | src/frame.rs:219-347 | CRYPTO, NEW_TOKEN and application CONNECTION_CLOSE, with the length in front of the bytes. |
| FramesOnTheWire.CodesAndBytesOnTheWire | src/frame.rs:337-355 | CONNECTION_CLOSE and PATH_ABANDON, with two integers in front. |
| FramesOnTheWire.FixedBytesOnTheWire | src/frame.rs:311-335 | PATH_CHALLENGE, PATH_RESPONSE and NEW_CONNECTION_ID, with bytes of known size. |
| FramesOnTheWire.OneRangeOnTheWire | src/frame.rs:1186-1252 | An ACK of one range: the largest number and how many below it. |
| FramesOnTheWire.TwoRangesOnTheWire | src/frame.rs:1186-1252 | A second range lies gap + 1 missing numbers further down, and type 3 carries the ECN counts. |
| FramesOnTheWire.BadAckOnTheWire | src/frame.rs:1203-1205 | An ACK whose first range would reach below zero is refused. |
| FramesOnTheWire.UnknownTypeRefused | src/frame.rs:185-370 | A type without a frame is refused, in every packet. |
| FramesOnTheWire.PermittedPackets | src/frame.rs:372-400 | Which frames each packet type carries: Initial and Handshake those of the handshake, 0-RTT all that do not answer the peer, 1-RTT all. |
| Frames.ReparseIsStable | src/frame.rs:185-370 | Whatever parses can be written again, and parses to itself iff its data fits the two-byte length field. |
| Frames.ParseAckFrame | src/frame.rs:1186-1252 | The parsing loop over a `RangeSet` object gives the set of the ranges read, and the same error when a gap or length does not fit. |
| Frames.WriteAckLoop | src/frame.rs:436-443 | The writing loop appends exactly the pairs of the ranges. |
| Frames.ReadPaddings | src/frame.rs:191-198 | The loop takes all zero bytes and stops at the first other byte. |
| Frames.WritePaddings | src/frame.rs:407-413 | The loop appends exactly len zero bytes. |
| PacketNumbers.LenIsLeast | src/packet.rs:669-681 | The length is the least one whose window exceeds twice the unacknowledged span. |
| PacketNumbers.UnackedCounts | src/packet.rs:673-677 | The span counts the numbers above the largest acknowledged one (all, if none is) up to the one sent. |
| PacketNumbers.CandidateIs | src/packet.rs:618-631 | Masking and or-ing puts the truncated bits under the high bits of the expected number. |
| PacketNumbers.DecodeExactlyWhen | src/packet.rs:615-640 | For lengths up to 7 bytes, decoding returns the number if and only if it is in the window around the expected one, or the correction is blocked at an end of the number space. |
| PacketNumbers.PacketNumRoundTrip | src/packet.rs:615-681 | With fewer than 2^31 unacknowledged, length is 1 to 4 and the number comes back for every receiver that is not half a window ahead. |
| PacketHeaders.EncodedHeaderParses | src/packet.rs:186-354 | Every header that can be written parses to its visible fields, with the parser right behind it, iff a long header has a version other than 0 and a Retry packet is followed by its tag alone; with version 0 it is read as Version Negotiation. Only that type is refused by the encoder. |
| PacketHeaders.HeaderRoundTrip | src/packet.rs:273-354 | The same whatever the protected bits of the first byte look like. |
| PacketHeaders.SampleUntouched | src/packet.rs:467-468 | Both sides sample the same bytes, which protection does not touch. |
| PacketHeaders.UnprotectRestores | src/packet.rs:539-606 | Removing protection restores every byte for every mask function, though the length is learnt from the unmasked byte. |
| PacketHeaders.ProtectedRoundTrip | src/packet.rs:459-606 | For every numbered packet type: protected bytes parse to the visible fields, and removing protection restores the packet and reveals length, number and key phase. |
| PacketHeaders.OneRttEndToEnd | src/packet.rs:186-681 | A 1-RTT packet number, truncated, protected with any mask, found and decoded, is the number sent; DCID, key phase and length come back too. |
| PacketHeaders.XorNumber | src/packet.rs:485-489 | The in-place loop of both directions changes exactly the packet number bytes. |
| PacketHeaders.EncryptHeader | src/packet.rs:459-492 | The in-place update computes `Protect` on the whole buffer. |
| PacketHeaders.DecryptHeader | src/packet.rs:539-606 | The in-place update computes `Unprotect`, in plaintext mode too; a short buffer is refused and left unchanged. |
| HeadersOnTheWire.ProtectFlips | src/packet.rs:459-492 | Bit by bit: protection flips bit i of the first byte iff that mask bit is set and i < 4 (long) or i < 5 (short), xors packet number byte j with mask byte j + 1, and changes nothing else; the sample is the sixteen bytes four behind the number. |
| HeadersOnTheWire.UnprotectFlips | src/packet.rs:539-606 | Removing it flips the same bits and then reads the number length from bits 0 and 1 and the key phase from bit 2; refused iff the sample does not fit. |
| HeadersOnTheWire.PlaintextReads | src/packet.rs:546-588 | Without protection the packet is left alone and four bytes behind the header suffice. |
| HeadersOnTheWire.FirstByteWritten | src/packet.rs:203-239 | The first byte of every header type, as a number. |
| HeadersOnTheWire.LongHeaderOnTheWire | src/packet.rs:295-323 | A long header put together by hand: version, type from bits 4 and 5, both connection IDs, refused in version 1 if longer than 20 bytes. |
| HeadersOnTheWire.TokenOnTheWire | src/packet.rs:325-343 | Initial tokens have a length and none is read as no token; a Retry token is all but the last sixteen bytes, which must be there. |
| HeadersOnTheWire.ShortHeaderOnTheWire | src/packet.rs:273-292 | A short header is one byte and a connection ID of the agreed length. |
| Window.ContainsIsBit | src/window.rs:49-67 | The mask test reads one bit of the window. |
| Window.InsertedContains | src/window.rs:31-46 | What an insert does to every answer: the window moves by the jump, the bits by the jump modulo 2^32. |
| Window.KeepsSeen | src/window.rs:31-46 | A number reported as seen stays reported. |
| Window.InsertExactIff | src/window.rs:31-46 | An insert keeps the window exact for the set of inserted numbers if and only if it aliases no recorded number. |
| Window.AliasedIsWrong | src/window.rs:41 | The number a surviving bit is mistaken for, for every aliased one. |
| Window.NoDuplicateMissed | src/window.rs:31-67 | In every run every inserted number is reported forever. |
| Window.ExactIffNeverAliases | src/window.rs:31-67 | In every run the window answers correctly all along iff no insert aliases a recorded number. |
| Window.RunIsExact | src/window.rs:31-67 | So in every run with jumps below 2^32, a number is reported exactly when it was inserted or lies below the window. |
| Window.WindowSpan | src/window.rs:31-67 | In every run the window reaches from the largest number inserted to 127 below it. |
| Window.NewNumberRefusedIff | src/window.rs:49-62 | With small jumps a new number is taken for a duplicate iff it is 128 or more below the largest. |
| Window.LargeJumpIsWrong | src/window.rs:41 | Concrete run: after 1 and 2^32+127, the number 2^32+1 is reported. |
| Window.SeqNumWindow.Insert | src/window.rs:31-46 | The update of the fields computes `Inserted`. |
| Window.SeqNumWindow.Check | src/window.rs:49-62 | Answers `Contains`. |
| MinMaxFilter.UpdateSummarises | src/congestion_control/minmax.rs:111-193 | After an accepted sample the three are ordered in time and value, each is the extremum of all samples from its own position on, and the first is inside the window. |
| MinMaxFilter.BetweenLatestAndTrue | src/congestion_control/minmax.rs:140-193 | The answer lies between the latest sample and the true windowed extremum. |
| MinMaxFilter.EveryRunSummarises | src/congestion_control/minmax.rs:93-193 | In every run, with window changes and rejected samples anywhere, the samples summarise the accepted history. |
| MinMaxFilter.EveryAnswerIsSound | src/congestion_control/minmax.rs:93-198 | After every accepted sample of every run: in the window, best since its position, between latest and true extremum. |
| MinMaxFilter.WorseIffForgets | src/congestion_control/minmax.rs:140-193 | The answer gets strictly worse exactly when the update forgets: it drops a best sample that left the window, or a minimum of zero, with nothing better in sight. |
| MinMaxFilter.CoverageStepIff | src/congestion_control/minmax.rs:140-193 | An answer that is the extremum of everything accepted since some time stays so iff the update does not forget. |
| MinMaxFilter.ExactWhenCovered | src/congestion_control/minmax.rs:140-193 | So an answer that covers the window is the true windowed extremum for as long as updates do not forget. |
| MinMaxFilter.ExactIffNeverForgets | src/congestion_control/minmax.rs:93-193 | In every run the answer was the extremum of everything accepted all along iff no update forgot. |
| MinMaxFilter.WindowedExactIff | src/congestion_control/minmax.rs:93-198 | After every accepted sample of every run, the answer is the true extremum of the window iff no sample accepted before it and still in the window is strictly better. |
| MinMaxFilter.TakenOrNot | src/congestion_control/minmax.rs:140-183 | A sample older than the third is not taken; any other at least as good as the best replaces all three. |
| MinMaxFilter.LayersCover | src/congestion_control/minmax.rs:111-137 | In every run with a fixed window and ordered times, until the best ages out: the second sample stands for everything more than a quarter of the window after the first, the third for everything more than half and later than the second, and neither is set later than that. |
| MinMaxFilter.AgingOutCovers | src/congestion_control/minmax.rs:111-137 | When the best ages out and the second does not, the new answer beats everything accepted more than a quarter of a window after the old best. |
| MinMaxFilter.AgingOutExample | src/congestion_control/minmax.rs:111-137 | Concrete run: window 100, 100 at 1, 50 at 30, 20 at 60, 10 at 102: the answer is 50. |
| MinMaxFilter.ForgetsRecentSample | src/congestion_control/minmax.rs:140-165 | Concrete run: with a window of 100 the maximum is reported as 10 although 20 came in 3 time units ago. |
| MinMaxFilter.ForgetsZeroMinimum | src/congestion_control/minmax.rs:168-183 | For every window and sample right after it: a minimum of zero is replaced by the next sample, however large. |
| MinMaxFilter.MinMax.UpdateMax | src/congestion_control/minmax.rs:140-165 | Overwriting the sample array computes `Update` for the maximum. |
| MinMaxFilter.MinMax.UpdateMin | src/congestion_control/minmax.rs:168-193 | The same for the minimum. |
| MinMaxFilter.MinMax.Subwin | src/congestion_control/minmax.rs:111-137 | Shifting the array computes `SubwinUpdate`. |
| Pacing.Capacity | src/congestion_control/pacing.rs:155-162 | The burst is between 10 and 128 packets. |
| Pacing.CapacityIsBurst | src/congestion_control/pacing.rs:155-162 | Unless clamped or overflowing, the capacity is what one window per round trip (of at least 1 ms) sends in one granularity, rounded down; and exactly when each clamp applies. |
| Pacing.BurstExample | src/congestion_control/pacing.rs:159-161 | Concrete burst: 600000 bytes of window, 100 ms and a granularity of 10 ms make 60000 bytes. |
| Pacing.UnpacedCall | src/congestion_control/pacing.rs:121-123 | Without pacing, round trip, window or rate every request is granted and nothing changes. |
| Pacing.PacedCall | src/congestion_control/pacing.rs:125-146 | A paced call exactly: the capacity follows a changed window, tokens are refilled by the whole bytes earned only if they do not suffice, and what is sent is consumed. |
| Pacing.BackwardsClock | src/congestion_control/pacing.rs:137-142 | A clock that has gone back earns nothing. |
| Pacing.NewIsFull | src/congestion_control/pacing.rs:61-80 | A new bucket is full. |
| Pacing.SendingConsumes | src/congestion_control/pacing.rs:102-106 | Sending consumes what is sent, down to nothing, and only while pacing. |
| Pacing.TokensAccounted | src/congestion_control/pacing.rs:102-153 | In every run tokens stay within capacity, and bytes sent plus tokens left are covered by the initial burst and the time up to the last refill. |
| Pacing.RateBound | src/congestion_control/pacing.rs:69-162 | Over every run, with changing rates and windows, bytes sent never exceed initial burst plus highest rate times elapsed time. |
| Pacing.ScheduleRefuses | src/congestion_control/pacing.rs:112-153 | A call that returns a time leaves a bucket that refuses the request, and the time is the missing bytes divided by the rate, rounded down. |
| Pacing.GrantedIff | src/congestion_control/pacing.rs:131-146 | Asked again at any later time, the request is granted exactly when the bytes earned since, truncated to u64, make up what is missing. |
| Pacing.WaitIsTight | src/congestion_control/pacing.rs:137-153 | From the very call that returned t: refused at every time before t, granted at every later time until the earned bytes outgrow u64, and at t iff the rate divides the missing amount. |
| Pacing.RefusedAtReturnedTime | src/congestion_control/pacing.rs:149-152 | Concrete case: 1000 bytes at 3 bytes/s are refused exactly at the returned 333333333333 ns. |
| Pacing.RetriesRefused | src/congestion_control/pacing.rs:112-153 | However often the caller retries before the time a call returned, every retry is refused. |
| Pacing.FirstGrantedPoll | src/congestion_control/pacing.rs:131-146 | Polling at a fixed spacing that earns whole bytes: exactly which poll is the first to be granted. |
| Pacing.PollingGrantedIff | src/congestion_control/pacing.rs:131-146 | Polling a refused request at a fixed spacing is ever granted iff one spacing earns at least one byte as u64. |
| Pacing.FastPollingStarves | src/congestion_control/pacing.rs:131-139 | Concrete case: 1000 bytes short at 1 Mbyte/s and polled every 999 ns, the request is refused by every poll though its time is 1 ms away. |
| Pacing.EmptyIsReached | src/congestion_control/pacing.rs:61-153 | The bucket of these cases is what a new pacer becomes after sending one burst and refusing a packet. |
| Pacing.Pacer.constructor | src/congestion_control/pacing.rs:61-80 | Starts with a full bucket. |
| Pacing.Pacer.UpdateCapacity | src/congestion_control/pacing.rs:155-162 | Computes `Capacity`. |
| Pacing.Pacer.Send | src/congestion_control/pacing.rs:102-106 | Consumes tokens, saturating. |
| Pacing.Pacer.Ask | src/congestion_control/pacing.rs:112-153 | The update of the fields computes `Schedule`. |
| Pmtu.RoundProgress | src/connection/pmtu.rs:83-159 | Every probe outcome ends the search or lowers a rank of three tries per halving of the gap. |
| Pmtu.SearchTerminates | src/connection/pmtu.rs:58-159 | For all limits and all outcomes the search stops after 3 log2(gap) + 6 rounds. |
| Pmtu.NeverTooLarge | src/connection/pmtu.rs:83-159 | Over every interleaving of size queries, sends, and acknowledgements and losses of sizes ever probed, however late: the validated size only grows and never exceeds path, local or peer limit. |
| Pmtu.SearchIsAccurate | src/connection/pmtu.rs:58-159 | If the path carries exactly sizes up to M, the final size is at most min(M, max, peer) and at least 99% of it. |
| Pmtu.FailedAfterThreeLosses | src/connection/pmtu.rs:112-127 | In every trace a size is marked failed exactly when it is lost for the third time in a row; the first two losses ask for another try and losses of other sizes change nothing. |
| Pmtu.SettledSearch | src/connection/pmtu.rs:104-159 | After an acknowledgement or a third loss the search goes on exactly while more than 1% below the ceiling, with the ceiling itself if below 1500 and nothing failed, and half way otherwise. |
| Pmtu.AskingAndSending | src/connection/pmtu.rs:83-101 | Asking keeps the size being probed, and a sent probe waits for its outcome. |
| Pmtu.DefaultLimits | src/connection/pmtu.rs:58-75 | The search starts at 1200 and by default aims for 1500 less the IP and UDP headers. |
| Pmtu.OneShot | src/connection/pmtu.rs:130-159 | A ceiling below 1500 that the path carries is found with a single probe. |
| Pmtu.Dplpmtud.constructor | src/connection/pmtu.rs:58-75 | The initial search, with the default maximum replaced by address family. |
| Pmtu.Dplpmtud.GetProbeSize | src/connection/pmtu.rs:83-91 | Sizes the probe once and keeps it. |
| Pmtu.Dplpmtud.OnProbeAcked | src/connection/pmtu.rs:104-109 | Computes `OnAcked`. |
| Pmtu.Dplpmtud.OnProbeLost | src/connection/pmtu.rs:112-127 | Computes `OnLost`; stale probes are ignored. |
| Rounds.StepKeepsInv | src/congestion_control/bbr.rs:972-1031 | Every event keeps the invariant between counter, sentinel, snapshots and running batch. |
| Rounds.EveryRunKeepsInv | src/congestion_control/bbr.rs:972-1031 | It holds in every reachable state. |
| Rounds.RoundsAreRoundTrips | src/congestion_control/bbr.rs:470-480 | In every run, a batch that starts a new round acknowledges a packet that reached the sentinel, and every such packet was sent after the batch that started the current round, whatever recovery and ProbeRTT did to the sentinel. |
| Rounds.EveryRoundTripCounts | src/congestion_control/bbr.rs:470-480 | In every run a batch starts a round exactly when it acknowledges a packet that reached the sentinel, and every packet sent after the sentinel was set has reached it. |
| Rounds.EveryFieldReports | src/congestion_control/bbr.rs:920-1031 | In every run the counter, sentinel, recovery flag, packet conservation and round count equal what is read off the run alone: bytes acknowledged once, the last restart of the round, and the batches that ended a round. |
| Rounds.RoundStartReported | src/congestion_control/bbr.rs:470-480 | After every batch of every run the round start flag holds iff the batch acknowledged a packet that reached the sentinel (or none was set), and the round count grew by one exactly then; nothing else changes either. |
| Rounds.Bbr.OnPacketSent | src/congestion_control/delivery_rate.rs:97-117 | The packet takes a snapshot of the delivery counter. |
| Rounds.Bbr.OnPacketAcked | src/congestion_control/bbr.rs:986-1017 | Counts a packet once and keeps the largest snapshot. |
| Rounds.Bbr.OnCongestionEvent | src/congestion_control/bbr.rs:920-942 | Entering recovery restarts the round. |
| Rounds.Bbr.Update | src/congestion_control/bbr.rs:470-480 | Computes `UpdateRound`. |
| Rounds.Bbr.End | src/congestion_control/bbr.rs:1019-1031 | Recovery exit, round update and ProbeRTT restart in the source's order. |
| Bbr3Machine.EveryRunAgrees | src/congestion_control/bbr3.rs:842-1107 | In every reachable state Startup means the pipe is not filled, Drain and ProbeBW mean it is, and reactions never exceed probes. |
| Bbr3Machine.ReactsOncePerProbe | src/congestion_control/bbr3.rs:1429-1490 | Reactions to excessive loss outside Startup, on ACK and loss path together, never exceed the Refill-to-Up entries. |
| Bbr3Machine.FilledForever | src/congestion_control/bbr3.rs:881-958 | The full-pipe flag never goes back. |
| Bbr3Machine.NoWayBackToStartup | src/congestion_control/bbr3.rs:1296-1320 | Once Drain or ProbeBW has been entered, Startup is unreachable, also through ProbeRTT. |
| Bbr3Machine.GainsAfterAck | src/congestion_control/bbr3.rs:1920-1935 | After every processed ACK of every run both gains are those of the state. |
| Bbr3Machine.GainsLagExactlyWhen | src/congestion_control/bbr3.rs:1324-1338 | In every run, gains lag behind the state iff, since the last processed ACK, ProbeRTT was left for ProbeBW after idle or a loss ended ProbeBW_UP. |
| Bbr3Machine.LagIsReachable | src/congestion_control/bbr3.rs:1473-1490 | Concrete run at the default configuration, sending one packet per round trip: a round of growth, three without, a pause longer than the ProbeBW wait and a round that refills lead to ProbeBW_UP, and a loss then leaves the flow in ProbeBW_DOWN with the gains of ProbeBW_UP. |
| Bbr3Machine.UpOnlyFromRefill | src/congestion_control/bbr3.rs:1084-1090 | ProbeBW_UP is entered only from ProbeBW_REFILL, on an ACK whose packets reached the round sentinel, and each entry is counted once. |
| Bbr3Machine.ProbeRttStep | src/congestion_control/bbr3.rs:1274-1305 | With its end scheduled, ProbeRTT is left only after that time (on an ACK, also after a round), and the schedule does not move. |
| Bbr3Machine.ProbeRttLasts | src/congestion_control/bbr3.rs:1248-1305 | In every run no event before the scheduled time leaves ProbeRTT, however many events come in between. |
| Bbr3Moves.GainTable | src/congestion_control/bbr3.rs:842-873 | The gains of every state, as numbers. |
| Bbr3Moves.AckOutsideProbeRtt | src/congestion_control/bbr3.rs:780-1107 | What a processed ACK does to any flow outside ProbeRTT, from the flow before it alone: full pipe, next state by one table, samples, phase clock, sentinel and entry into ProbeRTT. |
| Bbr3Moves.EntersProbeRttIff | src/congestion_control/bbr3.rs:1248-1266 | In every run ProbeRTT is entered by an ACK iff the probe interval has expired and no idle restart is pending, and by nothing else; its end is scheduled at once iff the flight is already small. |
| Bbr3Moves.AckInProbeRtt | src/congestion_control/bbr3.rs:1274-1320 | ProbeRTT is left iff its scheduled end is past and a round has gone by, for ProbeBW_CRUISE or Startup by the full-pipe flag. |
| Bbr3Moves.BaselineMoves | src/congestion_control/bbr3.rs:895-958 | The bandwidth baseline, its count and the loss counters after an ACK. |
| Bbr3Moves.SendMoves | src/congestion_control/bbr3.rs:1324-1338 | Sending changes a flow only on a restart from idle while application-limited, and exactly how. |
| Bbr3Moves.LossMoves | src/congestion_control/bbr3.rs:1453-1490 | Exactly what a loss changes, and when it ends ProbeBW_UP. |
| Bbr3Moves.AckedPacketMoves | src/congestion_control/bbr3.rs:1871-1918 | How acknowledged packets count. |
| Bbr3Machine.HandleTooHigh | src/congestion_control/bbr3.rs:1453-1470 | A reaction uses up the probe's sample and keeps the invariants. |
| Bbr3Machine.UpdateCyclePhase | src/congestion_control/bbr3.rs:1057-1107 | Every move in the ProbeBW cycle keeps the invariants and the full-pipe flag. |
| Bbr3Machine.CheckProbeRtt | src/congestion_control/bbr3.rs:1248-1320 | Entering, waiting in and leaving ProbeRTT keeps the invariants and the full-pipe flag. |
| Bbr3Machine.HandleLostPacket | src/congestion_control/bbr3.rs:1473-1490 | The loss path keeps the invariants and the full-pipe flag. |
| Bbr3Machine.Bbr3.UpdateProbeBwCyclePhase | src/congestion_control/bbr3.rs:1057-1107 | The field updates, with the phase clock and the round count, compute `UpdateCyclePhase`. |
| Bbr3Machine.Bbr3.UpdateSignals | src/congestion_control/bbr3.rs:1522-1537 | The field updates compute the start of packet-timed and loss rounds, as `SignalsUpdated`. |
| Bbr3Machine.Bbr3.PacketAcked | src/congestion_control/bbr3.rs:1882-1918 | Counts a packet once and keeps the largest snapshots, as `OnAckPacket`. |
| Bbr3Machine.Bbr3.CheckStartup | src/congestion_control/bbr3.rs:881-958 | The field updates, with the bandwidth baseline and its growth test, compute `CheckStartupDone`. |
| Bbr3Machine.Bbr3.AdaptBounds | src/congestion_control/bbr3.rs:1185-1201 | The field updates compute `AdaptUpperBounds`. |
| Bbr3Machine.Bbr3.CheckRttProbe | src/congestion_control/bbr3.rs:1248-1320 | The field updates compute `CheckProbeRtt`. |
| Bbr3Machine.Bbr3.End | src/congestion_control/bbr3.rs:1920-1935 | The field updates compute `OnEndAck`. |
| Bbr3Machine.Bbr3.PacketSent | src/congestion_control/bbr3.rs:1324-1338 | Restarting from idle while application-limited: the field updates compute `OnSent`. |
| Bbr3Machine.Bbr3.LostPacket | src/congestion_control/bbr3.rs:1473-1490 | The field updates compute `HandleLostPacket`. |
| Bbr3Machine.Bbr3.CongestionEvent | src/congestion_control/bbr3.rs:1937-1966 | The loss handler and the start of recovery, which restarts the round, compute `OnLoss`. |
| TransParams.PreferredRoundTrip | src/trans_param.rs:504-556 | A preferred address reads back, all-zero addresses as absent, IPv6 flow information and scope as zero. |
| TransParams.DecodeReadsList | src/trans_param.rs:128-275 | Decoding well-framed bytes is applying the parameters one by one. |
| TransParams.StoreCommutes | src/trans_param.rs:150-262 | Different parameters are stored independently. |
| TransParams.OrderIrrelevant | src/trans_param.rs:128-275 | Any permutation fails as well or gives the same record, from any point of the loop. |
| TransParams.DecodingOrderIrrelevant | src/trans_param.rs:128-275 | The same on the encoded bytes, for both roles. |
| TransParams.DuplicateRejected | src/trans_param.rs:128-142 | Every list with a repeated id is rejected, wherever it stands and even if unknown. |
| TransParams.DecodeAfterEncode | src/trans_param.rs:278-408 | For every record and role, the peer's reading is known exactly: refusal or the normal form. |
| TransParams.RoundTripIffSendable | src/trans_param.rs:128-408 | Encode on one role and decode on the other is the identity iff the values are in range, server-only fields are absent on a client, no preferred address is all zero and a preferred IPv6 address has no flow information or scope. |
| TransParams.ZeroExponentIsLost | src/trans_param.rs:353-357 | Concrete case: a server that wants an acknowledgement delay exponent of 0 is read as wanting 3. |
| TransParamsOnTheWire.EmptyIsDefault | src/trans_param.rs:447-486 | Nothing sent means the defaults, as numbers. |
| TransParamsOnTheWire.TimingOnTheWire | src/trans_param.rs:151-247 | Each timing parameter from its identifier and a varint, with its range; what follows the varint is ignored. |
| TransParamsOnTheWire.LimitsOnTheWire | src/trans_param.rs:177-207 | Each limit from its identifier and a varint, with the bound on stream counts. |
| TransParamsOnTheWire.FlagsOnTheWire | src/trans_param.rs:227-270 | The flags by identifier alone; identifiers without a meaning change nothing. |
| TransParamsOnTheWire.CidsOnTheWire | src/trans_param.rs:143-259 | The three connection IDs, kept to 20 bytes. |
| TransParamsOnTheWire.ResetTokenOnTheWire | src/trans_param.rs:155-167 | The reset token takes sixteen bytes, which must be there. |
| TransParamsOnTheWire.PreferredOnTheWire | src/trans_param.rs:529-556 | A preferred address put together by hand. |
| TransParamsOnTheWire.ServerOnlyRefused | src/trans_param.rs:143-259 | A server refuses every list that holds one of the four parameters only servers may send, wherever it stands. |
| TransParamsOnTheWire.UnknownIgnored | src/trans_param.rs:269-271 | A parameter without a meaning makes no difference to the rest of a list. |
| TransParams.DecodeParams | src/trans_param.rs:128-275 | The decoding loop with its growing set of ids computes `Decode`. |

## Left out

- Connection, endpoint, streams, timers, recovery, TLS, FFI and tools: plumbing over the parts modelled here, or foreign code.
- AEAD sealing and opening, Retry integrity tags, tokens, and a failing `new_mask`: library cryptography; only the header mask is needed and it is arbitrary.
- The destination buffer of the write path and its `BufferTooShort` error: output is a value, and `Frames.EncodedLength` gives its size.
- Version Negotiation, Retry and stateless reset packet builders, and `encode_packet_num` for lengths other than 1 to 4.
- `RangeSet` iterators (`flatten`, `iter`, `min`, `max`, `peek_min`); `elem + 1` overflows at `u64::MAX` in the source, so element arguments are below it where values are claimed.
- Pacing.WaitIsTight: takes `bytes * 1_000_000_000` as exact; the u64 product would overflow for a request more than 18 GB short.
- Pmtu.SearchIsAccurate: the f64 comparison with 0.99 is the exact `100 * current >= 99 * ceiling`.
- Rounds.RoundsAreRoundTrips: the delivery counter does not saturate at u64, and a batch must acknowledge something new before it ends.
- Delivery-rate samples, bandwidth, inflight and cwnd arithmetic of BBR and BBRv3: measured rates are free inputs and volumes enter through the tests made on them.
- Bbr3Machine.Bbr3.AdaptBounds: leaves out the inflight and bandwidth bounds and the advance of the maximum filter; only the probing phase, the samples flag and the reaction are kept.
- MinMaxFilter.UpdateSummarises: a best value of zero counts as uninitialised for the minimum too, as in the source.
- Frames.PayloadRoundTrip: CRYPTO and STREAM data of 64 kbyte and more, which no datagram can hold.
- Bbr3Machine.LagIsReachable: the measured values of the run are those of one packet per round trip of 12 ms; that the rate and volume arithmetic yields them is not part of this model.
- CUBIC, COPA, HyStart++ and flow control: formulas or single-branch facts.
- qlog conversion, formatting and logging.
