# A verified model of aoip-core

aoip-core sends and receives AES67 audio over IP. This project models the three parts of it in
which something can go subtly wrong, and proves what holds of them:

1. **The PTPv2 slave** (`lib/ptpc.c`, `include/aoip/ptpc.h`, `include/aoip/timer.h`, and the loops of
   `lib/aoip.c`). The slave is a three-state machine driven by whatever packets arrive and by a
   monotonic clock. `PtpSlave` gives one poll of its sockets as functions and as the class
   `PtpClient` with the source's fields; `PtpRuns` plays whole sequences of polls and loop starts.
   The main result is an error bound that holds in every reachable state after the first sample:
   the estimated clock offset is within the stored path delay of the true one (plus one unit of
   rounding), although t2 is re-read on every poll, a repeated Delay_Resp is counted again and the
   filter compares unsigned with zero as "unset". If moreover responses are not stamped later than they
   are read, the estimate is never below the true offset, so `ptp_time` never runs ahead of the
   master. Every end of these bounds is attained under its own hypothesis. `PtpProvenance` says when a
   sample is counted and what it is made of, in terms of the packets from the Sync on that finds the
   slave idle. `SyncLoop` and `NetworkLoop` are the loops around it, with their timers, their SAP
   messages and their ways to end, and `SyncOutcome` shows that ten exchanges in good order end the sync
   phase as measured.

2. **The ring between the two threads** (`include/aoip/queue.h`, `lib/aoip.c`,
   `src/tonegen/tonegen.c`, `src/rtpdump/rtpdump.c`). `Playback` and `Record` break both threads into
   single accesses to shared memory and let these interleave in any order, for any power-of-two ring
   size. In playback the ring refines an unbounded queue and no read is ever torn; in record mode the
   wire carries exactly the generated stream, numbered without a gap, whatever the pattern of full
   rings and sends that would block. `PlaybackTrace` and `RecordTrace` tie both to the actions of the run:
   each packet is a datagram that arrived, or a payload that was handed over, and each stamp an anchor
   that was taken or the one before it plus 48. `AudioQueue` has the same ring as an object with the source's
   loops; its `TonegenWrite` is proved to leave the ring as `Record`'s steps do when `Uninterrupted` takes
   them in a row, so the calls and the steps are the same writer.

3. **SAP messages** (`lib/sap.c`). `SapText` and `SapMessage` are the SDP builder, with the 64-byte
   limit of each `snprintf`, and the connection-address parser. `SapReadBack` reads the built text with readers of its own,
   `SapResult` says what the parser returns by the characters of the text, and `SapRoundTrip` composes
   the two. Both work
   with a cursor or pointer that nothing keeps inside the 512-byte buffer, so leaving it is an outcome
   of the model, and the inputs for which that cannot happen are characterised exactly.

Environment is input: clock readings, packets, outcomes of sends and the wall clock are parameters. A
loop receives what it would read, iteration by iteration, and sees the stop flag where the inputs end,
so every finite run of the source is covered. Integers are unbounded in Dafny; the widths, conversions
and wrap-around of the source are written out in `MachineInt`.

Several statements one would expect are false of the code. Each is kept with the exact condition under
which it holds, and where it speaks of a whole run or a whole message with one on which it fails:
`DelayNeverRisesIff` and `DelayCanRise` (the stored delay can rise), `TruncatedTest`, `TimeoutIsExact` and
`TimeoutCanBeMissed` (the sync phase keeps the elapsed time in an `int`, so the timeout can be missed),
`TimeoutIsNotReported` and `SilenceTimesOut` (a timeout returns a positive value, which the caller takes for
success), `TimerStep`, `ChatterHidesTheTimeout` and `ChatterRun` (any packet with another sequence id puts the
timeout off),
`GoesOnIff` and `BlockedSendsHideTheTimers` (a send that would block skips both timer checks),
`AdvancesBy48Iff` and `ReanchorIff` (the 16-bit mask on a 32-bit timestamp), `LoopEndsIff` (a 16-bit loop
index against a length of 65535), `ExactIff` (long session names are cut), `FitsIff` (very long ones leave
the buffer), `InsideIff`, `ShortRunsPast` and `LongRunsPast` (so does the parser, for lengths below 32 or
above 516), `RoundTrip`, `ReturnsIff` and `NameDiverts` (the
parser refuses 15-character addresses, and looks at a "c=" in the session name instead of the connection
line, which gives it the address spelled there or none), and `TstampDecoding` (the
high seconds word is shifted by 4, not 32).

Where code and accompanying text differ, the code is followed. The length 280 expected in
`test/test_sap.c:27` does not include the `i=` line that `lib/sap.c:129` emits. The parser takes `len` as
an offset into the SDP text although the builder counts the 24-byte SAP header in it.

## Model

| member | source | states |
|---|---|---|
| Timer.TstampDecoding | include/aoip/timer.h:47-51 | every wire timestamp decodes without wrapping and below 2^62 ns; the value is the one of section 5.3.3 of IEEE 1588-2008 exactly when the high seconds word is zero |
| PtpClock.ArithmeticIsExact | include/aoip/ptpc.h:84-94 | for timestamps below 2^62 the mixed signed and unsigned C expressions for delay and offset equal the exact integer ones, and the sum stays inside int64 |
| PtpClock.PtpTimeError | include/aoip/ptpc.h:96-99 | an offset wrong by e shows a time wrong by -e, modulo 2^64 |
| PtpClock.SampleBound | include/aoip/ptpc.h:84-94 | one sample with t3 <= t2 and honest t1, t4 pins the true offset to within its own delay, plus one unit of rounding |
| PtpClock.SampleNotBelow | include/aoip/ptpc.h:84-94 | if moreover t4 is no later than `lag` after the master's time at t2, the offset is not below the true one by more than half of `lag` |
| PtpClock.GenuineExchange | include/aoip/ptpc.h:84-99 | for forward delay f and return delay r the helpers give the mean delay, an offset wrong by half the asymmetry up to one unit, and the exact master time when f = r |
| DelayFilter.FilterIsWindowMinimum | lib/ptpc.c:262-267 | after any sample history the context holds the latest sample that attains the unsigned minimum delay among those after the last zero-delay sample, or that zero-delay sample itself |
| DelayFilter.DelayNeverRisesIff | lib/ptpc.c:262-267 | the stored delay never rises exactly when no zero-delay sample is followed by a non-zero one |
| PtpSlave.TwoStepIff | include/aoip/ptp.h:23-24 | a two-step announcement is one with version 2, domain 0, type 11, flag mask 2 set and flag mask 4 clear |
| PtpSlave.PollFailsIff | lib/ptpc.c:186-288 | a poll fails exactly on an error of either socket, on a version 2, domain 0 packet with the current sequence id from another server, and on the awaited Follow_Up whose Delay_Req cannot be sent, all in the packets' own fields |
| PtpSlave.PtpClient.constructor | lib/ptpc.c:19-19 | a context starts zeroed |
| PtpSlave.PtpClient.BeginLoop | lib/aoip.c:224-230 | each loop starts with a zeroed sync context and both clocks at the first reading, and keeps server id and estimate |
| PtpSlave.PtpClient.RecvAnnounce | lib/ptpc.c:164-183 | only a version 2, domain 0 announcement with the two-step flag and without the unicast flag sets the server id |
| PtpSlave.PtpClient.RecvSync | lib/ptpc.c:186-210 | t2 is read on every poll; a Sync is accepted only when idle; -1 exactly on a receive error |
| PtpSlave.PtpClient.ResetSync | include/aoip/ptpc.h:75-82 | clears the four timestamps and the state, and with lib/ptpc.c:233 refreshes the timer |
| PtpSlave.PtpClient.TakeFollowUp | lib/ptpc.c:243-258 | takes t1, and unless the Delay_Req fails to go out takes t3 and awaits the response |
| PtpSlave.PtpClient.TakeDelayResp | lib/ptpc.c:259-270 | takes t4, filters the sample into the estimate, counts it and stays in its state |
| PtpSlave.PtpClient.RecvGeneral | lib/ptpc.c:212-288 | the whole general socket: foreign packets ignored, another sequence id resets, another server fails, Follow_Up and Delay_Resp advance the exchange |
| PtpSlave.PtpClient.PollSockets | lib/aoip.c:232-250 | one iteration's reading and both polls; the general socket is skipped after an event error |
| PtpRuns.EstimateIsFiltered | lib/ptpc.c:262-268 | over any run, across loops, resets and losses, the context's estimate is the filter over all samples counted so far |
| PtpRuns.SamplesAreGood | lib/ptpc.c:186-285 | in every run with a monotonic clock and an honest master every counted sample has t3 <= t2 and honest t1 and t4, all below 2^62 |
| PtpRuns.OffsetWithinDelay | lib/ptpc.c:186-285 | in every reachable state after the first sample, lo - delay <= offset <= hi + delay + 1, where lo and hi bound the true offset; with lo = hi the bound for a constant offset |
| PtpRuns.PtpTimeWithinDelay | include/aoip/ptpc.h:91-99 | so `ptp_time` at any local time is off by no more than that |
| PtpRuns.OffsetNotBelow | lib/ptpc.c:186-285 | if no accepted Delay_Resp carries a time later than `lag` after the master's at t2, then in every reachable state after the first sample the estimate is not below the true offset by more than half of `lag`; with no lag it is never below it |
| PtpRuns.PtpTimeNeverAhead | include/aoip/ptpc.h:96-99 | so `ptp_time` is behind the master by at most the stored delay plus one and, for a constant offset, ahead by at most half of `lag`, without lag never; a true offset that varies between lo and hi adds hi - lo and half a unit |
| PtpRuns.BoundIsTight | lib/ptpc.c:259-268 | for every delay d below 2^59 and a true offset of zero: a run whose responses are stamped before t2 reaches the upper end d + 1; a run whose responses are stamped up to `lag` after t2 reaches minus half of `lag`, which is 0 without lag and the lower end -d for `lag` = 2 d, a stamp from the future |
| PtpRuns.DelayCanRise | lib/ptpc.c:259-268 | a run of polls, honest on both counts, on which the stored delay rises from 0 to 7: the same response read again later |
| PtpProvenance.CountedSampleHasOrigin | lib/ptpc.c:201-270 | every counted sample comes from an accepted Sync, a Follow_Up with a Delay_Req attempt in a strictly earlier iteration, and this Delay_Resp, all with one sequence id, the announced server and nothing disturbing in between; its four timestamps are theirs and t3 <= t2 |
| PtpProvenance.ExchangeIsCounted | lib/ptpc.c:231-270 | conversely every such exchange is counted, a repeated Delay_Resp included |
| SyncOutcome.ExchangeNeverFails | lib/ptpc.c:259-287 | and the poll that completes it does not fail |
| SyncLoop.AnnounceLoop | lib/aoip.c:191-220 | the first two-step announcement ends the loop and names the server; without one it fails at the first reading three seconds after the start, or ends by the stop flag |
| SyncLoop.TruncatedTest | lib/aoip.c:252-256 | the test on the elapsed time cut to an int fires exactly when elapsed mod 2^32 >= 2*10^9; when it is right, and when the value left in `ret` is negative or positive |
| SyncLoop.TimeoutCanBeMissed | lib/aoip.c:232-259 | a run that misses it: one quiet poll 2^32 ns after the start lets the loop go on |
| SyncLoop.TimerStep | lib/ptpc.c:201-270 | the timeout timer is refreshed exactly by a change of state, a counted sample or a reset |
| SyncLoop.LoopStep | lib/aoip.c:232-259 | one iteration of the sync loop fails, times out or goes on, exactly as the poll and the truncated test say |
| SyncLoop.Run | lib/aoip.c:222-262 | the sync loop ends only by stop flag, exactly ten counted samples, a failed poll or the timeout test; at the tenth sample it does not poll again; its return value, the truncated elapsed time or -1, is negative only for a failed poll or a timeout with bit 31 set |
| SyncOutcome.TenExchangesMeasure | lib/aoip.c:222-262 | every run in which ten exchanges complete, and in which no packet makes a poll fail and none comes too late, ends as measured with ten samples and a value that is not negative |
| SyncOutcome.TenResponsesMeasure | lib/aoip.c:222-262 | such a run: one request and ten responses return zero |
| SyncLoop.TimeoutIsExact | lib/aoip.c:252-256 | with readings less than 2^32 - 2*10^9 ns apart the truncated test fires exactly two seconds after the last refresh |
| SyncLoop.TimeoutIsNotReported | lib/aoip.c:252-262 | with readings less than 2^31 - 2*10^9 ns apart a timed-out loop returns a positive value, and a negative one means exactly a failed poll |
| SyncLoop.SilenceTimesOut | lib/aoip.c:232-262 | a run that close: two seconds of silence end by the timeout, without a sample, and return 2*10^9 |
| SyncLoop.ChatterHidesTheTimeout | lib/ptpc.c:231-237 | any number of the master's own announcements, at any readings, keep the sync loop going without a sample, because another sequence id resets the exchange and refreshes the timer |
| SyncLoop.ChatterRun | lib/aoip.c:232-259 | for every n, a run of n seconds of them, one a second, on which no poll ends the loop |
| NetworkLoop.Loop | lib/aoip.c:289-396 | the main loop runs as specified, leaves the slave as the polls leave it, and ends its log with a deletion |
| NetworkLoop.RunIsTimely | lib/aoip.c:296-384 | over every run both timers stay at or below the reading, periodic announcements are at least 30 s apart, and only announcements and RTP work come between the first announcement and the deletion |
| NetworkLoop.GoesOnIff | lib/aoip.c:302-383 | the exact condition for an iteration to let the loop go on, and for each reason to end; a completed one leaves less than 30 s since the last announcement |
| NetworkLoop.BlockedSendsHideTheTimers | lib/aoip.c:351-360 | sends that would block keep the loop going for any number of seconds without timeout or announcement |
| NetworkLoop.Thread | lib/aoip.c:264-397 | all three phases: no announcement exactly if one of the first two phases returned a negative value, otherwise a log that ends with a deletion unless the first announcement could not be sent; with readings less than 2^31 - 2*10^9 ns apart a sync phase that timed out is followed by the announcement all the same; the slave's state is one run over both loops |
| Ring.AdvanceIsNext | include/aoip/queue.h:36-44 | masking steps around the ring for every power-of-two size up to 2^32 |
| Ring.Tests | include/aoip/queue.h:26-34 | the empty and full tests say that nothing, or all slots but one, are queued |
| Ring.Publish | include/aoip/queue.h:41-44 | advancing head appends the head slot to what is queued |
| Ring.Consume | include/aoip/queue.h:36-39 | advancing tail removes the front |
| Ring.WriteAtHead | include/aoip/queue.h:51-54 | writing the head slot changes nothing queued |
| Playback.EveryRun | lib/aoip.c:317-333 | in every interleaving: tail to head hold exactly what was published and not consumed, the i-th packet consumed is byte for byte the i-th one kept, numbers have no gap and drops use none, and received = consumed + queued + dropped + in hand |
| PlaybackTrace.DatagramsInOrder | lib/aoip.c:317-333 | read off the run: packet i, as published and as consumed, is the datagram of an arrival in the run, whole or cut to the slot's size, in the order of arrival; and the datagrams taken from the socket are those kept, those dropped and at most one in hand |
| Playback.NeverTheSameSlot | lib/aoip.c:318-332 | the threads never touch the same slot's contents, a receive changes only the head slot, and a drop happens only with all slots but one queued |
| Playback.StepRefines | src/rtpdump/rtpdump.c:66-87 | every single step is a step of an unbounded queue read off the ring: head advance enqueues, tail advance dequeues the whole packet, all others are invisible |
| Record.EveryRun | lib/aoip.c:334-365 | in every interleaving: tail to head hold exactly the completed packets not yet retired, in order, each with its number and payload, and generated = sent - (1 if not yet retired) + queued + in progress |
| Record.WireIsTheGeneratedStream | lib/aoip.c:334-365 | under every interleaving and pattern of skips and blocked sends, the i-th packet sent has sequence number i mod 2^16 in network byte order, the i-th payload, and the header constants of slot i mod size |
| Record.StampsOnTheWire | lib/aoip.c:339-354 | sent packets come from a strictly increasing choice of attempts and carry their stamps in network byte order; m attempts apart without a new anchor means 48 m apart modulo 2^16 |
| RecordTrace.WireOfTheRun | lib/aoip.c:334-365 | read off the run: packet i carries the i-th payload handed over, and every stamp is the anchor taken by its own attempt, first or after a zero, or 48 more than the one before |
| RecordTrace.FailedSendIsLast | lib/aoip.c:354-359 | after a send that fails nothing is sent or retired any more |
| Record.NeverTheSameSlot | src/tonegen/tonegen.c:46-71 | while the network thread stamps or sends a slot, the audio thread's slot is another one |
| RtpStamp.StampsAfterAnchor | lib/aoip.c:339-345 | the k-th attempt after an anchor T is stamped (T + 48 k) mod 2^16 until a zero comes up |
| RtpStamp.ReanchorIff | lib/aoip.c:339-345 | a zero comes up, and within 4096 attempts, exactly when 16 divides the anchor |
| RtpStamp.NeverReanchored | lib/aoip.c:339-345 | on any sequence of attempts another anchor is never replaced |
| RtpStamp.ReanchoredSoon | lib/aoip.c:339-345 | one that 16 divides is replaced within 4096 attempts |
| RtpStamp.AdvancesBy48Iff | lib/aoip.c:340-341 | a stamp advances by 48 exactly while the sum stays below 2^16 |
| AudioQueue.Queue.constructor | lib/aoip.c:3-35 | an empty ring of 512 slots, each with version 2, payload type 98 and its own SSRC in network byte order, and zeros otherwise |
| AudioQueue.Queue.TestsMean | include/aoip/queue.h:26-34 | both tests, in terms of the queue's contents |
| AudioQueue.Queue.WriteNext | include/aoip/queue.h:41-44 | the head slot joins the queue |
| AudioQueue.Queue.ReadNext | include/aoip/queue.h:36-39 | the front slot leaves it |
| AudioQueue.Queue.TonegenWrite | src/tonegen/tonegen.c:42-75 | nothing on a full ring; else one more packet with the running number, the tone in both channels and the header kept; slots, head and number are those that Record's steps of one writer call leave |
| AudioQueue.Queue.FillTone | src/tonegen/tonegen.c:52-67 | the fill loop writes each sample to both channels and nothing else |
| AudioQueue.StereoAt | src/tonegen/tonegen.c:56-62 | sample i lies at byte 6 i for the left channel and 6 i + 3 for the right, most significant byte first |
| AudioQueue.LoopEndsIff | src/rtpdump/rtpdump.c:70-70 | the loop over a packet, with its 16-bit index, ends exactly if the length is not 65535 |
| AudioQueue.FramesInIsLeast | src/rtpdump/rtpdump.c:70-70 | its number of rounds: one per six bytes after the header up to 65532 bytes, and 21843, with the index wrapping once, for 65533 and 65534 |
| AudioQueue.CountFrames | src/rtpdump/rtpdump.c:70-83 | for every length on which the loop ends, the frames counted, modulo 2^32 |
| AudioQueue.RtpdumpRead | src/rtpdump/rtpdump.c:59-90 | the front packet, if any, is counted and removed, though the pointer is taken before the empty test |
| AudioQueue.InitialisedStream | lib/rtp.c:117-126 | every packet on the wire has version 2, payload type 98 and, in network byte order, the SSRC laid down for its own slot |
| Uninterrupted.WriterCallIs | src/tonegen/tonegen.c:46-72 | what the audio thread's 293 steps leave when nothing comes between them; `TonegenWrite` is proved to leave the same ring |
| Uninterrupted.SenderPassIs | lib/aoip.c:335-364 | one pass through the sender without interruption: the counter moves on and the front slot is stamped in place; then either the packet is on the wire as stamped and retired, or, if the send would block, ring and wire are as before |
| Inet.InetPtonIff | lib/sap.c:62-62 | reading an address accepts exactly the printed forms and inverts printing |
| SapText.LineLengths | lib/sap.c:66-80 | the longest each variable line can get |
| SapText.ExactIff | lib/sap.c:99-204 | the text is the concatenation of its lines exactly when the name has at most 59 characters; with 31 it takes at most 315 bytes |
| SapText.FitsIff | lib/sap.c:99-204 | every session with a name of n characters fits the buffer exactly if n <= 227; the one with the longest numbers and addresses fails beyond that |
| SapMessage.Message.Emit | lib/sap.c:121-126 | one snprintf cut at 63 characters and the cursor's advance by the full length, and whether the write stays inside the buffer |
| SapReadBack.ReadBack | lib/sap.c:66-80 | the text consists of the twelve lines in their order, and readers of their own get the session back from them: both times and the three numbers of the format line digit by digit, both addresses, the eight bytes of the clock identity, and the name as far as 63 characters reach |
| SapMessage.Message.Build | lib/sap.c:82-210 | for a name of any length: no write leaves the buffer exactly if the text is shorter than 512 bytes, and then the buffer holds the twelve lines and zeros, they read back as the session, `len` is 24 plus their length, and the SAP fields are set |
| SapMessage.Message.FindConnect | lib/sap.c:36-47 | for any stop mark, also one behind the start: the scan ends at the first "c=" up to the mark, at the mark, or past the buffer |
| SapMessage.Message.CopyAddr | lib/sap.c:55-62 | up to 14 characters before a slash are read as an address, 15 are refused, and a copy that runs out of the buffer is an outcome of its own |
| SapMessage.Message.Search | lib/sap.c:21-63 | the whole parser, on any text and any length: its result and the highest index it read, or a read past the buffer |
| SapResult.ResultIff | lib/sap.c:21-63 | wherever the parser returns, by the characters of the text alone: 1 with exactly the address that stands, as a C string, before a slash at most 14 characters behind "IN IP4" at the first "c=" up to the mark; 0 exactly if what stands there is no address; -1 exactly if the text does not get that far |
| SapMessage.StaysInside | lib/sap.c:26-60 | with a length from 32 to 516 the parser never reads beyond index `len` - 5, whatever the text |
| SapMessage.ShortRunsPast | lib/sap.c:34-42 | with any length below 32 an SDP text without "c" takes the scan past the buffer, since its stop mark lies behind its start |
| SapMessage.LongRunsPast | lib/sap.c:36-60 | with any length above 516 an SDP text with "c=IN IP4 " at 489 and no slash takes the copy past the buffer |
| SapMessage.InsideIff | lib/sap.c:26-60 | so the parser stays inside for every SDP text exactly if the length is 32 to 516 |
| SapRoundTrip.RoundTrip | lib/sap.c:21-63 | for every session that fits: the message is recognised and the parser never reads beyond its text; it locks on to the connection line exactly if the shown name has no "c=", and then returns 1 and the address put in for up to 14 characters, -1 for 15; and for every address, it returns 1 and that address exactly if it has at most 14 characters and is the one put in, with no "c=" in the shown name, or the one spelled at the first "c=" of the shown name |
| SapRoundTrip.ReturnsIff | lib/sap.c:36-62 | the same equivalence and bound on any buffer that holds the session's lines |
| SapRoundTrip.NameDiverts | lib/sap.c:36-62 | a name whose shown part spells a connection at its first "c=", with anything before and after it, makes the parser return that address |
| SapRoundTrip.BuildThenSearch | lib/sap.c:82-210 | the two calls in a row, on a real buffer and for any session: what comes back, exactly, whatever the name; 1 only with an address |

## Left out

- Socket set-up, multicast membership, context creation and destruction, `main`, signals and printing: operating-system plumbing. Receives and sends are arbitrary outcomes, with whole well-formed datagrams, so what a short datagram leaves of an earlier one in the shared receive buffer is not modelled.
- Floating point: `ns_to_rtp_tstamp`, `generate_tone_data`, `float_to_i32`. The anchor timestamp and the tone samples are arbitrary values.
- Weak memory and the fences: both threads run over sequentially consistent memory.
- Bit-field layout and host byte order of PTP headers: their fields are record fields. Clock and sequence ids are only copied and compared.
- The byte offsets of rtpdump's copy loop, which skip the RTP header twice, and its file writes: `Playback` reads the packet from its first byte on.
- The time that the tone generator stores with each slot: nothing reads it.
- Equality of the SSRC across slots: it is read from the wall clock slot by slot, so it is not guaranteed.
- The overall return value of `network_loop`, which the deletion send overwrites, and failures of `snprintf`.
- AudioQueue.CountFrames: demands a length other than 65535, because on that one the source's loop does not end (AudioQueue.LoopEndsIff).
- AudioQueue.RtpdumpRead: demands the same of the packet at the front, if there is one.
- SapMessage.Message.Build: says nothing of the buffer once a write has left it; the model stops writing there.
- SapMessage.Message.Search: a read past the buffer ends the parser with an outcome of its own; what the source would find there is not modelled.
- `lib/wav.c`, `lib/pcap.c` and the small clients under `src/simple-*`: constant headers, file writes and copies of the loops modelled here.
