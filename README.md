# BBO UDP ingest: the per-packet hot path in Dafny

This project models the hot path of a best-bid/offer (BBO) UDP ingest engine
and proves properties of that model. The engine receives Ethernet II / IPv4 /
UDP frames, decodes a fixed-layout quote into a pooled 64-byte record, converts
it to the gateway record and offers it once to a shared-memory sink. The model
covers these parts:

- **The quote record** `BBODataFast` (`bbo_data.dfy`, module `BboData`). A class
  whose eight-byte symbol is an array. It has `clear`, `set_symbol`,
  `get_symbol` and the flag bits.
- **The record pool** `BBOPool` (`bbo_pool.dfy`, module `BboPool`). A class
  holding an array of distinct records and a wrapping 32-bit cursor. The
  `Bits` module (`bits.dfy`) proves that the index mask `head & (N-1)` is
  `head mod N` for a power of two `N`.
- **The wire decoder** `BBOParserFast` (`bbo_parser_fast.dfy`).
  - `parse` is a method that acquires a slot and writes the decoded fields
    into it in place.
  - `extract_timestamps`, `is_valid_bbo` and `symbol_matches` are functions.
  - The sender's encoding is the partner of decoding, and round-trip lemmas
    connect the two.
- **The header filter** of `process_packet` (`packet_headers.dfy`, module
  `PacketHeaders`). It covers the three early returns, the IHL-based UDP
  offset, and the payload length. The header layouts follow section 3.1 of
  RFC 791 and RFC 768.
- **The receiver** `DPDKReceiver` (`dpdk_receiver.dfy`, module
  `DpdkReceiver`). It covers:
  - `process_burst`, `process_packet`, `convert_and_publish`;
  - `create_dummy_packet`, which writes into an 86-byte array;
  - `warm_dpdk_path`, `warm_up`, `reset_stats` and the step order of
    `initialize`.

**How the receiver is specified.** `View()` is the value of what the hot
path can change: the five counters, the sequence number, the pool cursor and
slots, and the log of offers made to the sink. Six receiver methods ensure
`View() == F(old(View()), ...)`:

- `ProcessPacket` with `F = PacketStep`;
- `ProcessPayload` with `F = DeliverStep`;
- `ProcessBurst` with `F = Steps`;
- `WarmOne` with `F` either a `DeliverStep` of the warm-up payload (when the
  mbuf is created) or no change;
- `WarmDpdkPath` and `WarmUp` with `F = WarmSteps`.

The other six state their effect directly:

- `ConvertAndPublish` and `PublishDecoded` give the new offer log and the
  counters field by field.
- `DecodeAndPublish` gives the new counters, cursor, slots and offer log
  field by field, for the short and the decodable payload.
- `CreateDummyPacket` is specified by its returned frame.
- `ResetStats` gives the new counters.
- `Initialize` is specified by its returned verdict and the steps it ran, and
  by the new `dpdk_initialized_` flag.

The lemmas in `dpdk_receiver_proofs.dfy` prove what the specification
functions mean:

- rejected frames change nothing;
- an accepted frame consumes one sequence number;
- a decoded frame lands in slot `head mod 1024` and is offered exactly once;
- the counters stay balanced;
- effects over whole bursts and the whole warm-up path;
- the synthetic frame and the IBM example.

**What is abstract.**
- Machine integers are `int` subset types. Their wrap-around is written out:
  `Inc32` for `sequence_++` and the pool cursor, `Inc64` for the counters.
- Prices are the raw `uint32` ten-thousandths that the `double` fields are
  computed from.
- The TSC conversion `cycles_to_ns` is a function-valued field of the
  receiver. Each `rdtsc` reading is a method parameter.
- The sink's answer to its n-th `try_publish` is a fixed oracle
  `accepts(n)`.
- The outcome of each mbuf allocation and of each initialisation step is a
  parameter.

## Model

| member | source | states |
|---|---|---|
| Wire.Inc32 | include/dpdk_receiver.h:201 | `sequence_++` on a `uint32_t`: the result is `(x + 1) mod 2^32` |
| Wire.Inc64 | include/dpdk_receiver.h:193 | `fetch_add(1)` on a `uint64_t` counter: the result is `(x + 1) mod 2^64` |
| Wire.AsInt64 | include/dpdk_receiver.h:234 | `static_cast<int64_t>` of the timestamp lies in the signed 64-bit range and is congruent to the unsigned value mod 2^64 |
| Wire.Be32BytesOfBe32 | include/bbo_parser_fast.h:65-71 | reading a big-endian word and storing it back in network order gives back the same four bytes |
| Bits.SingleBitTest | include/bbo_pool.h:22 | the compile-time test `(N & (N - 1)) == 0` holds for a positive N exactly when N is a power of two (both directions) |
| Bits.MaskIsMod | include/bbo_pool.h:60 | for a power-of-two N, `head & (N - 1)` equals `head mod N` |
| BboData.FlagsAreDistinctBits | include/bbo_data.h:84-88 | the flags 0x01, 0x02 and 0x04 are single bits, and any two of them AND to zero |
| BboData.PaddedSymbol | include/bbo_data.h:36-43 | the stored symbol is 8 bytes: the first `min(len, 8)` bytes of the source, then spaces |
| BboData.TrimmedSymbol | include/bbo_data.h:46-52 | the symbol read back is a prefix of the stored bytes that does not end in a space or NUL, and every byte after it is a space or NUL |
| BboData.TrimmedSymbolUnique | include/bbo_data.h:46-52 | those three properties determine the trimmed symbol, so it is the longest such prefix |
| BboData.SymbolRoundTrip | include/bbo_data.h:36-52 | `get_symbol` after `set_symbol(s, len(s))` gives back `s` when `s` has at most 8 bytes and no trailing space or NUL |
| BboData.PaddedSymbolFull | include/bbo_data.h:37-38 | with `len >= 8`, the first 8 source bytes are copied and no padding is written |
| BboData.TrimmedAllPad | include/bbo_data.h:46-52 | a symbol made only of spaces and NULs reads back as the empty string |
| BboData.BBODataFast.constructor | include/bbo_data.h:17-28 | storage for one record with an 8-byte symbol buffer |
| BboData.BBODataFast.Clear | include/bbo_data.h:31-33 | every field becomes zero: the symbol bytes, prices, shares, spread, timestamp, sequence, `valid`, `flags` and the padding |
| BboData.BBODataFast.SetSymbol | include/bbo_data.h:36-43 | the symbol buffer becomes `PaddedSymbol(sym, len)`, and only the symbol buffer changes |
| BboData.BBODataFast.GetSymbol | include/bbo_data.h:46-52 | returns `TrimmedSymbol(symbol)`: at most 8 bytes, a prefix of the buffer, no trailing pad, only pad after it; nothing changes |
| BboPool.HeadAfterStep | include/bbo_pool.h:60 | one more `fetch_add` moves the cursor from `h0 + k` to `h0 + k + 1`, both mod 2^32 |
| BboPool.HeadAfter | include/bbo_pool.h:59-60 | the cursor after k acquires from `h0`: `h0 + k` while that stays below 2^32, and back at `h0` after any multiple of 2^32 acquires |
| BboPool.SlotAfter | include/bbo_pool.h:60-61 | the slot handed out by the k-th acquire is an index below the pool size |
| BboPool.PowerOfTwoDividesPow2 | include/bbo_pool.h:29-30 | a power of two no larger than 2^k divides 2^k, so the pool size divides the cursor's period 2^32 |
| BboPool.SlotAfterIgnoresWrap | include/bbo_pool.h:30 | the slot handed out by the k-th acquire is `(h0 + k) mod N`, even though the cursor wraps at 2^32 |
| BboPool.AcquiredSlotsDistinct | include/bbo_pool.h:55-61 | any N consecutive acquires hand out pairwise distinct slots |
| BboPool.AcquiredSlotReused | include/bbo_pool.h:55-57 | acquires `i` and `i + N` hand out the same slot, so a slot stays un-reused for exactly N further acquires |
| BboPool.BBOPool.constructor | include/bbo_pool.h:36-39 | requires the two static assertions (N >= 64, `N & (N - 1) == 0`); afterwards the cursor is 0, the pool is valid and every slot is cleared |
| BboPool.BBOPool.PrefaultPool | include/bbo_pool.h:140-146 | every slot is cleared and its padding is zero |
| BboPool.BBOPool.Acquire | include/bbo_pool.h:59-62 | returns slot `head mod N`, advances the cursor by one with wrap, and no slot changes |
| BboPool.BBOPool.Release | include/bbo_pool.h:66-68 | cursor and slots are unchanged, and nothing else may change |
| BboPool.BBOPool.WarmCache | include/bbo_pool.h:72-82 | the sink is the wrapping sum of the first 64-bit word of every slot; no slot and not the cursor change |
| BboPool.FirstWordFits | include/bbo_pool.h:77 | the eight symbol bytes loaded as one word fit in a `uint64_t` |
| BboPool.LittleEndianBound | include/bbo_pool.h:77 | n bytes loaded least-significant first fit in 8n bits |
| BboPool.BBOPool.FirstWord | include/bbo_pool.h:77 | the word `warm_cache` loads from a record fits in a `uint64_t` |
| BboPool.BBOPool.TouchSum | include/bbo_pool.h:72-82 | the sink `warm_cache` accumulates over the first k slots is the plain sum of their first words, reduced mod 2^64 |
| BboPool.BBOPool.Size | include/bbo_pool.h:89 | `size()` is the number of slots, at least 64 and a power of two |
| BboPool.BBOPool.Bytes | include/bbo_pool.h:90 | `bytes()` is the number of slots times 64 |
| BboParserFast.DecodeEncode | include/bbo_parser_fast.h:59-71 | decoding the 28 bytes a sender encodes gives back the symbol and all five words, whatever follows them |
| BboParserFast.EncodeDecode | include/bbo_parser_fast.h:59-71 | encoding the decoded fields reproduces the first 28 payload bytes |
| BboParserFast.DecodedQuoteOfEncoded | include/bbo_parser_fast.h:61-90 | each field of a sender's quote arrives in its place in the record, with `valid = 1` and the given timestamp, sequence and flag |
| BboParserFast.DecodeWire | include/bbo_parser_fast.h:59-71 | the wire decoder yields an 8-byte symbol with the five big-endian words; `DecodeEncode` and `EncodeDecode` make it the inverse of the sender's encoding |
| BboParserFast.FlagsFor | include/bbo_parser_fast.h:85-90 | the flag byte is `HAS_FPGA_TIMESTAMPS` exactly when the length is at least 44, and 0 exactly when it is below |
| BboParserFast.DecodedQuote | include/bbo_parser_fast.h:59-90 | the record a parse leaves: payload bytes 0..7 as the symbol, `valid` 1, the given timestamp and sequence number, and the timestamp flag exactly when the length is at least 44 |
| BboParserFast.Parse | include/bbo_parser_fast.h:44-93 | `len < 28`: returns null, and the cursor and slots are unchanged. Otherwise: exactly one acquire, the returned slot is `old head mod N`, the cursor advances by one, and only that slot changes, to the decoded record |
| BboParserFast.StoreDecoded | include/bbo_parser_fast.h:59-90 | the acquired record holds the decoded fields, `ts_ns`, `sequence`, `valid = 1` and `flags` 0x01 exactly when `len >= 44`; the padding is not written |
| BboParserFast.ParseBbo | include/bbo_parser_fast.h:151-158 | the same outcome as `parse` with sequence number 0 |
| BboParserFast.ExtractTimestamps | include/bbo_parser_fast.h:98-115 | `len < 44`: all four markers are zero; otherwise the markers, stored again in network order, are payload bytes 28..43 |
| BboParserFast.ExtractEncodedTimestamps | include/bbo_parser_fast.h:105-110 | the four markers a sender appends after the quote are the ones extracted |
| BboParserFast.FlagTellsTimestamps | include/bbo_parser_fast.h:86-90 | the stored flags have bit 0x01 exactly when `len >= 44`, and never the synthetic or stale bits |
| BboParserFast.PrintableFrom | include/bbo_parser_fast.h:125-130 | the loop from byte `i` succeeds exactly when bytes `i..7` are all in [0x20, 0x7E] |
| BboParserFast.IsValidBbo | include/bbo_parser_fast.h:119-133 | true exactly when `len >= 28` and all of symbol bytes 0..7 are in [0x20, 0x7E] |
| BboParserFast.MatchFrom | include/bbo_parser_fast.h:139-143 | the loop from position `i` succeeds exactly when the data and the target agree at every position `i..n-1` |
| BboParserFast.SymbolMatches | include/bbo_parser_fast.h:137-145 | true exactly when the first `min(target_len, 8)` bytes equal the target's; always true for `target_len == 0` |
| BboParserFast.MatchesOwnSymbol | include/bbo_parser_fast.h:137-145 | a payload matches the symbol that its own record reads back as |
| PacketHeaders.PayloadLen | include/dpdk_receiver.h:189 | the corrected payload length is never longer than the UDP Length the header announces |
| PacketHeaders.PayloadLenAgrees | include/dpdk_receiver.h:189 | the corrected and the as-written payload lengths agree whenever `dgram_len >= 8` |
| PacketHeaders.PayloadLenAsWritten | include/dpdk_receiver.h:189 | the `size_t` subtraction as the code evaluates it: `dgram_len - 8` when the Length is at least 8, otherwise `2^64 - 8 + dgram_len` |
| PacketHeaders.PayloadLenWraps | include/dpdk_receiver.h:189 | for `dgram_len < 8`, the as-written length is `2^64 - 8 + dgram_len`, which passes every length check; the corrected length is 0, a parse error |
| PacketHeaders.ClassifyUdpFrame | include/dpdk_receiver.h:164-189 | a well-formed frame is accepted exactly when it is sent to the configured port, with its payload at offset 42 and its true length; otherwise the verdict is wrong-port |
| PacketHeaders.Classify | include/dpdk_receiver.h:164-189 | a frame is accepted exactly when its EtherType is IPv4, its protocol is UDP and its destination port is the configured one; then the payload starts right after the UDP header found through the IHL, and its length is at most the UDP Length |
| DpdkReceiver.RxPoolSizeAccepted | include/dpdk_receiver.h:105 | the receiver's pool size 1024 passes the pool's power-of-two test |
| DpdkReceiver.GatewaySymbol | include/dpdk_receiver.h:222-227 | the gateway symbol is `SYMBOL_MAX_LEN` (16) bytes long |
| DpdkReceiver.GatewayOf | include/dpdk_receiver.h:218-246 | the gateway record starts its 16-byte symbol with the 8 record bytes, is valid exactly when `valid` is non-zero, and holds the timestamp reinterpreted as a signed value congruent to it mod 2^64 |
| DpdkReceiver.PublishSink.constructor | include/dpdk_receiver.h:108 | a sink with the given acceptance oracle and no offers yet |
| DpdkReceiver.PublishSink.TryPublish | include/dpdk_receiver.h:249 | logs the offered record, and answers the oracle's verdict for this offer |
| DpdkReceiver.DeliverStep | include/dpdk_receiver.h:191-214 | specification of `process_packet` after the filter; its ensures only keeps the pool at 1024 slots. What it means is proved in DpdkReceiverProofs |
| DpdkReceiver.PacketStep | include/dpdk_receiver.h:156-215 | specification of `process_packet`: filter, then DeliverStep; its ensures only keeps the pool at 1024 slots. Meaning proved in DpdkReceiverProofs |
| DpdkReceiver.Steps | include/dpdk_receiver.h:139-153 | specification of `process_burst`: PacketStep on each frame in index order; its ensures only keeps the pool at 1024 slots |
| DpdkReceiver.WarmSteps | src/dpdk_receiver.cpp:277-285 | specification of `warm_dpdk_path`: one delivery of the dummy payload per created frame, none for a failed creation |
| DpdkReceiver.SyntheticFrameAccepted | src/dpdk_receiver.cpp:287-341 | the dummy frame passes its own receiver's filter, with a 44-byte payload at offset 42 that is the warm-up payload |
| DpdkReceiver.SyntheticFrameDelivers | src/dpdk_receiver.cpp:279-281 | `process_packet` on the dummy frame is the delivery of the warm-up payload with length 44 |
| DpdkReceiver.SyntheticHeaders | src/dpdk_receiver.cpp:293-298 | the three headers of the dummy frame take 14 + 20 + 8 bytes |
| DpdkReceiver.SyntheticFrameOfParts | src/dpdk_receiver.cpp:293-298 | an 86-byte buffer holding the dummy headers, then the warm-up payload, is the dummy frame |
| DpdkReceiver.CopyInto | src/dpdk_receiver.cpp:327-338 | `memcpy`: the target range holds the bytes and every other byte is unchanged |
| DpdkReceiver.WriteHeaders | src/dpdk_receiver.cpp:308-321 | into a zeroed buffer, the header stores produce exactly the dummy headers and leave the payload bytes alone |
| DpdkReceiver.WriteEth | src/dpdk_receiver.cpp:308-310 | the Ethernet header becomes zero MACs and EtherType 0x0800 in network order |
| DpdkReceiver.WriteIpv4 | src/dpdk_receiver.cpp:312-316 | the IPv4 header becomes `version_ihl` 0x45, the total length in network order and protocol 17, all else zero |
| DpdkReceiver.WriteUdp | src/dpdk_receiver.cpp:318-321 | the UDP header becomes the destination port and `dgram_len` in network order, all else zero |
| DpdkReceiver.Put | src/dpdk_receiver.cpp:334-338 | a store just after the bytes already in place extends them; nothing outside the stored range changes |
| DpdkReceiver.WriteQuote | src/dpdk_receiver.cpp:327-338 | the 28 bytes at the payload offset become the sender encoding of the quote; nothing else changes |
| DpdkReceiver.WritePayload | src/dpdk_receiver.cpp:323-338 | the 44 payload bytes become "WARMUP  ", bid and ask 1500000, shares 100 and spread 1000, all in network order, then 16 zero bytes |
| DpdkReceiver.DPDKReceiver.constructor | include/dpdk_receiver.h:96-114 | counters zero, sequence 0, not initialised; the pool has cursor 0 and every slot cleared |
| DpdkReceiver.DPDKReceiver.ConvertAndPublish | include/dpdk_receiver.h:218-254 | exactly one offer, of `GatewayOf(fast)`; `ring_buffer_full` is bumped exactly when the sink refuses and statistics are on; no other counter changes |
| DpdkReceiver.DPDKReceiver.ProcessPacket | include/dpdk_receiver.h:156-215 | the new view is `PacketStep(old view, frame)` |
| DpdkReceiver.DPDKReceiver.ProcessPayload | include/dpdk_receiver.h:191-214 | the new view is `DeliverStep(old view, payload)` |
| DpdkReceiver.DPDKReceiver.DecodeAndPublish | include/dpdk_receiver.h:199-214 | short payload: only `parse_errors` moves. Otherwise: the decoded record with the old sequence number goes into slot `old head mod 1024`, is offered once, and is counted processed (and ring-full when refused) |
| DpdkReceiver.DPDKReceiver.PublishDecoded | include/dpdk_receiver.h:204-210 | one offer of the record; `processed` is bumped whatever the sink answers, and `ring_buffer_full` is bumped on a refusal |
| DpdkReceiver.DPDKReceiver.ProcessBurst | include/dpdk_receiver.h:139-153 | the new view is `Steps(old view, frames)`: `process_packet` on each frame once, in index order |
| DpdkReceiver.DPDKReceiver.CreateDummyPacket | src/dpdk_receiver.cpp:287-341 | no frame when the alloc or append fails; otherwise exactly the 86-byte dummy frame |
| DpdkReceiver.DPDKReceiver.WarmOne | src/dpdk_receiver.cpp:279-283 | a created dummy frame delivers the warm-up payload; a failed creation changes nothing |
| DpdkReceiver.DPDKReceiver.WarmDpdkPath | src/dpdk_receiver.cpp:277-285 | the new view is `WarmSteps` over the first `max(count, 0)` creation outcomes |
| DpdkReceiver.DPDKReceiver.WarmUp | src/dpdk_receiver.cpp:253-264 | cache warming changes nothing; the new view is that of `warm_dpdk_path(synthetic_packets)` |
| DpdkReceiver.DPDKReceiver.ResetStats | src/dpdk_receiver.cpp:359-365 | all five counters become zero; only the counters may change |
| DpdkReceiver.DPDKReceiver.Initialize | src/dpdk_receiver.cpp:36-55 | runs the steps in order up to the first failure; succeeds exactly when all four do; sets `dpdk_initialized_` only then |
| DpdkReceiver.RunUntilFailure | src/dpdk_receiver.cpp:36-51 | the steps `initialize` runs are a prefix of its order, and at least the first step runs |
| DpdkReceiverProofs.RejectedFrameChangesNothing | include/dpdk_receiver.h:164-185 | a frame that is not IPv4, not UDP, or for another port changes no counter, sequence, cursor, slot or offer |
| DpdkReceiverProofs.ShortPayloadIsParseError | include/dpdk_receiver.h:191-214 | an accepted payload under 28 bytes: counted received and as a parse error, one sequence number consumed, pool and sink untouched |
| DpdkReceiverProofs.DecodedPayloadIsPublished | include/dpdk_receiver.h:191-214 | an accepted payload that decodes: one sequence number consumed; the record built with the old number lands in slot `head mod 1024` and is offered once; counted received and processed, and ring-full on refusal; `parse_errors` and `packets_dropped` unchanged |
| DpdkReceiverProofs.ZeroStatsBalanced | src/dpdk_receiver.cpp:359-365 | zeroed counters are balanced: processed + parse errors = received |
| DpdkReceiverProofs.BumpSum | include/dpdk_receiver.h:193-212 | bumping one of the two summands bumps their wrapped sum |
| DpdkReceiverProofs.PacketStepShape | include/dpdk_receiver.h:156-215 | one frame: sequence +1 per accepted frame; cursor +1 and one offer per decoded frame; balance preserved; with statistics off no counter moves; `packets_dropped` never moves |
| DpdkReceiverProofs.AcceptedCount | include/dpdk_receiver.h:139-153 | the frames of a burst that pass the filter number at most the frames |
| DpdkReceiverProofs.DecodedCount | include/dpdk_receiver.h:139-153 | the decoded frames number at most the accepted ones |
| DpdkReceiverProofs.BurstCursors | include/dpdk_receiver.h:139-153 | after a burst, the sequence has advanced by the accepted count and the cursor by the decoded count (mod 2^32) |
| DpdkReceiverProofs.BurstOffers | include/dpdk_receiver.h:139-153 | after a burst, one offer per decoded frame has been appended after the earlier ones |
| DpdkReceiverProofs.BurstStats | include/dpdk_receiver.h:139-153 | a burst keeps the counters balanced, and with statistics off leaves every counter unchanged |
| DpdkReceiverProofs.SaturatedBurst | include/dpdk_receiver.h:204-253 | when the sink refuses everything, `processed` and `ring_buffer_full` each advance by the decoded count (mod 2^64), and `packets_dropped` does not move |
| DpdkReceiverProofs.GatewaySymbolReadsBack | include/dpdk_receiver.h:222-227 | the 16-byte gateway symbol trims to the same string as the 8-byte record symbol |
| DpdkReceiverProofs.GatewayOfFields | include/dpdk_receiver.h:218-246 | gateway symbol bytes 0..7 are copied, bytes 8..14 are spaces and byte 15 is NUL; prices and shares are copied; the timestamp is the signed reinterpretation; `valid` is true exactly when `fast.valid != 0`; all nine FPGA fields are zero |
| DpdkReceiverProofs.WarmupDelivery | src/dpdk_receiver.cpp:323-338 | the warm-up payload decodes to the WARMUP record with flag 0x01; it is stored and offered; received and processed move, parse errors do not |
| DpdkReceiverProofs.SyntheticFrameDecodes | src/dpdk_receiver.cpp:287-341 | the dummy frame runs the whole packet path: accepted, decoded with flag 0x01, stored in the next slot, offered once |
| DpdkReceiverProofs.Allocations | src/dpdk_receiver.cpp:279-280 | the number of created dummy frames is at most the number of attempts |
| DpdkReceiverProofs.WarmPathEffect | src/dpdk_receiver.cpp:277-285 | after the warm-up loop, the sequence and the cursor have advanced by the number of created frames; that many offers follow the earlier ones, each with the WARMUP gateway symbol |
| DpdkReceiverProofs.DecodableDeliveryStats | include/dpdk_receiver.h:191-209 | a decodable payload moves received and processed and leaves parse errors alone |
| DpdkReceiverProofs.WarmPathStats | src/dpdk_receiver.cpp:277-285 | the warm-up loop never counts a parse error; with statistics on, received and processed each advance by the number of created frames |
| DpdkReceiverProofs.IbmQuote | include/bbo_parser_fast.h:14-23 | the 28-byte IBM quote has an 8-byte symbol |
| DpdkReceiverProofs.IbmSymbolTrims | include/bbo_data.h:46-52 | "IBM     " reads back as "IBM" |
| DpdkReceiverProofs.QuoteDatagramDelivered | include/dpdk_receiver.h:156-215 | a well-formed datagram carrying exactly one 28-byte quote fills the next slot with every field, flag 0, and makes one offer |
| DpdkReceiverProofs.IbmScenario | include/dpdk_receiver.h:156-215 | the IBM quote received at 1000 ns is stored as bid 1500000, ask 1501000, spread 1000, shares 100 and 200, `valid` 1, flag 0, timestamp 1000, and exactly one offer is made |
| DpdkReceiverProofs.RunUntilFailureShape | src/dpdk_receiver.cpp:36-55 | the steps run are a prefix of the order, every one but the last succeeded, all run exactly when all succeed, and otherwise the last one run failed |

## Left out

- `rdtsc` and `TSCCalibrator` use inline assembly, `usleep` and floating-point ratios. `cycles_to_ns` is an abstract function and each `rdtsc` reading is a parameter.
- Floating point is not modelled. This covers the `raw * 0.0001` prices and `FPGATimestamps::calculate_latencies`. The model keeps the raw `uint32` values and the four raw markers.
- Pool memory management is left out:
  - `allocate_pool`, with its `mmap`/`MAP_HUGETLB` fallbacks, `aligned_alloc` and `abort`;
  - the destructor's `munmap`/`free`.
  The pool is an already allocated array of records, and `usingHugepages` is an inert flag.
- DPDK and shared-memory I/O are left out:
  - `init_dpdk_eal`, `init_mempool`, `init_port`, `init_shared_memory`, which are abstract booleans in `Initialize`;
  - `rte_eth_rx_burst`;
  - mbuf free and the prefetches in `process_burst`;
  - the `BboRingBuffer` implementation, which is the oracle sink;
  - the destructor.
- Concurrency is left out: `poll_loop`, `running_`/`stop`/`is_running`, and the memory orderings of the atomics. The single-writer design makes the atomics plain fields here.
- `main.cpp`, `likely.h`, `print_stats`, `print_pool_stats` and the empty `to_gateway_bbo` stub carry no hot-path semantics.
- Plain field reads are not separate members: `current_head`, `is_using_hugepages`, `operator[]`, `get_stats` and `get_tsc`.
- The `static_assert` size and alignment checks of `BBODataFast` are compile-time layout facts. The pool's two static assertions are the precondition of its constructor.
- `gateway::BBOData` is not part of this model. Its field list and `SYMBOL_MAX_LEN = 16` are taken from `convert_and_publish` and its comment.
- `FrameReadable` states that every byte the packet path reads lies inside the frame. The source never checks this against the mbuf length; the model requires it of its callers. `Parse` likewise requires that a long enough `len` comes with that many bytes.
- `packets_dropped` is declared and reset, but the code never increments it. The model keeps it, and proves it never changes.
- `BURST_SIZE` sizes the burst array and the `rte_eth_rx_burst` call in `poll_loop`, which is left out with the concurrency. `ProcessBurst` takes any burst of at most 65535 frames, as `nb_rx` is a `uint16_t`.
- `RX_RING_SIZE`, `MBUF_POOL_SIZE`, `MBUF_CACHE_SIZE` and the default `Config` values are used only by the DPDK set-up that is left out. The model takes the configuration as it is given.
- `ring_buffer_` is null until `init_shared_memory` succeeds. The model gives the receiver a connected sink from its constructor, so it presumes that the packet path runs only after a successful `initialize`.
- A refused offer is counted in `ring_buffer_full`, and the record is still counted in `packets_processed` (`SaturatedBurst`).
- `process_packet` parses the Ethernet, IPv4 and UDP headers itself before it calls the decoder, and `PacketHeaders.Classify` models that parsing.
- PacketHeaders.Classify, DpdkReceiver.PacketStep, DpdkReceiver.Steps, DpdkReceiver.DPDKReceiver.ProcessPacket and DpdkReceiver.DPDKReceiver.ProcessBurst use the corrected payload length of the Findings row (`PayloadLen`). A datagram to the configured port whose UDP Length is below 8 is therefore a parse error here. The code as written computes a wrapped length near 2^64, which passes the decoder's 28-byte check. It then acquires a slot, decodes 28 bytes, publishes the record and counts it processed.
- BboPool.BBOPool.WarmCache: the source discards the sink, behind a `volatile` store and a compiler barrier. The model returns it instead, so that the loads are observable.
- BboPool.LittleEndian returns an unbounded `nat`. The `uint64_t` bound of the first word is proved separately (`FirstWordFits`).
- DpdkReceiver.WarmSteps and DpdkReceiver.DPDKReceiver.WarmDpdkPath: mbuf allocation and append outcomes are given as a sequence, one per iteration. The `free` of a created mbuf is not modelled.
- DpdkReceiver.DeliverStep, DpdkReceiver.PacketStep and DpdkReceiver.Steps: their own ensures only keep the pool size. Everything they promise is proved in DpdkReceiverProofs.

## Findings

| source | as written | input that shows it | evidently intended | confidence | as-written member | corrected member |
|---|---|---|---|---|---|---|
| include/dpdk_receiver.h:189 | `payload_len = rte_be_to_cpu_16(udp->dgram_len) - sizeof(rte_udp_hdr)` is computed in `size_t` and wraps when the UDP Length is below 8 | a UDP datagram to the configured port with `dgram_len = 0`: `payload_len = 2^64 - 8`, which passes the decoder's 28-byte check, so `parse` reads 28 bytes after a header that announced no payload | a UDP Length below the 8-byte header leaves no payload, and the datagram is counted as a parse error | not executed | PacketHeaders.PayloadLenAsWritten (with PacketHeaders.PayloadLenWraps) | PacketHeaders.PayloadLen (with PacketHeaders.PayloadLenAgrees) |
