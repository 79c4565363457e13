/** Properties of the receiver's packet path: what one frame does to the
    counters, the sequence number, the pool and the sink; what a burst and the
    warm-up path do; the gateway record; the two worked scenarios; and the
    initialisation order. */
module DpdkReceiverProofs {

  import opened Wire
  import opened BboData
  import opened BboPool
  import opened BboParserFast
  import opened PacketHeaders
  import opened DpdkReceiver

  // ---- One frame ----

  /** A frame the filter turns away changes nothing at all: no counter, no
      sequence number, no pool slot or cursor, no publish. */
  lemma RejectedFrameChangesNothing(v: RxView, cfg: Config, frame: seq<Byte>, tsNs: U64, accepts: nat -> bool)
    requires FrameReadable(frame, cfg.udpPort) && |v.slots| == RX_POOL_SIZE
    requires Classify(frame, cfg.udpPort) in {NotIpv4, NotUdp, WrongPort}
    ensures PacketStep(v, cfg, frame, tsNs, accepts) == v
  {
  }

  /** An accepted datagram too short to decode: counted received and as a
      parse error, consumes a sequence number, leaves pool and sink alone. */
  lemma ShortPayloadIsParseError(v: RxView, cfg: Config, frame: seq<Byte>, tsNs: U64, accepts: nat -> bool)
    requires FrameReadable(frame, cfg.udpPort) && |v.slots| == RX_POOL_SIZE
    requires var c := Classify(frame, cfg.udpPort); c.Accepted? && c.payloadLen < BBO_MIN_SIZE
    ensures var r := PacketStep(v, cfg, frame, tsNs, accepts);
      && r.sequence == Inc32(v.sequence)
      && r.head == v.head && r.slots == v.slots && r.attempts == v.attempts
      && r.stats == v.stats.(received := Bump(cfg.enableStats, v.stats.received),
                             parseErrors := Bump(cfg.enableStats, v.stats.parseErrors))
  {
  }

  /** An accepted datagram that decodes: the record built from the old
      sequence number lands in slot `head mod 1024`, is offered to the sink
      exactly once, and is counted processed whether or not the sink took it;
      a refusal is counted in `ringFull`. `dropped` never moves. */
  lemma DecodedPayloadIsPublished(v: RxView, cfg: Config, frame: seq<Byte>, tsNs: U64, accepts: nat -> bool)
    requires FrameReadable(frame, cfg.udpPort) && |v.slots| == RX_POOL_SIZE
    requires var c := Classify(frame, cfg.udpPort); c.Accepted? && c.payloadLen >= BBO_MIN_SIZE
    ensures var c := Classify(frame, cfg.udpPort);
      var q := DecodedQuote(PayloadFrom(frame, c.payloadOffset), c.payloadLen, tsNs, v.sequence);
      var r := PacketStep(v, cfg, frame, tsNs, accepts);
      var en := cfg.enableStats;
      && r.sequence == Inc32(v.sequence)
      && r.head == Inc32(v.head)
      && r.slots == v.slots[v.head % RX_POOL_SIZE := q]
      && r.attempts == v.attempts + [GatewayOf(q)]
      && r.stats.received == Bump(en, v.stats.received)
      && r.stats.processed == Bump(en, v.stats.processed)
      && r.stats.ringFull == Bump(en && !accepts(|v.attempts|), v.stats.ringFull)
      && r.stats.parseErrors == v.stats.parseErrors
      && r.stats.dropped == v.stats.dropped
  {
  }

  /** Every counted frame is either processed or a parse error: the two
      counters add up to `received`, modulo the 64-bit wrap. */
  predicate Balanced(s: Stats)
  {
    (s.processed + s.parseErrors) % TWO_64 == s.received
  }

  lemma ZeroStatsBalanced()
    ensures Balanced(ZERO_STATS)
  {
  }

  /** Bumping one of two summands bumps their wrapped sum. */
  lemma BumpSum(a: U64, b: U64, c: U64)
    requires (a + b) % TWO_64 == c
    ensures (Inc64(a) + b) % TWO_64 == Inc64(c)
    ensures (a + Inc64(b)) % TWO_64 == Inc64(c)
  {
    ModAdd(a + 1, b, TWO_64);
    ModAdd(a + b, 1, TWO_64);
    ModAdd(b + 1, a, TWO_64);
  }

  /** What one frame does to the quantities a burst accumulates: the
      sequence number moves for every accepted frame, the pool cursor and the
      sink log for every decoded one; the counters stay balanced; with
      statistics off none moves; with a sink that refuses everything a decoded
      record bumps both `processed` and `ringFull`. */
  lemma PacketStepShape(v: RxView, cfg: Config, frame: seq<Byte>, tsNs: U64, accepts: nat -> bool)
    requires FrameReadable(frame, cfg.udpPort) && |v.slots| == RX_POOL_SIZE
    ensures var c := Classify(frame, cfg.udpPort);
      var dec := c.Accepted? && c.payloadLen >= BBO_MIN_SIZE;
      var r := PacketStep(v, cfg, frame, tsNs, accepts);
      && r.sequence == (if c.Accepted? then Inc32(v.sequence) else v.sequence)
      && r.head == (if dec then Inc32(v.head) else v.head)
      && |r.attempts| == |v.attempts| + (if dec then 1 else 0)
      && r.attempts[..|v.attempts|] == v.attempts
      && (Balanced(v.stats) ==> Balanced(r.stats))
      && (!cfg.enableStats ==> r.stats == v.stats)
      && r.stats.dropped == v.stats.dropped
      && (cfg.enableStats && !accepts(|v.attempts|) ==>
            && r.stats.processed == (if dec then Inc64(v.stats.processed) else v.stats.processed)
            && r.stats.ringFull == (if dec then Inc64(v.stats.ringFull) else v.stats.ringFull))
  {
    var r := PacketStep(v, cfg, frame, tsNs, accepts);
    assert r.attempts[..|v.attempts|] == v.attempts;
    if cfg.enableStats && Balanced(v.stats) {
      BumpSum(v.stats.processed, v.stats.parseErrors, v.stats.received);
    }
  }

  // ---- A burst ----

  /** How many frames of a burst pass the header filter. */
  function AcceptedCount(frames: seq<seq<Byte>>, udpPort: U16): (n: nat)
    requires forall i :: 0 <= i < |frames| ==> FrameReadable(frames[i], udpPort)
    ensures n <= |frames|
  {
    if frames == [] then 0
    else
      var k := |frames| - 1;
      assert FrameReadable(frames[k], udpPort);
      AcceptedCount(frames[..k], udpPort) + (if Classify(frames[k], udpPort).Accepted? then 1 else 0)
  }

  /** How many frames of a burst pass the filter and decode. */
  function DecodedCount(frames: seq<seq<Byte>>, udpPort: U16): (n: nat)
    requires forall i :: 0 <= i < |frames| ==> FrameReadable(frames[i], udpPort)
    ensures n <= AcceptedCount(frames, udpPort)
  {
    if frames == [] then 0
    else
      var k := |frames| - 1;
      assert FrameReadable(frames[k], udpPort);
      var c := Classify(frames[k], udpPort);
      DecodedCount(frames[..k], udpPort) + (if c.Accepted? && c.payloadLen >= BBO_MIN_SIZE then 1 else 0)
  }

  /** A wrapping counter advanced one step at a time is its start plus the
      number of steps, wrapped once. */
  lemma Wrap64Step(x: U64, k: nat)
    ensures Inc64((x + k) % TWO_64) == (x + k + 1) % TWO_64
  {
    ModAddOne(x + k, TWO_64);
  }

  /** After a burst the sequence number has advanced by the number of
      accepted frames and the pool cursor by the number decoded. */
  lemma {:induction false} BurstCursors(v: RxView, cfg: Config, cyclesToNs: U64 -> U64, frames: seq<seq<Byte>>,
                                        tscs: seq<U64>, accepts: nat -> bool)
    requires |frames| == |tscs| && |v.slots| == RX_POOL_SIZE
    requires forall i :: 0 <= i < |frames| ==> FrameReadable(frames[i], cfg.udpPort)
    ensures var r := Steps(v, cfg, cyclesToNs, frames, tscs, accepts);
      && r.sequence == HeadAfter(v.sequence, AcceptedCount(frames, cfg.udpPort))
      && r.head == HeadAfter(v.head, DecodedCount(frames, cfg.udpPort))
  {
    if frames != [] {
      var k := |frames| - 1;
      var prev := Steps(v, cfg, cyclesToNs, frames[..k], tscs[..k], accepts);
      BurstCursors(v, cfg, cyclesToNs, frames[..k], tscs[..k], accepts);
      HeadAfterStep(v.sequence, AcceptedCount(frames[..k], cfg.udpPort));
      HeadAfterStep(v.head, DecodedCount(frames[..k], cfg.udpPort));
      PacketStepShape(prev, cfg, frames[k], cyclesToNs(tscs[k]), accepts);
    }
  }

  /** After a burst one offer per decoded frame has been added to the sink's
      log, after the earlier ones. */
  lemma {:induction false} BurstOffers(v: RxView, cfg: Config, cyclesToNs: U64 -> U64, frames: seq<seq<Byte>>,
                                       tscs: seq<U64>, accepts: nat -> bool)
    requires |frames| == |tscs| && |v.slots| == RX_POOL_SIZE
    requires forall i :: 0 <= i < |frames| ==> FrameReadable(frames[i], cfg.udpPort)
    ensures var r := Steps(v, cfg, cyclesToNs, frames, tscs, accepts);
      && |r.attempts| == |v.attempts| + DecodedCount(frames, cfg.udpPort)
      && r.attempts[..|v.attempts|] == v.attempts
  {
    if frames != [] {
      var k := |frames| - 1;
      var prev := Steps(v, cfg, cyclesToNs, frames[..k], tscs[..k], accepts);
      BurstOffers(v, cfg, cyclesToNs, frames[..k], tscs[..k], accepts);
      PacketStepShape(prev, cfg, frames[k], cyclesToNs(tscs[k]), accepts);
      var r := Steps(v, cfg, cyclesToNs, frames, tscs, accepts);
      assert r.attempts[..|v.attempts|] == r.attempts[..|prev.attempts|][..|v.attempts|];
    }
  }

  /** A burst keeps the counters balanced, and with statistics disabled
      leaves every counter as it was. */
  lemma {:induction false} BurstStats(v: RxView, cfg: Config, cyclesToNs: U64 -> U64, frames: seq<seq<Byte>>,
                                      tscs: seq<U64>, accepts: nat -> bool)
    requires |frames| == |tscs| && |v.slots| == RX_POOL_SIZE
    requires forall i :: 0 <= i < |frames| ==> FrameReadable(frames[i], cfg.udpPort)
    ensures var r := Steps(v, cfg, cyclesToNs, frames, tscs, accepts);
      && (Balanced(v.stats) ==> Balanced(r.stats))
      && (!cfg.enableStats ==> r.stats == v.stats)
  {
    if frames != [] {
      var k := |frames| - 1;
      var prev := Steps(v, cfg, cyclesToNs, frames[..k], tscs[..k], accepts);
      BurstStats(v, cfg, cyclesToNs, frames[..k], tscs[..k], accepts);
      PacketStepShape(prev, cfg, frames[k], cyclesToNs(tscs[k]), accepts);
    }
  }

  /** When the sink refuses everything, every decoded record of a burst is
      still counted processed, and each is also counted in `ringFull`. (The
      code does count these as processed.) */
  lemma {:induction false} SaturatedBurst(v: RxView, cfg: Config, cyclesToNs: U64 -> U64, frames: seq<seq<Byte>>,
                                          tscs: seq<U64>, accepts: nat -> bool)
    requires |frames| == |tscs| && |v.slots| == RX_POOL_SIZE
    requires forall i :: 0 <= i < |frames| ==> FrameReadable(frames[i], cfg.udpPort)
    requires cfg.enableStats && forall n :: !accepts(n)
    ensures var r := Steps(v, cfg, cyclesToNs, frames, tscs, accepts);
      var d := DecodedCount(frames, cfg.udpPort);
      && r.stats.processed == (v.stats.processed + d) % TWO_64
      && r.stats.ringFull == (v.stats.ringFull + d) % TWO_64
      && r.stats.dropped == v.stats.dropped
  {
    if frames != [] {
      var k := |frames| - 1;
      var prev := Steps(v, cfg, cyclesToNs, frames[..k], tscs[..k], accepts);
      SaturatedBurst(v, cfg, cyclesToNs, frames[..k], tscs[..k], accepts);
      PacketStepShape(prev, cfg, frames[k], cyclesToNs(tscs[k]), accepts);
      Wrap64Step(v.stats.processed, DecodedCount(frames[..k], cfg.udpPort));
      Wrap64Step(v.stats.ringFull, DecodedCount(frames[..k], cfg.udpPort));
    }
  }

  // ---- The gateway record ----

  /** The gateway symbol reads back, trimmed, as the record's symbol does. */
  lemma GatewaySymbolReadsBack(s: seq<Byte>)
    requires |s| == SYMBOL_LEN
    ensures TrimmedSymbol(GatewaySymbol(s)) == TrimmedSymbol(s)
  {
    var g := GatewaySymbol(s);
    var t := TrimmedSymbol(s);
    assert g[..|t|] == s[..|t|];
    assert forall k :: SYMBOL_LEN <= k < SYMBOL_MAX_LEN ==> IsPad(g[k]);
    TrimmedSymbolUnique(g, t);
  }

  /** The gateway record: symbol bytes 0..7 copied, 8..14 spaces, 15 NUL;
      prices, shares copied; the timestamp reinterpreted as signed; `valid`
      true exactly when the record's `valid` is non-zero; FPGA fields zero. */
  lemma GatewayOfFields(q: Quote)
    requires |q.symbol| == SYMBOL_LEN
    ensures var g := GatewayOf(q);
      && |g.symbol| == SYMBOL_MAX_LEN && g.symbol[..SYMBOL_LEN] == q.symbol
      && (forall k :: SYMBOL_LEN <= k < SYMBOL_MAX_LEN - 1 ==> g.symbol[k] == SPACE)
      && g.symbol[SYMBOL_MAX_LEN - 1] == NUL
      && g.bidPrice == q.bidPrice && g.askPrice == q.askPrice && g.spread == q.spread
      && g.bidShares == q.bidShares && g.askShares == q.askShares
      && (g.timestampNs + TWO_64) % TWO_64 == q.timestampNs
      && (g.valid <==> q.valid != 0)
      && g.fpgaTsT1 == 0 && g.fpgaTsT2 == 0 && g.fpgaTsT3 == 0 && g.fpgaTsT4 == 0
      && g.fpgaLatencyA == 0 && g.fpgaLatencyB == 0 && g.fpgaLatency == 0
      && g.fpgaRxTimestamp == 0 && g.fpgaTxTimestamp == 0
  {
    assert GatewayOf(q).symbol[..SYMBOL_LEN] == q.symbol;
  }

  // ---- The warm-up path ----

  /** The record a dummy frame decodes to. */
  function WarmupRecord(tsNs: U64, sequence: U32): Quote
  {
    Quote(WarmupSymbol(), WARMUP_PRICE, WARMUP_PRICE, WARMUP_SHARES, WARMUP_SHARES, WARMUP_SPREAD,
          tsNs, sequence, 1, HAS_FPGA_TIMESTAMPS)
  }

  /** The dummy payload decodes with the extended-timing flag; it is stored
      and offered to the sink. */
  lemma WarmupDelivery(v: RxView, cfg: Config, tsNs: U64, accepts: nat -> bool)
    requires |v.slots| == RX_POOL_SIZE
    ensures var r := DeliverStep(v, cfg, WarmupPayload(), BBO_SIZE, tsNs, accepts);
      && r.slots == v.slots[v.head % RX_POOL_SIZE := WarmupRecord(tsNs, v.sequence)]
      && r.attempts == v.attempts + [GatewayOf(WarmupRecord(tsNs, v.sequence))]
      && r.sequence == Inc32(v.sequence) && r.head == Inc32(v.head)
      && r.stats.parseErrors == v.stats.parseErrors
      && r.stats.received == Bump(cfg.enableStats, v.stats.received)
      && r.stats.processed == Bump(cfg.enableStats, v.stats.processed)
  {
    DecodedQuoteOfEncoded(WarmupQuote(), Zeros(BBO_SIZE - BBO_MIN_SIZE), BBO_SIZE, tsNs, v.sequence);
  }

  /** A dummy frame runs the whole packet path: accepted, decoded with the
      extended-timing flag, stored and offered to the sink. */
  lemma SyntheticFrameDecodes(v: RxView, cfg: Config, tsNs: U64, accepts: nat -> bool)
    requires |v.slots| == RX_POOL_SIZE
    ensures FrameReadable(SyntheticFrame(cfg.udpPort), cfg.udpPort)
    ensures var r := PacketStep(v, cfg, SyntheticFrame(cfg.udpPort), tsNs, accepts);
      && r.slots == v.slots[v.head % RX_POOL_SIZE := WarmupRecord(tsNs, v.sequence)]
      && r.attempts == v.attempts + [GatewayOf(WarmupRecord(tsNs, v.sequence))]
      && r.sequence == Inc32(v.sequence) && r.head == Inc32(v.head)
  {
    SyntheticFrameDelivers(v, cfg, tsNs, accepts);
    WarmupDelivery(v, cfg, tsNs, accepts);
  }

  /** How many dummy frames were created. */
  function Allocations(outcomes: seq<MbufOutcome>): (n: nat)
    ensures n <= |outcomes|
  {
    if outcomes == [] then 0
    else Allocations(outcomes[..|outcomes| - 1]) + (if outcomes[|outcomes| - 1] == Allocated then 1 else 0)
  }

  /** After `warm_dpdk_path`: each created frame consumed one sequence number
      and one pool slot and made one offer, after the earlier ones, and every
      such offer carries the WARMUP symbol. */
  lemma {:induction false} WarmPathEffect(v: RxView, cfg: Config, cyclesToNs: U64 -> U64, outcomes: seq<MbufOutcome>,
                                          tscs: seq<U64>, accepts: nat -> bool)
    requires |outcomes| == |tscs| && |v.slots| == RX_POOL_SIZE
    ensures var r := WarmSteps(v, cfg, cyclesToNs, outcomes, tscs, accepts);
      var n := Allocations(outcomes);
      && r.sequence == HeadAfter(v.sequence, n)
      && r.head == HeadAfter(v.head, n)
      && |r.attempts| == |v.attempts| + n
      && r.attempts[..|v.attempts|] == v.attempts
      && (forall i :: |v.attempts| <= i < |r.attempts| ==> r.attempts[i].symbol == GatewaySymbol(WarmupSymbol()))
  {
    if outcomes != [] {
      var k := |outcomes| - 1;
      var prev := WarmSteps(v, cfg, cyclesToNs, outcomes[..k], tscs[..k], accepts);
      var r := WarmSteps(v, cfg, cyclesToNs, outcomes, tscs, accepts);
      WarmPathEffect(v, cfg, cyclesToNs, outcomes[..k], tscs[..k], accepts);
      var m := Allocations(outcomes[..k]);
      if outcomes[k] == Allocated {
        assert r == DeliverStep(prev, cfg, WarmupPayload(), BBO_SIZE, cyclesToNs(tscs[k]), accepts);
        WarmupDelivery(prev, cfg, cyclesToNs(tscs[k]), accepts);
        HeadAfterStep(v.sequence, m);
        HeadAfterStep(v.head, m);
        assert r.attempts[..|v.attempts|] == prev.attempts[..|v.attempts|];
        forall i | |v.attempts| <= i < |r.attempts|
          ensures r.attempts[i].symbol == GatewaySymbol(WarmupSymbol())
        {
          if i < |prev.attempts| {
            assert r.attempts[i] == prev.attempts[i];
          }
        }
      }
    }
  }

  /** The counters after delivering a payload long enough to decode. */
  lemma DecodableDeliveryStats(v: RxView, cfg: Config, payload: seq<Byte>, len: nat, tsNs: U64, accepts: nat -> bool)
    requires len >= BBO_MIN_SIZE && |payload| >= BBO_MIN_SIZE && |v.slots| == RX_POOL_SIZE
    ensures var r := DeliverStep(v, cfg, payload, len, tsNs, accepts);
      && r.stats.parseErrors == v.stats.parseErrors
      && r.stats.received == Bump(cfg.enableStats, v.stats.received)
      && r.stats.processed == Bump(cfg.enableStats, v.stats.processed)
  {
  }

  /** The warm-up path never counts a parse error; with statistics on, each
      created frame is counted received and processed. */
  lemma {:induction false} WarmPathStats(v: RxView, cfg: Config, cyclesToNs: U64 -> U64, outcomes: seq<MbufOutcome>,
                                         tscs: seq<U64>, accepts: nat -> bool)
    requires |outcomes| == |tscs| && |v.slots| == RX_POOL_SIZE
    ensures var r := WarmSteps(v, cfg, cyclesToNs, outcomes, tscs, accepts);
      var n := Allocations(outcomes);
      && r.stats.parseErrors == v.stats.parseErrors
      && (cfg.enableStats ==>
            r.stats.received == (v.stats.received + n) % TWO_64 && r.stats.processed == (v.stats.processed + n) % TWO_64)
  {
    if outcomes != [] {
      var k := |outcomes| - 1;
      var prev := WarmSteps(v, cfg, cyclesToNs, outcomes[..k], tscs[..k], accepts);
      var r := WarmSteps(v, cfg, cyclesToNs, outcomes, tscs, accepts);
      WarmPathStats(v, cfg, cyclesToNs, outcomes[..k], tscs[..k], accepts);
      var m := Allocations(outcomes[..k]);
      if outcomes[k] == Allocated {
        DecodableDeliveryStats(prev, cfg, WarmupPayload(), BBO_SIZE, cyclesToNs(tscs[k]), accepts);
        Wrap64Step(v.stats.received, m);
        Wrap64Step(v.stats.processed, m);
      }
    }
  }

  // ---- The end-to-end scenario ----

  function IbmQuote(): (w: WireQuote)
    ensures |w.symbol| == SYMBOL_LEN
  {
    WireQuote(Ascii("IBM     "), 1500000, 100, 1501000, 200, 1000)
  }

  /** The IBM record's symbol reads back as "IBM". */
  lemma IbmSymbolTrims()
    ensures TrimmedSymbol(IbmQuote().symbol) == Ascii("IBM")
  {
    var s := IbmQuote().symbol;
    assert s == [73, 66, 77, 32, 32, 32, 32, 32];
    assert s[..3] == Ascii("IBM");
    TrimmedSymbolUnique(s, Ascii("IBM"));
  }

  /** A well-formed datagram to the configured port carrying exactly one
      28-byte quote: every field lands in the next slot, without the
      extended-timing flag, and the record is offered once. */
  lemma QuoteDatagramDelivered(v: RxView, cfg: Config, w: WireQuote, tsNs: U64, accepts: nat -> bool)
    requires |w.symbol| == SYMBOL_LEN && |v.slots| == RX_POOL_SIZE
    ensures FrameReadable(UdpFrame(cfg.udpPort, EncodeWire(w)), cfg.udpPort)
    ensures var q := Quote(w.symbol, w.bidRaw, w.askRaw, w.bidShares, w.askShares, w.spreadRaw,
                           tsNs, v.sequence, 1, 0);
      var r := PacketStep(v, cfg, UdpFrame(cfg.udpPort, EncodeWire(w)), tsNs, accepts);
      && r.slots == v.slots[v.head % RX_POOL_SIZE := q]
      && r.attempts == v.attempts + [GatewayOf(q)]
      && r.sequence == Inc32(v.sequence) && r.head == Inc32(v.head)
  {
    var payload := EncodeWire(w);
    ClassifyUdpFrame(cfg.udpPort, payload, cfg.udpPort);
    assert payload + [] == payload;
    DecodedQuoteOfEncoded(w, [], BBO_MIN_SIZE, tsNs, v.sequence);
  }

  /** A 28-byte IBM quote received at 1000 ns: stored as bid 1500000, ask
      1501000 and spread 1000 ten-thousandths, 100 and 200 shares, `valid = 1`,
      no extended-timing flag, timestamp 1000; exactly one offer is made. */
  lemma IbmScenario(v: RxView, cfg: Config, w: WireQuote, accepts: nat -> bool)
    requires w == IbmQuote() && |v.slots| == RX_POOL_SIZE
    ensures FrameReadable(UdpFrame(cfg.udpPort, EncodeWire(w)), cfg.udpPort)
    ensures var r := PacketStep(v, cfg, UdpFrame(cfg.udpPort, EncodeWire(w)), 1000, accepts);
      var q := Quote(Ascii("IBM     "), 1500000, 1501000, 100, 200, 1000, 1000, v.sequence, 1, 0);
      && r.slots[v.head % RX_POOL_SIZE] == q
      && r.attempts == v.attempts + [GatewayOf(q)]
  {
    QuoteDatagramDelivered(v, cfg, w, 1000, accepts);
  }

  // ---- Initialisation ----

  predicate AllSucceed(steps: seq<InitStep>, succeeds: InitStep -> bool)
  {
    forall k :: 0 <= k < |steps| ==> succeeds(steps[k])
  }

  /** `initialize` runs a prefix of the four steps; every step before the
      last one run succeeded; it runs all four exactly when none fails
      earlier, and otherwise stops at the failing one. */
  lemma {:induction false} RunUntilFailureShape(steps: seq<InitStep>, succeeds: InitStep -> bool)
    ensures var r := RunUntilFailure(steps, succeeds);
      && |r| <= |steps| && r == steps[..|r|]
      && (r != [] ==> AllSucceed(r[..|r| - 1], succeeds))
      && (AllSucceed(steps, succeeds) ==> r == steps)
      && (!AllSucceed(steps, succeeds) ==> |r| >= 1 && !succeeds(r[|r| - 1]))
  {
    if steps != [] && succeeds(steps[0]) {
      var tail := steps[1..];
      var rest := RunUntilFailure(tail, succeeds);
      RunUntilFailureShape(tail, succeeds);
      var r := [steps[0]] + rest;
      assert r == RunUntilFailure(steps, succeeds);
      assert steps == [steps[0]] + tail;
      assert r == steps[..|r|];
      if rest != [] {
        assert r[..|r| - 1] == [steps[0]] + rest[..|rest| - 1];
      }
      if AllSucceed(steps, succeeds) {
        assert AllSucceed(tail, succeeds) by {
          forall k | 0 <= k < |tail| ensures succeeds(tail[k]) {
            assert tail[k] == steps[k + 1];
          }
        }
      } else {
        assert !AllSucceed(tail, succeeds) by {
          var j :| 0 <= j < |steps| && !succeeds(steps[j]);
          assert tail[j - 1] == steps[j];
        }
        assert r[|r| - 1] == rest[|rest| - 1];
      }
    }
  }
}
