/** `DPDKReceiver`: the per-packet orchestration. A frame that passes the header
    filter consumes a sequence number and is decoded into a pool slot; a
    decoded record is converted to the gateway layout and offered once to the
    shared-memory sink. Five counters record what happened. */
module DpdkReceiver {

  import opened Wire
  import opened Bits
  import opened BboData
  import opened BboPool
  import opened BboParserFast
  import opened PacketHeaders

  /** The receiver owns a `BBOPool<1024>`. */
  const RX_POOL_SIZE: nat := 1024
  /** The pool size passes the pool's compile-time test. */
  lemma RxPoolSizeAccepted()
    ensures BitAnd(RX_POOL_SIZE, RX_POOL_SIZE - 1) == 0
  {
    assert Pow2(10) == RX_POOL_SIZE;
    Pow2IsPowerOfTwo(10);
    SingleBitTest(RX_POOL_SIZE);
  }

  /** `gateway::BBOData::SYMBOL_MAX_LEN`: the gateway symbol is 16 bytes. */
  const SYMBOL_MAX_LEN: nat := 16

  datatype Config = Config(
    portId: U16,
    queueId: U16,
    udpPort: U16,
    lcoreId: int,
    shmName: string,
    enableStats: bool)

  /** The five `std::atomic<uint64_t>` counters of `Stats`. */
  datatype Stats = Stats(
    received: U64,
    processed: U64,
    dropped: U64,
    parseErrors: U64,
    ringFull: U64)

  const ZERO_STATS: Stats := Stats(0, 0, 0, 0, 0)

  /** A counter `fetch_add(1)` taken only when `enabled`. */
  function Bump(enabled: bool, c: U64): U64
  {
    if enabled then Inc64(c) else c
  }

  /** `gateway::BBOData` as `convert_and_publish` fills it. The FPGA fields
      (four cycle markers, three latencies, two timestamps) are always zero. */
  datatype GatewayBBO = GatewayBBO(
    symbol: seq<Byte>,
    bidPrice: TenThousandths,
    askPrice: TenThousandths,
    bidShares: U32,
    askShares: U32,
    spread: TenThousandths,
    timestampNs: int,
    valid: bool,
    fpgaTsT1: int,
    fpgaTsT2: int,
    fpgaTsT3: int,
    fpgaTsT4: int,
    fpgaLatencyA: int,
    fpgaLatencyB: int,
    fpgaLatency: int,
    fpgaRxTimestamp: int,
    fpgaTxTimestamp: int)

  /** The 16-byte gateway symbol: the eight record bytes, seven spaces, NUL. */
  function GatewaySymbol(s: seq<Byte>): (r: seq<Byte>)
    requires |s| == SYMBOL_LEN
    ensures |r| == SYMBOL_MAX_LEN
  {
    s + Spaces(SYMBOL_MAX_LEN - SYMBOL_LEN - 1) + [NUL]
  }

  /** The gateway record built from a fast record. */
  function GatewayOf(q: Quote): (r: GatewayBBO)
    requires |q.symbol| == SYMBOL_LEN
    ensures |r.symbol| == SYMBOL_MAX_LEN && r.symbol[..SYMBOL_LEN] == q.symbol
    ensures r.valid <==> q.valid != 0
    ensures (r.timestampNs + TWO_64) % TWO_64 == q.timestampNs
  {
    GatewayBBO(GatewaySymbol(q.symbol), q.bidPrice, q.askPrice, q.bidShares, q.askShares,
               q.spread, AsInt64(q.timestampNs), q.valid != 0, 0, 0, 0, 0, 0, 0, 0, 0, 0)
  }

  /** The shared-memory ring as the receiver sees it: `try_publish` either
      takes the record or reports it full. Whether the n-th offer is taken is
      the fixed oracle `accepts(n)` (the consumer side is not modelled); every
      offer is logged. */
  class PublishSink {
    const accepts: nat -> bool
    var attempts: seq<GatewayBBO>

    constructor (accepts: nat -> bool)
      ensures this.accepts == accepts && attempts == []
    {
      this.accepts := accepts;
      attempts := [];
    }

    /** `try_publish(bbo)`. */
    method TryPublish(g: GatewayBBO) returns (ok: bool)
      modifies this`attempts
      ensures attempts == old(attempts) + [g]
      ensures ok == accepts(|old(attempts)|)
    {
      ok := accepts(|attempts|);
      attempts := attempts + [g];
    }
  }

  /** What the packet path can change: the counters, the sequence number, the
      pool cursor and slots, and the offers made to the sink. */
  datatype RxView = RxView(
    stats: Stats,
    sequence: U32,
    head: U32,
    slots: seq<Quote>,
    attempts: seq<GatewayBBO>)

  /** The part of `process_packet` after the header filter accepted a
      datagram: count it, consume a sequence number, decode the payload and,
      for a decoded record, publish it and count it processed; otherwise
      count a parse error. */
  function DeliverStep(v: RxView, cfg: Config, payload: seq<Byte>, len: nat, tsNs: U64,
                       accepts: nat -> bool): (r: RxView)
    requires len < BBO_MIN_SIZE || |payload| >= BBO_MIN_SIZE
    requires |v.slots| == RX_POOL_SIZE
    ensures |r.slots| == RX_POOL_SIZE
  {
    var en := cfg.enableStats;
    var received := Bump(en, v.stats.received);
    if len < BBO_MIN_SIZE then
      v.(stats := v.stats.(received := received, parseErrors := Bump(en, v.stats.parseErrors)),
         sequence := Inc32(v.sequence))
    else
      var q := DecodedQuote(payload, len, tsNs, v.sequence);
      var ok := accepts(|v.attempts|);
      RxView(v.stats.(received := received,
                      ringFull := Bump(en && !ok, v.stats.ringFull),
                      processed := Bump(en, v.stats.processed)),
             Inc32(v.sequence), Inc32(v.head),
             v.slots[v.head % RX_POOL_SIZE := q],
             v.attempts + [GatewayOf(q)])
  }

  /** `process_packet` on one frame, given the converted reception time and
      the sink's oracle: a frame the filter turns away changes nothing. */
  function PacketStep(v: RxView, cfg: Config, frame: seq<Byte>, tsNs: U64, accepts: nat -> bool): (r: RxView)
    requires FrameReadable(frame, cfg.udpPort) && |v.slots| == RX_POOL_SIZE
    ensures |r.slots| == RX_POOL_SIZE
  {
    var verdict := Classify(frame, cfg.udpPort);
    if !verdict.Accepted? then v
    else DeliverStep(v, cfg, PayloadFrom(frame, verdict.payloadOffset), verdict.payloadLen, tsNs, accepts)
  }

  /** `process_packet` on every frame of a burst, in index order; frame `i`
      is stamped `cyclesToNs(tscs[i])`. */
  function Steps(v: RxView, cfg: Config, cyclesToNs: U64 -> U64, frames: seq<seq<Byte>>,
                 tscs: seq<U64>, accepts: nat -> bool): (r: RxView)
    requires |frames| == |tscs| && |v.slots| == RX_POOL_SIZE
    requires forall i :: 0 <= i < |frames| ==> FrameReadable(frames[i], cfg.udpPort)
    ensures |r.slots| == RX_POOL_SIZE
  {
    if frames == [] then v
    else
      var n := |frames| - 1;
      PacketStep(Steps(v, cfg, cyclesToNs, frames[..n], tscs[..n], accepts), cfg,
                 frames[n], cyclesToNs(tscs[n]), accepts)
  }

  // The synthetic warm-up frame of `create_dummy_packet`.

  /** Payload size of the dummy frame: the full form with timestamp room. */
  const BBO_SIZE: nat := 44
  const TOTAL_SIZE: nat := ETH_SIZE + IP_SIZE + UDP_SIZE + BBO_SIZE
  const WARMUP_PRICE: U32 := 1500000
  const WARMUP_SHARES: U32 := 100
  const WARMUP_SPREAD: U32 := 1000

  function WarmupSymbol(): (r: seq<Byte>)
    ensures |r| == SYMBOL_LEN
  {
    Ascii("WARMUP  ")
  }

  /** The quote written into the dummy payload: $150.00 both sides, 100
      shares both sides, a $0.10 spread. */
  function WarmupQuote(): (w: WireQuote)
    ensures |w.symbol| == SYMBOL_LEN
  {
    WireQuote(WarmupSymbol(), WARMUP_PRICE, WARMUP_SHARES, WARMUP_PRICE, WARMUP_SHARES, WARMUP_SPREAD)
  }

  /** The 44 payload bytes: the quote, then 16 zero timestamp bytes. */
  function WarmupPayload(): (r: seq<Byte>)
    ensures |r| == BBO_SIZE
  {
    EncodeWire(WarmupQuote()) + Zeros(BBO_SIZE - BBO_MIN_SIZE)
  }

  /** The 86-byte frame to the configured port. */
  function SyntheticFrame(udpPort: U16): (r: seq<Byte>)
    ensures |r| == TOTAL_SIZE
  {
    UdpFrame(udpPort, WarmupPayload())
  }

  /** The dummy frame passes the filter of its own receiver with a 44-byte
      payload at offset 42, and decodes with the timestamp flag set. */
  lemma SyntheticFrameAccepted(udpPort: U16)
    ensures FrameReadable(SyntheticFrame(udpPort), udpPort)
    ensures Classify(SyntheticFrame(udpPort), udpPort) == Accepted(ETH_SIZE + IP_SIZE + UDP_SIZE, BBO_SIZE)
    ensures PayloadFrom(SyntheticFrame(udpPort), ETH_SIZE + IP_SIZE + UDP_SIZE) == WarmupPayload()
  {
    ClassifyUdpFrame(udpPort, WarmupPayload(), udpPort);
  }

  /** `process_packet` on the dummy frame is the delivery of the dummy
      payload. */
  lemma SyntheticFrameDelivers(v: RxView, cfg: Config, tsNs: U64, accepts: nat -> bool)
    requires |v.slots| == RX_POOL_SIZE
    ensures FrameReadable(SyntheticFrame(cfg.udpPort), cfg.udpPort)
    ensures PacketStep(v, cfg, SyntheticFrame(cfg.udpPort), tsNs, accepts)
         == DeliverStep(v, cfg, WarmupPayload(), BBO_SIZE, tsNs, accepts)
  {
    SyntheticFrameAccepted(cfg.udpPort);
  }

  /** The three headers of the dummy frame. */
  function SyntheticHeaders(udpPort: U16): (r: seq<Byte>)
    ensures |r| == ETH_SIZE + IP_SIZE + UDP_SIZE
  {
    EthHeader() + Ipv4Header(IP_SIZE + UDP_SIZE + BBO_SIZE) + UdpHeader(udpPort, UDP_SIZE + BBO_SIZE)
  }

  /** An 86-byte frame made of the dummy headers and the dummy payload is
      the dummy frame. */
  lemma SyntheticFrameOfParts(f: seq<Byte>, udpPort: U16)
    requires |f| == TOTAL_SIZE
    requires f[..ETH_SIZE + IP_SIZE + UDP_SIZE] == SyntheticHeaders(udpPort)
    requires f[ETH_SIZE + IP_SIZE + UDP_SIZE..] == WarmupPayload()
    ensures f == SyntheticFrame(udpPort)
  {
    var b := ETH_SIZE + IP_SIZE + UDP_SIZE;
    assert f == f[..b] + f[b..];
  }

  /** `memcpy(data + off, bytes, |bytes|)`. */
  method CopyInto(data: array<Byte>, off: nat, bytes: seq<Byte>)
    requires off + |bytes| <= data.Length
    modifies data
    ensures data[off..off + |bytes|] == bytes
    ensures forall k :: 0 <= k < data.Length && !(off <= k < off + |bytes|) ==> data[k] == old(data[k])
  {
    forall k | 0 <= k < |bytes| {
      data[off + k] := bytes[k];
    }
  }

  /** The header stores of `create_dummy_packet` into the zeroed buffer:
      EtherType, then `version_ihl`, `total_length` and `next_proto_id`, then
      `dst_port` and `dgram_len`. */
  method WriteHeaders(data: array<Byte>, udpPort: U16)
    requires data.Length == TOTAL_SIZE
    requires forall k :: 0 <= k < ETH_SIZE + IP_SIZE + UDP_SIZE ==> data[k] == 0
    modifies data
    ensures data[..ETH_SIZE + IP_SIZE + UDP_SIZE] == SyntheticHeaders(udpPort)
    ensures forall k :: ETH_SIZE + IP_SIZE + UDP_SIZE <= k < TOTAL_SIZE ==> data[k] == old(data[k])
  {
    var ip, udp := ETH_SIZE, ETH_SIZE + IP_SIZE;
    WriteEth(data);
    WriteIpv4(data, ip, IP_SIZE + UDP_SIZE + BBO_SIZE);
    WriteUdp(data, udp, udpPort, UDP_SIZE + BBO_SIZE);
    assert data[..udp + UDP_SIZE] == data[..ip] + data[ip..udp] + data[udp..udp + UDP_SIZE];
  }

  /** `eth->ether_type = rte_cpu_to_be_16(RTE_ETHER_TYPE_IPV4)`. */
  method WriteEth(data: array<Byte>)
    requires ETH_SIZE <= data.Length
    requires forall k :: 0 <= k < ETH_SIZE ==> data[k] == 0
    modifies data
    ensures data[..ETH_SIZE] == EthHeader()
    ensures forall k :: ETH_SIZE <= k < data.Length ==> data[k] == old(data[k])
  {
    ZerosFollow(data[..], 0, [], ETHER_TYPE_OFFSET);
    Put(data, 0, ETHER_TYPE_OFFSET, Zeros(ETHER_TYPE_OFFSET), Be16Bytes(RTE_ETHER_TYPE_IPV4));
  }

  /** `version_ihl = 0x45`, `total_length` in network order and
      `next_proto_id = IPPROTO_UDP` of the IPv4 header at `off`. */
  method WriteIpv4(data: array<Byte>, off: nat, totalLength: U16)
    requires off + IP_SIZE <= data.Length
    requires forall k :: off <= k < off + IP_SIZE ==> data[k] == 0
    modifies data
    ensures data[off..off + IP_SIZE] == Ipv4Header(totalLength)
    ensures forall k :: 0 <= k < data.Length && !(off <= k < off + IP_SIZE) ==> data[k] == old(data[k])
  {
    Put(data, off, off, [], [0x45]);
    ghost var done: seq<Byte> := [0x45];
    ZerosFollow(data[..], off, done, 1);
    done := done + Zeros(1);
    Put(data, off, off + 2, done, Be16Bytes(totalLength));
    done := done + Be16Bytes(totalLength);
    ZerosFollow(data[..], off, done, 5);
    done := done + Zeros(5);
    Put(data, off, off + 9, done, [IPPROTO_UDP]);
    done := done + [IPPROTO_UDP];
    ZerosFollow(data[..], off, done, 10);
  }

  /** `dst_port` and `dgram_len` in network order of the UDP header at `off`. */
  method WriteUdp(data: array<Byte>, off: nat, dstPort: U16, dgramLen: U16)
    requires off + UDP_SIZE <= data.Length
    requires forall k :: off <= k < off + UDP_SIZE ==> data[k] == 0
    modifies data
    ensures data[off..off + UDP_SIZE] == UdpHeader(dstPort, dgramLen)
    ensures forall k :: 0 <= k < data.Length && !(off <= k < off + UDP_SIZE) ==> data[k] == old(data[k])
  {
    ZerosFollow(data[..], off, [], 2);
    ghost var done: seq<Byte> := Zeros(2);
    Put(data, off, off + UDP_DST_PORT_OFFSET, done, Be16Bytes(dstPort));
    done := done + Be16Bytes(dstPort);
    Put(data, off, off + UDP_DGRAM_LEN_OFFSET, done, Be16Bytes(dgramLen));
    done := done + Be16Bytes(dgramLen);
    ZerosFollow(data[..], off, done, 2);
  }

  /** Store `bytes` at `at`, just after the `sofar` bytes already in place
      from `off`. */
  method Put(data: array<Byte>, off: nat, at: nat, ghost sofar: seq<Byte>, bytes: seq<Byte>)
    requires at == off + |sofar| && at + |bytes| <= data.Length && data[off..at] == sofar
    modifies data
    ensures data[off..at + |bytes|] == sofar + bytes
    ensures forall k :: 0 <= k < data.Length && !(at <= k < at + |bytes|) ==> data[k] == old(data[k])
  {
    CopyInto(data, at, bytes);
    assert data[off..at] == old(data[off..at]);
    assert data[off..at + |bytes|] == data[off..at] + data[at..at + |bytes|];
  }

  /** Bytes still zero just after the `sofar` bytes in place at `off` extend
      them by zeros. */
  lemma ZerosFollow(d: seq<Byte>, off: nat, sofar: seq<Byte>, n: nat)
    requires off + |sofar| + n <= |d| && d[off..off + |sofar|] == sofar
    requires forall k :: off + |sofar| <= k < off + |sofar| + n ==> d[k] == 0
    ensures d[off..off + |sofar| + n] == sofar + Zeros(n)
  {
    var at := off + |sofar|;
    assert d[off..at + n] == d[off..at] + d[at..at + n];
    assert d[at..at + n] == Zeros(n);
  }

  /** The stores of one quote at `off`: the symbol, then the byte-swapped
      price, shares and spread words. */
  method WriteQuote(data: array<Byte>, off: nat, w: WireQuote)
    requires |w.symbol| == SYMBOL_LEN && off + BBO_MIN_SIZE <= data.Length
    modifies data
    ensures data[off..off + BBO_MIN_SIZE] == EncodeWire(w)
    ensures forall k :: 0 <= k < data.Length && !(off <= k < off + BBO_MIN_SIZE) ==> data[k] == old(data[k])
  {
    Put(data, off, off + SYMBOL_OFFSET, [], w.symbol);
    ghost var done := w.symbol;
    Put(data, off, off + BID_PRICE_OFFSET, done, Be32Bytes(w.bidRaw));
    done := done + Be32Bytes(w.bidRaw);
    Put(data, off, off + BID_SHARES_OFFSET, done, Be32Bytes(w.bidShares));
    done := done + Be32Bytes(w.bidShares);
    Put(data, off, off + ASK_PRICE_OFFSET, done, Be32Bytes(w.askRaw));
    done := done + Be32Bytes(w.askRaw);
    Put(data, off, off + ASK_SHARES_OFFSET, done, Be32Bytes(w.askShares));
    done := done + Be32Bytes(w.askShares);
    Put(data, off, off + SPREAD_OFFSET, done, Be32Bytes(w.spreadRaw));
  }

  /** The payload stores of `create_dummy_packet`: the warm-up quote, with
      the timestamp bytes left zero. */
  method WritePayload(data: array<Byte>)
    requires data.Length == TOTAL_SIZE
    requires forall k :: ETH_SIZE + IP_SIZE + UDP_SIZE <= k < TOTAL_SIZE ==> data[k] == 0
    modifies data
    ensures data[ETH_SIZE + IP_SIZE + UDP_SIZE..] == WarmupPayload()
    ensures forall k :: 0 <= k < ETH_SIZE + IP_SIZE + UDP_SIZE ==> data[k] == old(data[k])
  {
    var bbo := ETH_SIZE + IP_SIZE + UDP_SIZE;
    WriteQuote(data, bbo, WarmupQuote());
    assert data[bbo + BBO_MIN_SIZE..] == Zeros(BBO_SIZE - BBO_MIN_SIZE);
    assert data[bbo..] == data[bbo..bbo + BBO_MIN_SIZE] + data[bbo + BBO_MIN_SIZE..];
  }

  /** How `rte_pktmbuf_alloc` and `rte_pktmbuf_append` turn out for one dummy frame. */
  datatype MbufOutcome = AllocFailed | AppendFailed | Allocated

  /** `warm_dpdk_path` over the given mbuf outcomes: a frame is processed only
      when its creation succeeded, and then passes the filter, so what
      remains of `process_packet` is the delivery of its payload
      (SyntheticFrameDelivers). */
  function WarmSteps(v: RxView, cfg: Config, cyclesToNs: U64 -> U64, outcomes: seq<MbufOutcome>,
                     tscs: seq<U64>, accepts: nat -> bool): (r: RxView)
    requires |outcomes| == |tscs| && |v.slots| == RX_POOL_SIZE
    ensures |r.slots| == RX_POOL_SIZE
  {
    if outcomes == [] then v
    else
      var n := |outcomes| - 1;
      var prev := WarmSteps(v, cfg, cyclesToNs, outcomes[..n], tscs[..n], accepts);
      if outcomes[n] == Allocated then DeliverStep(prev, cfg, WarmupPayload(), BBO_SIZE, cyclesToNs(tscs[n]), accepts)
      else prev
  }

  // The step ordering of `initialize`.

  datatype InitStep = InitEal | InitMempool | InitPort | InitSharedMemory

  const INIT_ORDER: seq<InitStep> := [InitEal, InitMempool, InitPort, InitSharedMemory]

  /** The steps run from `steps` on, in order, up to and including the first
      that fails. */
  function RunUntilFailure(steps: seq<InitStep>, succeeds: InitStep -> bool): (r: seq<InitStep>)
    ensures |r| <= |steps| && r == steps[..|r|]
    ensures steps != [] ==> r != []
  {
    if steps == [] then []
    else if succeeds(steps[0]) then [steps[0]] + RunUntilFailure(steps[1..], succeeds)
    else [steps[0]]
  }

  class DPDKReceiver {
    const config: Config
    var stats: Stats
    /** `sequence_`. */
    var sequence: U32
    /** `bbo_pool_`. */
    const pool: BBOPool
    /** `ring_buffer_`. */
    const ring: PublishSink
    /** `tsc_.cycles_to_ns`: the calibrated conversion, left abstract. */
    const cyclesToNs: U64 -> U64
    /** `dpdk_initialized_`. */
    var dpdkInitialized: bool

    ghost predicate Valid()
      reads this, pool, pool.slots, pool.Repr
    {
      && pool.Valid() && pool.size == RX_POOL_SIZE
      && this !in pool.Repr && ring !in pool.Repr
    }

    ghost function View(): RxView
      reads this, pool, pool.slots, pool.Repr, ring
      requires Valid()
    {
      RxView(stats, sequence, pool.head, pool.Contents(), ring.attempts)
    }

    /** The receiver after its constructor and its pool's: zero counters,
      sequence 0, a cleared pool with cursor 0. The sink is the connected
      shared-memory ring. */
    constructor (config: Config, ring: PublishSink, cyclesToNs: U64 -> U64)
      ensures Valid() && fresh(pool) && fresh(pool.Repr)
      ensures this.config == config && this.ring == ring && this.cyclesToNs == cyclesToNs
      ensures stats == ZERO_STATS && sequence == 0 && !dpdkInitialized
      ensures pool.head == 0 && forall i :: 0 <= i < RX_POOL_SIZE ==> pool.Contents()[i] == CLEARED
    {
      RxPoolSizeAccepted();
      this.config := config;
      this.ring := ring;
      this.cyclesToNs := cyclesToNs;
      stats := ZERO_STATS;
      sequence := 0;
      dpdkInitialized := false;
      pool := new BBOPool(RX_POOL_SIZE);
    }

    /** `convert_and_publish(fast)`: build the gateway record, offer it to the
      sink exactly once, and count a refusal in `ringFull`. */
    method ConvertAndPublish(fast: BBODataFast)
      requires fast.Valid()
      modifies this`stats, ring`attempts
      ensures ring.attempts == old(ring.attempts) + [GatewayOf(fast.Value())]
      ensures stats == old(stats).(ringFull := Bump(config.enableStats && !ring.accepts(|old(ring.attempts)|), old(stats.ringFull)))
    {
      var symbol := new Byte[SYMBOL_MAX_LEN];
      forall i | 0 <= i < SYMBOL_LEN {
        symbol[i] := fast.symbol[i];
      }
      var i := SYMBOL_LEN;
      while i < SYMBOL_MAX_LEN
        modifies symbol
        invariant SYMBOL_LEN <= i <= SYMBOL_MAX_LEN
        invariant forall k :: 0 <= k < SYMBOL_LEN ==> symbol[k] == fast.symbol[k]
        invariant forall k :: SYMBOL_LEN <= k < i ==> symbol[k] == SPACE
      {
        symbol[i] := SPACE;
        i := i + 1;
      }
      symbol[SYMBOL_MAX_LEN - 1] := NUL;
      assert symbol[..] == GatewaySymbol(fast.symbol[..]);
      var bbo := GatewayBBO(symbol[..], fast.bidPrice, fast.askPrice, fast.bidShares, fast.askShares,
                            fast.spread, AsInt64(fast.timestampNs), fast.valid != 0,
                            0, 0, 0, 0, 0, 0, 0, 0, 0);
      assert bbo == GatewayOf(fast.Value());
      var ok := ring.TryPublish(bbo);
      if !ok {
        if config.enableStats {
          stats := stats.(ringFull := Inc64(stats.ringFull));
        }
      }
    }

    /** `process_packet(pkt)` on a frame whose first rdtsc reading is `tsc`. */
    method ProcessPacket(frame: seq<Byte>, tsc: U64)
      requires Valid() && FrameReadable(frame, config.udpPort)
      modifies this`stats, this`sequence, pool`head, pool.Repr, ring`attempts
      ensures Valid()
      ensures View() == PacketStep(old(View()), config, frame, cyclesToNs(tsc), ring.accepts)
    {
      if Be16(frame, ETHER_TYPE_OFFSET) != RTE_ETHER_TYPE_IPV4 {
        return;
      }
      if frame[IP_PROTO_OFFSET] != IPPROTO_UDP {
        return;
      }
      MaskIsMod(frame[VERSION_IHL_OFFSET], 16);
      var ihl := BitAnd(frame[VERSION_IHL_OFFSET], 0x0F) * 4;
      var udp := ETH_SIZE + ihl;
      if Be16(frame, udp + UDP_DST_PORT_OFFSET) != config.udpPort {
        return;
      }
      var payload := udp + UDP_SIZE;
      var payloadLen := PayloadLen(Be16(frame, udp + UDP_DGRAM_LEN_OFFSET));
      assert Classify(frame, config.udpPort) == Accepted(payload, payloadLen);
      ProcessPayload(PayloadFrom(frame, payload), payloadLen, tsc);
    }

    /** Lines 191-214 of `process_packet`: the counters, the sequence number,
      the decode into the pool and the publish, for an accepted datagram. */
    method ProcessPayload(payload: seq<Byte>, payloadLen: nat, tsc: U64)
      requires Valid() && (payloadLen < BBO_MIN_SIZE || |payload| >= BBO_MIN_SIZE)
      modifies this`stats, this`sequence, pool`head, pool.Repr, ring`attempts
      ensures Valid()
      ensures View() == DeliverStep(old(View()), config, payload, payloadLen, cyclesToNs(tsc), ring.accepts)
    {
      if config.enableStats {
        stats := stats.(received := Inc64(stats.received));
      }
      var tsNs := cyclesToNs(tsc);
      var seqNo := sequence;
      sequence := Inc32(sequence);
      DecodeAndPublish(payload, payloadLen, tsNs, seqNo);
    }

    /** Lines 200-214 of `process_packet`: decode into the pool, then either
      publish and count the record processed, or count a parse error. */
    method DecodeAndPublish(payload: seq<Byte>, payloadLen: nat, tsNs: U64, seqNo: U32)
      requires Valid() && (payloadLen < BBO_MIN_SIZE || |payload| >= BBO_MIN_SIZE)
      modifies this`stats, pool`head, pool.Repr, ring`attempts
      ensures Valid()
      ensures var en := config.enableStats;
        if payloadLen < BBO_MIN_SIZE then
          && stats == old(stats).(parseErrors := Bump(en, old(stats.parseErrors)))
          && pool.head == old(pool.head) && pool.Contents() == old(pool.Contents())
          && ring.attempts == old(ring.attempts)
        else
          var q := DecodedQuote(payload, payloadLen, tsNs, seqNo);
          && stats == old(stats).(ringFull := Bump(en && !ring.accepts(|old(ring.attempts)|), old(stats.ringFull)),
                                  processed := Bump(en, old(stats.processed)))
          && pool.head == Inc32(old(pool.head))
          && pool.Contents() == old(pool.Contents())[old(pool.head) % RX_POOL_SIZE := q]
          && ring.attempts == old(ring.attempts) + [GatewayOf(q)]
    {
      var bbo := Parse(payload, payloadLen, pool, tsNs, seqNo);
      if bbo != null {
        ghost var parsed := pool.Contents();
        PublishDecoded(bbo);
        assert pool.Contents() == parsed;
      } else {
        if config.enableStats {
          stats := stats.(parseErrors := Inc64(stats.parseErrors));
        }
      }
    }

    /** Lines 205-210 of `process_packet`: publish a decoded record and count
      it processed, whether or not the sink took it. */
    method PublishDecoded(bbo: BBODataFast)
      requires Valid() && bbo.Valid()
      modifies this`stats, ring`attempts
      ensures Valid()
      ensures ring.attempts == old(ring.attempts) + [GatewayOf(bbo.Value())]
      ensures stats == old(stats).(ringFull := Bump(config.enableStats && !ring.accepts(|old(ring.attempts)|), old(stats.ringFull)),
                                   processed := Bump(config.enableStats, old(stats.processed)))
    {
      ConvertAndPublish(bbo);
      if config.enableStats {
        stats := stats.(processed := Inc64(stats.processed));
      }
    }

    /** `process_burst(pkts, count)`: each frame once, in index order (the
      prefetches and the mbuf frees have no observable effect here). */
    method ProcessBurst(frames: seq<seq<Byte>>, tscs: seq<U64>)
      requires Valid() && |frames| == |tscs| && |frames| < TWO_16
      requires forall i :: 0 <= i < |frames| ==> FrameReadable(frames[i], config.udpPort)
      modifies this`stats, this`sequence, pool`head, pool.Repr, ring`attempts
      ensures Valid()
      ensures View() == Steps(old(View()), config, cyclesToNs, frames, tscs, ring.accepts)
    {
      var i := 0;
      while i < |frames|
        invariant 0 <= i <= |frames| && Valid()
        invariant View() == Steps(old(View()), config, cyclesToNs, frames[..i], tscs[..i], ring.accepts)
      {
        ProcessPacket(frames[i], tscs[i]);
        assert frames[..i + 1][..i] == frames[..i] && tscs[..i + 1][..i] == tscs[..i];
        i := i + 1;
      }
      assert frames[..i] == frames && tscs[..i] == tscs;
    }

    /** `create_dummy_packet()`: no frame when the mbuf cannot be allocated
      or extended, otherwise the zero-filled 86-byte frame with the header
      fields and the synthetic quote written in. */
    method CreateDummyPacket(mbuf: MbufOutcome) returns (pkt: Option<seq<Byte>>)
      ensures mbuf == Allocated ==> pkt == Some(SyntheticFrame(config.udpPort))
      ensures mbuf != Allocated ==> pkt == None
    {
      if mbuf == AllocFailed {
        return None;
      }
      if mbuf == AppendFailed {
        return None;
      }
      var data := new Byte[TOTAL_SIZE](_ => 0);
      WriteHeaders(data, config.udpPort);
      WritePayload(data);
      assert data[..ETH_SIZE + IP_SIZE + UDP_SIZE] == SyntheticHeaders(config.udpPort);
      SyntheticFrameOfParts(data[..], config.udpPort);
      pkt := Some(data[..]);
    }

    /** One iteration of `warm_dpdk_path`: create a dummy frame and, when
      that succeeded, process it. */
    method WarmOne(mbuf: MbufOutcome, tsc: U64)
      requires Valid()
      modifies this`stats, this`sequence, pool`head, pool.Repr, ring`attempts
      ensures Valid()
      ensures View() == if mbuf == Allocated
                        then DeliverStep(old(View()), config, WarmupPayload(), BBO_SIZE, cyclesToNs(tsc), ring.accepts)
                        else old(View())
    {
      var dummy := CreateDummyPacket(mbuf);
      SyntheticFrameDelivers(View(), config, cyclesToNs(tsc), ring.accepts);
      if dummy.Some? {
        ProcessPacket(dummy.value, tsc);
      }
    }

    /** `warm_dpdk_path(count)`: `count` dummy frames (none when `count` is
      not positive); each one created is processed like a received frame. */
    method WarmDpdkPath(count: int, outcomes: seq<MbufOutcome>, tscs: seq<U64>)
      requires Valid() && count <= |outcomes| && count <= |tscs|
      modifies this`stats, this`sequence, pool`head, pool.Repr, ring`attempts
      ensures Valid()
      ensures var n := if count < 0 then 0 else count;
              View() == WarmSteps(old(View()), config, cyclesToNs, outcomes[..n], tscs[..n], ring.accepts)
    {
      var i := 0;
      while i < count
        invariant 0 <= i <= (if count < 0 then 0 else count) && Valid()
        invariant View() == WarmSteps(old(View()), config, cyclesToNs, outcomes[..i], tscs[..i], ring.accepts)
      {
        WarmOne(outcomes[i], tscs[i]);
        assert outcomes[..i + 1][..i] == outcomes[..i] && tscs[..i + 1][..i] == tscs[..i];
        i := i + 1;
      }
    }

    /** `warm_up(synthetic_packets)`: touch every pool slot and the time
      conversion, then run the dummy frames. Only the dummy frames change
      state. */
    method WarmUp(syntheticPackets: int, warmTsc: U64, outcomes: seq<MbufOutcome>, tscs: seq<U64>)
      requires Valid() && syntheticPackets <= |outcomes| && syntheticPackets <= |tscs|
      modifies this`stats, this`sequence, pool`head, pool.Repr, ring`attempts
      ensures Valid()
      ensures var n := if syntheticPackets < 0 then 0 else syntheticPackets;
              View() == WarmSteps(old(View()), config, cyclesToNs, outcomes[..n], tscs[..n], ring.accepts)
    {
      var poolSink := pool.WarmCache();
      var tscSink := cyclesToNs(warmTsc);
      WarmDpdkPath(syntheticPackets, outcomes, tscs);
    }

    /** `reset_stats()`: all five counters to zero; the sequence number, the
      pool and the sink are untouched. */
    method ResetStats()
      modifies this`stats
      ensures stats == ZERO_STATS
    {
      stats := stats.(received := 0);
      stats := stats.(processed := 0);
      stats := stats.(dropped := 0);
      stats := stats.(parseErrors := 0);
      stats := stats.(ringFull := 0);
    }

    /** `initialize()`: the EAL, mempool, port and shared-memory steps in
      that order, stopping at the first failure; `ran` lists the steps
      attempted. Only complete success sets `dpdkInitialized`. */
    method Initialize(succeeds: InitStep -> bool) returns (ok: bool, ran: seq<InitStep>)
      modifies this`dpdkInitialized
      ensures ran == RunUntilFailure(INIT_ORDER, succeeds)
      ensures ok <==> forall k :: 0 <= k < |INIT_ORDER| ==> succeeds(INIT_ORDER[k])
      ensures dpdkInitialized == (ok || old(dpdkInitialized))
    {
      ran := [InitEal];
      if !succeeds(InitEal) {
        return false, ran;
      }
      ran := ran + [InitMempool];
      if !succeeds(InitMempool) {
        return false, ran;
      }
      ran := ran + [InitPort];
      if !succeeds(InitPort) {
        return false, ran;
      }
      ran := ran + [InitSharedMemory];
      if !succeeds(InitSharedMemory) {
        return false, ran;
      }
      dpdkInitialized := true;
      return true, ran;
    }
  }
}
