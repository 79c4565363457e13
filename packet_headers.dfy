/** The Ethernet II / IPv4 / UDP header filter of `process_packet`: the frame
    offsets it reads, the three early returns, and where the UDP payload lies
    and how long it is. Field layouts follow `rte_ether_hdr`, `rte_ipv4_hdr`
    (section 3.1 of RFC 791) and `rte_udp_hdr` (RFC 768). */
module PacketHeaders {

  import opened Wire
  import opened BboParserFast

  const ETH_SIZE: nat := 14
  const IP_SIZE: nat := 20
  const UDP_SIZE: nat := 8

  /** `ether_type` follows the two six-byte MAC addresses. */
  const ETHER_TYPE_OFFSET: nat := 12
  /** `version_ihl` is the first byte of the IPv4 header. */
  const VERSION_IHL_OFFSET: nat := ETH_SIZE
  /** `next_proto_id` is byte 9 of the IPv4 header. */
  const IP_PROTO_OFFSET: nat := ETH_SIZE + 9
  /** `dst_port` and `dgram_len` are bytes 2 and 4 of the UDP header. */
  const UDP_DST_PORT_OFFSET: nat := 2
  const UDP_DGRAM_LEN_OFFSET: nat := 4

  const RTE_ETHER_TYPE_IPV4: U16 := 0x0800
  const IPPROTO_UDP: Byte := 17

  /** `(version_ihl & 0x0F) * 4`: the IPv4 header length in bytes. */
  function IhlBytes(versionIhl: Byte): nat
  {
    (versionIhl % 16) * 4
  }

  /** Where the filter takes the UDP header to start. */
  function UdpOffset(frame: seq<Byte>): nat
    requires |frame| > VERSION_IHL_OFFSET
  {
    ETH_SIZE + IhlBytes(frame[VERSION_IHL_OFFSET])
  }

  /** `payload_len`: the UDP Length field less the 8-byte UDP header; a
      Length below 8 gives an empty payload (see PayloadLenAsWritten). The
      payload is never longer than the datagram the header announces. */
  function PayloadLen(dgramLen: U16): (r: nat)
    ensures r <= dgramLen
  {
    if dgramLen >= UDP_SIZE then dgramLen - UDP_SIZE else 0
  }

  /** `rte_be_to_cpu_16(udp->dgram_len) - sizeof(rte_udp_hdr)` as C++
      evaluates it: the subtraction is done in `size_t` and wraps. */
  function PayloadLenAsWritten(dgramLen: U16): (r: U64)
    ensures dgramLen >= UDP_SIZE ==> r == dgramLen - UDP_SIZE
    ensures dgramLen < UDP_SIZE ==> r == TWO_64 - UDP_SIZE + dgramLen
  {
    if dgramLen < UDP_SIZE then
      DivMod(dgramLen - UDP_SIZE, TWO_64, -1, TWO_64 - UDP_SIZE + dgramLen);
      (dgramLen - UDP_SIZE) % TWO_64
    else
      (dgramLen - UDP_SIZE) % TWO_64
  }

  /** The corrected length is the as-written one wherever the subtraction
      does not wrap. */
  lemma PayloadLenAgrees(dgramLen: U16)
    requires dgramLen >= UDP_SIZE
    ensures PayloadLen(dgramLen) == PayloadLenAsWritten(dgramLen)
  {
  }

  /** A UDP Length below 8 makes the as-written length enormous: every such
      datagram passes the decoder's length check, which then reads 28 bytes
      after a header that announced no payload at all. The corrected length
      makes the decoder reject it. */
  lemma PayloadLenWraps(dgramLen: U16)
    requires dgramLen < UDP_SIZE
    ensures PayloadLenAsWritten(dgramLen) == TWO_64 - UDP_SIZE + dgramLen
    ensures PayloadLenAsWritten(dgramLen) >= BBO_FULL_SIZE && PayloadLenAsWritten(dgramLen) > dgramLen
    ensures PayloadLen(dgramLen) == 0 && PayloadLen(dgramLen) < BBO_MIN_SIZE
  {
    DivMod(dgramLen - UDP_SIZE, TWO_64, -1, TWO_64 - UDP_SIZE + dgramLen);
  }

  /** The bytes the filter reads before it reaches a decision: the EtherType;
      then, for IPv4, the protocol byte; then, for UDP, the destination port;
      then, for the configured port, the UDP Length. */
  predicate HeadersReadable(frame: seq<Byte>, udpPort: U16)
  {
    && |frame| >= ETH_SIZE
    && (Be16(frame, ETHER_TYPE_OFFSET) == RTE_ETHER_TYPE_IPV4 ==>
          && |frame| > IP_PROTO_OFFSET
          && (frame[IP_PROTO_OFFSET] == IPPROTO_UDP ==>
                && |frame| >= UdpOffset(frame) + UDP_DST_PORT_OFFSET + 2
                && (Be16(frame, UdpOffset(frame) + UDP_DST_PORT_OFFSET) == udpPort ==>
                      |frame| >= UdpOffset(frame) + UDP_DGRAM_LEN_OFFSET + 2)))
  }

  /** The outcome of the header filter. */
  datatype Verdict =
    | NotIpv4
    | NotUdp
    | WrongPort
    | Accepted(payloadOffset: nat, payloadLen: nat)

  /** The three early returns of `process_packet`, in the order it tests them,
      and the payload it hands to the decoder otherwise. */
  function Classify(frame: seq<Byte>, udpPort: U16): (r: Verdict)
    requires HeadersReadable(frame, udpPort)
    ensures r.Accepted? <==>
              && Be16(frame, ETHER_TYPE_OFFSET) == RTE_ETHER_TYPE_IPV4
              && frame[IP_PROTO_OFFSET] == IPPROTO_UDP
              && Be16(frame, UdpOffset(frame) + UDP_DST_PORT_OFFSET) == udpPort
    ensures r.Accepted? ==>
              && r.payloadOffset == UdpOffset(frame) + UDP_SIZE
              && r.payloadLen <= Be16(frame, UdpOffset(frame) + UDP_DGRAM_LEN_OFFSET)
  {
    if Be16(frame, ETHER_TYPE_OFFSET) != RTE_ETHER_TYPE_IPV4 then NotIpv4
    else if frame[IP_PROTO_OFFSET] != IPPROTO_UDP then NotUdp
    else
      var udp := UdpOffset(frame);
      if Be16(frame, udp + UDP_DST_PORT_OFFSET) != udpPort then WrongPort
      else Accepted(udp + UDP_SIZE, PayloadLen(Be16(frame, udp + UDP_DGRAM_LEN_OFFSET)))
  }

  /** Every byte the packet path reads lies in the frame: the headers, and the
      28 payload bytes the decoder reads when the payload is long enough. The
      source does not check these against the buffer length. */
  predicate FrameReadable(frame: seq<Byte>, udpPort: U16)
  {
    && HeadersReadable(frame, udpPort)
    && var v := Classify(frame, udpPort);
       (v.Accepted? && v.payloadLen >= BBO_MIN_SIZE ==> v.payloadOffset + BBO_MIN_SIZE <= |frame|)
  }

  /** The bytes from `off` on; none when `off` lies past the end. */
  function PayloadFrom(frame: seq<Byte>, off: nat): (r: seq<Byte>)
    ensures |r| == if off <= |frame| then |frame| - off else 0
  {
    if off <= |frame| then frame[off..] else []
  }

  // Frames as a sender builds them: every byte not named is zero.

  function EthHeader(): (r: seq<Byte>)
    ensures |r| == ETH_SIZE
  {
    Zeros(ETHER_TYPE_OFFSET) + Be16Bytes(RTE_ETHER_TYPE_IPV4)
  }

  /** Version 4, a 20-byte header, the given total length, protocol UDP. */
  function Ipv4Header(totalLength: U16): (r: seq<Byte>)
    ensures |r| == IP_SIZE
  {
    [0x45, 0] + Be16Bytes(totalLength) + Zeros(5) + [IPPROTO_UDP] + Zeros(10)
  }

  function UdpHeader(dstPort: U16, dgramLen: U16): (r: seq<Byte>)
    ensures |r| == UDP_SIZE
  {
    Zeros(2) + Be16Bytes(dstPort) + Be16Bytes(dgramLen) + Zeros(2)
  }

  /** An Ethernet II frame carrying one IPv4/UDP datagram to `dstPort`. */
  function UdpFrame(dstPort: U16, payload: seq<Byte>): (r: seq<Byte>)
    requires IP_SIZE + UDP_SIZE + |payload| < TWO_16
    ensures |r| == ETH_SIZE + IP_SIZE + UDP_SIZE + |payload|
  {
    EthHeader() + Ipv4Header(IP_SIZE + UDP_SIZE + |payload|)
      + UdpHeader(dstPort, UDP_SIZE + |payload|) + payload
  }

  /** The filter accepts a well-formed datagram for the configured port with
      its payload at offset 42 and its true length, and turns away the same
      datagram sent to any other port. */
  lemma ClassifyUdpFrame(dstPort: U16, payload: seq<Byte>, udpPort: U16)
    requires IP_SIZE + UDP_SIZE + |payload| < TWO_16
    ensures HeadersReadable(UdpFrame(dstPort, payload), udpPort)
    ensures FrameReadable(UdpFrame(dstPort, payload), udpPort)
    ensures Classify(UdpFrame(dstPort, payload), udpPort)
         == if dstPort == udpPort then Accepted(ETH_SIZE + IP_SIZE + UDP_SIZE, |payload|) else WrongPort
    ensures PayloadFrom(UdpFrame(dstPort, payload), ETH_SIZE + IP_SIZE + UDP_SIZE) == payload
  {
    var f := UdpFrame(dstPort, payload);
    var tl: U16 := IP_SIZE + UDP_SIZE + |payload|;
    var dl: U16 := UDP_SIZE + |payload|;
    var head := EthHeader() + Ipv4Header(tl);
    assert f == head + (UdpHeader(dstPort, dl) + payload);
    assert f[12] == 0x08 && f[13] == 0;
    assert f[VERSION_IHL_OFFSET] == 0x45 && f[IP_PROTO_OFFSET] == IPPROTO_UDP;
    assert UdpOffset(f) == ETH_SIZE + IP_SIZE;
    Be16After(head + Zeros(2), Be16Bytes(dstPort) + (Be16Bytes(dl) + (Zeros(2) + payload)), 0);
    assert f == (head + Zeros(2)) + (Be16Bytes(dstPort) + (Be16Bytes(dl) + (Zeros(2) + payload)));
    Be16After(head + Zeros(2) + Be16Bytes(dstPort), Be16Bytes(dl) + (Zeros(2) + payload), 0);
    assert f == (head + Zeros(2) + Be16Bytes(dstPort)) + (Be16Bytes(dl) + (Zeros(2) + payload));
    assert f[ETH_SIZE + IP_SIZE + UDP_SIZE..] == payload;
  }
}
