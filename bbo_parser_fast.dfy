/** `BBOParserFast`: the fixed-layout wire decoder. A payload carries an
    eight-byte symbol, five big-endian 32-bit words (bid price, bid shares,
    ask price, ask shares, spread) and, in the full form, four big-endian FPGA
    cycle markers. */
module BboParserFast {

  import opened Wire
  import opened Bits
  import opened BboData
  import opened BboPool

  const BBO_MIN_SIZE: nat := 28
  const BBO_FULL_SIZE: nat := 44

  const SYMBOL_OFFSET: nat := 0
  const BID_PRICE_OFFSET: nat := 8
  const BID_SHARES_OFFSET: nat := 12
  const ASK_PRICE_OFFSET: nat := 16
  const ASK_SHARES_OFFSET: nat := 20
  const SPREAD_OFFSET: nat := 24
  const T1_OFFSET: nat := 28
  const T2_OFFSET: nat := 32
  const T3_OFFSET: nat := 36
  const T4_OFFSET: nat := 40

  /** What a sender puts into the first 28 payload bytes. */
  datatype WireQuote = WireQuote(
    symbol: seq<Byte>,
    bidRaw: U32,
    bidShares: U32,
    askRaw: U32,
    askShares: U32,
    spreadRaw: U32)

  /** The 28 bytes a sender writes for `w`. */
  function EncodeWire(w: WireQuote): (r: seq<Byte>)
    requires |w.symbol| == SYMBOL_LEN
    ensures |r| == BBO_MIN_SIZE
  {
    w.symbol + Be32Bytes(w.bidRaw) + Be32Bytes(w.bidShares) + Be32Bytes(w.askRaw)
      + Be32Bytes(w.askShares) + Be32Bytes(w.spreadRaw)
  }

  /** The fields the decoder reads from the first 28 payload bytes. */
  function DecodeWire(data: seq<Byte>): (w: WireQuote)
    requires |data| >= BBO_MIN_SIZE
    ensures |w.symbol| == SYMBOL_LEN
  {
    WireQuote(data[SYMBOL_OFFSET..SYMBOL_OFFSET + SYMBOL_LEN],
              Be32(data, BID_PRICE_OFFSET), Be32(data, BID_SHARES_OFFSET),
              Be32(data, ASK_PRICE_OFFSET), Be32(data, ASK_SHARES_OFFSET),
              Be32(data, SPREAD_OFFSET))
  }

  /** Decoding what a sender encoded gives back every field, whatever follows. */
  lemma DecodeEncode(w: WireQuote, tail: seq<Byte>)
    requires |w.symbol| == SYMBOL_LEN
    ensures DecodeWire(EncodeWire(w) + tail) == w
  {
    var p := EncodeWire(w) + tail;
    var s1 := w.symbol;
    var s2 := s1 + Be32Bytes(w.bidRaw);
    var s3 := s2 + Be32Bytes(w.bidShares);
    var s4 := s3 + Be32Bytes(w.askRaw);
    var s5 := s4 + Be32Bytes(w.askShares);
    assert p == s1 + (Be32Bytes(w.bidRaw) + (Be32Bytes(w.bidShares) + (Be32Bytes(w.askRaw)
      + (Be32Bytes(w.askShares) + (Be32Bytes(w.spreadRaw) + tail)))));
    Be32After(s1, Be32Bytes(w.bidRaw) + (Be32Bytes(w.bidShares) + (Be32Bytes(w.askRaw)
      + (Be32Bytes(w.askShares) + (Be32Bytes(w.spreadRaw) + tail)))), 0);
    assert p == s2 + (Be32Bytes(w.bidShares) + (Be32Bytes(w.askRaw)
      + (Be32Bytes(w.askShares) + (Be32Bytes(w.spreadRaw) + tail))));
    Be32After(s2, Be32Bytes(w.bidShares) + (Be32Bytes(w.askRaw)
      + (Be32Bytes(w.askShares) + (Be32Bytes(w.spreadRaw) + tail))), 0);
    assert p == s3 + (Be32Bytes(w.askRaw) + (Be32Bytes(w.askShares) + (Be32Bytes(w.spreadRaw) + tail)));
    Be32After(s3, Be32Bytes(w.askRaw) + (Be32Bytes(w.askShares) + (Be32Bytes(w.spreadRaw) + tail)), 0);
    assert p == s4 + (Be32Bytes(w.askShares) + (Be32Bytes(w.spreadRaw) + tail));
    Be32After(s4, Be32Bytes(w.askShares) + (Be32Bytes(w.spreadRaw) + tail), 0);
    assert p == s5 + (Be32Bytes(w.spreadRaw) + tail);
    Be32After(s5, Be32Bytes(w.spreadRaw) + tail, 0);
    assert p[..SYMBOL_LEN] == w.symbol;
  }

  /** Encoding the decoded fields reproduces the first 28 payload bytes. */
  lemma EncodeDecode(data: seq<Byte>)
    requires |data| >= BBO_MIN_SIZE
    ensures EncodeWire(DecodeWire(data)) == data[..BBO_MIN_SIZE]
  {
    Be32BytesOfBe32(data, BID_PRICE_OFFSET);
    Be32BytesOfBe32(data, BID_SHARES_OFFSET);
    Be32BytesOfBe32(data, ASK_PRICE_OFFSET);
    Be32BytesOfBe32(data, ASK_SHARES_OFFSET);
    Be32BytesOfBe32(data, SPREAD_OFFSET);
    assert data[..BBO_MIN_SIZE] == data[0..8] + data[8..12] + data[12..16] + data[16..20]
      + data[20..24] + data[24..28];
  }

  /** The `flags` byte a successful parse of a `len`-byte payload stores. */
  function FlagsFor(len: nat): (r: Byte)
    ensures r == HAS_FPGA_TIMESTAMPS <==> len >= BBO_FULL_SIZE
    ensures r == 0 <==> len < BBO_FULL_SIZE
  {
    if len >= BBO_FULL_SIZE then HAS_FPGA_TIMESTAMPS else 0
  }

  /** The record a successful parse leaves in its slot: the decoded fields
      (prices as their raw ten-thousandths), the reception time and sequence
      number it was given, `valid = 1`, and the timestamp flag. */
  function DecodedQuote(data: seq<Byte>, len: nat, tsNs: U64, sequence: U32): (r: Quote)
    requires |data| >= BBO_MIN_SIZE
    ensures r.symbol == data[SYMBOL_OFFSET..SYMBOL_OFFSET + SYMBOL_LEN]
    ensures r.valid == 1 && r.timestampNs == tsNs && r.sequence == sequence
    ensures r.flags == HAS_FPGA_TIMESTAMPS <==> len >= BBO_FULL_SIZE
  {
    var w := DecodeWire(data);
    Quote(w.symbol, w.bidRaw, w.askRaw, w.bidShares, w.askShares, w.spreadRaw,
          tsNs, sequence, 1, FlagsFor(len))
  }

  /** Every field of a sender's quote arrives in the record in the right place. */
  lemma DecodedQuoteOfEncoded(w: WireQuote, tail: seq<Byte>, len: nat, tsNs: U64, sequence: U32)
    requires |w.symbol| == SYMBOL_LEN
    ensures DecodedQuote(EncodeWire(w) + tail, len, tsNs, sequence)
         == Quote(w.symbol, w.bidRaw, w.askRaw, w.bidShares, w.askShares, w.spreadRaw,
                  tsNs, sequence, 1, FlagsFor(len))
  {
    DecodeEncode(w, tail);
  }

  /** `BBOParserFast::parse`: reject a payload shorter than 28 bytes without
      touching the pool; otherwise acquire exactly one slot, overwrite every
      field but the padding with the decoded quote, and return that slot. */
  method Parse(data: seq<Byte>, len: nat, pool: BBOPool, tsNs: U64, sequence: U32)
    returns (bbo: BBODataFast?)
    requires pool.Valid()
    requires len < BBO_MIN_SIZE || |data| >= BBO_MIN_SIZE
    modifies pool`head, pool.Repr
    ensures pool.Valid()
    ensures len < BBO_MIN_SIZE ==>
      bbo == null && pool.head == old(pool.head) && pool.Contents() == old(pool.Contents())
    ensures len >= BBO_MIN_SIZE ==>
      && bbo == pool.slots[old(pool.head) % pool.size]
      && pool.head == Inc32(old(pool.head))
      && pool.Contents() == old(pool.Contents())[old(pool.head) % pool.size := DecodedQuote(data, len, tsNs, sequence)]
  {
    if len < BBO_MIN_SIZE {
      return null;
    }
    ghost var before := pool.Contents();
    var slot, idx := pool.Acquire();
    StoreDecoded(slot, data, len, tsNs, sequence);
    assert forall k :: 0 <= k < pool.size && k != idx ==> pool.slots[k].Value() == before[k];
    bbo := slot;
  }

  /** The field writes of `parse` into the acquired record: the symbol copy,
      the five byte-swapped words, timestamp, sequence, `valid` and `flags`.
      The padding is not written. */
  method StoreDecoded(slot: BBODataFast, data: seq<Byte>, len: nat, tsNs: U64, sequence: U32)
    requires slot.Valid() && |data| >= BBO_MIN_SIZE
    modifies slot, slot.symbol
    ensures slot.Value() == DecodedQuote(data, len, tsNs, sequence)
    ensures slot.padding == old(slot.padding)
  {
    forall i | 0 <= i < SYMBOL_LEN {
      slot.symbol[i] := data[SYMBOL_OFFSET + i];
    }
    var bidRaw := Be32(data, BID_PRICE_OFFSET);
    var bidShares := Be32(data, BID_SHARES_OFFSET);
    var askRaw := Be32(data, ASK_PRICE_OFFSET);
    var askShares := Be32(data, ASK_SHARES_OFFSET);
    var spreadRaw := Be32(data, SPREAD_OFFSET);
    slot.bidPrice := bidRaw;
    slot.askPrice := askRaw;
    slot.spread := spreadRaw;
    slot.bidShares := bidShares;
    slot.askShares := askShares;
    slot.timestampNs := tsNs;
    slot.sequence := sequence;
    slot.valid := 1;
    if len >= BBO_FULL_SIZE {
      slot.flags := HAS_FPGA_TIMESTAMPS;
    } else {
      slot.flags := 0;
    }
    assert slot.symbol[..] == data[..SYMBOL_LEN];
  }

  /** `parse_bbo`: `parse` with sequence number 0. */
  method ParseBbo(data: seq<Byte>, len: nat, pool: BBOPool, tsNs: U64) returns (bbo: BBODataFast?)
    requires pool.Valid()
    requires len < BBO_MIN_SIZE || |data| >= BBO_MIN_SIZE
    modifies pool`head, pool.Repr
    ensures pool.Valid()
    ensures len < BBO_MIN_SIZE ==>
      bbo == null && pool.head == old(pool.head) && pool.Contents() == old(pool.Contents())
    ensures len >= BBO_MIN_SIZE ==>
      && bbo == pool.slots[old(pool.head) % pool.size]
      && pool.head == Inc32(old(pool.head))
      && pool.Contents() == old(pool.Contents())[old(pool.head) % pool.size := DecodedQuote(data, len, tsNs, 0)]
  {
    bbo := Parse(data, len, pool, tsNs, 0);
  }

  /** The 16 bytes a sender appends for the four FPGA markers. */
  function EncodeTimestamps(ts: FpgaTimestamps): (r: seq<Byte>)
    ensures |r| == BBO_FULL_SIZE - BBO_MIN_SIZE
  {
    Be32Bytes(ts.t1) + Be32Bytes(ts.t2) + Be32Bytes(ts.t3) + Be32Bytes(ts.t4)
  }

  /** `extract_timestamps`: all four markers zero for a payload shorter than
      44 bytes, otherwise the four big-endian words at offsets 28, 32, 36, 40. */
  function ExtractTimestamps(data: seq<Byte>, len: nat): (ts: FpgaTimestamps)
    requires len < BBO_FULL_SIZE || |data| >= BBO_FULL_SIZE
    ensures len < BBO_FULL_SIZE ==> ts == NO_TIMESTAMPS
    ensures len >= BBO_FULL_SIZE ==> EncodeTimestamps(ts) == data[T1_OFFSET..BBO_FULL_SIZE]
  {
    if len < BBO_FULL_SIZE then NO_TIMESTAMPS
    else
      Be32BytesOfBe32(data, T1_OFFSET);
      Be32BytesOfBe32(data, T2_OFFSET);
      Be32BytesOfBe32(data, T3_OFFSET);
      Be32BytesOfBe32(data, T4_OFFSET);
      assert data[T1_OFFSET..BBO_FULL_SIZE] == data[28..32] + data[32..36] + data[36..40] + data[40..44];
      FpgaTimestamps(Be32(data, T1_OFFSET), Be32(data, T2_OFFSET), Be32(data, T3_OFFSET), Be32(data, T4_OFFSET))
  }

  /** The markers a sender appends after the quote are the markers extracted. */
  lemma ExtractEncodedTimestamps(w: WireQuote, ts: FpgaTimestamps, tail: seq<Byte>, len: nat)
    requires |w.symbol| == SYMBOL_LEN && len >= BBO_FULL_SIZE
    ensures ExtractTimestamps(EncodeWire(w) + EncodeTimestamps(ts) + tail, len) == ts
  {
    var a := EncodeWire(w);
    var p := a + EncodeTimestamps(ts) + tail;
    var rest := Be32Bytes(ts.t1) + Be32Bytes(ts.t2) + Be32Bytes(ts.t3) + Be32Bytes(ts.t4) + tail;
    assert p == a + rest;
    assert rest == Be32Bytes(ts.t1) + (Be32Bytes(ts.t2) + (Be32Bytes(ts.t3) + (Be32Bytes(ts.t4) + tail)));
    Be32After(a, rest, 0);
    Be32After(a + Be32Bytes(ts.t1), Be32Bytes(ts.t2) + (Be32Bytes(ts.t3) + (Be32Bytes(ts.t4) + tail)), 0);
    assert p == (a + Be32Bytes(ts.t1)) + (Be32Bytes(ts.t2) + (Be32Bytes(ts.t3) + (Be32Bytes(ts.t4) + tail)));
    Be32After(a + Be32Bytes(ts.t1) + Be32Bytes(ts.t2), Be32Bytes(ts.t3) + (Be32Bytes(ts.t4) + tail), 0);
    assert p == (a + Be32Bytes(ts.t1) + Be32Bytes(ts.t2)) + (Be32Bytes(ts.t3) + (Be32Bytes(ts.t4) + tail));
    Be32After(a + Be32Bytes(ts.t1) + Be32Bytes(ts.t2) + Be32Bytes(ts.t3), Be32Bytes(ts.t4) + tail, 0);
    assert p == (a + Be32Bytes(ts.t1) + Be32Bytes(ts.t2) + Be32Bytes(ts.t3)) + (Be32Bytes(ts.t4) + tail);
  }

  /** The timestamp flag a parse stores says exactly whether
      `extract_timestamps` finds markers to read. */
  lemma FlagTellsTimestamps(len: nat)
    ensures BitAnd(FlagsFor(len), HAS_FPGA_TIMESTAMPS) == 1 <==> len >= BBO_FULL_SIZE
    ensures BitAnd(FlagsFor(len), IS_SYNTHETIC) == 0 && BitAnd(FlagsFor(len), IS_STALE) == 0
  {
    FlagsAreDistinctBits();
  }

  /** A symbol byte the pre-filter accepts: printable ASCII. */
  predicate IsPrintable(c: Byte)
  {
    0x20 <= c <= 0x7E
  }

  /** The pre-filter's loop over symbol bytes `i..8`, stopping at the first
      non-printable one. */
  function PrintableFrom(data: seq<Byte>, i: nat): (r: bool)
    requires i <= SYMBOL_LEN <= |data|
    ensures r <==> forall k :: i <= k < SYMBOL_LEN ==> IsPrintable(data[k])
    decreases SYMBOL_LEN - i
  {
    if i == SYMBOL_LEN then true
    else if !IsPrintable(data[i]) then false
    else PrintableFrom(data, i + 1)
  }

  /** `is_valid_bbo`: long enough, and all eight symbol bytes printable. */
  function IsValidBbo(data: seq<Byte>, len: nat): (r: bool)
    requires len < BBO_MIN_SIZE || |data| >= SYMBOL_LEN
    ensures r <==> len >= BBO_MIN_SIZE && forall k :: 0 <= k < SYMBOL_LEN ==> IsPrintable(data[k])
  {
    if len < BBO_MIN_SIZE then false else PrintableFrom(data, 0)
  }

  /** The loop of `symbol_matches` over positions `i..n`. */
  function MatchFrom(data: seq<Byte>, target: seq<Byte>, n: nat, i: nat): (r: bool)
    requires i <= n && n <= |data| && n <= |target|
    ensures r <==> forall k :: i <= k < n ==> data[k] == target[k]
    decreases n - i
  {
    if i == n then true
    else if data[i] != target[i] then false
    else MatchFrom(data, target, n, i + 1)
  }

  /** `symbol_matches`: the first `min(target_len, 8)` bytes agree with the
      target. */
  function SymbolMatches(data: seq<Byte>, target: seq<Byte>, targetLen: nat): (r: bool)
    requires Min(targetLen, SYMBOL_LEN) <= |data| && Min(targetLen, SYMBOL_LEN) <= |target|
    ensures r <==> data[..Min(targetLen, SYMBOL_LEN)] == target[..Min(targetLen, SYMBOL_LEN)]
    ensures targetLen == 0 ==> r
  {
    var n := Min(targetLen, SYMBOL_LEN);
    var m := MatchFrom(data, target, n, 0);
    assert m ==> data[..n] == target[..n];
    assert data[..n] == target[..n] ==> forall k :: 0 <= k < n ==> data[k] == data[..n][k];
    m
  }

  /** A payload matches the symbol its own record reads back as. */
  lemma MatchesOwnSymbol(data: seq<Byte>)
    requires |data| >= SYMBOL_LEN
    ensures var t := TrimmedSymbol(data[..SYMBOL_LEN]); SymbolMatches(data, t, |t|)
  {
    var t := TrimmedSymbol(data[..SYMBOL_LEN]);
    assert data[..|t|] == data[..SYMBOL_LEN][..|t|];
  }
}
