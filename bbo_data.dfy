/** The 64-byte quote record `BBODataFast`, its symbol helpers and the flag bits. */
module BboData {

  import opened Wire
  import opened Bits

  const SYMBOL_LEN: nat := 8
  const PADDING_LEN: nat := 10
  /** `sizeof(BBODataFast)`: one cache line. */
  const RECORD_BYTES: nat := 64

  const SPACE: Byte := 0x20
  const NUL: Byte := 0x00

  /** Bits of the `flags` byte. */
  const HAS_FPGA_TIMESTAMPS: Byte := 0x01
  const IS_SYNTHETIC: Byte := 0x02
  const IS_STALE: Byte := 0x04

  /** A price in ten-thousandths: the record stores `raw * 0.0001` as a double;
      the model keeps the raw fixed-point integer it is computed from. */
  type TenThousandths = U32

  /** Everything a record holds except its padding, as a value. */
  datatype Quote = Quote(
    symbol: seq<Byte>,
    bidPrice: TenThousandths,
    askPrice: TenThousandths,
    bidShares: U32,
    askShares: U32,
    spread: TenThousandths,
    timestampNs: U64,
    sequence: U32,
    valid: Byte,
    flags: Byte)

  /** The record after `clear()`: every byte zero. */
  const CLEARED: Quote := Quote(Zeros(SYMBOL_LEN), 0, 0, 0, 0, 0, 0, 0, 0, 0)

  /** The four raw FPGA cycle markers of `FPGATimestamps` (the derived
      microsecond latencies are floating point and not modelled). */
  datatype FpgaTimestamps = FpgaTimestamps(t1: U32, t2: U32, t3: U32, t4: U32)

  const NO_TIMESTAMPS: FpgaTimestamps := FpgaTimestamps(0, 0, 0, 0)

  /** The flag constants are three different single bits. */
  lemma FlagsAreDistinctBits()
    ensures IsPowerOfTwo(HAS_FPGA_TIMESTAMPS) && IsPowerOfTwo(IS_SYNTHETIC) && IsPowerOfTwo(IS_STALE)
    ensures BitAnd(HAS_FPGA_TIMESTAMPS, IS_SYNTHETIC) == 0
    ensures BitAnd(HAS_FPGA_TIMESTAMPS, IS_STALE) == 0
    ensures BitAnd(IS_SYNTHETIC, IS_STALE) == 0
  {
  }

  predicate IsPad(b: Byte)
  {
    b == SPACE || b == NUL
  }

  function Spaces(n: nat): (r: seq<Byte>)
    ensures |r| == n && forall i :: 0 <= i < n ==> r[i] == SPACE
  {
    seq(n, _ => SPACE)
  }

  /** The eight symbol bytes `set_symbol(sym, len)` stores: the first
      `min(len, 8)` bytes of `sym`, then spaces. */
  function PaddedSymbol(sym: seq<Byte>, len: nat): (r: seq<Byte>)
    requires Min(len, SYMBOL_LEN) <= |sym|
    ensures |r| == SYMBOL_LEN
    ensures forall k :: 0 <= k < Min(len, SYMBOL_LEN) ==> r[k] == sym[k]
    ensures forall k :: Min(len, SYMBOL_LEN) <= k < SYMBOL_LEN ==> r[k] == SPACE
  {
    var n := Min(len, SYMBOL_LEN);
    sym[..n] + Spaces(SYMBOL_LEN - n)
  }

  /** The string `get_symbol()` returns: the longest prefix of `s` that does
      not end in a space or a NUL. */
  function TrimmedSymbol(s: seq<Byte>): (r: seq<Byte>)
    ensures |r| <= |s| && r == s[..|r|]
    ensures r == [] || !IsPad(r[|r| - 1])
    ensures forall k :: |r| <= k < |s| ==> IsPad(s[k])
    decreases |s|
  {
    if s == [] || !IsPad(s[|s| - 1]) then s else TrimmedSymbol(s[..|s| - 1])
  }

  /** The three properties of TrimmedSymbol determine it: any prefix of `s`
      that has them is TrimmedSymbol(s). */
  lemma TrimmedSymbolUnique(s: seq<Byte>, t: seq<Byte>)
    requires |t| <= |s| && t == s[..|t|]
    requires t == [] || !IsPad(t[|t| - 1])
    requires forall k :: |t| <= k < |s| ==> IsPad(s[k])
    ensures TrimmedSymbol(s) == t
  {
    var r := TrimmedSymbol(s);
    assert |r| == |t|;
  }

  /** Round trip: a symbol of at most eight bytes without trailing padding is
      read back unchanged after `set_symbol(s, |s|)`. */
  lemma SymbolRoundTrip(s: seq<Byte>)
    requires |s| <= SYMBOL_LEN
    requires s == [] || !IsPad(s[|s| - 1])
    ensures TrimmedSymbol(PaddedSymbol(s, |s|)) == s
  {
    var p := PaddedSymbol(s, |s|);
    assert p[..|s|] == s;
    TrimmedSymbolUnique(p, s);
  }

  /** With `len >= 8` the first eight source bytes are copied and no padding written. */
  lemma PaddedSymbolFull(sym: seq<Byte>, len: nat)
    requires len >= SYMBOL_LEN && |sym| >= SYMBOL_LEN
    ensures PaddedSymbol(sym, len) == sym[..SYMBOL_LEN]
  {
  }

  /** A symbol made only of spaces and NULs reads back as the empty string. */
  lemma TrimmedAllPad(s: seq<Byte>)
    requires forall k :: 0 <= k < |s| ==> IsPad(s[k])
    ensures TrimmedSymbol(s) == []
  {
    TrimmedSymbolUnique(s, []);
  }

  /** `BBODataFast`: one cache-line record, updated in place by the decoder.
      The symbol is the fixed eight-byte buffer `char symbol[8]`. */
  class BBODataFast {
    const symbol: array<Byte>
    var bidPrice: TenThousandths
    var askPrice: TenThousandths
    var bidShares: U32
    var askShares: U32
    var spread: TenThousandths
    var timestampNs: U64
    var sequence: U32
    var valid: Byte
    var flags: Byte
    var padding: seq<Byte>

    ghost predicate Valid()
    {
      symbol.Length == SYMBOL_LEN
    }

    /** The record's fields, padding aside, as a value. */
    function Value(): (q: Quote)
      reads this, symbol
    {
      Quote(symbol[..], bidPrice, askPrice, bidShares, askShares, spread,
            timestampNs, sequence, valid, flags)
    }

    /** Storage for one record. The pool clears every record before use, so
        nothing is promised about its initial contents. */
    constructor ()
      ensures Valid() && fresh(symbol)
    {
      symbol := new Byte[SYMBOL_LEN](_ => 0);
      padding := Zeros(PADDING_LEN);
    }

    /** `clear()`: the `memset` of the whole record to zero. */
    method Clear()
      requires Valid()
      modifies this, symbol
      ensures Value() == CLEARED && padding == Zeros(PADDING_LEN)
    {
      forall i | 0 <= i < SYMBOL_LEN {
        symbol[i] := 0;
      }
      bidPrice, askPrice, bidShares, askShares, spread := 0, 0, 0, 0, 0;
      timestampNs, sequence, valid, flags := 0, 0, 0, 0;
      padding := Zeros(PADDING_LEN);
    }

    /** `set_symbol(sym, len)`: copy `min(len, 8)` bytes, then space-pad. Only
        the symbol buffer changes. */
    method SetSymbol(sym: seq<Byte>, len: nat)
      requires Valid()
      requires Min(len, SYMBOL_LEN) <= |sym|
      modifies symbol
      ensures symbol[..] == PaddedSymbol(sym, len)
    {
      var copyLen := Min(len, SYMBOL_LEN);
      forall i | 0 <= i < copyLen {
        symbol[i] := sym[i];
      }
      var i := copyLen;
      while i < SYMBOL_LEN
        invariant copyLen <= i <= SYMBOL_LEN
        invariant forall k :: 0 <= k < copyLen ==> symbol[k] == sym[k]
        invariant forall k :: copyLen <= k < i ==> symbol[k] == SPACE
      {
        symbol[i] := SPACE;
        i := i + 1;
      }
    }

    /** `get_symbol()`: drop trailing spaces and NULs. Changes nothing. */
    method GetSymbol() returns (s: seq<Byte>)
      requires Valid()
      ensures s == TrimmedSymbol(symbol[..])
      ensures |s| <= SYMBOL_LEN && s == symbol[..|s|]
      ensures s == [] || !IsPad(s[|s| - 1])
      ensures forall k :: |s| <= k < SYMBOL_LEN ==> IsPad(symbol[k])
    {
      var len := SYMBOL_LEN;
      while len > 0 && IsPad(symbol[len - 1])
        invariant 0 <= len <= SYMBOL_LEN
        invariant TrimmedSymbol(symbol[..len]) == TrimmedSymbol(symbol[..])
        invariant forall k :: len <= k < SYMBOL_LEN ==> IsPad(symbol[k])
      {
        assert symbol[..len - 1] == symbol[..len][..len - 1];
        len := len - 1;
      }
      s := symbol[..len];
      TrimmedSymbolUnique(symbol[..], s);
    }
  }
}
