/** Fixed-width machine integers, byte sequences and the big-endian field readers
    used by the wire decoder and the packet-header filter. */
module Wire {

  type Byte = x: int | 0 <= x < 0x100
  type U16 = x: int | 0 <= x < 0x1_0000
  type U32 = x: int | 0 <= x < 0x1_0000_0000
  type U64 = x: int | 0 <= x < 0x1_0000_0000_0000_0000

  const TWO_16: int := 0x1_0000
  const TWO_32: int := 0x1_0000_0000
  const TWO_63: int := 0x8000_0000_0000_0000
  const TWO_64: int := 0x1_0000_0000_0000_0000

  /** A result that may be null or missing. */
  datatype Option<T> = None | Some(value: T)

  function Min(a: int, b: int): int
  {
    if a < b then a else b
  }

  /** `x++` on a `uint32_t`: wraps from 2^32 - 1 to 0. */
  function Inc32(x: U32): (r: U32)
    ensures r == (x + 1) % TWO_32
  {
    if x == TWO_32 - 1 then 0 else x + 1
  }

  /** `fetch_add(1)` on a `uint64_t` counter: wraps from 2^64 - 1 to 0. */
  function Inc64(x: U64): (r: U64)
    ensures r == (x + 1) % TWO_64
  {
    if x == TWO_64 - 1 then 0 else x + 1
  }

  /** `static_cast<int64_t>` of a `uint64_t`: two's-complement reinterpretation. */
  function AsInt64(x: U64): (r: int)
    ensures -TWO_63 <= r < TWO_63
    ensures (r + TWO_64) % TWO_64 == x
  {
    if x < TWO_63 then x else x - TWO_64
  }

  function Zeros(n: nat): (r: seq<Byte>)
    ensures |r| == n
    ensures forall i :: 0 <= i < n ==> r[i] == 0
  {
    seq(n, _ => 0)
  }

  /** The bytes of an ASCII string literal. */
  function Ascii(s: string): (r: seq<Byte>)
    requires forall i :: 0 <= i < |s| ==> s[i] < 128 as char
    ensures |r| == |s|
    ensures forall i :: 0 <= i < |s| ==> r[i] == s[i] as int
  {
    seq(|s|, i requires 0 <= i < |s| => s[i] as int)
  }

  /** A `uint16_t` stored in network byte order at `s[off..off+2]`. */
  function Be16(s: seq<Byte>, off: nat): U16
    requires off + 2 <= |s|
  {
    (s[off] as int) * 0x100 + s[off + 1]
  }

  /** A `uint32_t` stored in network byte order at `s[off..off+4]`
      (the `__builtin_bswap32` of a little-endian load). */
  function Be32(s: seq<Byte>, off: nat): U32
    requires off + 4 <= |s|
  {
    (s[off] as int) * 0x100_0000 + (s[off + 1] as int) * 0x1_0000 + (s[off + 2] as int) * 0x100 + s[off + 3]
  }

  /** The two bytes of `rte_cpu_to_be_16(x)` as they lie in memory. */
  function Be16Bytes(x: U16): (r: seq<Byte>)
    ensures |r| == 2 && Be16(r, 0) == x
  {
    [x / 0x100, x % 0x100]
  }

  /** The four bytes of `__builtin_bswap32(x)` as they lie in memory. */
  function Be32Bytes(x: U32): (r: seq<Byte>)
    ensures |r| == 4 && Be32(r, 0) == x
  {
    Be32Split(x);
    [x / 0x100_0000, (x / 0x1_0000) % 0x100, (x / 0x100) % 0x100, x % 0x100]
  }

  /** The four byte-sized pieces of a 32-bit word add back up to it. */
  lemma Be32Split(x: U32)
    ensures x / 0x100_0000 < 0x100
    ensures (x / 0x100_0000) * 0x100_0000 + ((x / 0x1_0000) % 0x100) * 0x1_0000
            + ((x / 0x100) % 0x100) * 0x100 + x % 0x100 == x
  {
    var q1, d := x / 0x100, x % 0x100;
    var q2, c := q1 / 0x100, q1 % 0x100;
    var a, b := q2 / 0x100, q2 % 0x100;
    assert x == 0x100 * q1 + d && q1 == 0x100 * q2 + c && q2 == 0x100 * a + b;
    DivMod(x, 0x1_0000, q2, c * 0x100 + d);
    DivMod(x, 0x100_0000, a, b * 0x1_0000 + c * 0x100 + d);
  }

  /** `x == d * a + s` with `0 <= s < d` determines `x / d` and `x % d`. */
  lemma DivMod(x: int, d: int, a: int, s: int)
    requires d >= 1 && 0 <= s < d && x == d * a + s
    ensures x / d == a && x % d == s
  {
    var q, r := x / d, x % d;
    assert x == d * q + r;
    assert d * (a - q) == r - s;
    if a - q >= 1 {
      MulAtLeast(d, a - q);
    } else if q - a >= 1 {
      MulAtLeast(d, q - a);
    }
  }

  lemma {:induction false} MulAtLeast(d: int, k: int)
    requires d >= 1 && k >= 1
    ensures d * k >= d
    decreases k
  {
    if k > 1 {
      MulAtLeast(d, k - 1);
      assert d * k == d * (k - 1) + d;
    }
  }

  /** Reading a big-endian word and writing it back gives the same four bytes. */
  lemma Be32BytesOfBe32(s: seq<Byte>, off: nat)
    requires off + 4 <= |s|
    ensures Be32Bytes(Be32(s, off)) == s[off..off + 4]
  {
    var x := Be32(s, off);
    var b0, b1, b2, b3: int := s[off], s[off + 1], s[off + 2], s[off + 3];
    DivMod(x, 0x100_0000, b0, b1 * 0x1_0000 + b2 * 0x100 + b3);
    DivMod(x, 0x1_0000, b0 * 0x100 + b1, b2 * 0x100 + b3);
    DivMod(b0 * 0x100 + b1, 0x100, b0, b1);
    DivMod(x, 0x100, b0 * 0x1_0000 + b1 * 0x100 + b2, b3);
    DivMod(b0 * 0x1_0000 + b1 * 0x100 + b2, 0x100, b0 * 0x100 + b1, b2);
  }

  /** A big-endian word read just past a prefix is read from the rest. */
  lemma Be32After(a: seq<Byte>, b: seq<Byte>, off: nat)
    requires off + 4 <= |b|
    ensures Be32(a + b, |a| + off) == Be32(b, off)
  {
    assert (a + b)[|a| + off..|a| + off + 4] == b[off..off + 4];
  }

  /** A big-endian half-word read just past a prefix is read from the rest. */
  lemma Be16After(a: seq<Byte>, b: seq<Byte>, off: nat)
    requires off + 2 <= |b|
    ensures Be16(a + b, |a| + off) == Be16(b, off)
  {
    assert (a + b)[|a| + off..|a| + off + 2] == b[off..off + 2];
  }
}
