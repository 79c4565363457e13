/** `BBOPool`: a fixed array of POOL_SIZE records handed out round-robin by one
    wrapping 32-bit cursor. Acquire never fails and release does nothing. */
module BboPool {

  import opened Wire
  import opened Bits
  import opened BboData

  /** The cursor after `k` acquisitions starting from `h0`. */
  function HeadAfter(h0: U32, k: nat): (r: U32)
    ensures h0 + k < TWO_32 ==> r == h0 + k
    ensures k % TWO_32 == 0 ==> r == h0
  {
    DivMod(k, TWO_32, k / TWO_32, k % TWO_32);
    if k % TWO_32 == 0 then
      DivMod(h0 + k, TWO_32, k / TWO_32, h0);
      (h0 + k) % TWO_32
    else
      (h0 + k) % TWO_32
  }

  /** The slot index handed out by the `k`-th acquisition (counting from 0)
      after the cursor stood at `h0`, in a pool of `n` slots. */
  function SlotAfter(h0: U32, k: nat, n: nat): (r: nat)
    requires n >= 1
    ensures r < n
  {
    HeadAfter(h0, k) % n
  }

  lemma {:induction false} HeadAfterStep(h0: U32, k: nat)
    ensures Inc32(HeadAfter(h0, k)) == HeadAfter(h0, k + 1)
  {
    ModAddOne(h0 + k, TWO_32);
  }

  lemma ModAddOne(x: nat, m: nat)
    requires m >= 1
    ensures (x + 1) % m == if x % m == m - 1 then 0 else x % m + 1
  {
    ModAdd(x, 1, m);
    var r := x % m;
    if r == m - 1 {
      DivMod(r + 1, m, 1, 0);
    } else {
      DivMod(r + 1, m, 0, r + 1);
    }
  }

  /** Adding to a number adds to its residue. */
  lemma ModAdd(x: nat, d: nat, m: nat)
    requires m >= 1
    ensures (x + d) % m == (x % m + d) % m
  {
    var q, r := x / m, x % m;
    var q2, r2 := (r + d) / m, (r + d) % m;
    assert x == m * q + r;
    assert r + d == m * q2 + r2;
    assert x + d == m * (q + q2) + r2;
    DivMod(x + d, m, q + q2, r2);
  }

  /** Reducing modulo a multiple of `n` keeps the residue modulo `n`. */
  lemma ModOfMultipleMod(x: nat, n: nat, c: nat)
    requires n >= 1 && c >= 1
    ensures (x % (n * c)) % n == x % n
  {
    var m := n * c;
    var q, r := x / m, x % m;
    var q2, r2 := r / n, r % n;
    assert x == m * q + r;
    assert r == n * q2 + r2;
    assert m * q == n * (c * q);
    assert x == n * (c * q + q2) + r2;
    DivMod(x, n, c * q + q2, r2);
  }

  function Pow2(k: nat): (r: nat)
  {
    if k == 0 then 1 else 2 * Pow2(k - 1)
  }

  lemma {:induction false} Pow2IsPowerOfTwo(k: nat)
    ensures IsPowerOfTwo(Pow2(k))
  {
    if k > 0 {
      Pow2IsPowerOfTwo(k - 1);
      assert Pow2(k) / 2 == Pow2(k - 1);
    }
  }

  lemma {:induction false} Pow2Add(a: nat, b: nat)
    ensures Pow2(a + b) == Pow2(a) * Pow2(b)
    decreases b
  {
    if b > 0 {
      Pow2Add(a, b - 1);
      assert Pow2(a + b) == 2 * Pow2(a + (b - 1));
    }
  }

  lemma Pow2Of32()
    ensures Pow2(32) == TWO_32
  {
    assert Pow2(8) == 0x100;
    Pow2Add(8, 8);
    Pow2Add(16, 16);
  }

  /** A power of two no larger than 2^k divides 2^k. */
  lemma {:induction false} PowerOfTwoDividesPow2(n: nat, k: nat)
    requires IsPowerOfTwo(n) && n <= Pow2(k)
    ensures Pow2(k) % n == 0
  {
    if n == 1 {
      DivMod(Pow2(k), 1, Pow2(k), 0);
    } else {
      assert k >= 1;
      PowerOfTwoDividesPow2(n / 2, k - 1);
      var c := Pow2(k - 1) / (n / 2);
      DivMod(Pow2(k - 1), n / 2, c, 0);
      assert Pow2(k) == n * c;
      DivMod(Pow2(k), n, c, 0);
    }
  }

  /** The 32-bit wrap of the cursor is invisible in the slot sequence, because
      the pool size divides 2^32. */
  lemma SlotAfterIgnoresWrap(h0: U32, k: nat, n: nat)
    requires IsPowerOfTwo(n) && n <= TWO_32
    ensures SlotAfter(h0, k, n) == (h0 + k) % n
  {
    Pow2Of32();
    PowerOfTwoDividesPow2(n, 32);
    var c := TWO_32 / n;
    DivMod(TWO_32, n, c, 0);
    ModOfMultipleMod(h0 + k, n, c);
  }

  /** Any POOL_SIZE consecutive acquisitions hand out pairwise distinct slots. */
  lemma AcquiredSlotsDistinct(h0: U32, n: nat, i: nat, j: nat)
    requires IsPowerOfTwo(n) && n <= TWO_32
    requires i < j < i + n
    ensures SlotAfter(h0, i, n) != SlotAfter(h0, j, n)
  {
    PowerOfTwoAtLeastOne(n);
    SlotAfterIgnoresWrap(h0, i, n);
    SlotAfterIgnoresWrap(h0, j, n);
    var r := (h0 + i) % n;
    var d := j - i;
    ModAdd(h0 + i, d, n);
    if r + d < n {
      DivMod(r + d, n, 0, r + d);
    } else {
      DivMod(r + d, n, 1, r + d - n);
    }
  }

  /** The acquisition POOL_SIZE calls later hands out the same slot again: a
      slot stays un-reused for exactly POOL_SIZE further acquisitions. */
  lemma AcquiredSlotReused(h0: U32, n: nat, i: nat)
    requires IsPowerOfTwo(n) && n <= TWO_32
    ensures SlotAfter(h0, i, n) == SlotAfter(h0, i + n, n)
  {
    PowerOfTwoAtLeastOne(n);
    SlotAfterIgnoresWrap(h0, i, n);
    SlotAfterIgnoresWrap(h0, i + n, n);
    var r := (h0 + i) % n;
    ModAdd(h0 + i, n, n);
    DivMod(r + n, n, 1, r);
  }

  class BBOPool {
    /** POOL_SIZE, a template parameter of the source. */
    const size: nat
    const slots: array<BBODataFast>
    /** `head_`, the `std::atomic<uint32_t>` cursor. */
    var head: U32
    /** Which allocation path succeeded; not modelled beyond the flag. */
    var usingHugepages: bool
    /** The slot records and their symbol buffers. */
    ghost const Repr: set<object>

    /** The shape of the pool: one distinct record, with its own symbol
        buffer, per slot. */
    ghost predicate Shaped()
      reads this, slots
    {
      && this !in Repr && slots !in Repr
      && slots.Length == size
      && size >= 64 && IsPowerOfTwo(size)
      && (forall i :: 0 <= i < size ==> slots[i] in Repr && slots[i].symbol in Repr && slots[i].Valid())
      && (forall i, j :: 0 <= i < size && 0 <= j < size && i != j ==>
            slots[i] != slots[j] && slots[i].symbol != slots[j].symbol)
    }

    /** The pool invariant: its shape, and every record's padding zero (only
        `clear` writes padding). */
    ghost predicate Valid()
      reads this, slots, Repr
    {
      && Shaped()
      && (forall i :: 0 <= i < size ==> slots[i].padding == Zeros(PADDING_LEN))
    }

    /** The records of the pool, slot by slot. */
    ghost function Contents(): (s: seq<Quote>)
      reads this, slots, Repr
      requires Shaped()
      ensures |s| == size
      ensures forall i :: 0 <= i < size ==> s[i] == slots[i].Value()
    {
      seq(size, i reads this, slots, Repr requires 0 <= i < size && Shaped() => slots[i].Value())
    }

    /** The pool after `allocate_pool()` and `prefault_pool()`: cursor 0 and
        every slot cleared. The two static assertions on POOL_SIZE are the
        precondition. */
    constructor (n: nat)
      requires n >= 64 && BitAnd(n, n - 1) == 0
      ensures Valid() && fresh(slots) && fresh(Repr)
      ensures size == n && head == 0
      ensures forall i :: 0 <= i < n ==> Contents()[i] == CLEARED
    {
      SingleBitTest(n);
      var recs: seq<BBODataFast> := [];
      ghost var objs: set<object> := {};
      while |recs| < n
        invariant |recs| <= n
        invariant forall i :: 0 <= i < |recs| ==> recs[i] in objs && recs[i].symbol in objs && recs[i].Valid()
        invariant forall i, j :: 0 <= i < |recs| && 0 <= j < |recs| && i != j ==>
                    recs[i] != recs[j] && recs[i].symbol != recs[j].symbol
        invariant fresh(objs)
      {
        var r := new BBODataFast();
        recs := recs + [r];
        objs := objs + {r, r.symbol};
      }
      size := n;
      slots := new BBODataFast[n](i requires 0 <= i < n => recs[i]);
      head := 0;
      usingHugepages := false;
      Repr := objs;
      new;
      PrefaultPool();
    }

    /** `prefault_pool()`: clear every slot once. */
    method PrefaultPool()
      requires Shaped()
      modifies Repr
      ensures Valid()
      ensures forall i :: 0 <= i < size ==> Contents()[i] == CLEARED
    {
      var i := 0;
      while i < size
        invariant 0 <= i <= size && Shaped()
        invariant forall k :: 0 <= k < i ==> slots[k].Value() == CLEARED && slots[k].padding == Zeros(PADDING_LEN)
      {
        slots[i].Clear();
        i := i + 1;
      }
    }

    /** `acquire()`: hand out slot `head & (POOL_SIZE - 1)` and advance the
        cursor by one, wrapping at 2^32. No slot changes. */
    method Acquire() returns (slot: BBODataFast, idx: nat)
      requires Valid()
      modifies this`head
      ensures Valid()
      ensures idx == old(head) % size && slot == slots[idx]
      ensures head == Inc32(old(head))
      ensures Contents() == old(Contents())
    {
      MaskIsMod(head, size);
      idx := BitAnd(head, size - 1);
      head := Inc32(head);
      slot := slots[idx];
    }

    /** `release()`: intentionally a no-op. */
    method Release(slot: BBODataFast)
      requires Valid()
      ensures head == old(head) && Contents() == old(Contents())
    {
    }

    /** The first 64-bit word of a record as `warm_cache` loads it: the symbol
        bytes, little-endian. */
    static function FirstWord(q: Quote): (r: nat)
      requires |q.symbol| == SYMBOL_LEN
      ensures r < TWO_64
    {
      FirstWordFits(q.symbol);
      LittleEndian(q.symbol)
    }

    /** The plain sum of the first words of the first `k` slots. */
    static function WordSum(qs: seq<Quote>, k: nat): nat
      requires k <= |qs|
      requires forall i :: 0 <= i < |qs| ==> |qs[i].symbol| == SYMBOL_LEN
    {
      if k == 0 then 0 else WordSum(qs, k - 1) + FirstWord(qs[k - 1])
    }

    /** The wrapping sum `warm_cache` accumulates over the first `k` slots:
        the plain sum of their first words, modulo 2^64. */
    static function TouchSum(qs: seq<Quote>, k: nat): (r: U64)
      requires k <= |qs|
      requires forall i :: 0 <= i < |qs| ==> |qs[i].symbol| == SYMBOL_LEN
      ensures r == WordSum(qs, k) % TWO_64
    {
      if k == 0 then 0
      else
        ModAdd(WordSum(qs, k - 1), FirstWord(qs[k - 1]), TWO_64);
        (TouchSum(qs, k - 1) + FirstWord(qs[k - 1])) % TWO_64
    }

    /** `warm_cache()`: load the first word of every slot into a sink. The
        source discards the sink; the model returns it so that every load is
        observable. No slot and not the cursor change. */
    method WarmCache() returns (sink: U64)
      requires Valid()
      ensures sink == TouchSum(Contents(), size)
    {
      ghost var qs := Contents();
      sink := 0;
      var i := 0;
      while i < size
        invariant 0 <= i <= size
        invariant sink == TouchSum(qs, i)
      {
        var word := LittleEndian(slots[i].symbol[..]);
        assert word == FirstWord(qs[i]);
        sink := (sink + word) % TWO_64;
        i := i + 1;
      }
    }

    /** `size()`: the number of slots. */
    function Size(): (r: nat)
      reads this, slots
      requires Shaped()
      ensures r == slots.Length && r >= 64 && IsPowerOfTwo(r)
    {
      size
    }

    /** `bytes()`: the memory the slots occupy, one cache line each. */
    function Bytes(): (r: nat)
      reads this, slots
      requires Shaped()
      ensures r == slots.Length * RECORD_BYTES
    {
      size * RECORD_BYTES
    }
  }

  /** The unsigned value of bytes stored least significant byte first. */
  function LittleEndian(s: seq<Byte>): nat
  {
    if s == [] then 0 else s[0] + 0x100 * LittleEndian(s[1..])
  }

  /** `n` bytes read this way fit in `8 * n` bits. */
  lemma {:induction false} LittleEndianBound(s: seq<Byte>)
    ensures LittleEndian(s) < Pow2(8 * |s|)
  {
    if s != [] {
      LittleEndianBound(s[1..]);
      assert Pow2(8) == 0x100;
      Pow2Add(8, 8 * (|s| - 1));
    }
  }

  /** The eight symbol bytes `warm_cache` loads form one `uint64_t`. */
  lemma FirstWordFits(s: seq<Byte>)
    requires |s| == SYMBOL_LEN
    ensures LittleEndian(s) < TWO_64
  {
    LittleEndianBound(s);
    Pow2Of32();
    Pow2Add(32, 32);
  }
}
