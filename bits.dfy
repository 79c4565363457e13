/** Bitwise AND on non-negative integers and the power-of-two facts behind the
    pool's index mask `head & (POOL_SIZE - 1)`. */
module Bits {

  import Wire

  /** `a & b` on unsigned integers, bit by bit from the least significant end. */
  function BitAnd(a: nat, b: nat): (r: nat)
    ensures r <= a && r <= b
    decreases a
  {
    if a == 0 || b == 0 then 0
    else 2 * BitAnd(a / 2, b / 2) + (if a % 2 == 1 && b % 2 == 1 then 1 else 0)
  }

  predicate IsPowerOfTwo(n: nat)
    decreases n
  {
    n == 1 || (n >= 2 && n % 2 == 0 && IsPowerOfTwo(n / 2))
  }

  lemma {:induction false} BitAndSelf(a: nat)
    ensures BitAnd(a, a) == a
    decreases a
  {
    if a != 0 {
      BitAndSelf(a / 2);
    }
  }

  /** The compile-time test `(N & (N - 1)) == 0` holds of a positive N exactly
      when N is a power of two. */
  lemma {:induction false} SingleBitTest(n: nat)
    requires n >= 1
    ensures BitAnd(n, n - 1) == 0 <==> IsPowerOfTwo(n)
    decreases n
  {
    if n == 1 {
    } else if n % 2 == 0 {
      var m := n / 2;
      assert (n - 1) / 2 == m - 1 && (n - 1) % 2 == 1;
      SingleBitTest(m);
      assert BitAnd(n, n - 1) == 2 * BitAnd(m, m - 1);
    } else {
      var m := n / 2;
      assert (n - 1) / 2 == m && (n - 1) % 2 == 0;
      BitAndSelf(m);
      assert BitAnd(n, n - 1) == 2 * m;
      assert !IsPowerOfTwo(n);
    }
  }

  lemma HalfRemainder(x: nat, m: nat)
    requires m >= 1
    ensures 2 * ((x / 2) % m) + x % 2 == x % (2 * m)
  {
    var q := x / 2;
    var a := q / m;
    var b := q % m;
    assert q == m * a + b;
    assert x == (2 * m) * a + (2 * b + x % 2);
    assert 0 <= 2 * b + x % 2 < 2 * m;
    Wire.DivMod(x, 2 * m, a, 2 * b + x % 2);
  }

  /** Masking with `N - 1` is reduction modulo N when N is a power of two. */
  lemma {:induction false} MaskIsMod(x: nat, n: nat)
    requires IsPowerOfTwo(n)
    ensures BitAnd(x, n - 1) == x % n
    decreases n
  {
    if n == 1 {
    } else {
      var m := n / 2;
      MaskIsMod(x / 2, m);
      if x != 0 {
        assert (n - 1) / 2 == m - 1 && (n - 1) % 2 == 1;
        assert BitAnd(x, n - 1) == 2 * BitAnd(x / 2, m - 1) + x % 2;
      }
      HalfRemainder(x, m);
    }
  }

  lemma {:induction false} PowerOfTwoAtLeastOne(n: nat)
    requires IsPowerOfTwo(n)
    ensures n >= 1
  {
  }
}
