// Arithmetic shared by the ring models: powers of two and wrapping counters.

module Arith {
  const W16: nat := 0x1_0000
  const W32: nat := 0x1_0000_0000
  const W64: nat := 0x1_0000_0000_0000_0000

  function Pow2(k: nat): (p: nat)
    ensures p > 0
  {
    if k == 0 then 1 else 2 * Pow2(k - 1)
  }

  ghost predicate PowerOfTwo(n: nat) {
    exists k: nat :: n == Pow2(k)
  }

  /** Unsigned subtraction of 32-bit registers, with wrap-around. */
  function Sub32(a: nat, b: nat): nat {
    (a - b) % W32
  }

  /** Unsigned subtraction of 64-bit registers, with wrap-around. */
  function Sub64(a: nat, b: nat): nat {
    (a - b) % W64
  }

  lemma {:induction false} Pow2Adds(a: nat, b: nat)
    ensures Pow2(a + b) == Pow2(a) * Pow2(b)
  {
    if a != 0 {
      Pow2Adds(a - 1, b);
      assert Pow2(a + b) == 2 * Pow2(a - 1 + b);
      assert 2 * (Pow2(a - 1) * Pow2(b)) == (2 * Pow2(a - 1)) * Pow2(b);
    }
  }

  lemma {:induction false} Pow2Monotone(a: nat, b: nat)
    requires a < b
    ensures Pow2(a) < Pow2(b)
    decreases b
  {
    if a + 1 < b {
      Pow2Monotone(a, b - 1);
    }
  }

  /** A power of two below another one divides it. */
  lemma SmallerPowerDivides(n: nat, k: nat)
    requires PowerOfTwo(n) && n <= Pow2(k)
    ensures exists q: nat :: q > 0 && Pow2(k) == n * q
  {
    var j: nat :| n == Pow2(j);
    if j > k {
      Pow2Monotone(k, j);
    } else {
      Pow2Adds(j, k - j);
      assert Pow2(k) == n * Pow2(k - j);
    }
  }

  lemma MulMod(a: nat, b: nat, x: nat)
    requires a > 0
    ensures (a * b + x) % a == x % a
  {
    ModUnique(a * b + x, a, b + x / a, x % a);
  }

  /** A nonzero multiple of n is at least n away from zero. */
  lemma Scale(n: nat, d: int)
    ensures d >= 1 ==> n * d >= n
    ensures d <= 0 ==> n * d <= 0
    ensures d <= -1 ==> n * d + n <= 0
  {
  }

  lemma ModUnique(x: int, n: nat, q: int, r: int)
    requires n > 0 && 0 <= r < n && x == n * q + r
    ensures x % n == r && x / n == q
  {
    var d := x / n - q;
    assert n * (x / n) + x % n == x;
    assert n * d == r - x % n by {
      assert n * d == n * (x / n) - n * q;
    }
    Scale(n, d);
  }

  /** Reducing a wrapped counter to a ring index agrees with reducing the true count. */
  lemma WrapThenIndex(x: nat, w: nat, n: nat, q: nat)
    requires n > 0 && q > 0 && w == n * q
    ensures (x % w) % n == x % n
  {
    var hi := x / w;
    assert x == w * hi + x % w;
    Regroup(n, q, hi);
    MulMod(n, q * hi, x % w);
  }

  lemma Regroup(a: nat, b: nat, c: nat)
    ensures (a * b) * c == a * (b * c)
  {
  }

  /** A ring index: a wrapped 32-bit counter masked by a power-of-two size. */
  lemma Index32(x: nat, n: nat)
    requires PowerOfTwo(n) && n <= W32
    ensures (x % W32) % n == x % n
  {
    Pow2Is32();
    SmallerPowerDivides(n, 32);
    var q: nat :| q > 0 && Pow2(32) == n * q;
    WrapThenIndex(x, W32, n, q);
  }

  lemma Index16(x: nat, n: nat)
    requires PowerOfTwo(n) && n <= W16
    ensures (x % W16) % n == x % n
  {
    Pow2Is16();
    SmallerPowerDivides(n, 16);
    var q: nat :| q > 0 && Pow2(16) == n * q;
    WrapThenIndex(x, W16, n, q);
  }

  lemma Pow2Is16()
    ensures Pow2(16) == W16
  {
    Pow2Adds(8, 8);
    assert Pow2(8) == 256 by { Pow2Adds(4, 4); }
  }

  lemma Pow2Is32()
    ensures Pow2(32) == W32
  {
    Pow2Is16();
    Pow2Adds(16, 16);
  }

  lemma Pow2Is64()
    ensures Pow2(64) == W64
  {
    Pow2Is32();
    Pow2Adds(32, 32);
  }

  /** Distinct counts closer than the ring size fall on distinct ring slots. */
  lemma SlotsDistinct(a: nat, b: nat, n: nat)
    requires a < b < a + n
    ensures a % n != b % n
  {
    if a % n == b % n {
      assert b - a == n * (b / n - a / n) by {
        assert a == n * (a / n) + a % n;
        assert b == n * (b / n) + b % n;
        assert n * (b / n - a / n) == n * (b / n) - n * (a / n);
      }
      Scale(n, b / n - a / n);
    }
  }

  /** The difference of two wrapped counters is their true distance, when that fits. */
  lemma WrappedDistance(a: nat, b: nat, w: nat)
    requires b <= a < b + w
    ensures (a % w - b % w) % w == a - b
  {
    var q := a / w - b / w;
    assert a == w * (a / w) + a % w;
    assert b == w * (b / w) + b % w;
    assert w * q == w * (a / w) - w * (b / w);
    ModUnique(a % w - b % w, w, -q, a - b) by {
      assert w * (-q) == -(w * q);
    }
  }

  /** Adding one to a wrapped counter is the wrapped successor. */
  lemma WrappedNext(a: nat, w: nat)
    requires w > 1
    ensures (a % w + 1) % w == (a + 1) % w
  {
    var q := a / w;
    assert a + 1 == w * q + (a % w + 1);
    MulMod(w, q, a % w + 1);
  }
}
