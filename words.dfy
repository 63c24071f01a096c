/**
 * Fixed-width integer facts shared by the modules: powers of two, and the
 * wrap-around of C's 32-bit int, 64-bit size_t and the int64 reinterpretation
 * of a uint64.
 */
module Words {
  const Two31: nat := 0x8000_0000
  const Two32: nat := 0x1_0000_0000
  const Two63: nat := 0x8000_0000_0000_0000
  const Two64: nat := 0x1_0000_0000_0000_0000
  const Int32Max: int := 0x7FFF_FFFF
  const Int32Min: int := -0x8000_0000
  const Int64Max: int := 0x7FFF_FFFF_FFFF_FFFF

  /** C `int`. */
  type Int32 = i: int | -0x8000_0000 <= i < 0x8000_0000

  function Pow2(k: nat): (r: nat)
    ensures r >= 1
  {
    if k == 0 then 1 else 2 * Pow2(k - 1)
  }

  /** A product computed in 32-bit two's complement, as a wrapping C int. */
  function Wrap32(x: int): (r: Int32)
    ensures (r - x) % Two32 == 0
    ensures Int32Min <= x <= Int32Max ==> r == x
  {
    var m := x % Two32;
    if m >= Two31 then m - Two32 else m
  }

  /** A uint64 read back as int64. */
  function ToInt64(b: nat): (r: int)
    requires b < Two64
    ensures 0 - Two63 <= r <= Int64Max && (r - b) % Two64 == 0
    ensures b <= Int64Max ==> r == b
  {
    if b > Int64Max then b - Two64 else b
  }

  lemma {:induction false} Pow2Monotone(i: nat, j: nat)
    requires i <= j
    ensures Pow2(i) <= Pow2(j)
    decreases j
  {
    if i < j { Pow2Monotone(i, j - 1); }
  }

  /** Doubling a power of two below 2^63 stays within 2^63. */
  lemma {:induction false} Pow2Double(k: nat)
    requires Pow2(k) < Two63
    ensures k < 63 && 2 * Pow2(k) <= Two63
  {
    if k >= 63 {
      Pow2Monotone(63, k);
      assert Pow2(63) == Two63 by { Pow2Value63(); }
    }
    assert Pow2(63) == Two63 by { Pow2Value63(); }
    Pow2Monotone(k + 1, 63);
  }

  lemma {:induction false} Pow2Add(a: nat, b: nat)
    ensures Pow2(a + b) == Pow2(a) * Pow2(b)
    decreases a
  {
    if a > 0 {
      Pow2Add(a - 1, b);
      assert Pow2(a + b) == 2 * Pow2(a - 1 + b);
    }
  }

  /** x is a power of two: 1, or an even number whose half is one. */
  predicate IsPow2(x: nat)
    decreases x
  {
    x == 1 || (x > 1 && x % 2 == 0 && IsPow2(x / 2))
  }

  lemma {:induction false} Pow2IsPow2(k: nat)
    ensures IsPow2(Pow2(k))
    decreases k
  {
    if k > 0 {
      Pow2IsPow2(k - 1);
      assert Pow2(k) / 2 == Pow2(k - 1);
    }
  }

  lemma Pow2Succ(k: nat)
    ensures Pow2(0) == 1 && Pow2(k + 1) == 2 * Pow2(k)
  {
  }

  /** Powers of two are ordered as their exponents. */
  lemma {:induction false} Pow2Order(a: nat, b: nat)
    ensures a <= b <==> Pow2(a) <= Pow2(b)
    ensures a < b <==> Pow2(a) < Pow2(b)
    decreases a
  {
    if a > 0 && b > 0 {
      Pow2Order(a - 1, b - 1);
    } else if a > 0 {
      Pow2Monotone(1, a);
    } else if b > 0 {
      Pow2Monotone(1, b);
    }
  }

  lemma Pow2Value63()
    ensures Pow2(63) == Two63
  {
    assert Pow2(7) == 128;
    Pow2Add(7, 7);
    Pow2Add(14, 14);
    Pow2Add(28, 28);
    Pow2Add(56, 7);
  }
}
