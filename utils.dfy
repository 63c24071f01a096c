/**
 * utils_next_pow2 (utils.c) rounds a size_t up to the next power of two: it
 * decrements n, smears the highest set bit into every lower position with
 * six shift-or steps, and increments the result. The size_t is modelled as a
 * 64-bit word written out bit by bit (least significant bit first), so that
 * the decrement and increment wrap around exactly as unsigned C arithmetic does.
 */
module Utils {
  import opened Words

  /** Bits of size_t on the platforms efind targets (UINTPTR_MAX == 0xffffffffffffffff). */
  const WordBits: nat := 64

  /** The unsigned value of a word, least significant bit first. */
  function Value(w: seq<bool>): (v: nat)
    ensures v < Pow2(|w|)
  {
    if w == [] then 0 else (if w[0] then 1 else 0) + 2 * Value(w[1..])
  }

  function Zeros(k: nat): (z: seq<bool>)
    ensures |z| == k && forall i :: 0 <= i < k ==> !z[i]
  {
    seq(k, i => false)
  }

  /** The k-bit word holding n. */
  function FromNat(n: nat, k: nat): (w: seq<bool>)
    requires n < Pow2(k)
    ensures |w| == k && Value(w) == n
  {
    if k == 0 then [] else [n % 2 == 1] + FromNat(n / 2, k - 1)
  }

  /** w - 1 with the borrow rippling up; 0 wraps around to all ones. */
  function Dec(w: seq<bool>): (r: seq<bool>)
    ensures |r| == |w|
  {
    if w == [] then [] else if w[0] then [false] + w[1..] else [true] + Dec(w[1..])
  }

  /** w + 1 with the carry rippling up; all ones wraps around to 0. */
  function Inc(w: seq<bool>): (r: seq<bool>)
    ensures |r| == |w|
  {
    if w == [] then [] else if w[0] then [false] + Inc(w[1..]) else [true] + w[1..]
  }

  /** w >> k. */
  function Shr(w: seq<bool>, k: nat): (r: seq<bool>)
    ensures |r| == |w|
    ensures forall i :: 0 <= i < |w| ==> r[i] == (i + k < |w| && w[i + k])
  {
    if k >= |w| then Zeros(|w|) else w[k..] + Zeros(k)
  }

  /** a | b. */
  function Or(a: seq<bool>, b: seq<bool>): (r: seq<bool>)
    requires |a| == |b|
    ensures |r| == |a| && forall i :: 0 <= i < |a| ==> r[i] == (a[i] || b[i])
  {
    seq(|a|, i requires 0 <= i < |a| => a[i] || b[i])
  }

  /** One line of the cascade: n = (n >> k) | n. */
  function SmearStep(w: seq<bool>, k: nat): (r: seq<bool>)
    ensures |r| == |w|
  {
    Or(Shr(w, k), w)
  }

  /** The shift-or cascade of utils_next_pow2 on n - 1. */
  function Smear(m: seq<bool>): (r: seq<bool>)
    ensures |r| == |m|
  {
    SmearStep(SmearStep(SmearStep(SmearStep(SmearStep(SmearStep(m, 1), 2), 4), 8), 16), 32)
  }

  /** utils_next_pow2 on a 64-bit size_t. */
  function NextPow2(n: seq<bool>): (r: seq<bool>)
    requires |n| == WordBits
    ensures |r| == WordBits
  {
    Inc(Smear(Dec(n)))
  }

  /** Some bit of m at a position in [i, i + c) is set. */
  predicate Covered(m: seq<bool>, i: nat, c: nat)
  {
    exists j :: i <= j < i + c && j < |m| && m[j]
  }

  /** After the shifts 1, 2, ..., c/2, bit i is set iff some bit of m in [i, i + c) is. */
  predicate Smeared(x: seq<bool>, m: seq<bool>, c: nat)
  {
    |x| == |m| && forall i :: 0 <= i < |m| ==> (x[i] <==> Covered(m, i, c))
  }

  lemma SmearStepDoubles(x: seq<bool>, m: seq<bool>, c: nat)
    requires c >= 1 && Smeared(x, m, c)
    ensures Smeared(SmearStep(x, c), m, 2 * c)
  {
    var y := SmearStep(x, c);
    forall i | 0 <= i < |m|
      ensures y[i] <==> Covered(m, i, 2 * c)
    {
      assert y[i] == (x[i] || (i + c < |m| && x[i + c]));
      if Covered(m, i, 2 * c) {
        var j :| i <= j < i + 2 * c && j < |m| && m[j];
        if j >= i + c {
          assert Covered(m, i + c, c);
        } else {
          assert Covered(m, i, c);
        }
      }
    }
  }

  /** After the whole cascade on a 64-bit word, bit i is set iff some bit at or above i is set. */
  lemma SmearCovers(m: seq<bool>)
    requires |m| == WordBits
    ensures forall i :: 0 <= i < |m| ==> (Smear(m)[i] <==> Covered(m, i, |m|))
  {
    assert Smeared(m, m, 1) by {
      forall i | 0 <= i < |m| ensures m[i] <==> Covered(m, i, 1) {
        if m[i] { assert i <= i < i + 1; }
      }
    }
    var x := m;
    SmearStepDoubles(x, m, 1);
    x := SmearStep(x, 1);
    SmearStepDoubles(x, m, 2);
    x := SmearStep(x, 2);
    SmearStepDoubles(x, m, 4);
    x := SmearStep(x, 4);
    SmearStepDoubles(x, m, 8);
    x := SmearStep(x, 8);
    SmearStepDoubles(x, m, 16);
    x := SmearStep(x, 16);
    SmearStepDoubles(x, m, 32);
    x := SmearStep(x, 32);
    assert x == Smear(m);
  }

  lemma {:induction false} ValueZeros(k: nat)
    ensures Value(Zeros(k)) == 0
    decreases k
  {
    if k > 0 {
      assert Zeros(k)[1..] == Zeros(k - 1);
      ValueZeros(k - 1);
    }
  }

  /** A word whose highest set bit is h lies in [2^h, 2^(h+1)). */
  lemma {:induction false} ValueTopBit(w: seq<bool>, h: nat)
    requires h < |w| && w[h] && forall j :: h < j < |w| ==> !w[j]
    ensures Pow2(h) <= Value(w) < Pow2(h + 1)
    decreases h
  {
    if h == 0 {
      assert w[1..] == Zeros(|w| - 1);
      ValueZeros(|w| - 1);
    } else {
      ValueTopBit(w[1..], h - 1);
    }
  }

  /** A word with no bit set at or above position h is below 2^h. */
  lemma {:induction false} ValueBelow(w: seq<bool>, h: nat)
    requires h <= |w| && forall j :: h <= j < |w| ==> !w[j]
    ensures Value(w) < Pow2(h)
    decreases h
  {
    if h == 0 {
      assert w == Zeros(|w|);
      ValueZeros(|w|);
    } else if w != [] {
      ValueBelow(w[1..], h - 1);
    }
  }

  /** Dec subtracts one, wrapping 0 around to 2^k - 1. */
  lemma {:induction false} DecValue(w: seq<bool>)
    ensures Value(Dec(w)) == if Value(w) == 0 then Pow2(|w|) - 1 else Value(w) - 1
    decreases |w|
  {
    if w != [] {
      DecValue(w[1..]);
      if w[0] {
        assert Dec(w)[1..] == w[1..];
      } else {
        assert Dec(w)[1..] == Dec(w[1..]);
      }
    }
  }

  /** Inc adds one, wrapping 2^k - 1 around to 0. */
  lemma {:induction false} IncValue(w: seq<bool>)
    ensures Value(Inc(w)) == if Value(w) + 1 == Pow2(|w|) then 0 else Value(w) + 1
    decreases |w|
  {
    if w != [] {
      IncValue(w[1..]);
      if w[0] {
        assert Inc(w)[1..] == Inc(w[1..]);
      } else {
        assert Inc(w)[1..] == w[1..];
      }
    }
  }

  /** A word of h ones followed by zeros has the value 2^h - 1. */
  lemma {:induction false} ValueLowOnes(w: seq<bool>, h: nat)
    requires h <= |w| && forall i :: 0 <= i < |w| ==> (w[i] <==> i < h)
    ensures Value(w) == Pow2(h) - 1
    decreases h
  {
    if h == 0 {
      assert w == Zeros(|w|);
      ValueZeros(|w|);
    } else {
      ValueLowOnes(w[1..], h - 1);
    }
  }

  /** A word of value 0 has no bit set. */
  lemma {:induction false} ValueZeroClear(w: seq<bool>)
    ensures Value(w) == 0 <==> forall i :: 0 <= i < |w| ==> !w[i]
    decreases |w|
  {
    if w != [] {
      ValueZeroClear(w[1..]);
      assert forall i :: 1 <= i < |w| ==> w[i] == w[1..][i - 1];
    }
  }

  /** Smearing a non-zero word with highest bit h sets exactly the bits 0..h. */
  lemma SmearTop(m: seq<bool>, h: nat)
    requires |m| == WordBits && h < |m| && m[h] && forall j :: h < j < |m| ==> !m[j]
    ensures forall i :: 0 <= i < |m| ==> (Smear(m)[i] <==> i < h + 1)
  {
    SmearCovers(m);
    forall i | 0 <= i < |m| ensures Smear(m)[i] <==> i < h + 1 {
      if i <= h {
        assert i <= h < i + |m|;
      }
    }
  }

  /** Smearing the zero word gives the zero word. */
  lemma SmearZero(m: seq<bool>)
    requires |m| == WordBits && forall j :: 0 <= j < |m| ==> !m[j]
    ensures forall i :: 0 <= i < |m| ==> (Smear(m)[i] <==> i < 0)
  {
    SmearCovers(m);
  }

  /** The value of utils_next_pow2 when n - 1 has highest bit h, or is 0 (h + 1 = 0). */
  lemma {:induction false} NextPow2OfSmear(m: seq<bool>, k: nat)
    requires |m| == WordBits && k < WordBits
    requires forall i :: 0 <= i < |m| ==> (Smear(m)[i] <==> i < k)
    ensures Value(Inc(Smear(m))) == Pow2(k)
  {
    var s := Smear(m);
    ValueLowOnes(s, k);
    Pow2Monotone(k + 1, 64);
    IncValue(s);
  }

  /** n - 1 and the value of utils_next_pow2 when n - 1 is 0 or has highest bit h (k = 0 or h + 1). */
  lemma NextPow2Value(n: seq<bool>) returns (k: nat)
    requires |n| == WordBits && 1 <= Value(n) <= Two63
    ensures k <= 63 && Value(NextPow2(n)) == Pow2(k)
    ensures k == 0 <==> Value(n) == 1
    ensures k > 0 ==> Pow2(k - 1) <= Value(n) - 1 < Pow2(k)
  {
    hide Pow2, Smear, Inc, Dec;
    var m := Dec(n);
    DecValue(n);
    if Value(m) == 0 {
      ValueZeroClear(m);
      SmearZero(m);
      NextPow2OfSmear(m, 0);
      k := 0;
    } else {
      var h := TopBit(m);
      ValueTopBit(m, h);
      Pow2Value63();
      Pow2Order(h, 63);
      SmearTop(m, h);
      NextPow2OfSmear(m, h + 1);
      k := h + 1;
    }
  }

  /**
   * For 1 <= n <= 2^63, utils_next_pow2 returns a power of two r with
   * n <= r < 2n: the smallest power of two that is at least n.
   */
  lemma NextPow2Bounds(n: seq<bool>)
    requires |n| == WordBits && 1 <= Value(n) <= Two63
    ensures IsPow2(Value(NextPow2(n)))
    ensures Value(n) <= Value(NextPow2(n)) < 2 * Value(n)
  {
    hide Pow2, NextPow2;
    var k := NextPow2Value(n);
    Pow2Succ(if k == 0 then 0 else k - 1);
    Pow2IsPow2(k);
  }

  /** utils_next_pow2 is the least power of two that is at least n. */
  lemma NextPow2Least(n: seq<bool>, j: nat)
    requires |n| == WordBits && 1 <= Value(n) <= Two63 && Value(n) <= Pow2(j)
    ensures Value(NextPow2(n)) <= Pow2(j)
  {
    hide Pow2, NextPow2;
    var k := NextPow2Value(n);
    if k > 0 {
      Pow2Order(k - 1, j);
      Pow2Order(k, j);
    } else {
      Pow2Order(0, j);
    }
  }

  /** A power of two up to 2^63 is returned unchanged. */
  lemma NextPow2OfPow2(n: seq<bool>, j: nat)
    requires |n| == WordBits && j <= 63 && Value(n) == Pow2(j)
    ensures Value(NextPow2(n)) == Value(n)
  {
    hide Pow2, NextPow2;
    Pow2Value63();
    Pow2Order(j, 63);
    var k := NextPow2Value(n);
    NextPow2Least(n, j);
    if k > 0 {
      Pow2Order(j, k - 1);
    }
    Pow2Order(k, j);
  }

  /** n = 0 wraps around: n - 1 is all ones, so is the smear, and adding one gives 0. */
  lemma NextPow2OfZero(n: seq<bool>)
    requires |n| == WordBits && Value(n) == 0
    ensures Value(NextPow2(n)) == 0
  {
    hide Pow2, Smear, Inc, Dec;
    var m := Dec(n);
    DecValue(n);
    OnesValue(m);
    SmearCovers(m);
    var s := Smear(m);
    forall i | 0 <= i < |s| ensures s[i] {
      assert m[i] && i <= i < i + |m|;
    }
    ValueLowOnes(s, |s|);
    IncValue(s);
  }

  /** A word is all ones exactly when its value is 2^k - 1. */
  lemma {:induction false} OnesValue(w: seq<bool>)
    ensures Value(w) == Pow2(|w|) - 1 <==> forall i :: 0 <= i < |w| ==> w[i]
    decreases |w|
  {
    if w != [] {
      OnesValue(w[1..]);
      assert forall i :: 1 <= i < |w| ==> w[i] == w[1..][i - 1];
    }
  }

  /** utils_next_pow2 on a size_t given by its value. */
  function NextPow2Nat(n: nat): (r: nat)
    requires n < Two64
  {
    Pow2Value64();
    Value(NextPow2(FromNat(n, WordBits)))
  }

  /** The value form of NextPow2Bounds and NextPow2Least, as the buffer uses it. */
  lemma {:induction false} NextPow2NatBounds(n: nat, j: nat)
    requires 1 <= n <= Two63
    ensures IsPow2(NextPow2Nat(n)) && n <= NextPow2Nat(n) < 2 * n
    ensures n <= Pow2(j) ==> NextPow2Nat(n) <= Pow2(j)
  {
    Pow2Value64();
    var w := FromNat(n, WordBits);
    NextPow2Bounds(w);
    if n <= Pow2(j) {
      NextPow2Least(w, j);
    }
  }

  /** Above 2^63 there is no 64-bit power of two left: n - 1 has bit 63 set, and the result wraps to 0. */
  lemma NextPow2Wraps(n: seq<bool>)
    requires |n| == WordBits && Value(n) > Two63
    ensures Value(NextPow2(n)) == 0
  {
    hide Pow2, Smear, Inc, Dec;
    var m := Dec(n);
    DecValue(n);
    Pow2Value63();
    var h := TopBit(m);
    ValueTopBit(m, h);
    Pow2Order(63, h + 1);
    assert h == 63;
    SmearTop(m, h);
    var s := Smear(m);
    ValueLowOnes(s, |s|);
    IncValue(s);
  }

  /** The value form of NextPow2Wraps and NextPow2OfZero. */
  lemma NextPow2NatWraps(n: nat)
    requires n == 0 || Two63 < n < Two64
    ensures NextPow2Nat(n) == 0
  {
    Pow2Value64();
    var w := FromNat(n, WordBits);
    if n == 0 {
      NextPow2OfZero(w);
    } else {
      NextPow2Wraps(w);
    }
  }

  lemma Pow2Value64()
    ensures Pow2(64) == Two64
  {
    Pow2Value63();
  }

  /** Any set bit i makes the value at least 2^i. */
  lemma {:induction false} ValueTopBitAny(w: seq<bool>, i: nat)
    requires i < |w| && w[i]
    ensures Value(w) >= Pow2(i)
    decreases i
  {
    if i > 0 {
      ValueTopBitAny(w[1..], i - 1);
    }
  }

  /** The position of the highest set bit of a non-zero word. */
  function TopBit(w: seq<bool>): (h: nat)
    requires Value(w) > 0
    ensures h < |w| && w[h] && forall j :: h < j < |w| ==> !w[j]
    decreases |w|
  {
    if w[|w| - 1] then |w| - 1
    else
      ValuePrefix(w);
      TopBit(w[..|w| - 1])
  }

  /** Dropping a clear top bit keeps the value. */
  lemma {:induction false} ValuePrefix(w: seq<bool>)
    requires w != [] && !w[|w| - 1]
    ensures Value(w[..|w| - 1]) == Value(w)
    decreases |w|
  {
    if |w| > 1 {
      ValuePrefix(w[1..]);
      assert w[1..][..|w| - 2] == w[..|w| - 1][1..];
    } else {
      assert w[..0] == [];
    }
  }
}
