/** ALIGN and the little divisibility theory it needs.

    A mask clears the low bits only when the alignment is a power of two, and the addition before it
    wraps on an unsigned long. AlignDown is defined by recursion, so that the proofs about pools do
    not reason about remainders. */
module Alignment {

  ghost predicate PowerOfTwo(a: nat)
  {
    a == 1 || (a > 1 && a % 2 == 0 && PowerOfTwo(a / 2))
  }

  /** x & ~(a - 1) for a power of two a: the largest multiple of a that is at most x. */
  function AlignDown(x: nat, a: nat): (r: nat)
    requires a > 0
    ensures r <= x < r + a
  {
    if x < a then 0 else a + AlignDown(x - a, a)
  }

  /** The least multiple of a that is at least x. */
  function RoundUp(x: nat, a: nat): (r: nat)
    requires a > 0
    ensures x <= r < x + a
  {
    AlignDown(x + a - 1, a)
  }

  /** A product by a is at least a away from 0, unless it is 0. */
  lemma MultipleGrows(a: int, d: int)
    requires a > 0
    ensures d >= 1 ==> a * d >= a
    ensures d <= -1 ==> a * d <= -a
  {
  }

  /** The quotient and remainder of a division are the only ones. */
  lemma Euclid(x: nat, a: nat, q: int, r: nat)
    requires a > 0 && x == a * q + r && r < a
    ensures x / a == q && x % a == r
  {
    var q', r' := x / a, x % a;
    assert x == a * q' + r';
    assert a * (q' - q) == r - r' by { assert a * (q' - q) == a * q' - a * q; }
    MultipleGrows(a, q' - q);
  }

  lemma {:induction false} AlignDownMultiple(x: nat, a: nat)
    requires a > 0
    ensures AlignDown(x, a) % a == 0
  {
    if x < a {
      Euclid(0, a, 0, 0);
    } else {
      AlignDownMultiple(x - a, a);
      var r := AlignDown(x - a, a);
      assert r == a * (r / a);
      Euclid(a + r, a, r / a + 1, 0);
    }
  }

  lemma RoundUpMultiple(x: nat, a: nat)
    requires a > 0
    ensures RoundUp(x, a) % a == 0
  {
    AlignDownMultiple(x + a - 1, a);
  }

  lemma RoundUpLeast(x: nat, a: nat, m: nat)
    requires a > 0 && m % a == 0 && x <= m
    ensures RoundUp(x, a) <= m
  {
    var r := RoundUp(x, a);
    RoundUpMultiple(x, a);
    var d := r / a - m / a;
    assert r == a * (r / a) && m == a * (m / a);
    assert r - m == a * d by { assert a * d == a * (r / a) - a * (m / a); }
    MultipleGrows(a, d);
  }

  lemma RoundUpFixed(x: nat, a: nat)
    requires a > 0 && x % a == 0
    ensures RoundUp(x, a) == x
  {
    RoundUpLeast(x, a, x);
  }

  lemma {:induction false} PowersDivide(a: nat, b: nat)
    requires PowerOfTwo(a) && PowerOfTwo(b) && a <= b
    ensures b % a == 0
  {
    if a > 1 {
      var h, q := a / 2, b / 2 / (a / 2);
      PowersDivide(h, b / 2);
      assert b / 2 == h * q;
      assert a * q == 2 * (h * q) by { assert a == 2 * h; }
      Euclid(b, a, q, 0);
    }
  }

  lemma DividesTrans(a: nat, b: nat, c: nat)
    requires a > 0 && b > 0 && b % a == 0 && c % b == 0
    ensures c % a == 0
  {
    var p, q := b / a, c / b;
    assert b == a * p && c == b * q;
    assert c == a * (p * q) by { assert (a * p) * q == a * (p * q); }
    Euclid(c, a, p * q, 0);
  }

  lemma ModSelf(a: nat)
    requires a > 0
    ensures a % a == 0
  {
    Euclid(a, a, 1, 0);
  }

  lemma RoundUpSmall(x: nat, a: nat)
    requires 0 < x <= a
    ensures RoundUp(x, a) == a
  {
    ModSelf(a);
    RoundUpLeast(x, a, a);
    var r := RoundUp(x, a);
    RoundUpMultiple(x, a);
    assert r == a * (r / a);
    MultipleGrows(a, r / a);
  }

  /** Rounding one power of two up to a multiple of another gives a multiple of both. */
  lemma RoundUpPower(a: nat, g: nat)
    requires PowerOfTwo(a) && PowerOfTwo(g)
    ensures RoundUp(a, g) % a == 0 && PowerOfTwo(RoundUp(a, g))
  {
    if a <= g {
      RoundUpSmall(a, g);
      PowersDivide(a, g);
    } else {
      PowersDivide(g, a);
      RoundUpFixed(a, g);
      ModSelf(a);
    }
  }

  // ---------------------------------------------------------------- 64-bit words

  const WORD: nat := 0x1_0000_0000_0000_0000
  const HALF_WORD: nat := 0x8000_0000_0000_0000

  /** Unsigned long arithmetic drops whole words. */
  function Wrap(x: nat): (r: nat)
    ensures r < WORD && r <= x
  {
    if x < WORD then x else Wrap(x - WORD)
  }

  lemma {:induction false} WrapIsMod(x: nat)
    ensures Wrap(x) == x % WORD
  {
    if x >= WORD {
      WrapIsMod(x - WORD);
      Euclid(x, WORD, (x - WORD) / WORD + 1, (x - WORD) % WORD);
    }
  }

  /** ALIGN(x, a) on unsigned long: the addition wraps, the mask clears the low bits. */
  function AlignWord(x: nat, a: nat): nat
    requires a > 0
  {
    AlignDown(Wrap(x + a - 1), a)
  }

  function Pow2(k: nat): (r: nat)
    ensures r > 0
  {
    if k == 0 then 1 else 2 * Pow2(k - 1)
  }

  lemma {:induction false} PowerBelow(a: nat, k: nat)
    requires PowerOfTwo(a) && a < Pow2(k + 1)
    ensures a <= Pow2(k)
  {
    if k > 0 && a > 1 { PowerBelow(a / 2, k - 1); }
  }

  lemma {:induction false} Pow2Add(j: nat, k: nat)
    ensures Pow2(j + k) == Pow2(j) * Pow2(k)
  {
    if j > 0 {
      Pow2Add(j - 1, k);
      assert Pow2(j) * Pow2(k) == 2 * (Pow2(j - 1) * Pow2(k));
    }
  }

  lemma ByteIsPower()
    ensures Pow2(8) == 256
  {
    assert Pow2(4) == 16;
    Pow2Add(4, 4);
  }

  lemma WordIsPower()
    ensures Pow2(64) == WORD && Pow2(63) == HALF_WORD
  {
    ByteIsPower();
    Pow2Add(8, 8);
    Pow2Add(16, 16);
    Pow2Add(32, 32);
    assert Pow2(64) == 2 * Pow2(63);
  }

  lemma {:induction false} Pow2IsPower(k: nat)
    ensures PowerOfTwo(Pow2(k))
  {
    if k > 0 { Pow2IsPower(k - 1); }
  }

  /** A power of two that fits a word is at most half of it. */
  lemma PowerIsHalfWord(a: nat)
    requires PowerOfTwo(a) && a < WORD
    ensures a <= HALF_WORD
  {
    WordIsPower();
    PowerBelow(a, 63);
  }

  /** In the lower half of the address space no alignment wraps ... */
  lemma AlignNoWrap(x: nat, a: nat)
    requires 0 < a <= HALF_WORD && x <= HALF_WORD
    ensures AlignWord(x, a) == RoundUp(x, a)
  {
  }

  /** ... or leaves it. */
  lemma AlignStaysLow(x: nat, a: nat)
    requires PowerOfTwo(a) && a <= HALF_WORD && x <= HALF_WORD
    ensures RoundUp(x, a) <= HALF_WORD
  {
    assert HALF_WORD % a == 0 by {
      WordIsPower();
      Pow2IsPower(63);
      PowersDivide(a, HALF_WORD);
    }
    RoundUpLeast(x, a, HALF_WORD);
  }

  /** A size whose rounding wraps is told apart by the result being smaller. */
  lemma RoundingWraps(x: nat, g: nat)
    requires x < WORD && 0 < g <= HALF_WORD
    ensures AlignWord(x, g) < x ==> RoundUp(x, g) > WORD - g
    ensures AlignWord(x, g) >= x > 0 ==> AlignWord(x, g) == RoundUp(x, g)
    ensures x == 0 ==> AlignWord(x, g) == RoundUp(x, g)
  {
    if x + g - 1 >= WORD {
      assert Wrap(x + g - 1) == x + g - 1 - WORD;
    }
  }
}
