/** Machine-word arithmetic: the bitwise AND that the alignment macros and the hash-bucket
    mask are written with, and the rounding it computes when the mask comes from a power of two. */
module Bits {

  const WORD32: nat := 0x1_0000_0000
  const WORD64: nat := 0x1_0000_0000_0000_0000

  /** Bitwise AND, bit by bit. */
  function And(x: nat, y: nat): nat {
    if x == 0 || y == 0 then 0 else (if x % 2 == 1 && y % 2 == 1 then 1 else 0) + 2 * And(x / 2, y / 2)
  }

  function Pow2(k: nat): (r: nat)
    ensures r >= 1
  {
    if k == 0 then 1 else 2 * Pow2(k - 1)
  }

  ghost predicate IsPow2(a: nat) {
    exists k: nat :: a == Pow2(k)
  }

  /** Largest multiple of `a` not above `x`. */
  function AlignDown(x: nat, a: nat): nat
    requires a > 0
  {
    x - x % a
  }

  /** Smallest multiple of `a` not below `x`. */
  function AlignUp(x: nat, a: nat): nat
    requires a > 0
  {
    AlignDown(x + (a - 1), a)
  }

  /** BAKE_ALIGN_DOWN on 64-bit words; the complement of a word w is WORD64 - 1 - w. */
  function MacroAlignDown(x: nat, a: nat): nat
    requires 0 < a <= WORD64
  {
    And(x, WORD64 - 1 - (a - 1))
  }

  /** BAKE_ALIGN_UP on 64-bit words, with the wrap-around of unsigned addition. */
  function MacroAlignUp(x: nat, a: nat): nat
    requires 0 < a <= WORD64
  {
    And((x + (a - 1)) % WORD64, WORD64 - 1 - (a - 1))
  }

  /** The alignment test of bake_file_backend_initialize on a non-negative int. */
  predicate AlignmentAccepted(a: nat)
    requires a < WORD32
  {
    And(a, (a - 1) % WORD32) == 0
  }

  // ---------- masks ----------

  /** Splitting off the lowest bit of a remainder; the doubled modulus is a parameter of its own
      so that callers never multiply. */
  lemma ModHalf(x: nat, m: nat, dbl: nat)
    requires m > 0 && dbl == 2 * m
    ensures x % dbl == x % 2 + 2 * ((x / 2) % m)
  {
    var q, r := (x / 2) / m, (x / 2) % m;
    assert x / 2 == q * m + r;
    assert x == q * dbl + (x % 2 + 2 * r);
    DivModUnique(x, dbl, q, x % 2 + 2 * r);
  }

  lemma DivModUnique(x: int, m: int, q: int, r: int)
    requires m > 0 && 0 <= r < m && x == q * m + r
    ensures x / m == q && x % m == r
  {
    var d := x / m - q;
    assert d * m == r - x % m;
    ProductBound(d, m);
  }

  lemma ProductBound(d: int, m: int)
    requires m > 0
    ensures d >= 1 ==> d * m >= m
    ensures d <= -1 ==> d * m <= -m
  {}

  lemma AndZero(x: nat, y: nat)
    requires x == 0 || y == 0
    ensures And(x, y) == 0
  {}

  /** x & (2^k - 1) is x mod 2^k: the bucket mask of HASH_TO_BKT. */
  lemma {:induction false} AndLowMask(x: nat, k: nat)
    ensures And(x, Pow2(k) - 1) == x % Pow2(k)
    decreases k
  {
    hide And;
    if k == 0 {
      AndZero(x, 0);
    } else {
      var m, dbl := Pow2(k - 1), Pow2(k);
      AndLowMask(x / 2, k - 1);
      LowMaskStep(x, m, dbl);
    }
  }

  lemma LowMaskStep(x: nat, m: nat, dbl: nat)
    requires m > 0 && dbl == 2 * m && And(x / 2, m - 1) == (x / 2) % m
    ensures And(x, dbl - 1) == x % dbl
  {
    hide And;
    ModHalf(x, m, dbl);
    AndOdd(x, m - 1, dbl - 1);
  }

  lemma AndOdd(x: nat, y: nat, z: nat)
    requires z == 2 * y + 1
    ensures And(x, z) == x % 2 + 2 * And(x / 2, y)
  {
    assert z % 2 == 1 && z / 2 == y;
  }

  /** x & (2^w - 2^k) clears the k low bits of a w-bit word. */
  lemma {:induction false} AndHighMask(x: nat, k: nat, w: nat)
    requires k <= w && x < Pow2(w)
    ensures Pow2(k) <= Pow2(w)
    ensures And(x, Pow2(w) - Pow2(k)) == x - x % Pow2(k)
    decreases w
  {
    hide And;
    if k == 0 {
      AndLowMask(x, w);
      SmallMod(x, Pow2(w));
    } else if k == w {
      SmallMod(x, Pow2(w));
      AndZero(x, 0);
    } else {
      var m, dbl := Pow2(k - 1), Pow2(k);
      AndHighMask(x / 2, k - 1, w - 1);
      ModHalf(x, m, dbl);
      AndEven(x, Pow2(w - 1) - m, Pow2(w) - dbl);
    }
  }

  lemma SmallMod(x: nat, m: nat)
    requires x < m
    ensures x % m == x
  {}

  lemma AndEven(x: nat, y: nat, z: nat)
    requires z == 2 * y
    ensures And(x, z) == 2 * And(x / 2, y)
  {
    assert z % 2 == 0 && z / 2 == y;
  }

  lemma Pow2Monotone(j: nat, k: nat)
    requires j < k
    ensures 2 * Pow2(j) <= Pow2(k)
  {
    if j + 1 < k { Pow2Monotone(j, k - 1); }
  }

  lemma Pow2Word64()
    ensures Pow2(64) == WORD64
  {
    assert Pow2(8) == 256;
    assert Pow2(16) == 0x1_0000;
    assert Pow2(24) == 0x100_0000;
    assert Pow2(32) == WORD32;
    assert Pow2(40) == 0x100_0000_0000;
    assert Pow2(48) == 0x1_0000_0000_0000;
    assert Pow2(56) == 0x100_0000_0000_0000;
  }

  /** The mask macros are exact rounding for every power-of-two alignment a 64-bit word can hold. */
  lemma MacrosRound(x: nat, k: nat)
    requires k <= 63 && x < WORD64
    ensures Pow2(k) < WORD64
    ensures MacroAlignDown(x, Pow2(k)) == AlignDown(x, Pow2(k))
    ensures x + (Pow2(k) - 1) < WORD64 ==> MacroAlignUp(x, Pow2(k)) == AlignUp(x, Pow2(k))
  {
    PowFits(k);
    MacroDownRounds(x, k);
    var y := x + (Pow2(k) - 1);
    if y < WORD64 {
      SmallMod(y, WORD64);
      MacroDownRounds(y, k);
    }
  }

  lemma PowFits(k: nat)
    requires k <= 63
    ensures Pow2(k) < WORD64
  {
    Pow2Word64();
    Pow2Monotone(k, 64);
  }

  lemma MacroDownRounds(x: nat, k: nat)
    requires k <= 63 && x < WORD64 && Pow2(k) < WORD64
    ensures MacroAlignDown(x, Pow2(k)) == AlignDown(x, Pow2(k))
  {
    Pow2Word64();
    AndHighMask(x, k, 64);
  }

  /** The initialize-time test lets through exactly zero and the powers of two. */
  lemma {:induction false} AlignmentTest(a: nat)
    requires a < WORD32
    ensures AlignmentAccepted(a) <==> a == 0 || IsPow2(a)
  {
    if a > 0 { PowerTest(a); }
  }

  lemma {:induction false} PowerTest(a: nat)
    requires a > 0
    ensures And(a, a - 1) == 0 <==> IsPow2(a)
  {
    hide And;
    if a == 1 {
      assert a == Pow2(0);
      AndZero(a, 0);
    } else if a % 2 == 0 {
      PowerTest(a / 2);
      AndOfEven(a);
      PowerOfEven(a);
    } else {
      AndOfOdd(a);
      OddIsNoPower(a);
    }
  }

  lemma AndOfEven(a: nat)
    requires a >= 2 && a % 2 == 0
    ensures And(a, a - 1) == 2 * And(a / 2, a / 2 - 1)
  {
    hide And;
    AndOdd(a, a / 2 - 1, a - 1);
  }

  lemma AndOfOdd(a: nat)
    requires a >= 2 && a % 2 == 1
    ensures And(a, a - 1) == 2 * (a / 2)
  {
    hide And;
    AndEven(a, a / 2, a - 1);
    AndSelf(a / 2);
  }

  lemma PowerOfEven(a: nat)
    requires a >= 2 && a % 2 == 0
    ensures IsPow2(a) <==> IsPow2(a / 2)
  {
    if IsPow2(a / 2) {
      var k: nat :| a / 2 == Pow2(k);
      assert a == Pow2(k + 1);
    }
    if IsPow2(a) {
      var k: nat :| a == Pow2(k);
      assert a / 2 == Pow2(k - 1);
    }
  }

  lemma OddIsNoPower(a: nat)
    requires a >= 2 && a % 2 == 1
    ensures !IsPow2(a)
  {
    forall k: nat ensures a != Pow2(k) { if k > 0 { assert Pow2(k) == 2 * Pow2(k - 1); } }
  }

  lemma {:induction false} AndSelf(a: nat)
    ensures And(a, a) == a
  {
    if a > 0 { AndSelf(a / 2); }
  }

  /** Dividing twice is dividing by the product. */
  lemma DivDiv(n: nat, a: nat, b: nat, ab: nat)
    requires a > 0 && b > 0 && ab == a * b
    ensures ab > 0 && n / ab == n / a / b
  {
    var x, y := n / a, n / a / b;
    var low := (x - y * b) * a + (n - x * a);
    assert x - y * b == x % b <= b - 1;
    TimesMonotone(x - y * b, b - 1, a);
    assert (b - 1) * a + a == ab;
    assert n == y * ab + low;
    DivModUnique(n, ab, y, low);
  }

  lemma TimesMonotone(x: nat, y: nat, a: nat)
    requires x <= y
    ensures 0 <= x * a <= y * a
  {}

  // ---------- rounding ----------

  lemma AlignFacts(x: nat, a: nat)
    requires a > 0
    ensures AlignDown(x, a) <= x < AlignDown(x, a) + a
    ensures AlignDown(x, a) % a == 0
    ensures x <= AlignUp(x, a) < x + a
    ensures AlignUp(x, a) % a == 0
  {
    MultipleOf(x, a);
    MultipleOf(x + (a - 1), a);
  }

  lemma MultipleOf(x: nat, a: nat)
    requires a > 0
    ensures (x - x % a) % a == 0
  {
    DivModUnique(x - x % a, a, x / a, 0);
  }

  /** Multiples of a that lie less than a apart are equal. */
  lemma MultiplesApart(m: nat, n: nat, a: nat)
    requires a > 0 && m % a == 0 && n % a == 0 && m < n
    ensures m + a <= n
  {
    var p, q := m / a, n / a;
    assert m == p * a && n == q * a;
    assert (q - p) * a == n - m;
    ProductBound(q - p, a);
  }

  lemma SumOfMultiples(m: nat, n: nat, a: nat)
    requires a > 0 && m % a == 0 && n % a == 0
    ensures (m + n) % a == 0
    ensures m <= n ==> (n - m) % a == 0
  {
    DivModUnique(m + n, a, m / a + n / a, 0);
    if m <= n { DivModUnique(n - m, a, n / a - m / a, 0); }
  }

  /** Rounding is the best multiple on each side. */
  lemma AlignOptimal(x: nat, m: nat, a: nat)
    requires a > 0 && m % a == 0
    ensures m <= x ==> m <= AlignDown(x, a)
    ensures x <= m ==> AlignUp(x, a) <= m
  {
    AlignFacts(x, a);
    if m <= x && AlignDown(x, a) < m { MultiplesApart(AlignDown(x, a), m, a); }
    if x <= m && m < AlignUp(x, a) { MultiplesApart(m, AlignUp(x, a), a); }
  }
}
