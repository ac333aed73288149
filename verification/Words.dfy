/** Machine words: powers of two, and shifts and masks as division and remainder. */
module Words {

  function Pow2(n: nat): (p: nat)
    ensures p > 0
  {
    if n == 0 then 1 else 2 * Pow2(n - 1)
  }

  /** `x >> n`. */
  function Shr(x: nat, n: nat): nat {
    DivNat(x, Pow2(n));
    x / Pow2(n)
  }

  /** `x & MASK(n)`. */
  function Low(x: nat, n: nat): (r: nat)
    ensures r < Pow2(n)
  {
    x % Pow2(n)
  }

  /** `x << n` in a w-bit word. */
  function Shl(x: nat, n: nat, w: nat): nat {
    Low(x * Pow2(n), w)
  }

  /** `x - y` in an unsigned w-bit word. */
  function Sub(x: nat, y: nat, w: nat): nat
    requires y <= Pow2(w)
  {
    Low(x + Pow2(w) - y, w)
  }

  lemma LowSmall(x: nat, n: nat)
    requires x < Pow2(n)
    ensures Low(x, n) == x && Shr(x, n) == 0
  {
    Quotient(x, Pow2(n), 0, x);
  }

  lemma SubSmall(x: nat, y: nat, w: nat)
    requires y <= x < Pow2(w)
    ensures Sub(x, y, w) == x - y
  {
    Quotient(x + Pow2(w) - y, Pow2(w), 1, x - y);
  }

  lemma {:induction false} BelowPow2(n: nat)
    ensures n < Pow2(n)
  {
    if n > 0 {
      BelowPow2(n - 1);
    }
  }

  lemma {:induction false} Pow2Add(m: nat, n: nat)
    ensures Pow2(m + n) == Pow2(m) * Pow2(n)
  {
    if m > 0 {
      Pow2Add(m - 1, n);
      assert m + n - 1 == (m - 1) + n;
    }
  }

  lemma {:induction false} Pow2Monotone(m: nat, n: nat)
    requires m <= n
    ensures Pow2(m) <= Pow2(n)
  {
    if m < n {
      Pow2Monotone(m, n - 1);
    }
  }

  lemma Multiple(k: int, d: int)
    requires d > 0 && k != 0
    ensures k * d >= d || k * d <= -d
  {
    if k > 0 {
      assert (k - 1) * d >= 0;
    } else {
      assert (-k - 1) * d >= 0;
    }
  }

  /** Quotient and remainder are unique. */
  lemma Quotient(x: nat, d: nat, q: nat, m: nat)
    requires d > 0 && x == q * d + m && m < d
    ensures x / d == q && x % d == m
  {
    DivMod(x, d);
    assert (x / d - q) * d == m - x % d;
    if x / d != q {
      Multiple(x / d - q, d);
      assert false;
    }
  }

  lemma DivNat(x: nat, d: nat)
    requires d > 0
    ensures 0 <= x / d
  {
  }

  lemma DivMod(x: nat, d: nat)
    requires d > 0
    ensures x == x / d * d + x % d && x % d < d
  {
  }

  /** A common factor cancels from a quotient and comes out of a remainder. */
  lemma DivMul(x: nat, a: nat, b: nat)
    requires a > 0 && b > 0
    ensures a * b > 0 && x * b / (a * b) == x / a && x * b % (a * b) == x % a * b
  {
    DivMod(x, a);
    Scaled(x, a, x / a, x % a, b);
    Quotient(x * b, a * b, x / a, x % a * b);
  }

  lemma Scaled(x: nat, a: nat, q: nat, m: nat, b: nat)
    requires b > 0 && x == q * a + m && m < a
    ensures x * b == q * (a * b) + m * b && m * b < a * b
  {
    assert x * b == q * a * b + m * b;
    assert q * a * b == q * (a * b);
    assert (a - m) * b > 0;
    assert a * b == m * b + (a - m) * b;
  }

  /** Division by a product, in two steps. */
  lemma Split(x: nat, a: nat, b: nat)
    requires a > 0 && b > 0
    ensures a * b > 0 && x % (a * b) % a == x % a && x / a % b == x % (a * b) / a && x / a / b == x / (a * b)
  {
    DivMod(x, a);
    DivMod(x / a, b);
    Nested(x, a, b, x / a, x % a, x / a / b, x / a % b);
    Quotient(x, a * b, x / a / b, x / a % b * a + x % a);
    Quotient(x % (a * b), a, x / a % b, x % a);
  }

  lemma Nested(x: nat, a: nat, b: nat, q: nat, m: nat, q2: nat, m2: nat)
    requires x == q * a + m && m < a && q == q2 * b + m2 && m2 < b
    ensures x == q2 * (a * b) + (m2 * a + m) && m2 * a + m < a * b
  {
    assert q * a == q2 * b * a + m2 * a;
    Associate(q2, b, a);
    Below(m2, b, m, a);
  }

  lemma Below(hi: nat, b: nat, lo: nat, a: nat)
    requires hi < b && lo < a
    ensures hi * a + lo < a * b
  {
    assert (b - 1 - hi) * a >= 0;
    assert b * a == (b - 1 - hi) * a + hi * a + a;
  }

  lemma Associate(x: nat, y: nat, z: nat)
    ensures x * y * z == x * (y * z)
    ensures y * z == z * y
  {
  }

  /** The position of the highest bit, `wordBits - 1 - clzl(x)`. */
  function Log2(x: nat): (k: nat)
    requires x > 0
    ensures Pow2(k) <= x < 2 * Pow2(k)
  {
    if x == 1 then 0 else 1 + Log2(x / 2)
  }

  /** `ROUND_DOWN(x, b)`. */
  function RoundDown(x: nat, b: nat): nat {
    Shr(x, b) * Pow2(b)
  }

  predicate Aligned(x: nat, b: nat) {
    Low(x, b) == 0
  }

  /** The largest aligned number up to x. */
  lemma RoundDownLargest(x: nat, b: nat)
    ensures RoundDown(x, b) <= x && Aligned(RoundDown(x, b), b)
    ensures forall s: nat :: Aligned(s, b) && s <= x ==> s <= RoundDown(x, b)
  {
    DivMod(x, Pow2(b));
    Quotient(RoundDown(x, b), Pow2(b), Shr(x, b), 0);
    forall s: nat | Aligned(s, b) && s <= x ensures s <= RoundDown(x, b) {
      DivMod(s, Pow2(b));
      if Shr(s, b) > Shr(x, b) {
        Multiple(Shr(s, b) - Shr(x, b), Pow2(b));
      } else {
        NotMore(Shr(s, b), Shr(x, b), Pow2(b));
      }
    }
  }

  lemma NotMore(a: nat, b: nat, d: nat)
    requires a <= b
    ensures a * d <= b * d
  {
    assert (b - a) * d >= 0;
  }

  lemma AlignedLess(x: nat, a: nat, b: nat)
    requires b <= a && Aligned(x, a)
    ensures Aligned(x, b)
  {
    Pow2Add(b, a - b);
    Split(x, Pow2(b), Pow2(a - b));
    Quotient(0, Pow2(b), 0, 0);
  }

  lemma AlignedSum(x: nat, n: nat, b: nat)
    requires Aligned(x, b)
    ensures Aligned(x + n * Pow2(b), b)
  {
    DivMod(x, Pow2(b));
    Quotient(x + n * Pow2(b), Pow2(b), x / Pow2(b) + n, 0);
  }

  /** The number of low bits of `x` that are zero, `ctzl(x)`: the largest alignment of `x`. */
  function Ctz(x: nat): (k: nat)
    requires x > 0
    ensures Aligned(x, k) && !Aligned(x, k + 1)
  {
    if x % 2 == 1 then
      CtzOdd(x);
      0
    else
      var k := Ctz(x / 2);
      CtzEven(x, k);
      k + 1
  }

  lemma CtzOdd(x: nat)
    requires x % 2 == 1
    ensures Aligned(x, 0) && !Aligned(x, 1)
  {
    assert Pow2(1) == 2 * Pow2(0);
  }

  lemma CtzEven(x: nat, k: nat)
    requires x % 2 == 0 && x > 0 && Aligned(x / 2, k) && !Aligned(x / 2, k + 1)
    ensures Aligned(x, k + 1) && !Aligned(x, k + 2)
  {
    DivMul(x / 2, Pow2(k), 2);
    DivMul(x / 2, Pow2(k + 1), 2);
    assert x / 2 * 2 == x;
  }

  /** Alignment is for all smaller sizes too, and for no larger ones. */
  lemma AlignedUpTo(x: nat, k: nat, b: nat)
    requires Aligned(x, k) && !Aligned(x, k + 1)
    ensures Aligned(x, b) <==> b <= k
  {
    if b <= k {
      AlignedLess(x, k, b);
    } else if Aligned(x, b) {
      AlignedLess(x, b, k + 1);
    }
  }
}
