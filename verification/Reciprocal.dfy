/** Division by multiplication (kernel/tools/reciprocal.py). */
module Reciprocal {
  import opened Words
  import opened Bitmaps

  /** What 2^p lacks to the next multiple of d. */
  function Gap(p: nat, d: nat): (g: nat)
    requires d > 0
    ensures g < d && (Pow2(p) + g) % d == 0
  {
    var r := (Pow2(p) - 1) % d;
    GapIsMultiple(Pow2(p), d, r);
    d - 1 - r
  }

  lemma GapIsMultiple(x: nat, d: nat, r: nat)
    requires d > 0 && x > 0 && r == (x - 1) % d
    ensures r < d && (x + (d - 1 - r)) % d == 0
  {
    DivMod(x - 1, d);
    Quotient(x + (d - 1 - r), d, (x - 1) / d + 1, 0);
  }

  /** The largest number up to nmax that is one less than a multiple of d. */
  function Nc(nmax: nat, d: nat): (nc: nat)
    requires 1 <= d <= nmax
    ensures d - 1 <= nc <= nmax < nc + d
  {
    NcBounds(nmax, d);
    (nmax + 1) / d * d - 1
  }

  lemma NcBounds(nmax: nat, d: nat)
    requires 1 <= d <= nmax
    ensures var nc := (nmax + 1) / d * d - 1; d - 1 <= nc <= nmax < nc + d
  {
    DivMod(nmax + 1, d);
    if (nmax + 1) / d == 0 {
      assert false;
    }
    NotMore(1, (nmax + 1) / d, d);
  }

  /** Multiplying by m and shifting by p is division by d, for every number up to nmax. */
  ghost predicate Reciprocates(nmax: nat, d: nat, m: nat, p: nat)
    requires d > 0
  {
    forall n: nat :: n <= nmax ==> Shr(Times(n, m), p) == n / d
  }

  function Times(n: nat, m: nat): nat {
    NotMore(0, n, m);
    n * m
  }

  /** Whether a shift is large enough. */
  predicate LargeEnough(nmax: nat, d: nat, p: nat)
    requires 1 <= d <= nmax
  {
    Pow2(p) > Nc(nmax, d) * Gap(p, d)
  }

  /** The search for the multiplier and the shift; it always ends with a pair that divides exactly. */
  method Magicgu(nmax: nat, d: nat) returns (ok: bool, m: nat, p: nat)
    requires 1 <= d <= nmax
    ensures ok && Reciprocates(nmax, d, m, p)
  {
    hide Gap, Nc, Pow2, Reciprocates, LargeEnough;
    var nbits := BitLength(nmax);
    LastWorks(nmax, d, nbits);
    m, p := 0, 0;
    while p < 2 * nbits + 1
      invariant forall k :: 0 <= k < p ==> !LargeEnough(nmax, d, k)
    {
      if LargeEnough(nmax, d, p) {
        Multiplier(p, d);
        m := (Pow2(p) + Gap(p, d)) / d;
        DividesAll(nmax, d, p, m);
        return true, m, p;
      }
      p := p + 1;
    }
    ok := false;
  }

  lemma DividesAll(nmax: nat, d: nat, p: nat, m: nat)
    requires 1 <= d <= nmax && m * d == Pow2(p) + Gap(p, d) && LargeEnough(nmax, d, p)
    ensures Reciprocates(nmax, d, m, p)
  {
    hide Gap, Nc, Pow2, Shr, Times, LargeEnough;
    forall n: nat | n <= nmax ensures Shr(Times(n, m), p) == n / d {
      Divides(nmax, d, p, m, n);
    }
  }

  lemma Multiplier(p: nat, d: nat)
    requires d > 0
    ensures var m := (Pow2(p) + Gap(p, d)) / d; m >= 0 && m * d == Pow2(p) + Gap(p, d)
  {
    DivMod(Pow2(p) + Gap(p, d), d);
    DivNat(Pow2(p) + Gap(p, d), d);
  }

  /** The last shift tried is always large enough. */
  lemma LastWorks(nmax: nat, d: nat, nbits: nat)
    requires 1 <= d <= nmax && nbits == BitLength(nmax)
    ensures LargeEnough(nmax, d, 2 * nbits)
  {
    assert nmax < Pow2(nbits);
    Pow2Add(nbits, nbits);
    Below(Nc(nmax, d), Pow2(nbits), 0, Pow2(nbits));
    Product(Nc(nmax, d), Gap(2 * nbits, d), Pow2(nbits));
  }

  lemma Product(a: nat, b: nat, c: nat)
    requires a < c && b < c
    ensures a * b < c * c
  {
    assert (c - a) * c > 0;
    assert a * (c - b) >= 0;
  }

  /** Multiplying by m and shifting by p divides by d. */
  lemma Divides(nmax: nat, d: nat, p: nat, m: nat, n: nat)
    requires 1 <= d <= nmax && n <= nmax
    requires m * d == Pow2(p) + Gap(p, d) && LargeEnough(nmax, d, p)
    ensures Shr(Times(n, m), p) == n / d
  {
    var two, g, nc := Pow2(p), Gap(p, d), Nc(nmax, d);
    hide Gap, Nc, Pow2;
    var q, r := n / d, n % d;
    DivMod(n, d);
    DivNat(n, d);
    Excess(nmax, d, two, g, nc, n, q, r);
    Sandwich(n, m, d, two, g, q, r);
    QuotientIs(n * m, two, q);
  }

  lemma QuotientIs(x: nat, d: nat, q: nat)
    requires d > 0 && q * d <= x < q * d + d
    ensures x / d == q
  {
    Quotient(x, d, q, x - q * d);
  }

  /** The excess of the multiplier does not add up to a whole step. */
  lemma Excess(nmax: nat, d: nat, two: nat, g: nat, nc: nat, n: nat, q: nat, r: nat)
    requires 1 <= d <= nmax && n <= nmax && n == q * d + r && r < d && g < d
    requires nc == Nc(nmax, d) && two > nc * g
    ensures n * g < (d - r) * two
  {
    if n <= nc {
      NotMore(n, nc, g);
      NotMore(1, d - r, two);
    } else {
      BeyondNc(nmax, d, n, q, r);
      assert n * g == nc * g + (1 + r) * g;
      NotMore(1 + r, d - 1, g);
      NotMore(d - 1, nc, g);
      NotMore(2, d - r, two);
    }
  }

  /** Beyond nc only an incomplete group of less than d numbers is left. */
  lemma BeyondNc(nmax: nat, d: nat, n: nat, q: nat, r: nat)
    requires 1 <= d <= nmax && n <= nmax && n == q * d + r && r < d && n > Nc(nmax, d)
    ensures n == Nc(nmax, d) + 1 + r && r + 2 <= d
  {
    var k, nc := (nmax + 1) / d, Nc(nmax, d);
    assert nc + 1 == k * d;
    assert n - (nc + 1) == (q - k) * d + r;
    if q != k {
      Multiple(q - k, d);
      assert false;
    }
  }

  lemma Sandwich(n: nat, m: nat, d: nat, two: nat, g: nat, q: nat, r: nat)
    requires d > 0 && two > 0 && m * d == two + g && n == q * d + r && r < d && n * g < (d - r) * two
    ensures q * two <= n * m < q * two + two
  {
    assert n * m * d == n * two + n * g by {
      assert n * m * d == n * (m * d);
    }
    assert n * two == q * d * two + r * two;
    assert q * d * two == q * two * d;
    assert (n * m - q * two) * d == r * two + n * g;
    Between(n * m - q * two, d, two, r * two + n * g);
  }

  lemma Between(x: int, d: nat, two: nat, v: int)
    requires d > 0 && x * d == v && 0 <= v < d * two
    ensures 0 <= x < two
  {
    if x < 0 {
      Multiple(x, d);
      assert false;
    }
    if x >= two {
      NotMore(two, x, d);
      assert false;
    }
  }
}
