/** Single bits of words, and counting zeros (kernel/src/util.c). */
module Bitmaps {
  import opened Words

  predicate TestBit(x: nat, i: nat) {
    if i == 0 then x % 2 == 1 else TestBit(x / 2, i - 1)
  }

  /** `x | BIT(i)`. */
  function SetBit(x: nat, i: nat): nat {
    if i == 0 then x - x % 2 + 1 else 2 * SetBit(x / 2, i - 1) + x % 2
  }

  /** `x & ~BIT(i)`. */
  function ClearBit(x: nat, i: nat): nat {
    if i == 0 then x - x % 2 else 2 * ClearBit(x / 2, i - 1) + x % 2
  }

  /** `x | y`. */
  function BitOr(x: nat, y: nat): nat {
    if x == 0 then y else if y == 0 then x
    else 2 * BitOr(x / 2, y / 2) + (if x % 2 == 1 || y % 2 == 1 then 1 else 0)
  }

  lemma {:induction false} SetBitAt(x: nat, i: nat, j: nat)
    ensures TestBit(SetBit(x, i), j) <==> j == i || TestBit(x, j)
  {
    if i > 0 {
      assert SetBit(x, i) / 2 == SetBit(x / 2, i - 1);
      if j > 0 {
        SetBitAt(x / 2, i - 1, j - 1);
      }
    } else if j > 0 {
      assert SetBit(x, 0) / 2 == x / 2;
    }
  }

  lemma {:induction false} ClearBitAt(x: nat, i: nat, j: nat)
    ensures TestBit(ClearBit(x, i), j) <==> j != i && TestBit(x, j)
  {
    if i > 0 {
      assert ClearBit(x, i) / 2 == ClearBit(x / 2, i - 1);
      if j > 0 {
        ClearBitAt(x / 2, i - 1, j - 1);
      }
    } else if j > 0 {
      assert ClearBit(x, 0) / 2 == x / 2;
    }
  }

  /** The highest bit set is the logarithm. */
  lemma {:induction false} HighestBit(x: nat, j: nat)
    requires x > 0
    ensures TestBit(x, Log2(x)) && (TestBit(x, j) ==> j <= Log2(x))
  {
    if x > 1 {
      HighestBit(x / 2, if j > 0 then j - 1 else 0);
    } else if j > 0 {
      NoBits(j - 1);
    }
  }

  lemma {:induction false} NoBits(j: nat)
    ensures !TestBit(0, j)
  {
    if j > 0 {
      NoBits(j - 1);
    }
  }

  /** Disjoint bits: the or is the sum. */
  lemma {:induction false} OrOfParts(hi: nat, k: nat, lo: nat)
    requires lo < Pow2(k)
    ensures BitOr(hi * Pow2(k), lo) == hi * Pow2(k) + lo
  {
    if k > 0 && hi > 0 && lo > 0 {
      var p := Pow2(k - 1);
      Associate(hi, p, 2);
      assert hi * Pow2(k) == 2 * (hi * p);
      OrOfParts(hi, k - 1, lo / 2);
      Positive(hi, p);
    }
  }

  lemma Positive(a: nat, b: nat)
    requires a > 0 && b > 0
    ensures a * b > 0
  {
  }

  // ---------------------------------------------------------------- counting zeros

  /** The number of bits up to the highest one that is set. */
  function BitLength(x: nat): nat {
    if x == 0 then 0 else Log2(x) + 1
  }

  lemma {:induction false} BitLengthShift(x: nat, k: nat)
    requires x >= Pow2(k)
    ensures BitLength(Shr(x, k)) == BitLength(x) - k
  {
    if k > 0 {
      BitLengthShift(x / 2, k - 1);
      Split(x, 2, Pow2(k - 1));
    }
  }

  lemma ShiftBelow(x: nat, k: nat)
    requires x < Pow2(2 * k)
    ensures Shr(x, k) < Pow2(k)
  {
    FieldSmall(x, k, k);
  }

  lemma FieldSmall(x: nat, a: nat, b: nat)
    requires x < Pow2(a + b)
    ensures Shr(x, a) < Pow2(b)
  {
    Pow2Add(a, b);
    DivMod(x, Pow2(a));
    hide Pow2;
    if Shr(x, a) >= Pow2(b) {
      NotMore(Pow2(b), Shr(x, a), Pow2(a));
      Associate(1, Pow2(a), Pow2(b));
    }
  }

  /** One step: drops k bits if there is a bit above them. */
  method ClzStep(x: nat, count: nat, k: nat) returns (x': nat, count': nat)
    requires x < Pow2(2 * k) && count >= BitLength(x)
    ensures x' < Pow2(k) && count' - BitLength(x') == count - BitLength(x) && count' >= BitLength(x')
  {
    x', count' := x, count;
    // mask == 2^k - 1
    if Pow2(k) - 1 < x {
      BitLengthShift(x, k);
      ShiftBelow(x, k);
      x' := Shr(x, k);
      count' := count - k;
    }
  }

  /** The number of zero bits above the highest one. */
  method Clz64(x: nat) returns (r: nat)
    requires x < Pow2(64)
    ensures r == 64 - BitLength(x)
    ensures x > 0 ==> 64 - 1 - r == Log2(x)
  {
    assert x > 0 ==> BitLength(x) == Log2(x) + 1;
    LengthBound(x, 64);
    hide BitLength;
    var y, count := x, 64;
    y, count := ClzStep(y, count, 32);
    y, count := ClzStep(y, count, 16);
    y, count := ClzStep(y, count, 8);
    y, count := ClzStep(y, count, 4);
    y, count := ClzStep(y, count, 2);
    y, count := ClzStep(y, count, 1);
    ShortLength(y);
    r := count - y;
  }

  lemma ShortLength(y: nat)
    requires y < Pow2(1)
    ensures BitLength(y) == y
  {
  }

  lemma LengthBound(x: nat, n: nat)
    requires x < Pow2(n)
    ensures BitLength(x) <= n
  {
    if x > 0 && Log2(x) >= n {
      Pow2Monotone(n, Log2(x));
    }
  }

  lemma {:induction false} CtzShift(x: nat, k: nat)
    requires x > 0 && Aligned(x, k)
    ensures Shr(x, k) > 0 && Ctz(Shr(x, k)) == Ctz(x) - k
  {
    DivMod(x, Pow2(k));
    CtzIs(x);
    var y := Shr(x, k);
    CtzIs(y);
    AlignedShift(y, Ctz(y), k);
    AlignedShift(y, Ctz(y) + 1, k);
    AlignedUpTo(x, Ctz(x), Ctz(y) + k);
    AlignedUpTo(x, Ctz(x), Ctz(y) + 1 + k);
  }

  lemma CtzIs(x: nat)
    requires x > 0
    ensures Aligned(x, Ctz(x)) && !Aligned(x, Ctz(x) + 1)
  {
  }

  lemma AlignedShift(y: nat, b: nat, k: nat)
    ensures Aligned(y * Pow2(k), b + k) <==> Aligned(y, b)
  {
    Pow2Add(b, k);
    DivMul(y, Pow2(b), Pow2(k));
    if Low(y, b) > 0 {
      Positive(Low(y, b), Pow2(k));
    }
  }

  method CtzStep(x: nat, count: nat, k: nat) returns (x': nat, count': nat)
    requires x > 0 ==> Ctz(x) < 2 * k
    ensures x > 0 ==> x' > 0 && Ctz(x') < k && Ctz(x') + count' == Ctz(x) + count
    ensures x == 0 ==> x' == 0 && count' == count + k
  {
    x', count' := x, count;
    if x > 0 {
      CtzIs(x);
      AlignedUpTo(x, Ctz(x), k);
    } else {
      LowSmall(0, k);
    }
    // (x & mask) == 0 where mask == 2^k - 1
    if Low(x, k) == 0 {
      if x > 0 {
        CtzShift(x, k);
      }
      x' := Shr(x, k);
      count' := count + k;
    }
  }

  /** The number of zero bits below the lowest one; 64 for 0. */
  method Ctz64(x: nat) returns (r: nat)
    requires x < Pow2(64)
    ensures r == if x == 0 then 64 else Ctz(x)
  {
    if x > 0 {
      CtzBound(x, 64);
    }
    var y, count := x, if x == 0 then 1 else 0;
    y, count := CtzStep(y, count, 32);
    y, count := CtzStep(y, count, 16);
    y, count := CtzStep(y, count, 8);
    y, count := CtzStep(y, count, 4);
    y, count := CtzStep(y, count, 2);
    y, count := CtzStep(y, count, 1);
    r := count;
  }

  lemma CtzBound(x: nat, n: nat)
    requires 0 < x < Pow2(n)
    ensures Ctz(x) < n
  {
    CtzIs(x);
    if Ctz(x) >= n {
      AlignedLess(x, Ctz(x), n);
      LowSmall(x, n);
    }
  }
}
