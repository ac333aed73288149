/**
  Untyped capabilities at boot (kernel/src/kernel/boot.c: create_untypeds_for_region,
  create_untypeds). Regions are in kernel-virtual addresses and may wrap around the end of the
  address space.
 */
module Untypeds {
  import opened Words
  import opened Regions

  /** A power-of-two block; `base + 2^bits` never exceeds the address space. */
  datatype Chunk = Chunk(base: nat, bits: nat)

  predicate InChunk(c: Chunk, x: int) {
    c.base <= x < c.base + Pow2(c.bits)
  }

  /** How far `x` lies above `start` in an address space of `size` addresses. */
  function Dist(start: nat, x: nat, size: nat): nat
    requires start < size && x < size
  {
    if x >= start then x - start else x + size - start
  }

  lemma DistIsSub(start: nat, x: nat, w: nat)
    requires start < Pow2(w) && x < Pow2(w)
    ensures Sub(x, start, w) == Dist(start, x, Pow2(w))
  {
    if x >= start {
      SubSmall(x, start, w);
    } else {
      LowSmall(x + Pow2(w) - start, w);
    }
  }

  function Advance(start: nat, bits: nat, w: nat): nat {
    Low(start + Pow2(bits), w)
  }

  /** The bits of the first block of a region of `len` addresses. */
  function SizeBits(start: nat, len: nat, maxBits: nat): nat
    requires len > 0
  {
    var bits := if Log2(len) > maxBits then maxBits else Log2(len);
    if start != 0 && bits > Ctz(start) then Ctz(start) else bits
  }

  predicate FitsAt(start: nat, len: nat, maxBits: nat, b: nat) {
    Pow2(b) <= len && b <= maxBits && Aligned(start, b)
  }

  /** The first block is the largest that is aligned and fits. */
  lemma SizeBitsLargest(start: nat, len: nat, maxBits: nat)
    requires len > 0
    ensures forall b: nat :: FitsAt(start, len, maxBits, b) <==> b <= SizeBits(start, len, maxBits)
  {
    forall b: nat ensures FitsAt(start, len, maxBits, b) <==> b <= SizeBits(start, len, maxBits) {
      if b <= Log2(len) {
        Pow2Monotone(b, Log2(len));
      } else {
        Pow2Monotone(Log2(len) + 1, b);
      }
      if start != 0 {
        AlignedUpTo(start, Ctz(start), b);
      } else {
        LowSmall(0, b);
      }
    }
  }

  lemma ChunkFits(start: nat, len: nat, maxBits: nat, w: nat)
    requires start < Pow2(w) && 0 < len <= Pow2(w)
    ensures var b := SizeBits(start, len, maxBits);
      && Pow2(b) <= len && b <= maxBits && Aligned(start, b)
      && start + Pow2(b) <= Pow2(w)
      && Advance(start, b, w) == (if start + Pow2(b) == Pow2(w) then 0 else start + Pow2(b))
  {
    var b := SizeBits(start, len, maxBits);
    SizeBitsLargest(start, len, maxBits);
    assert FitsAt(start, len, maxBits, b);
    if b > w {
      Pow2Monotone(w + 1, b);
    }
    AlignedGap(start, b, w);
    if start + Pow2(b) == Pow2(w) {
      Quotient(Pow2(w), Pow2(w), 1, 0);
    } else {
      LowSmall(start + Pow2(b), w);
    }
  }

  lemma AlignedGap(start: nat, b: nat, w: nat)
    requires b <= w && Aligned(start, b) && start < Pow2(w)
    ensures start + Pow2(b) <= Pow2(w)
  {
    Pow2Add(b, w - b);
    DivMod(start, Pow2(b));
    GapMul(Shr(start, b), Pow2(b), Pow2(w - b), start);
  }

  lemma GapMul(q: nat, d: nat, n: nat, x: nat)
    requires d > 0 && x == q * d && x < d * n
    ensures x + d <= d * n
  {
    Multiple(n - q, d);
    assert (n - q) * d == d * n - q * d;
    if n == q {
      assert false;
    }
  }

  /** The blocks of the region of `len` addresses from `start`. */
  function Chunks(start: nat, len: nat, maxBits: nat, w: nat): seq<Chunk>
    requires start < Pow2(w) && len <= Pow2(w)
    decreases len
  {
    if len == 0 then []
    else
      var b := SizeBits(start, len, maxBits);
      ChunkFits(start, len, maxBits, w);
      [Chunk(start, b)] + Chunks(Advance(start, b, w), len - Pow2(b), maxBits, w)
  }

  ghost predicate Covered(cs: seq<Chunk>, x: int) {
    exists k :: 0 <= k < |cs| && InChunk(cs[k], x)
  }

  lemma CoveredFirst(cs: seq<Chunk>, x: int)
    requires cs != []
    ensures Covered(cs, x) <==> InChunk(cs[0], x) || Covered(cs[1..], x)
  {
    if k :| 0 <= k < |cs| && InChunk(cs[k], x) {
      assert k > 0 ==> InChunk(cs[1..][k - 1], x);
    }
    if k :| 0 <= k < |cs[1..]| && InChunk(cs[1..][k], x) {
      assert InChunk(cs[k + 1], x);
    }
  }

  /** One step around the address space. */
  lemma Around(start: nat, step: nat, x: nat, size: nat)
    requires start < size && x < size && 0 < step && start + step <= size
    ensures var next := if start + step == size then 0 else start + step;
      && (start <= x < start + step <==> Dist(start, x, size) < step)
      && Dist(next, x, size) == if Dist(start, x, size) >= step then Dist(start, x, size) - step
                                else Dist(start, x, size) + size - step
  {
  }

  /** The blocks of a region, wrapping or not, are made of exactly its addresses. */
  lemma {:induction false} ChunksCover(start: nat, len: nat, maxBits: nat, w: nat, x: nat)
    requires start < Pow2(w) && len <= Pow2(w) && x < Pow2(w)
    ensures Covered(Chunks(start, len, maxBits, w), x) <==> Dist(start, x, Pow2(w)) < len
    decreases len
  {
    hide Pow2, SizeBits, Aligned;
    if len > 0 {
      var b := SizeBits(start, len, maxBits);
      ChunkFits(start, len, maxBits, w);
      var next := Advance(start, b, w);
      ChunksCover(next, len - Pow2(b), maxBits, w, x);
      CoveredFirst(Chunks(start, len, maxBits, w), x);
      Around(start, Pow2(b), x, Pow2(w));
    }
  }

  /** No address is in two blocks of a region. */
  lemma {:induction false} ChunksDisjoint(start: nat, len: nat, maxBits: nat, w: nat, i: nat, j: nat, x: nat)
    requires start < Pow2(w) && len <= Pow2(w) && x < Pow2(w)
    requires i < j < |Chunks(start, len, maxBits, w)|
    ensures var cs := Chunks(start, len, maxBits, w); !(InChunk(cs[i], x) && InChunk(cs[j], x))
    decreases len
  {
    hide Pow2, SizeBits, Aligned;
    var b := SizeBits(start, len, maxBits);
    ChunkFits(start, len, maxBits, w);
    var next := Advance(start, b, w);
    if i > 0 {
      ChunksDisjoint(next, len - Pow2(b), maxBits, w, i - 1, j - 1, x);
    } else {
      var rest := Chunks(next, len - Pow2(b), maxBits, w);
      ChunksCover(next, len - Pow2(b), maxBits, w, x);
      assert Chunks(start, len, maxBits, w)[j] == rest[j - 1];
      Around(start, Pow2(b), x, Pow2(w));
    }
  }

  /** Every block is aligned to its size, within the address space and of an allowed size. */
  lemma {:induction false} ChunksAligned(start: nat, len: nat, maxBits: nat, w: nat, i: nat)
    requires start < Pow2(w) && len <= Pow2(w) && i < |Chunks(start, len, maxBits, w)|
    ensures var c := Chunks(start, len, maxBits, w)[i];
      Aligned(c.base, c.bits) && c.base + Pow2(c.bits) <= Pow2(w) && c.bits <= maxBits
    decreases len
  {
    hide Pow2, SizeBits, Aligned;
    var b := SizeBits(start, len, maxBits);
    ChunkFits(start, len, maxBits, w);
    if i > 0 {
      ChunksAligned(Advance(start, b, w), len - Pow2(b), maxBits, w, i - 1);
    }
  }
}
