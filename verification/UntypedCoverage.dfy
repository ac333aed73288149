/**
  What the boot code makes of a region of memory: exactly the smallest untyped blocks that lie in it
  (kernel/src/kernel/boot.c). Nothing else is lost, and nothing else is given out.
 */
module UntypedCoverage {
  import opened Words
  import opened Regions
  import opened Untypeds
  import opened FreeMemory
  import opened BootUntypeds

  /** The aligned block of 2^m addresses around x lies in the region. */
  ghost predicate BlockIn(r: Region, x: nat, m: nat, w: nat)
    requires WordRegion(r, w)
  {
    forall y: nat :: BlockHas(x, m, y) ==> InRegion(r, y, w)
  }

  /** y is in the aligned block of 2^m addresses around x. */
  predicate BlockHas(x: nat, m: nat, y: nat) {
    RoundDown(x, m) <= y < RoundDown(x, m) + Pow2(m)
  }

  // ---------------------------------------------------------------- blocks and chunks

  lemma AlignedApart(a: nat, b: nat, m: nat)
    requires Aligned(a, m) && Aligned(b, m) && a < b
    ensures a + Pow2(m) <= b
  {
    DivMod(a, Pow2(m));
    DivMod(b, Pow2(m));
    assert b - a == (Shr(b, m) - Shr(a, m)) * Pow2(m);
    Multiple(Shr(b, m) - Shr(a, m), Pow2(m));
  }

  lemma InOwnBlock(x: nat, m: nat)
    ensures BlockHas(x, m, x)
  {
    DivMod(x, Pow2(m));
  }

  /** An address of a block has that block. */
  lemma SameBlock(x: nat, y: nat, m: nat)
    requires BlockHas(x, m, y)
    ensures RoundDown(y, m) == RoundDown(x, m)
  {
    RoundDownLargest(x, m);
    RoundDownLargest(y, m);
    if RoundDown(x, m) < RoundDown(y, m) {
      AlignedApart(RoundDown(x, m), RoundDown(y, m), m);
    }
  }

  /** A chunk that is no smaller than a block is made of whole blocks. */
  lemma WholeBlocks(start: nat, b: nat, m: nat, x: nat)
    requires Aligned(start, b) && m <= b && start <= x < start + Pow2(b)
    ensures start <= RoundDown(x, m) && RoundDown(x, m) + Pow2(m) <= start + Pow2(b)
  {
    AlignedLess(start, b, m);
    AlignedSum(start, 1, b);
    AlignedLess(start + Pow2(b), b, m);
    RoundDownLargest(x, m);
    hide Aligned, RoundDown, Pow2;
    AlignedApart(RoundDown(x, m), start + Pow2(b), m);
  }

  /** A chunk that is smaller than a block lies in the block of its start. */
  lemma WithinBlock(start: nat, b: nat, m: nat, x: nat)
    requires Aligned(start, b) && b <= m && start <= x < start + Pow2(b)
    ensures RoundDown(x, m) == RoundDown(start, m)
  {
    RoundDownLargest(start, m);
    RoundDownLargest(x, m);
    InOwnBlock(start, m);
    if RoundDown(x, m) != RoundDown(start, m) {
      hide Aligned, RoundDown, Pow2;
      AlignedLess(RoundDown(x, m), m, b);
      AlignedApart(RoundDown(start, m), RoundDown(x, m), m);
      AlignedApart(start, RoundDown(x, m), b);
    }
  }

  // ---------------------------------------------------------------- one region

  /** The block around the start of a region whose first chunk is too small does not lie in the region. */
  lemma SmallChunkLost(r: Region, b: nat, m: nat, maxBits: nat, w: nat)
    requires WordRegion(r, w) && Sub(r.end, r.start, w) > 0 && b == SizeBits(r.start, Sub(r.end, r.start, w), maxBits)
    requires b < m <= maxBits && m <= w
    ensures !BlockIn(r, r.start, m, w)
  {
    var len, base := Sub(r.end, r.start, w), RoundDown(r.start, m);
    RoundDownLargest(r.start, m);
    InOwnBlock(r.start, m);
    hide SizeBits, Aligned, RoundDown;
    SizeBitsLargest(r.start, len, maxBits);
    if Aligned(r.start, m) {
      assert !FitsAt(r.start, len, maxBits, m);
      RoundDownLargest(r.start, m);
      assert base == r.start;
      AlignedGap(r.start, m, w);
      assert BlockHas(r.start, m, base + Pow2(m) - 1) && !InRegion(r, base + Pow2(m) - 1, w);
    } else {
      assert base < r.start;
      assert BlockHas(r.start, m, r.start - 1) && !InRegion(r, r.start - 1, w);
    }
  }

  /**
    Main result about one region: its untyped capabilities hold exactly the addresses whose block of
    the smallest size lies in the region, wrapping round the address space or not.
   */
  lemma {:induction false} RegionBlocks(lim: Limits, isDevice: bool, r: Region, x: nat)
    requires WordRegion(r, lim.win.wordBits) && x < Pow2(lim.win.wordBits)
    requires lim.minBits <= lim.maxBits && lim.minBits <= lim.win.wordBits
    ensures HasUntyped(OfRegion(lim, isDevice, r), x) <==> BlockIn(r, x, lim.minBits, lim.win.wordBits)
    decreases Sub(r.end, r.start, lim.win.wordBits)
  {
    var w, m := lim.win.wordBits, lim.minBits;
    InOwnBlock(x, m);
    hide Pow2, SizeBits, OfRegion, Sub, Aligned, RoundDown;
    if r.start == r.end {
      NothingLeft(lim, isDevice, r);
      EmptyRegion(r, w);
      assert BlockHas(x, m, x) && !InRegion(r, x, w);
    } else {
      NotEmpty(r, w);
      var b := SizeBits(r.start, Sub(r.end, r.start, w), lim.maxBits);
      RegionStep(lim, isDevice, r, b);
      var rest := Region(Advance(r.start, b, w), r.end);
      RegionBlocks(lim, isDevice, rest, x);
      FirstChunk(lim, r, b);
      var u := Untyped(r.start, b, isDevice);
      HasOne(u);
      if b >= m {
        HasConcat([u], OfRegion(lim, isDevice, rest), x);
        LargeChunk(r, rest, b, m, w, x);
      } else {
        SmallChunkLost(r, b, m, lim.maxBits, w);
        SmallChunk(r, rest, b, m, w, x);
      }
    }
  }

  lemma EmptyRegion(r: Region, w: nat)
    requires WordRegion(r, w) && r.start == r.end
    ensures forall y: int :: !InRegion(r, y, w)
  {
    DistIsSub(r.start, r.end, w);
  }

  /** A region is its first chunk and the rest. */
  ghost predicate Parts(r: Region, rest: Region, b: nat, w: nat)
    requires WordRegion(r, w) && WordRegion(rest, w)
  {
    forall y: nat :: InRegion(r, y, w) <==> r.start <= y < r.start + Pow2(b) || InRegion(rest, y, w)
  }

  lemma FirstChunk(lim: Limits, r: Region, b: nat)
    requires WordRegion(r, lim.win.wordBits) && Sub(r.end, r.start, lim.win.wordBits) > 0
    requires b == SizeBits(r.start, Sub(r.end, r.start, lim.win.wordBits), lim.maxBits)
    ensures Aligned(r.start, b)
    ensures var w := lim.win.wordBits;
      var rest := Region(Advance(r.start, b, w), r.end);
      && WordRegion(rest, w) && Parts(r, rest, b, w)
      && forall y: nat :: r.start <= y < r.start + Pow2(b) ==> !InRegion(rest, y, w)
  {
    var w := lim.win.wordBits;
    hide Pow2, SizeBits, OfRegion, Aligned;
    RegionStep(lim, true, r, b);
    ChunkFits(r.start, Sub(r.end, r.start, w), lim.maxBits, w);
    hide Sub;
    forall y: nat | y < Pow2(w)
      ensures var rest := Region(Advance(r.start, b, w), r.end);
        && (InRegion(r, y, w) <==> r.start <= y < r.start + Pow2(b) || InRegion(rest, y, w))
        && (r.start <= y < r.start + Pow2(b) ==> !InRegion(rest, y, w))
    {
      Around(r.start, Pow2(b), y, Pow2(w));
    }
  }

  lemma LargeChunk(r: Region, rest: Region, b: nat, m: nat, w: nat, x: nat)
    requires WordRegion(r, w) && WordRegion(rest, w) && Parts(r, rest, b, w)
    requires Aligned(r.start, b) && m <= b
    requires forall y: nat :: r.start <= y < r.start + Pow2(b) ==> !InRegion(rest, y, w)
    ensures BlockIn(r, x, m, w) <==> r.start <= x < r.start + Pow2(b) || BlockIn(rest, x, m, w)
  {
    InOwnBlock(x, m);
    hide Pow2, RoundDown, Aligned, InRegion;
    if r.start <= x < r.start + Pow2(b) {
      WholeBlocks(r.start, b, m, x);
    } else {
      forall y: nat | BlockHas(x, m, y)
        ensures !(r.start <= y < r.start + Pow2(b))
      {
        if r.start <= y < r.start + Pow2(b) {
          SameBlock(x, y, m);
          WholeBlocks(r.start, b, m, y);
        }
      }
    }
  }

  lemma SmallChunk(r: Region, rest: Region, b: nat, m: nat, w: nat, x: nat)
    requires WordRegion(r, w) && WordRegion(rest, w) && Parts(r, rest, b, w)
    requires Aligned(r.start, b) && b < m && !BlockIn(r, r.start, m, w)
    ensures BlockIn(r, x, m, w) <==> BlockIn(rest, x, m, w)
  {
    hide Pow2, RoundDown, Aligned, InRegion;
    if BlockIn(r, x, m, w) {
      forall y: nat | BlockHas(x, m, y)
        ensures !(r.start <= y < r.start + Pow2(b))
      {
        if r.start <= y < r.start + Pow2(b) {
          SameBlock(x, y, m);
          WithinBlock(r.start, b, m, y);
        }
      }
    }
  }

  // ---------------------------------------------------------------- all of memory

  predicate Sized(lim: Limits) {
    lim.minBits <= lim.maxBits && lim.minBits <= lim.win.wordBits
  }

  /** The block lies in one of the regions. */
  ghost predicate BlockInOne(rs: seq<Region>, x: nat, m: nat, w: nat)
    requires WordRegions(rs, w)
  {
    exists k :: 0 <= k < |rs| && BlockIn(rs[k], x, m, w)
  }

  lemma BlockInFirst(rs: seq<Region>, x: nat, m: nat, w: nat)
    requires rs != [] && WordRegions(rs, w)
    ensures BlockInOne(rs, x, m, w) <==> BlockIn(rs[0], x, m, w) || BlockInOne(rs[1..], x, m, w)
  {
    hide BlockIn;
    if k :| 0 < k < |rs| && BlockIn(rs[k], x, m, w) {
      assert BlockIn(rs[1..][k - 1], x, m, w);
    }
    if k :| 0 <= k < |rs[1..]| && BlockIn(rs[1..][k], x, m, w) {
      assert BlockIn(rs[k + 1], x, m, w);
    }
  }

  /** Free memory is given out whole, but for what is smaller than the smallest block. */
  lemma {:induction false} FreeBlocks(lim: Limits, free: seq<Region>, x: nat)
    requires WordRegions(free, lim.win.wordBits) && x < Pow2(lim.win.wordBits) && Sized(lim)
    ensures HasUntyped(OfFree(lim, free), x) <==> BlockInOne(free, x, lim.minBits, lim.win.wordBits)
  {
    hide OfRegion, BlockIn;
    if free != [] {
      BlockInFirst(free, x, lim.minBits, lim.win.wordBits);
      RegionBlocks(lim, false, free[0], x);
      FreeBlocks(lim, free[1..], x);
      HasConcat(OfRegion(lim, false, free[0]), OfFree(lim, free[1..]), x);
    }
  }

  /** What lies between reserved regions, and above them up to `top`. */
  function Gaps(reserved: seq<Region>, start: nat, top: nat): seq<Region> {
    if reserved == [] then if start < top then [Region(start, top)] else []
    else
      (if start < reserved[0].start then [Region(start, reserved[0].start)] else [])
      + Gaps(reserved[1..], reserved[0].end, top)
  }

  /** The gaps hold exactly the addresses that are not reserved, below the top or a reserved region. */
  lemma {:induction false} GapsCover(reserved: seq<Region>, start: nat, top: nat, p: nat)
    requires Separated(reserved) && (reserved != [] ==> start <= reserved[0].start)
    ensures Covers(Gaps(reserved, start, top), p) <==>
      start <= p && !Covers(reserved, p) && (p < top || (reserved != [] && p < reserved[|reserved| - 1].start))
  {
    if reserved == [] {
      CoversOne(Region(start, top));
    } else {
      var r, rest := reserved[0], reserved[1..];
      GapsCover(rest, r.end, top, p);
      CoversOne(Region(start, r.start));
      CoversOne(r);
      CoversAppend([r], rest);
      assert reserved == [r] + rest;
      CoversAppend([Region(start, r.start)], Gaps(rest, r.end, top));
      if start == r.start {
        assert Gaps(reserved, start, top) == Gaps(rest, r.end, top);
      }
      if rest != [] {
        LastIsLater(reserved);
      }
    }
  }

  lemma LastIsLater(rs: seq<Region>)
    requires Separated(rs) && |rs| > 1
    ensures rs[0].start < rs[0].end <= rs[|rs| - 1].start && rs[1..][|rs| - 2] == rs[|rs| - 1]
    ensures forall p: int :: p < rs[0].start ==> !Covers(rs[1..], p)
  {
  }

  /** Seen through the kernel window's offset, the block lies in one of these physical regions. */
  ghost predicate PhysicalBlockInOne(lim: Limits, rs: seq<Region>, x: nat) {
    exists k :: 0 <= k < |rs| && BlockIn(PaddrToPptrReg(lim.win, rs[k]), x, lim.minBits, lim.win.wordBits)
  }

  lemma PhysicalBlockFirst(lim: Limits, r: Region, rs: seq<Region>, x: nat)
    ensures PhysicalBlockInOne(lim, [r] + rs, x) <==>
      BlockIn(PaddrToPptrReg(lim.win, r), x, lim.minBits, lim.win.wordBits) || PhysicalBlockInOne(lim, rs, x)
  {
    hide BlockIn;
    var all := [r] + rs;
    if k :| 0 < k < |all| && BlockIn(PaddrToPptrReg(lim.win, all[k]), x, lim.minBits, lim.win.wordBits) {
      assert BlockIn(PaddrToPptrReg(lim.win, rs[k - 1]), x, lim.minBits, lim.win.wordBits);
    }
    if k :| 0 <= k < |rs| && BlockIn(PaddrToPptrReg(lim.win, rs[k]), x, lim.minBits, lim.win.wordBits) {
      assert BlockIn(PaddrToPptrReg(lim.win, all[k + 1]), x, lim.minBits, lim.win.wordBits);
    }
    assert all[0] == r;
  }

  /** A physical region that does not wrap holds a block exactly if it holds all its physical addresses. */
  lemma PhysicalBlock(win: Window, r: Region, x: nat, m: nat)
    requires win.Valid() && r.start <= r.end < Pow2(win.wordBits)
    ensures BlockIn(PaddrToPptrReg(win, r), x, m, win.wordBits) <==>
      forall y: nat :: BlockHas(x, m, y) ==> y < Pow2(win.wordBits) && Within(r, PhysicalAddress(win, y))
  {
    hide BlockHas, Pow2, PhysicalAddress;
    forall y: nat | y < Pow2(win.wordBits)
      ensures InRegion(PaddrToPptrReg(win, r), y, win.wordBits) <==> Within(r, PhysicalAddress(win, y))
    {
      PaddrRegion(win, r, y);
    }
  }

  /** Device memory is what lies in the gaps. */
  lemma {:induction false} DeviceBlocks(lim: Limits, reserved: seq<Region>, start: nat, top: nat, x: nat)
    requires x < Pow2(lim.win.wordBits) && Sized(lim)
    ensures HasUntyped(OfDevice(lim, reserved, start, top), x) <==>
      PhysicalBlockInOne(lim, Gaps(reserved, start, top), x)
  {
    hide OfRegion, BlockIn;
    if reserved == [] {
      if start < top {
        RegionBlocks(lim, true, PaddrToPptrReg(lim.win, Region(start, top)), x);
        PhysicalBlockFirst(lim, Region(start, top), [], x);
        assert [Region(start, top)] + [] == [Region(start, top)];
      }
    } else {
      var end, s := reserved[0].end, reserved[0].start;
      DeviceBlocks(lim, reserved[1..], end, top, x);
      if start < s {
        RegionBlocks(lim, true, PaddrToPptrReg(lim.win, Region(start, s)), x);
        PhysicalBlockFirst(lim, Region(start, s), Gaps(reserved[1..], end, top), x);
        HasConcat(OfPaddr(lim, true, Region(start, s)), OfDevice(lim, reserved[1..], end, top), x);
      } else {
        assert OfDevice(lim, reserved, start, top) == OfDevice(lim, reserved[1..], end, top);
        assert Gaps(reserved, start, top) == Gaps(reserved[1..], end, top);
      }
    }
  }

  /**
    Main result: the untyped capabilities that the boot code makes hold exactly the smallest blocks of
    the device gaps, of the boot part of the kernel image and of the free regions.
   */
  lemma BootBlocks(lim: Limits, reserved: seq<Region>, bootImage: Region, deviceTop: nat, free: seq<Region>, x: nat)
    requires WordRegions(free, lim.win.wordBits) && x < Pow2(lim.win.wordBits) && Sized(lim)
    ensures HasUntyped(BootUntyped(lim, reserved, bootImage, deviceTop, free), x) <==>
      || PhysicalBlockInOne(lim, Gaps(reserved, 0, deviceTop), x)
      || PhysicalBlockInOne(lim, [bootImage], x)
      || BlockInOne(free, x, lim.minBits, lim.win.wordBits)
  {
    DeviceBlocks(lim, reserved, 0, deviceTop, x);
    RegionBlocks(lim, false, PaddrToPptrReg(lim.win, bootImage), x);
    PhysicalBlockFirst(lim, bootImage, [], x);
    assert [bootImage] + [] == [bootImage];
    FreeBlocks(lim, free, x);
    hide OfDevice, OfPaddr, OfFree, HasUntyped, BlockIn, Gaps;
    HasConcat(OfPaddr(lim, false, bootImage), OfFree(lim, free), x);
    HasConcat(OfDevice(lim, reserved, 0, deviceTop), OfPaddr(lim, false, bootImage) + OfFree(lim, free), x);
  }
}
