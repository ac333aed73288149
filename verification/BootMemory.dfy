/**
  Boot from the lists of memory to the untyped capabilities: init_freemem followed by create_untypeds
  (kernel/src/kernel/boot.c), with a table of reserved regions of the size the kernel gives it
  (kernel/include/arch/riscv/arch/bootinfo.h).
 */
module BootMemory {
  import opened Words
  import opened Regions
  import opened RegionSubtraction
  import opened ReservedMemory
  import opened FreeMemory
  import opened RootServer
  import opened InitFreemem
  import opened BootUntypeds
  import opened UntypedCoverage

  /** Reserved regions cover nothing but regions of words, so they are such regions. */
  lemma ReservedWords(win: Window, init: seq<Region>, resv: seq<Region>, free: seq<Region>, res: seq<Region>)
    requires WordRegions(init, win.wordBits) && WordRegions(free, win.wordBits) && WordRegions(res, win.wordBits)
    requires Separated(resv) && Accounted(init, resv, free, res, win.offset, true)
    ensures WordRegions(resv, win.wordBits)
  {
    hide Pow2;
    forall k | 0 <= k < |resv| ensures WordRegion(resv[k], win.wordBits) {
      var p := resv[k].end - 1;
      assert Within(resv[k], p);
      assert Covers(resv, p);
    }
  }

  /** What init_freemem leaves behind is what create_untypeds needs. */
  lemma InitLeaves(win: Window, available: seq<Region>, reserved: seq<Region>, init: seq<Region>,
                   resv: seq<Region>, freeNow: seq<Region>, block: Region)
    requires win.Valid() && win.offset > 0 && Ordered(available) && Sorted(reserved)
    requires WordRegions(available, win.wordBits) && WordRegions(reserved, win.wordBits)
    requires WordRegions(init, win.wordBits) && Separated(resv)
    requires OrderedButEmpty(freeNow) && WordRegions(freeNow, win.wordBits)
    requires Accounted(init, resv, FreeRegions(win, available, reserved), reserved, win.offset, true)
    requires forall x: int ::
      Covers(freeNow, x) <==> Covers(FreeRegions(win, available, reserved), x) && !Within(block, x)
    requires forall x: int :: Within(block, x) ==> Covers(FreeRegions(win, available, reserved), x)
    ensures AfterInit(win, init, resv, reserved, FreeRegions(win, available, reserved), freeNow, block)
  {
    hide FreeRegions, Pow2, Covers, Accounted, OrderedButEmpty, Separated, Sorted, Ordered, WordRegions;
    var free := FreeRegions(win, available, reserved);
    FreeInWindow(win, available, reserved);
    ReservedWords(win, init, resv, free, reserved);
  }

  lemma FreeInWindow(win: Window, available: seq<Region>, reserved: seq<Region>)
    requires win.Valid() && win.offset > 0 && Ordered(available) && Sorted(reserved)
    requires WordRegions(available, win.wordBits)
    ensures var free := FreeRegions(win, available, reserved);
      && WordRegions(free, win.wordBits)
      && forall x: int :: Covers(free, x) ==> win.offset <= x < Pow2(win.wordBits) && !Covers(reserved, x)
  {
    hide FreeRegions, Pow2, Sorted, Ordered;
    var free := FreeRegions(win, available, reserved);
    FreeRegionsWords(win, available, reserved);
    FreeRegionsCover(win, available, reserved);
    forall x: int | Covers(free, x)
      ensures win.offset <= x < Pow2(win.wordBits) && !Covers(reserved, x)
    {
      var k :| 0 <= k < |free| && Within(free[k], x);
      var p := x - win.offset;
      assert p + win.offset == x;
      assert Covers(free, p + win.offset) ==> Covers(available, p) && !Covers(reserved, p + win.offset);
    }
  }

  /** The capabilities made from what init_freemem leaves behind. */
  lemma LeftNoOverlap(lim: Limits, available: seq<Region>, reserved: seq<Region>, init: seq<Region>, resv: seq<Region>,
                      freeNow: seq<Region>, block: Region, bootImage: Region, deviceTop: nat)
    requires lim.win.Valid()
    requires AfterInit(lim.win, init, resv, reserved, FreeRegions(lim.win, available, reserved), freeNow, block)
    requires deviceTop < Pow2(lim.win.wordBits) && bootImage.start <= bootImage.end < Pow2(lim.win.wordBits)
    requires forall p: int :: Within(bootImage, p) ==> Covers(reserved, p + lim.win.offset)
    ensures WordRegions(resv, lim.win.wordBits) && WordRegions(freeNow, lim.win.wordBits)
    ensures var us := Take(BootUntyped(lim, resv, bootImage, deviceTop, freeNow), lim.maxCaps);
      && (forall i, j :: 0 <= i < j < |us| ==> Disjoint(us[i], us[j]))
      && (forall x: int :: HasUntyped(us, x) ==> !(block.start <= x < block.end))
  {
    hide Accounted, Pow2, FreeRegions, Covers, BootUntyped, Take, HasUntyped, Disjoint;
    var free := FreeRegions(lim.win, available, reserved);
    BootUntypedNoOverlap(lim, init, resv, reserved, free, freeNow, block, bootImage, deviceTop);
  }

  /** When init_freemem succeeds: sane lists, a slot to spare, and a free region for the root server's block. */
  ghost predicate InitSucceeds(win: Window, available: seq<Region>, reserved: seq<Region>, slots: nat,
                               size: nat, bits: nat)
    requires win.Valid()
  {
    var free := FreeRegions(win, available, reserved);
    && available != [] && Ordered(available) && Sorted(reserved) && |free| < slots
    && exists j, t: nat :: 0 <= j < |free| && Holds(free[j], t, size, bits)
  }

  /**
    Main result about booting: whenever it succeeds, no two of the untyped capabilities that have been
    provided overlap, be they for devices, for the boot part of the kernel image or for free memory,
    and none overlaps the objects of the root server, which tile their block. It succeeds exactly if
    init_freemem does and every untyped capability made from the memory `left` can be provided.
   */
  method SetUpMemory(boot: NdksBoot, mem: RootserverMem, cnode: RootCNode, availReg: array<Region>,
                     available: seq<Region>, reserved: seq<Region>, z: Sizes, extraBits: nat,
                     bootImage: Region, deviceTop: nat)
    returns (ok: bool, ghost left: seq<Region>, ghost us: seq<Untyped>)
    requires boot.Valid() && boot.resvCount < boot.reserved.Length && boot.freemem.Length > 0
    requires boot.freemem != boot.reserved && availReg != boot.freemem && availReg != boot.reserved
    requires var win := cnode.lim.win;
      && |available| <= availReg.Length && win.Valid() && win.offset > 0
      && WordRegions(available, win.wordBits) && WordRegions(reserved, win.wordBits)
      && WordRegions(boot.Resv(), win.wordBits)
      && (forall i :: 0 <= i < |reserved| ==> win.offset <= reserved[i].start)
      && Unclaimed(boot.Resv(), ClipAll(win, available), win.offset) && Unclaimed(boot.Resv(), reserved, win.offset)
      && CalculateRootserverSize(z, extraBits) < Pow2(win.wordBits)
      && deviceTop < Pow2(win.wordBits) && bootImage.start <= bootImage.end < Pow2(win.wordBits)
      && (forall p: int :: Within(bootImage, p) ==> Covers(reserved, p + win.offset))
    requires |boot.Resv()| + |reserved| + boot.freemem.Length <= boot.reserved.Length
    requires z.Valid() && (extraBits == 0 || extraBits >= z.page) && mem.extraBi == 0
    requires cnode.Valid() && cnode.untypeds == []
    modifies boot.reserved, boot`resvCount, boot.freemem, availReg, mem, cnode
    ensures var size, bits := CalculateRootserverSize(z, extraBits), RootserverMaxSizeBits(z, extraBits);
      var win := cnode.lim.win;
      var started := InitSucceeds(win, available, reserved, boot.freemem.Length, size, bits);
      && (ok <==> started && cnode.Provides(us, 0))
      && (started ==>
            && mem.end >= size && boot.resvCount <= boot.reserved.Length && WordRegions(left, win.wordBits)
            && AfterInit(win, old(boot.Resv()), boot.Resv(), reserved, FreeRegions(win, available, reserved),
                         left, Region(mem.end - size, mem.end))
            && us == BootUntyped(cnode.lim, boot.Resv(), bootImage, deviceTop, left))
    ensures ok ==> cnode.untypeds == Take(us, cnode.lim.maxCaps)
    ensures ok && |us| <= cnode.lim.maxCaps && Sized(cnode.lim) ==>
      forall x: nat :: x < Pow2(cnode.lim.win.wordBits) ==>
        (HasUntyped(cnode.untypeds, x) <==>
          || PhysicalBlockInOne(cnode.lim, Gaps(boot.Resv(), 0, deviceTop), x)
          || PhysicalBlockInOne(cnode.lim, [bootImage], x)
          || BlockInOne(left, x, cnode.lim.minBits, cnode.lim.win.wordBits))
    ensures ok ==> var size := CalculateRootserverSize(z, extraBits);
      && mem.end >= size && mem.Placed(z, extraBits) && Tiled(mem.blocks, mem.end - size, mem.end)
      && (forall i, j :: 0 <= i < j < |cnode.untypeds| ==> Disjoint(cnode.untypeds[i], cnode.untypeds[j]))
      && (forall x: int :: HasUntyped(cnode.untypeds, x) ==> !(mem.end - size <= x < mem.end))
  {
    hide Accounted, Pow2, FreeRegions, Covers, BootUntyped, Take, HasUntyped, Disjoint, Tiled, Unclaimed, Subtract,
      PhysicalBlockInOne, BlockInOne, Gaps, Sized,
      ClipAll, CalculateRootserverSize, OrderedButEmpty, AfterInit, Holds, Separated, Sorted, Ordered;
    ghost var init := boot.Resv();
    ok := InitFreemem.InitFreemem(boot, mem, cnode.lim.win, availReg, available, reserved, z, extraBits);
    left, us := [], [];
    if !ok {
      return false, left, us;
    }
    var resv := boot.reserved[..boot.resvCount];
    ghost var size, win := CalculateRootserverSize(z, extraBits), cnode.lim.win;
    ghost var block := Region(mem.end - size, mem.end);
    EnoughRoom(win, init, available, reserved, boot);
    InitLeaves(win, available, reserved, init, resv, boot.freemem[..], block);
    LeftNoOverlap(cnode.lim, available, reserved, init, resv, boot.freemem[..], block, bootImage, deviceTop);
    left := boot.freemem[..];
    us := BootUntyped(cnode.lim, resv, bootImage, deviceTop, left);
    EveryBlock(cnode.lim, resv, bootImage, deviceTop, left);
    ok := cnode.CreateUntypeds(resv, bootImage, deviceTop, boot.freemem);
  }

  lemma EveryBlock(lim: Limits, resv: seq<Region>, bootImage: Region, deviceTop: nat, left: seq<Region>)
    requires WordRegions(left, lim.win.wordBits)
    ensures var us := BootUntyped(lim, resv, bootImage, deviceTop, left);
      |us| <= lim.maxCaps && Sized(lim) ==>
        forall x: nat :: x < Pow2(lim.win.wordBits) ==>
          (HasUntyped(Take(us, lim.maxCaps), x) <==>
            || PhysicalBlockInOne(lim, Gaps(resv, 0, deviceTop), x)
            || PhysicalBlockInOne(lim, [bootImage], x)
            || BlockInOne(left, x, lim.minBits, lim.win.wordBits))
  {
    if Sized(lim) {
      forall x: nat | x < Pow2(lim.win.wordBits) {
        BootBlocks(lim, resv, bootImage, deviceTop, left, x);
      }
    }
  }

  lemma EnoughRoom(win: Window, init: seq<Region>, available: seq<Region>, reserved: seq<Region>, boot: NdksBoot)
    requires win.Valid() && |init| + |reserved| + boot.freemem.Length <= boot.reserved.Length
    requires |FreeRegions(win, available, reserved)| < boot.freemem.Length
    ensures Room(init, ClipAll(win, available), reserved, boot)
  {
    SizedRoom(init, ClipAll(win, available), reserved, boot);
  }
}
