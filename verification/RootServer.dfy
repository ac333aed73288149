/** The objects of the root server (kernel/src/kernel/boot.c: create_rootserver_objects). */
module RootServer {
  import opened Words

  /** Object sizes, as bits, and the number of paging structures. */
  datatype Sizes = Sizes(cnode: nat, vspace: nat, page: nat, pageTable: nat, tcb: nat, sc: nat, nPaging: nat) {
    /** What holds of the sizes on every architecture. */
    predicate Valid() {
      && 0 < page <= cnode && page <= vspace
      && pageTable <= page && tcb <= page
      && sc <= pageTable && sc <= tcb
    }
  }

  function Max(a: nat, b: nat): nat {
    if a > b then a else b
  }

  function RootserverMaxSizeBits(z: Sizes, extraBi: nat): nat {
    Max(Max(z.cnode, z.vspace), extraBi)
  }

  function CalculateRootserverSize(z: Sizes, extraBi: nat): nat {
    Pow2(z.cnode) + Pow2(z.tcb) + 3 * Pow2(z.page)
      + (if extraBi > 0 then Pow2(extraBi) else 0)
      + Pow2(z.vspace) + Pow2(z.sc) + z.nPaging * Pow2(z.pageTable)
  }

  /**
    The size, as bits, for extra boot information: none for none, and otherwise the smallest
    power of two that is large enough and at least a page.
   */
  method CalculateExtraBiSizeBits(extraSize: nat, pageBits: nat, wordBits: nat) returns (bits: nat)
    requires pageBits <= wordBits && extraSize <= Pow2(wordBits) - Pow2(pageBits)
    ensures extraSize == 0 ==> bits == 0
    ensures extraSize > 0 ==> bits >= pageBits && extraSize <= Pow2(bits)
    ensures extraSize > 0 ==> bits == pageBits || Pow2(bits - 1) < extraSize
  {
    if extraSize == 0 {
      return 0;
    }
    var rounded := RoundUp(extraSize, pageBits);
    RoundUpWithin(extraSize, pageBits);
    bits := Log2(rounded);
    Log2Rounded(extraSize, pageBits, rounded, bits);
    if extraSize > Pow2(bits) {
      bits := bits + 1;
    }
  }

  /** `ROUND_UP(x, b)`. */
  function RoundUp(x: nat, b: nat): nat
    requires x > 0
  {
    (Shr(x - 1, b) + 1) * Pow2(b)
  }

  lemma RoundUpWithin(x: nat, b: nat)
    requires x > 0
    ensures x <= RoundUp(x, b) < x + Pow2(b) && Pow2(b) <= RoundUp(x, b)
  {
    DivMod(x - 1, Pow2(b));
    NotMore(1, Shr(x - 1, b) + 1, Pow2(b));
  }

  lemma Log2Rounded(x: nat, b: nat, rounded: nat, bits: nat)
    requires x <= rounded < x + Pow2(b) && Pow2(b) <= rounded && Pow2(bits) <= rounded < 2 * Pow2(bits)
    ensures bits >= b && x <= Pow2(bits + 1) && (bits == b || Pow2(bits - 1) < x)
  {
    if bits < b {
      Pow2Monotone(bits + 1, b);
    } else if bits > b {
      Pow2Monotone(b, bits - 1);
    }
  }

  /** `count` objects of size 2^bits one after another. */
  datatype Block = Block(base: nat, bits: nat, count: nat)

  function BlockEnd(b: Block): nat {
    b.base + b.count * Pow2(b.bits)
  }

  /** The blocks follow each other from `lo` to `hi` without a gap, each aligned to its object size. */
  predicate Tiled(bs: seq<Block>, lo: nat, hi: nat) {
    if bs == [] then lo == hi
    else
      var last := bs[|bs| - 1];
      Tiled(bs[..|bs| - 1], lo, last.base) && BlockEnd(last) == hi && Aligned(last.base, last.bits)
  }

  /** Tiles lie inside the whole, and no two of them overlap. */
  lemma {:induction false} TiledDisjoint(bs: seq<Block>, lo: nat, hi: nat, i: nat, j: nat)
    requires Tiled(bs, lo, hi) && i <= j < |bs|
    ensures lo <= bs[i].base && BlockEnd(bs[j]) <= hi
    ensures i < j ==> BlockEnd(bs[i]) <= bs[j].base
  {
    var k := |bs| - 1;
    var init := bs[..k];
    if j < k {
      TiledDisjoint(init, lo, bs[k].base, i, j);
    } else if i < k {
      TiledDisjoint(init, lo, bs[k].base, i, k - 1);
      TiledDisjoint(init, lo, bs[k].base, i, i);
    } else {
      TiledUp(init, lo, bs[k].base);
    }
  }

  lemma {:induction false} TiledUp(bs: seq<Block>, lo: nat, hi: nat)
    requires Tiled(bs, lo, hi)
    ensures lo <= hi
  {
    if bs != [] {
      TiledUp(bs[..|bs| - 1], lo, bs[|bs| - 1].base);
    }
  }

  /** The memory set aside for the root server, what has been taken from it, and the objects. */
  class RootserverMem {
    var start: nat
    var end: nat
    var extraBi: nat
    var cnode: nat
    var vspace: nat
    var asidPool: nat
    var ipcBuf: nat
    var bootInfo: nat
    var tcb: nat
    var pagingStart: nat
    var pagingEnd: nat
    var sc: nat
    ghost var blocks: seq<Block>

    constructor ()
      ensures extraBi == 0
    {
      start, end, extraBi, cnode, vspace, asidPool, ipcBuf, bootInfo, tcb := 0, 0, 0, 0, 0, 0, 0, 0, 0;
      pagingStart, pagingEnd, sc, blocks := 0, 0, 0, [];
    }

    /** The next address is aligned for objects of up to `bits` bits. */
    ghost predicate Ready(lo: nat, bits: nat)
      reads this`start, this`blocks
    {
      0 < lo <= start && Tiled(blocks, lo, start) && Aligned(start, bits)
    }

    method AllocRootserverObj(sizeBits: nat, n: nat, ghost lo: nat, ghost bits: nat) returns (obj: nat)
      requires Ready(lo, bits) && sizeBits <= bits
      requires start + n * Pow2(sizeBits) <= end
      modifies this`start, this`blocks
      ensures obj == old(start) && start == old(start) + n * Pow2(sizeBits)
      ensures blocks == old(blocks) + [Block(obj, sizeBits, n)]
      ensures Ready(lo, sizeBits)
    {
      obj := start;
      AlignedLess(start, bits, sizeBits);
      AlignedSum(start, n, sizeBits);
      start := start + n * Pow2(sizeBits);
      blocks := blocks + [Block(obj, sizeBits, n)];
      assert blocks[..|blocks| - 1] == old(blocks);
    }

    /** Allocates the extra boot information before the first object that is not larger. */
    method MaybeAllocExtraBi(cmpSizeBits: nat, extraBits: nat, ghost lo: nat, ghost bits: nat)
      requires Ready(lo, bits) && cmpSizeBits <= bits && 0 < cmpSizeBits
      requires extraBi == 0 ==> extraBits <= bits
      requires extraBi == 0 && extraBits > 0 ==> start + Pow2(extraBits) <= end
      modifies this`start, this`blocks, this`extraBi
      ensures Ready(lo, cmpSizeBits)
      ensures var now := old(extraBi) == 0 && extraBits >= cmpSizeBits;
        && start == old(start) + (if now then Pow2(extraBits) else 0)
        && extraBi == (if now then old(start) else old(extraBi))
        && blocks == old(blocks) + (if now then [Block(old(start), extraBits, 1)] else [])
    {
      if extraBits >= cmpSizeBits && extraBi == 0 {
        extraBi := AllocRootserverObj(extraBits, 1, lo, bits);
        AlignedLess(start, extraBits, cmpSizeBits);
      } else {
        AlignedLess(start, bits, cmpSizeBits);
      }
    }

    /** The addresses handed out, with the size and number of the objects at each. */
    ghost predicate Placed(z: Sizes, extraBits: nat)
      reads this
    {
      && (extraBits > 0 ==> Block(extraBi, extraBits, 1) in blocks)
      && Block(cnode, z.cnode, 1) in blocks
      && Block(vspace, z.vspace, 1) in blocks
      && Block(asidPool, z.page, 1) in blocks
      && Block(ipcBuf, z.page, 1) in blocks
      && Block(bootInfo, z.page, 1) in blocks
      && Block(tcb, z.tcb, 1) in blocks
      && Block(pagingStart, z.pageTable, z.nPaging) in blocks
      && Block(sc, z.sc, 1) in blocks
    }

    /** Lays the objects out from `start0`, largest first: they tile exactly the size computed. */
    method CreateRootserverObjects(start0: nat, z: Sizes, extraBits: nat)
      requires z.Valid() && (extraBits == 0 || extraBits >= z.page) && extraBi == 0
      requires start0 > 0 && Aligned(start0, RootserverMaxSizeBits(z, extraBits))
      modifies this
      ensures Tiled(blocks, start0, start0 + CalculateRootserverSize(z, extraBits))
      ensures Placed(z, extraBits) && |blocks| == (if extraBits > 0 then 9 else 8)
      ensures start == end == start0 + CalculateRootserverSize(z, extraBits)
    {
      hide Pow2;
      var max := RootserverMaxSizeBits(z, extraBits);
      var size := CalculateRootserverSize(z, extraBits);
      start := start0;
      end := start0 + size;
      blocks := [];
      NotMore(0, z.nPaging, Pow2(z.pageTable));
      assert Ready(start0, max);
      hide Ready, Placed;
      LargeObjects(z, extraBits, start0);
      ghost var large := blocks;
      PageObjects(z, start0);
      ghost var pages := blocks;
      SmallObjects(z, start0);
      AllPlaced(z, extraBits, large, pages);
      ReadyTiled(start0, z.sc);
    }

    lemma ReadyTiled(lo: nat, bits: nat)
      requires Ready(lo, bits)
      ensures Tiled(blocks, lo, start)
    {
    }

    lemma AllPlaced(z: Sizes, extraBits: nat, large: seq<Block>, pages: seq<Block>)
      requires extraBits > 0 ==> Block(extraBi, extraBits, 1) in large
      requires Block(cnode, z.cnode, 1) in large && Block(vspace, z.vspace, 1) in large
      requires pages == large + [Block(asidPool, z.page, 1), Block(ipcBuf, z.page, 1), Block(bootInfo, z.page, 1)]
      requires var tables := Block(pagingStart, z.pageTable, z.nPaging);
        blocks == pages
        + (if z.tcb >= z.pageTable then [Block(tcb, z.tcb, 1), tables] else [tables, Block(tcb, z.tcb, 1)])
        + [Block(sc, z.sc, 1)]
      ensures Placed(z, extraBits)
    {
      var k := |large|;
      assert pages[k] == Block(asidPool, z.page, 1);
      assert pages[k + 1] == Block(ipcBuf, z.page, 1);
      assert pages[k + 2] == Block(bootInfo, z.page, 1);
      assert blocks[k + 5] == Block(sc, z.sc, 1);
    }

    /** The root node and the top-level page table, and the extra boot information at the place its size demands. */
    method LargeObjects(z: Sizes, extraBits: nat, ghost lo: nat)
      requires z.Valid() && (extraBits == 0 || extraBits >= z.page) && extraBi == 0 && blocks == []
      requires Ready(lo, RootserverMaxSizeBits(z, extraBits))
      requires start + Pow2(z.cnode) + Pow2(z.vspace) + (if extraBits > 0 then Pow2(extraBits) else 0) <= end
      modifies this`start, this`blocks, this`extraBi, this`cnode, this`vspace
      ensures Ready(lo, z.page)
      ensures start == old(start) + Pow2(z.cnode) + Pow2(z.vspace) + (if extraBits > 0 then Pow2(extraBits) else 0)
      ensures extraBits > 0 ==> Block(extraBi, extraBits, 1) in blocks
      ensures Block(cnode, z.cnode, 1) in blocks && Block(vspace, z.vspace, 1) in blocks
      ensures |blocks| == if extraBits > 0 then 3 else 2
    {
      hide Ready, Pow2;
      var max := RootserverMaxSizeBits(z, extraBits);
      StartPositive(lo, max);
      MaybeAllocExtraBi(max, extraBits, lo, max);
      if z.cnode > z.vspace {
        cnode := AllocRootserverObj(z.cnode, 1, lo, max);
        MaybeAllocExtraBi(z.vspace, extraBits, lo, z.cnode);
        vspace := AllocRootserverObj(z.vspace, 1, lo, z.vspace);
        MaybeAllocExtraBi(z.page, extraBits, lo, z.vspace);
      } else {
        vspace := AllocRootserverObj(z.vspace, 1, lo, max);
        MaybeAllocExtraBi(z.cnode, extraBits, lo, z.vspace);
        cnode := AllocRootserverObj(z.cnode, 1, lo, z.cnode);
        MaybeAllocExtraBi(z.page, extraBits, lo, z.cnode);
      }
    }

    lemma StartPositive(lo: nat, bits: nat)
      requires Ready(lo, bits)
      ensures start > 0
    {
    }

    /** Three objects of a page. */
    method PageObjects(z: Sizes, ghost lo: nat)
      requires Ready(lo, z.page) && start + 3 * Pow2(z.page) <= end
      modifies this`start, this`blocks, this`asidPool, this`ipcBuf, this`bootInfo
      ensures Ready(lo, z.page) && start == old(start) + 3 * Pow2(z.page)
      ensures blocks == old(blocks) + [Block(asidPool, z.page, 1), Block(ipcBuf, z.page, 1), Block(bootInfo, z.page, 1)]
    {
      hide Ready, Pow2;
      asidPool := AllocRootserverObj(z.page, 1, lo, z.page);
      ipcBuf := AllocRootserverObj(z.page, 1, lo, z.page);
      bootInfo := AllocRootserverObj(z.page, 1, lo, z.page);
    }

    /** The objects of at most a page; the thread comes before or after the page tables by its size. */
    method SmallObjects(z: Sizes, ghost lo: nat)
      requires z.Valid() && Ready(lo, z.page)
      requires start + Pow2(z.tcb) + z.nPaging * Pow2(z.pageTable) + Pow2(z.sc) <= end
      modifies this`start, this`blocks, this`tcb, this`pagingStart, this`pagingEnd, this`sc
      ensures Ready(lo, z.sc)
      ensures start == old(start) + Pow2(z.tcb) + z.nPaging * Pow2(z.pageTable) + Pow2(z.sc)
      ensures pagingEnd == pagingStart + z.nPaging * Pow2(z.pageTable)
      ensures var tables := Block(pagingStart, z.pageTable, z.nPaging);
        blocks == old(blocks)
        + (if z.tcb >= z.pageTable then [Block(tcb, z.tcb, 1), tables] else [tables, Block(tcb, z.tcb, 1)])
        + [Block(sc, z.sc, 1)]
    {
      hide Ready, Pow2;
      NotMore(0, z.nPaging, Pow2(z.pageTable));
      if z.tcb >= z.pageTable {
        tcb := AllocRootserverObj(z.tcb, 1, lo, z.page);
      }
      ghost var bits := if z.tcb >= z.pageTable then z.tcb else z.page;
      pagingStart := AllocRootserverObj(z.pageTable, z.nPaging, lo, bits);
      pagingEnd := pagingStart + z.nPaging * Pow2(z.pageTable);
      if z.tcb < z.pageTable {
        tcb := AllocRootserverObj(z.tcb, 1, lo, z.pageTable);
      }
      sc := AllocRootserverObj(z.sc, 1, lo, if z.tcb < z.pageTable then z.tcb else z.pageTable);
    }
  }
}
