/** Free memory at boot, from the available regions to the memory left beside the root server (init_freemem). */
module InitFreemem {
  import opened Words
  import opened Regions
  import opened RegionSubtraction
  import opened ReservedMemory
  import opened FreeMemory
  import opened RootServer

  /** A block of `size` bytes at `s`, aligned to 2^max, lies inside the region. */
  predicate Holds(r: Region, s: nat, size: nat, max: nat) {
    r.start <= s && s + size <= r.end && Aligned(s, max)
  }

  /** Regions in order without overlap, apart from empty ones, which may be anywhere. */
  predicate OrderedButEmpty(rs: seq<Region>) {
    && (forall i :: 0 <= i < |rs| ==> rs[i].start <= rs[i].end)
    && (forall i, j :: 0 <= i < j < |rs| && !IsRegEmpty(rs[i]) && !IsRegEmpty(rs[j]) ==> rs[i].end <= rs[j].start)
  }

  /** The table while the search looks at region i: the regions above it are moved up by one. */
  ghost predicate Shifted(free: seq<Region>, given: seq<Region>, i: int) {
    && -1 <= i < |given| < |free|
    && (forall k :: 0 <= k <= i ==> free[k] == given[k])
    && free[i + 1] == REG_EMPTY
    && (forall k :: i + 1 < k <= |given| ==> free[k] == given[k - 1])
    && (forall k :: |given| < k < |free| ==> free[k] == REG_EMPTY)
  }

  /** The table after the block has been cut from region i. */
  ghost predicate Cut(free: seq<Region>, given: seq<Region>, i: nat, start: nat, size: nat) {
    && i < |given| < |free|
    && (forall k :: 0 <= k < i ==> free[k] == given[k])
    && free[i] == Region(given[i].start, start)
    && free[i + 1] == Region(start + size, given[i].end)
    && (forall k :: i + 1 < k <= |given| ==> free[k] == given[k - 1])
    && (forall k :: |given| < k < |free| ==> free[k] == REG_EMPTY)
  }

  lemma CutAt(r: Region, start: nat, size: nat, w: nat, max: nat)
    requires r.end < Pow2(w) && size < Pow2(w)
    ensures var u := Sub(r.end, size, w);
      var s := RoundDown(u, max);
      && (u <= r.end && s >= r.start <==> exists t: nat :: Holds(r, t, size, max))
      && (u <= r.end && s >= r.start ==> Holds(r, s, size, max) && forall t: nat :: Holds(r, t, size, max) ==> t <= s)
  {
    var u := Sub(r.end, size, w);
    var s := RoundDown(u, max);
    RoundDownLargest(u, max);
    if size <= r.end {
      SubSmall(r.end, size, w);
      if s >= r.start {
        assert Holds(r, s, size, max);
      }
    } else {
      LowSmall(r.end + Pow2(w) - size, w);
    }
  }

  /** Cuts the highest block that fits from the free memory; false exactly if none fits. */
  method PlaceRootserver(boot: NdksBoot, w: nat, size: nat, max: nat, ghost given: seq<Region>)
    returns (ok: bool, start: nat, ghost at: nat)
    requires FreeIs(boot.freemem[..], given) && |given| < boot.freemem.Length
    requires forall k :: 0 <= k < |given| ==> given[k].start < given[k].end < Pow2(w)
    requires size < Pow2(w)
    modifies boot.freemem
    ensures ok <==> exists j, t: nat :: 0 <= j < |given| && Holds(given[j], t, size, max)
    ensures ok ==> at < |given| && Holds(given[at], start, size, max) && Cut(boot.freemem[..], given, at, start, size)
    ensures ok ==> forall j, t: nat :: at <= j < |given| && Holds(given[j], t, size, max) ==> j == at && t <= start
  {
    var i: int := boot.freemem.Length - 1;
    while i >= 0 && IsRegEmpty(boot.freemem[i])
      invariant |given| - 1 <= i < boot.freemem.Length && i >= -1
    {
      assert boot.freemem[..][i] == boot.freemem[i];
      i := i - 1;
    }
    assert i >= 0 ==> boot.freemem[..][i] == boot.freemem[i];
    assert i == |given| - 1;
    while i >= 0
      invariant Shifted(boot.freemem[..], given, i)
      invariant forall j, t: nat :: i < j < |given| ==> !Holds(given[j], t, size, max)
    {
      var emptyIndex := i + 1;
      ghost var before := boot.freemem[..];
      assert before[i] == boot.freemem[i] == given[i];
      var unalignedStart := Sub(boot.freemem[i].end, size, w);
      start := RoundDown(unalignedStart, max);
      CutAt(given[i], start, size, w, max);
      if unalignedStart <= boot.freemem[i].end && start >= boot.freemem[i].start {
        boot.freemem[emptyIndex] := Region(start + size, boot.freemem[i].end);
        boot.freemem[i] := boot.freemem[i].(end := start);
        assert boot.freemem[..] ==
               before[i + 1 := Region(start + size, given[i].end)][i := Region(given[i].start, start)];
        return true, start, i;
      }
      boot.freemem[emptyIndex] := boot.freemem[i];
      boot.freemem[i] := REG_EMPTY;
      assert boot.freemem[..] == before[i + 1 := given[i]][i := REG_EMPTY];
      i := i - 1;
    }
    return false, 0, 0;
  }

  /** Cutting the block takes exactly its addresses out of the free memory and keeps the order. */
  lemma CutCovers(free: seq<Region>, given: seq<Region>, i: nat, start: nat, size: nat, max: nat)
    requires Cut(free, given, i, start, size) && Ordered(given) && Holds(given[i], start, size, max)
    ensures OrderedButEmpty(free)
    ensures forall x: int :: Covers(free, x) <==> Covers(given, x) && !(start <= x < start + size)
  {
    forall x: int ensures Covers(free, x) <==> Covers(given, x) && !(start <= x < start + size) {
      CutCoversAt(free, given, i, start, size, max, x);
    }
  }

  lemma CutCoversAt(free: seq<Region>, given: seq<Region>, i: nat, start: nat, size: nat, max: nat, x: int)
    requires Cut(free, given, i, start, size) && Ordered(given) && Holds(given[i], start, size, max)
    ensures Covers(free, x) <==> Covers(given, x) && !(start <= x < start + size)
  {
    if k :| 0 <= k < |free| && Within(free[k], x) {
      var g := if k <= i then k else k - 1;
      assert k <= |given|;
      assert Within(given[g], x);
    }
    if k :| 0 <= k < |given| && Within(given[k], x) {
      if k != i {
        assert free[if k < i then k else k + 1] == given[k];
      } else if x < start {
        assert Within(free[i], x);
      } else if x >= start + size {
        assert Within(free[i + 1], x);
      }
    }
  }

  lemma CutWords(free: seq<Region>, given: seq<Region>, i: nat, start: nat, size: nat, max: nat, w: nat)
    requires Cut(free, given, i, start, size) && Holds(given[i], start, size, max) && WordRegions(given, w)
    ensures WordRegions(free, w)
  {
  }

  function ClipAll(win: Window, available: seq<Region>): (r: seq<Region>)
    requires win.Valid()
    ensures |r| == |available|
  {
    seq(|available|, i requires 0 <= i < |available| => win.Clipped(available[i]))
  }

  lemma ClippedRegion(win: Window, r: Region)
    requires win.Valid() && r.start <= r.end < Pow2(win.wordBits)
    ensures win.Clipped(r)
         == Region(win.offset + Min(r.start, win.paddrTop), win.offset + Min(r.end, win.paddrTop))
    ensures InWindow(win, win.Clipped(r))
  {
    ClippedAt(win, r.start);
    ClippedAt(win, r.end);
  }

  /** Clipping keeps the available addresses below the top of the kernel window, and their order. */
  lemma ClipAllCovers(win: Window, available: seq<Region>)
    requires win.Valid() && Ordered(available) && WordRegions(available, win.wordBits)
    ensures var avail := ClipAll(win, available);
      && Sorted(avail) && (forall i :: 0 <= i < |avail| ==> InWindow(win, avail[i]))
      && forall p: int :: Covers(avail, p + win.offset) <==> Covers(available, p) && p < win.paddrTop
  {
    var avail := ClipAll(win, available);
    forall i | 0 <= i < |avail|
      ensures avail[i] == Region(win.offset + Min(available[i].start, win.paddrTop),
                                 win.offset + Min(available[i].end, win.paddrTop))
      ensures InWindow(win, avail[i])
    {
      ClippedRegion(win, available[i]);
    }
    forall p: int ensures Covers(avail, p + win.offset) <==> Covers(available, p) && p < win.paddrTop {
      if i :| 0 <= i < |avail| && Within(avail[i], p + win.offset) {
        assert Within(available[i], p);
      }
      if p < win.paddrTop {
        if i :| 0 <= i < |available| && Within(available[i], p) {
          assert Within(avail[i], p + win.offset);
        }
      }
    }
  }

  method ClearFreemem(boot: NdksBoot)
    modifies boot.freemem
    ensures FreeIs(boot.freemem[..], [])
  {
    var i := 0;
    while i < boot.freemem.Length
      invariant i <= boot.freemem.Length && forall k :: 0 <= k < i ==> boot.freemem[k] == REG_EMPTY
    {
      boot.freemem[i] := REG_EMPTY;
      i := i + 1;
    }
  }

  method ConvertAvailable(availReg: array<Region>, available: seq<Region>, win: Window)
    requires win.Valid() && |available| <= availReg.Length
    modifies availReg
    ensures availReg[..|available|] == ClipAll(win, available)
  {
    var i := 0;
    while i < |available|
      invariant 0 <= i <= |available|
      invariant forall k :: 0 <= k < i ==> availReg[k] == win.Clipped(available[k])
    {
      availReg[i] := Region(win.PaddrToPptr(available[i].start), win.PaddrToPptr(available[i].end));
      availReg[i] := availReg[i].(end := win.CeilingKernelWindow(availReg[i].end));
      availReg[i] := availReg[i].(start := win.CeilingKernelWindow(availReg[i].start));
      i := i + 1;
    }
  }

  /** The memory that init_freemem has to give away. */
  function FreeRegions(win: Window, available: seq<Region>, reserved: seq<Region>): seq<Region>
    requires win.Valid()
  {
    Subtract(ClipAll(win, available), reserved)
  }

  /** The free regions are the available addresses in the kernel window that are not reserved. */
  lemma FreeRegionsCover(win: Window, available: seq<Region>, reserved: seq<Region>)
    requires win.Valid() && Ordered(available) && WordRegions(available, win.wordBits) && Sorted(reserved)
    ensures Ordered(FreeRegions(win, available, reserved))
    ensures forall p: int :: Covers(FreeRegions(win, available, reserved), p + win.offset) <==>
      Covers(available, p) && p < win.paddrTop && !Covers(reserved, p + win.offset)
  {
    var avail := ClipAll(win, available);
    ClipAllCovers(win, available);
    SubtractOrdered(avail, reserved, 0);
    forall p: int ensures Covers(Subtract(avail, reserved), p + win.offset) <==>
      Covers(available, p) && p < win.paddrTop && !Covers(reserved, p + win.offset)
    {
      SubtractCovers(avail, reserved, p + win.offset);
    }
  }

  /** Free regions are regions of words. */
  lemma FreeRegionsWords(win: Window, available: seq<Region>, reserved: seq<Region>)
    requires win.Valid() && Ordered(available) && WordRegions(available, win.wordBits) && Sorted(reserved)
    ensures var free := FreeRegions(win, available, reserved);
      forall k :: 0 <= k < |free| ==> win.offset <= free[k].start < free[k].end < Pow2(win.wordBits)
  {
    var free := FreeRegions(win, available, reserved);
    FreeRegionsCover(win, available, reserved);
    forall k | 0 <= k < |free| ensures win.offset <= free[k].start < free[k].end < Pow2(win.wordBits) {
      var avail := ClipAll(win, available);
      ClipAllCovers(win, available);
      assert free[k].start < free[k].end;
      CoveredBy(free, k, free[k].start);
      CoveredBy(free, k, free[k].end - 1);
      SubtractCovers(avail, reserved, free[k].start);
      SubtractCovers(avail, reserved, free[k].end - 1);
    }
  }

  /**
    Sets up the free memory and the root server's objects. It succeeds exactly if the lists are
    sane, the free regions leave a slot to spare, and one of them holds a block for the objects.
   */
  method InitFreemem(boot: NdksBoot, mem: RootserverMem, win: Window, availReg: array<Region>,
                     available: seq<Region>, reserved: seq<Region>, z: Sizes, extraBits: nat)
    returns (ok: bool)
    requires boot.Valid() && boot.resvCount < boot.reserved.Length && boot.freemem.Length > 0
    requires boot.freemem != boot.reserved && availReg != boot.freemem && availReg != boot.reserved
    requires |available| <= availReg.Length && win.Valid() && win.offset > 0
    requires WordRegions(available, win.wordBits) && WordRegions(reserved, win.wordBits)
    requires forall i :: 0 <= i < |reserved| ==> win.offset <= reserved[i].start
    requires Unclaimed(boot.Resv(), ClipAll(win, available), win.offset) && Unclaimed(boot.Resv(), reserved, win.offset)
    requires z.Valid() && (extraBits == 0 || extraBits >= z.page) && mem.extraBi == 0
    requires CalculateRootserverSize(z, extraBits) < Pow2(win.wordBits)
    modifies boot.reserved, boot`resvCount, boot.freemem, availReg, mem
    ensures var free, size := FreeRegions(win, available, reserved), CalculateRootserverSize(z, extraBits);
      ok <==>
        && available != [] && Ordered(available) && Sorted(reserved) && |free| < boot.freemem.Length
        && exists j, t: nat :: 0 <= j < |free| && Holds(free[j], t, size, RootserverMaxSizeBits(z, extraBits))
    ensures ok ==>
      var free, size := FreeRegions(win, available, reserved), CalculateRootserverSize(z, extraBits);
      && mem.end >= size
      && mem.Placed(z, extraBits) && Tiled(mem.blocks, mem.end - size, mem.end)
      && OrderedButEmpty(boot.freemem[..]) && WordRegions(boot.freemem[..], win.wordBits)
      && (forall x: int :: Covers(boot.freemem[..], x) <==> Covers(free, x) && !(mem.end - size <= x < mem.end))
      && (forall x: int :: mem.end - size <= x < mem.end ==> Covers(free, x))
      && boot.Valid()
      && Accounted(old(boot.Resv()), boot.Resv(), free, reserved, win.offset,
                   Room(old(boot.Resv()), ClipAll(win, available), reserved, boot))
  {
    hide Tiled, Accounted, Unclaimed, OrderedButEmpty, Pow2, Subtract, ClipAll, CalculateRootserverSize,
      RootserverMaxSizeBits, Covers, FreeIs, Aligned;
    ok := CheckAvailableMemory(available);
    if !ok {
      return false;
    }
    ok := CheckReservedMemory(reserved);
    if !ok {
      return false;
    }
    ghost var init := boot.Resv();
    ClearFreemem(boot);
    ConvertAvailable(availReg, available, win);
    assert boot.Resv() == init;
    StartInputs(boot, win, available, reserved);
    hide Inputs, Sorted, Ordered, FreeRegions, WordRegions;
    RemoveReserved(boot, win, availReg, |available|, reserved);
    ok := Finish(boot, mem, win, available, reserved, z, extraBits, init);
  }

  lemma StartInputs(boot: NdksBoot, win: Window, available: seq<Region>, reserved: seq<Region>)
    requires boot.Valid() && boot.freemem != boot.reserved && win.Valid()
    requires WordRegions(available, win.wordBits) && WordRegions(reserved, win.wordBits)
    requires Ordered(available) && Sorted(reserved)
    requires forall i :: 0 <= i < |reserved| ==> win.offset <= reserved[i].start
    requires Unclaimed(boot.Resv(), ClipAll(win, available), win.offset) && Unclaimed(boot.Resv(), reserved, win.offset)
    ensures Inputs(boot.Resv(), boot, ClipAll(win, available), reserved, win)
  {
    ClipAllCovers(win, available);
  }

  /** The part after the regions have been handed out. */
  method Finish(boot: NdksBoot, mem: RootserverMem, win: Window, ghost available: seq<Region>,
                ghost reserved: seq<Region>, z: Sizes, extraBits: nat, ghost init: seq<Region>)
    returns (ok: bool)
    requires boot.Valid() && boot.freemem.Length > 0 && boot.freemem != boot.reserved && win.Valid() && win.offset > 0
    requires Ordered(available) && WordRegions(available, win.wordBits) && Sorted(reserved)
    requires var free := FreeRegions(win, available, reserved);
      && FreeIs(boot.freemem[..], free)
      && Accounted(init, boot.Resv(), Kept(free, boot.freemem.Length), reserved, win.offset,
                   Room(init, ClipAll(win, available), reserved, boot))
    requires z.Valid() && (extraBits == 0 || extraBits >= z.page) && mem.extraBi == 0
    requires CalculateRootserverSize(z, extraBits) < Pow2(win.wordBits)
    modifies boot.freemem, mem
    ensures var free, size := FreeRegions(win, available, reserved), CalculateRootserverSize(z, extraBits);
      ok <==>
        && |free| < boot.freemem.Length
        && exists j, t: nat :: 0 <= j < |free| && Holds(free[j], t, size, RootserverMaxSizeBits(z, extraBits))
    ensures ok ==>
      var free, size := FreeRegions(win, available, reserved), CalculateRootserverSize(z, extraBits);
      && mem.end >= size
      && mem.Placed(z, extraBits) && Tiled(mem.blocks, mem.end - size, mem.end)
      && OrderedButEmpty(boot.freemem[..]) && WordRegions(boot.freemem[..], win.wordBits)
      && (forall x: int :: Covers(boot.freemem[..], x) <==> Covers(free, x) && !(mem.end - size <= x < mem.end))
      && (forall x: int :: mem.end - size <= x < mem.end ==> Covers(free, x))
      && boot.Valid()
      && Accounted(init, boot.Resv(), free, reserved, win.offset,
                   Room(init, ClipAll(win, available), reserved, boot))
  {
    hide FreeRegions, Tiled, Accounted, OrderedButEmpty, CalculateRootserverSize, RootserverMaxSizeBits, Pow2, Cut;
    ghost var free := FreeRegions(win, available, reserved);
    var i := boot.freemem.Length - 1;
    assert boot.freemem[..][i] == boot.freemem[i];
    FreeRegionsWords(win, available, reserved);
    FreeRegionsCover(win, available, reserved);
    if !IsRegEmpty(boot.freemem[i]) {
      return false;
    }
    assert Kept(free, boot.freemem.Length) == free;
    var size, max := CalculateRootserverSize(z, extraBits), RootserverMaxSizeBits(z, extraBits);
    var start; ghost var at;
    ok, start, at := PlaceRootserver(boot, win.wordBits, size, max, free);
    if !ok {
      return false;
    }
    CutCovers(boot.freemem[..], free, at, start, size, max);
    CutWords(boot.freemem[..], free, at, start, size, max, win.wordBits);
    assert forall x: int :: start <= x < start + size ==> Within(free[at], x);
    mem.CreateRootserverObjects(start, z, extraBits);
    return true;
  }
}
