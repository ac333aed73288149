/** The untyped capabilities that the boot code hands to the root server (create_untypeds). */
module BootUntypeds {
  import opened Words
  import opened Regions
  import opened Untypeds
  import opened RegionSubtraction
  import opened FreeMemory
  import opened InitFreemem

  datatype Untyped = Untyped(ptr: nat, bits: nat, isDevice: bool)

  /** Smallest and largest size of an untyped capability, how many fit in the boot information, and the window. */
  datatype Limits = Limits(minBits: nat, maxBits: nat, maxCaps: nat, win: Window)

  predicate InUntyped(u: Untyped, x: int) {
    u.ptr <= x < u.ptr + Pow2(u.bits)
  }

  function Usable(isDevice: bool, cs: seq<Chunk>, minBits: nat): seq<Untyped> {
    if cs == [] then []
    else
      (if cs[0].bits >= minBits then [Untyped(cs[0].base, cs[0].bits, isDevice)] else [])
      + Usable(isDevice, cs[1..], minBits)
  }

  /** The untyped capabilities for one region, which may wrap. */
  function OfRegion(lim: Limits, isDevice: bool, r: Region): seq<Untyped>
    requires WordRegion(r, lim.win.wordBits)
  {
    var w := lim.win.wordBits;
    Usable(isDevice, Chunks(r.start, Sub(r.end, r.start, w), lim.maxBits, w), lim.minBits)
  }

  function PaddrToPptrReg(win: Window, r: Region): (v: Region)
    ensures WordRegion(v, win.wordBits)
  {
    Region(win.PaddrToPptr(r.start), win.PaddrToPptr(r.end))
  }

  function OfPaddr(lim: Limits, isDevice: bool, r: Region): seq<Untyped> {
    OfRegion(lim, isDevice, PaddrToPptrReg(lim.win, r))
  }

  /** Device memory: whatever lies between reserved regions, and above them up to `top`. */
  function OfDevice(lim: Limits, reserved: seq<Region>, start: nat, top: nat): seq<Untyped> {
    if reserved == [] then
      if start < top then OfPaddr(lim, true, Region(start, top)) else []
    else
      (if start < reserved[0].start then OfPaddr(lim, true, Region(start, reserved[0].start)) else [])
      + OfDevice(lim, reserved[1..], reserved[0].end, top)
  }

  function OfFree(lim: Limits, free: seq<Region>): seq<Untyped>
    requires WordRegions(free, lim.win.wordBits)
  {
    if free == [] then [] else OfRegion(lim, false, free[0]) + OfFree(lim, free[1..])
  }

  function BootUntyped(lim: Limits, reserved: seq<Region>, bootImage: Region, deviceTop: nat, free: seq<Region>)
    : seq<Untyped>
    requires WordRegions(free, lim.win.wordBits)
  {
    OfDevice(lim, reserved, 0, deviceTop) + (OfPaddr(lim, false, bootImage) + OfFree(lim, free))
  }

  function Take(us: seq<Untyped>, n: nat): seq<Untyped> {
    if |us| <= n then us else us[..n]
  }

  lemma TakeTake(a: seq<Untyped>, b: seq<Untyped>, n: nat)
    ensures Take(Take(a, n) + b, n) == Take(a + b, n)
  {
  }

  lemma TakeStep(a: seq<Untyped>, u: Untyped, rest: seq<Untyped>, n: nat)
    ensures Take(Take(a + [u], n) + rest, n) == Take(a + ([u] + rest), n)
  {
    TakeTake(a + [u], rest, n);
    assert a + [u] + rest == a + ([u] + rest);
  }

  lemma TakeAll(a: seq<Untyped>, n: nat)
    requires |a| <= n
    ensures Take(a + [], n) == a
  {
    assert a + [] == a;
  }

  /** Providing the first of several groups of capabilities. */
  lemma TakeGroup(us: seq<Untyped>, group: seq<Untyped>, rest: seq<Untyped>, n: nat)
    ensures Take(us + (group + rest), n) == Take(Take(us + group, n) + rest, n)
  {
    TakeTake(us + group, rest, n);
    assert us + (group + rest) == us + group + rest;
  }

  /** The bits of the first block, from the size of the region and the alignment of its start. */
  method BlockBits(reg: Region, w: nat, maxBits: nat) returns (sizeBits: nat)
    requires WordRegion(reg, w) && Sub(reg.end, reg.start, w) > 0
    ensures sizeBits == SizeBits(reg.start, Sub(reg.end, reg.start, w), maxBits)
  {
    sizeBits := Log2(Sub(reg.end, reg.start, w));
    if sizeBits > maxBits {
      sizeBits := maxBits;
    }
    if reg.start != 0 {
      var alignBits := Ctz(reg.start);
      if sizeBits > alignBits {
        sizeBits := alignBits;
      }
    }
  }

  predicate InKernelWindow(win: Window, x: nat) {
    win.offset <= x < win.offset + win.paddrTop
  }

  /** Memory that the kernel uses itself must lie in the kernel window. */
  predicate Allowed(lim: Limits, u: Untyped) {
    u.isDevice || (InKernelWindow(lim.win, u.ptr) && InKernelWindow(lim.win, u.ptr + Pow2(u.bits) - 1))
  }

  /** The root server's capability node while it is filled with untyped capabilities. */
  class RootCNode {
    const lim: Limits
    const firstUntypedSlot: nat
    const slots: nat
    var slotPosCur: nat
    var untypeds: seq<Untyped>

    constructor (lim: Limits, firstUntypedSlot: nat, slots: nat)
      ensures Valid() && untypeds == []
    {
      this.lim, this.firstUntypedSlot, this.slots := lim, firstUntypedSlot, slots;
      slotPosCur, untypeds := firstUntypedSlot, [];
    }

    ghost predicate Valid()
      reads this
    {
      slotPosCur == firstUntypedSlot + |untypeds| && |untypeds| <= lim.maxCaps
    }

    /** A capability can be stored, or the boot information is full and it is left out. */
    ghost predicate HasRoom()
      reads this
    {
      |untypeds| >= lim.maxCaps || slotPosCur < slots
    }

    /** Slots suffice for `m` more capabilities after `n`, of which the boot information takes `maxCaps` at most. */
    predicate SlotsFor(n: nat, m: nat) {
      var total := if n + m < lim.maxCaps then n + m else lim.maxCaps;
      total <= n || firstUntypedSlot + total <= slots
    }

    /** The capabilities can all be provided after `n` others: kernel memory lies in its window, and slots suffice. */
    predicate Provides(us: seq<Untyped>, n: nat) {
      (forall u :: u in us ==> Allowed(lim, u)) && SlotsFor(n, |us|)
    }

    lemma ProvidesNone(n: nat)
      ensures Provides([], n)
    {
    }

    /** Providing one group and then another. */
    lemma ProvidesBoth(before: seq<Untyped>, a: seq<Untyped>, b: seq<Untyped>)
      requires |before| <= lim.maxCaps
      ensures Provides(a + b, |before|)
         <==> Provides(a, |before|) && Provides(b, |Take(before + a, lim.maxCaps)|)
    {
      hide Allowed;
      assert forall u :: u in a + b <==> u in a || u in b;
    }

    lemma ProvidesFirst(before: seq<Untyped>, u: Untyped, rest: seq<Untyped>)
      requires |before| <= lim.maxCaps
      ensures Provides([u] + rest, |before|)
         <==> && Allowed(lim, u) && (|before| >= lim.maxCaps || firstUntypedSlot + |before| < slots)
              && Provides(rest, |Take(before + [u], lim.maxCaps)|)
    {
      hide Allowed;
      ProvidesBoth(before, [u], rest);
    }

    method ProvideUntypedCap(isDevice: bool, pptr: nat, sizeBits: nat) returns (ok: bool)
      requires Valid()
      modifies this
      ensures Valid()
      ensures ok == old(lim.minBits <= sizeBits <= lim.maxBits && Aligned(pptr, sizeBits)
                        && Allowed(lim, Untyped(pptr, sizeBits, isDevice)) && HasRoom())
      ensures untypeds == if ok then Take(old(untypeds) + [Untyped(pptr, sizeBits, isDevice)], lim.maxCaps)
                          else old(untypeds)
    {
      if sizeBits > lim.maxBits || sizeBits < lim.minBits {
        return false;
      }
      if !Aligned(pptr, sizeBits) {
        return false;
      }
      if !isDevice && !InKernelWindow(lim.win, pptr) {
        return false;
      }
      if !isDevice && !InKernelWindow(lim.win, pptr + Pow2(sizeBits) - 1) {
        return false;
      }
      var i := slotPosCur - firstUntypedSlot;
      if i < lim.maxCaps {
        if slotPosCur >= slots {
          return false;
        }
        untypeds := untypeds + [Untyped(pptr, sizeBits, isDevice)];
        slotPosCur := slotPosCur + 1;
      }
      return true;
    }

    /** Splits a region into blocks and provides those that are large enough, in order. */
    method CreateUntypedsForRegion(isDevice: bool, reg0: Region) returns (ok: bool)
      requires Valid() && WordRegion(reg0, lim.win.wordBits)
      modifies this
      ensures Valid()
      ensures ok ==> untypeds == Take(old(untypeds) + OfRegion(lim, isDevice, reg0), lim.maxCaps)
      ensures ok <==> Provides(OfRegion(lim, isDevice, reg0), |old(untypeds)|)
    {
      hide Provides, Pow2, Aligned, Allowed, SizeBits, Sub, OfRegion, Take, Advance;
      var w := lim.win.wordBits;
      var reg := reg0;
      ghost var len := Sub(reg.end, reg.start, w);
      while reg.start != reg.end
        invariant Valid() && WordRegion(reg, w) && len == Sub(reg.end, reg.start, w)
        invariant Take(old(untypeds) + OfRegion(lim, isDevice, reg0), lim.maxCaps)
               == Take(untypeds + OfRegion(lim, isDevice, reg), lim.maxCaps)
        invariant Provides(OfRegion(lim, isDevice, reg0), |old(untypeds)|)
             <==> Provides(OfRegion(lim, isDevice, reg), |untypeds|)
        decreases len
      {
        NotEmpty(reg, w);
        var sizeBits := BlockBits(reg, w, lim.maxBits);
        RegionStep(lim, isDevice, reg, sizeBits);
        ghost var u := Untyped(reg.start, sizeBits, isDevice);
        ghost var before := untypeds;
        ghost var rest := OfRegion(lim, isDevice, Region(Advance(reg.start, sizeBits, w), reg.end));
        if sizeBits >= lim.minBits {
          ProvidesFirst(before, u, rest);
          var provided := ProvideUntypedCap(isDevice, reg.start, sizeBits);
          if !provided {
            return false;
          }
          TakeStep(before, u, rest, lim.maxCaps);
        }
        reg := reg.(start := Advance(reg.start, sizeBits, w));
        len := len - Pow2(sizeBits);
      }
      NothingLeft(lim, isDevice, reg);
      ProvidesNone(|untypeds|);
      TakeAll(untypeds, lim.maxCaps);
      return true;
    }

    /** All untyped capabilities: device memory, the kernel's boot image, the free memory. */
    method CreateUntypeds(reserved: seq<Region>, bootImage: Region, deviceTop: nat, freemem: array<Region>)
      returns (ok: bool)
      requires Valid() && untypeds == [] && lim.win.Valid()
      requires WordRegions(reserved, lim.win.wordBits) && WordRegion(bootImage, lim.win.wordBits)
      requires deviceTop < Pow2(lim.win.wordBits) && WordRegions(freemem[..], lim.win.wordBits)
      modifies this, freemem
      ensures Valid()
      ensures ok ==> untypeds == Take(BootUntyped(lim, reserved, bootImage, deviceTop, old(freemem[..])), lim.maxCaps)
      ensures ok <==> Provides(BootUntyped(lim, reserved, bootImage, deviceTop, old(freemem[..])), 0)
    {
      hide Provides, OfRegion, Take, Pow2, HasRoom, Allowed, OfDevice, OfFree;
      ghost var device, free := OfDevice(lim, reserved, 0, deviceTop), freemem[..];
      ProvidesBoth([], device, OfRegion(lim, false, PaddrToPptrReg(lim.win, bootImage)) + OfFree(lim, free));
      assert [] + device == device;
      ok := CreateDeviceUntypeds(reserved, deviceTop);
      if !ok {
        return false;
      }
      var bootMemReuse := PaddrToPptrReg(lim.win, bootImage);
      ghost var image := OfRegion(lim, false, bootMemReuse);
      TakeTake(device, image, lim.maxCaps);
      ProvidesBoth(untypeds, image, OfFree(lim, free));
      ok := CreateUntypedsForRegion(false, bootMemReuse);
      if !ok {
        return false;
      }
      TakeTake(device + image, OfFree(lim, free), lim.maxCaps);
      assert device + image + OfFree(lim, free) == device + (image + OfFree(lim, free));
      ok := CreateFreeUntypeds(freemem);
    }

    method CreateDeviceUntypeds(reserved: seq<Region>, deviceTop: nat) returns (ok: bool)
      requires Valid() && untypeds == [] && WordRegions(reserved, lim.win.wordBits)
      requires deviceTop < Pow2(lim.win.wordBits)
      modifies this
      ensures Valid()
      ensures ok ==> untypeds == Take(OfDevice(lim, reserved, 0, deviceTop), lim.maxCaps)
      ensures ok <==> Provides(OfDevice(lim, reserved, 0, deviceTop), 0)
    {
      hide Provides, OfRegion, Take, Pow2, HasRoom, Allowed;
      var start, i := 0, 0;
      ghost var all := OfDevice(lim, reserved, 0, deviceTop);
      assert reserved[0..] == reserved && [] + all == all;
      while i < |reserved|
        invariant i <= |reserved| && Valid() && 0 <= start < Pow2(lim.win.wordBits)
        invariant Take(all, lim.maxCaps) == Take(untypeds + OfDevice(lim, reserved[i..], start, deviceTop), lim.maxCaps)
        invariant Provides(all, 0) <==> Provides(OfDevice(lim, reserved[i..], start, deviceTop), |untypeds|)
      {
        ghost var later := OfDevice(lim, reserved[i + 1..], reserved[i].end, deviceTop);
        assert reserved[i..][1..] == reserved[i + 1..];
        if start < reserved[i].start {
          var reg := PaddrToPptrReg(lim.win, Region(start, reserved[i].start));
          TakeGroup(untypeds, OfRegion(lim, true, reg), later, lim.maxCaps);
          ProvidesBoth(untypeds, OfRegion(lim, true, reg), later);
          var made := CreateUntypedsForRegion(true, reg);
          if !made {
            return false;
          }
        } else {
          assert [] + later == later;
        }
        start := reserved[i].end;
        i := i + 1;
      }
      if start < deviceTop {
        ok := CreateUntypedsForRegion(true, PaddrToPptrReg(lim.win, Region(start, deviceTop)));
      } else {
        ProvidesNone(|untypeds|);
        TakeAll(untypeds, lim.maxCaps);
        ok := true;
      }
    }

    /** Empties the table of free regions on the way. */
    method CreateFreeUntypeds(freemem: array<Region>) returns (ok: bool)
      requires Valid() && WordRegions(freemem[..], lim.win.wordBits)
      modifies this, freemem
      ensures Valid()
      ensures ok ==> untypeds == Take(old(untypeds) + OfFree(lim, old(freemem[..])), lim.maxCaps)
      ensures ok ==> forall k :: 0 <= k < freemem.Length ==> freemem[k] == REG_EMPTY
      ensures ok <==> Provides(OfFree(lim, old(freemem[..])), |old(untypeds)|)
    {
      hide Provides, OfRegion, Take, Pow2, HasRoom, Allowed;
      var i := 0;
      ghost var free := freemem[..];
      ghost var all := untypeds + OfFree(lim, free);
      assert free[0..] == free;
      while i < freemem.Length
        invariant 0 <= i <= freemem.Length && Valid() && free[i..] == freemem[i..]
        invariant forall k :: 0 <= k < i ==> freemem[k] == REG_EMPTY
        invariant Take(all, lim.maxCaps) == Take(untypeds + OfFree(lim, free[i..]), lim.maxCaps)
        invariant Provides(OfFree(lim, free), |old(untypeds)|) <==> Provides(OfFree(lim, free[i..]), |untypeds|)
      {
        var reg := freemem[i];
        freemem[i] := REG_EMPTY;
        assert reg == free[i] && free[i..][1..] == free[i + 1..];
        TakeGroup(untypeds, OfRegion(lim, false, reg), OfFree(lim, free[i + 1..]), lim.maxCaps);
        ProvidesBoth(untypeds, OfRegion(lim, false, reg), OfFree(lim, free[i + 1..]));
        var made := CreateUntypedsForRegion(false, reg);
        if !made {
          return false;
        }
        i := i + 1;
      }
      ProvidesNone(|untypeds|);
      TakeAll(untypeds, lim.maxCaps);
      return true;
    }
  }

  lemma NotEmpty(r: Region, w: nat)
    requires WordRegion(r, w) && r.start != r.end
    ensures Sub(r.end, r.start, w) > 0
  {
    DistIsSub(r.start, r.end, w);
  }

  lemma NothingLeft(lim: Limits, isDevice: bool, r: Region)
    requires WordRegion(r, lim.win.wordBits) && r.start == r.end
    ensures OfRegion(lim, isDevice, r) == []
  {
    DistIsSub(r.start, r.end, lim.win.wordBits);
  }

  /** The first block of a region and the rest of it. */
  lemma RegionStep(lim: Limits, isDevice: bool, r: Region, b: nat)
    requires WordRegion(r, lim.win.wordBits) && Sub(r.end, r.start, lim.win.wordBits) > 0
    requires b == SizeBits(r.start, Sub(r.end, r.start, lim.win.wordBits), lim.maxBits)
    ensures var w := lim.win.wordBits;
      var rest := Region(Advance(r.start, b, w), r.end);
      && Aligned(r.start, b) && b <= lim.maxBits && Pow2(b) > 0
      && WordRegion(rest, w) && Sub(r.end, r.start, w) == Pow2(b) + Sub(rest.end, rest.start, w)
      && OfRegion(lim, isDevice, r)
         == (if b >= lim.minBits then [Untyped(r.start, b, isDevice)] + OfRegion(lim, isDevice, rest)
             else OfRegion(lim, isDevice, rest))
  {
    hide Pow2, Aligned, SizeBits;
    var w := lim.win.wordBits;
    var len := Sub(r.end, r.start, w);
    ChunkFits(r.start, len, lim.maxBits, w);
    var next := Advance(r.start, b, w);
    DistIsSub(r.start, r.end, w);
    DistIsSub(next, r.end, w);
    Around(r.start, Pow2(b), r.end, Pow2(w));
    var cs := Chunks(r.start, len, lim.maxBits, w);
    assert cs[0] == Chunk(r.start, b) && cs[1..] == Chunks(next, len - Pow2(b), lim.maxBits, w);
  }

  // ---------------------------------------------------------------- no two overlap

  ghost predicate HasUntyped(us: seq<Untyped>, x: int) {
    exists k :: 0 <= k < |us| && InUntyped(us[k], x)
  }

  /** No address is in two of the capabilities. */
  ghost predicate NoOverlap(us: seq<Untyped>) {
    forall i, j :: 0 <= i < j < |us| ==> Disjoint(us[i], us[j])
  }

  predicate Disjoint(u: Untyped, v: Untyped) {
    u.ptr + Pow2(u.bits) <= v.ptr || v.ptr + Pow2(v.bits) <= u.ptr
  }

  lemma HasConcat(a: seq<Untyped>, b: seq<Untyped>, x: int)
    ensures HasUntyped(a + b, x) <==> HasUntyped(a, x) || HasUntyped(b, x)
  {
    if k :| 0 <= k < |a| && InUntyped(a[k], x) {
      assert InUntyped((a + b)[k], x);
    }
    if k :| 0 <= k < |b| && InUntyped(b[k], x) {
      assert InUntyped((a + b)[|a| + k], x);
    }
  }

  lemma HasAt(us: seq<Untyped>, k: nat, x: int)
    requires k < |us| && InUntyped(us[k], x)
    ensures HasUntyped(us, x)
  {
  }

  lemma HasBoth(a: seq<Untyped>, b: seq<Untyped>, i: nat, j: nat, x: int)
    requires i < |a| && j < |b| && InUntyped(a[i], x) && InUntyped(b[j], x)
    ensures HasUntyped(a, x) && HasUntyped(b, x)
  {
  }

  /** Two lists without overlap, and without overlap between them, make one. */
  lemma ConcatNoOverlap(a: seq<Untyped>, b: seq<Untyped>)
    requires NoOverlap(a) && NoOverlap(b) && forall x: int :: HasUntyped(a, x) ==> !HasUntyped(b, x)
    ensures NoOverlap(a + b)
  {
    var c := a + b;
    forall i, j | 0 <= i < j < |c| ensures Disjoint(c[i], c[j]) {
      if i < |a| && j >= |a| {
        hide Pow2;
        var u, v := a[i], b[j - |a|];
        var x := if u.ptr < v.ptr then v.ptr else u.ptr;
        if !Disjoint(u, v) {
          HasBoth(a, b, i, j - |a|, x);
          assert false;
        }
      } else if j < |a| {
        assert Disjoint(a[i], a[j]);
      } else {
        assert Disjoint(b[i - |a|], b[j - |a|]);
      }
    }
  }

  /** The addresses of a region, which may wrap. */
  predicate InRegion(r: Region, x: int, w: nat)
    requires WordRegion(r, w)
  {
    0 <= x < Pow2(w) && Dist(r.start, x, Pow2(w)) < Sub(r.end, r.start, w)
  }

  /** One region's capabilities lie in the region and do not overlap. */
  lemma {:induction false} RegionNoOverlap(lim: Limits, isDevice: bool, r: Region)
    requires WordRegion(r, lim.win.wordBits)
    ensures NoOverlap(OfRegion(lim, isDevice, r))
    ensures forall x: int :: HasUntyped(OfRegion(lim, isDevice, r), x) ==> InRegion(r, x, lim.win.wordBits)
    decreases Sub(r.end, r.start, lim.win.wordBits)
  {
    var w := lim.win.wordBits;
    var len := Sub(r.end, r.start, w);
    hide Pow2, SizeBits, OfRegion, Sub, Aligned;
    if r.start == r.end {
      NothingLeft(lim, isDevice, r);
    } else {
      NotEmpty(r, w);
      var b := SizeBits(r.start, len, lim.maxBits);
      RegionStep(lim, isDevice, r, b);
      ChunkFits(r.start, len, lim.maxBits, w);
      var rest := Region(Advance(r.start, b, w), r.end);
      RegionNoOverlap(lim, isDevice, rest);
      var u := Untyped(r.start, b, isDevice);
      forall x: int | InUntyped(u, x) || InRegion(rest, x, w)
        ensures InRegion(r, x, w) && (InUntyped(u, x) ==> !InRegion(rest, x, w))
      {
        Around(r.start, Pow2(b), x, Pow2(w));
      }
      HasOne(u);
      if b >= lim.minBits {
        ConcatNoOverlap([u], OfRegion(lim, isDevice, rest));
        forall x: int { HasConcat([u], OfRegion(lim, isDevice, rest), x); }
      }
    }
  }

  lemma HasOne(u: Untyped)
    ensures NoOverlap([u]) && forall x: int :: HasUntyped([u], x) <==> InUntyped(u, x)
  {
    forall x: int | InUntyped(u, x) ensures HasUntyped([u], x) {
      HasAt([u], 0, x);
    }
  }

  function PhysicalAddress(win: Window, x: nat): nat
    requires win.Valid()
  {
    win.PptrToPaddr(x)
  }

  /** A physical region that does not wrap, seen through the kernel window's offset, which may wrap. */
  lemma PaddrRegion(win: Window, r: Region, x: int)
    requires win.Valid() && r.start <= r.end < Pow2(win.wordBits) && 0 <= x < Pow2(win.wordBits)
    ensures InRegion(PaddrToPptrReg(win, r), x, win.wordBits) <==> Within(r, PhysicalAddress(win, x))
  {
    var w, v := win.wordBits, PaddrToPptrReg(win, r);
    var size := Pow2(w);
    LowSum(r.start, win.offset, w);
    LowSum(r.end, win.offset, w);
    DistIsSub(v.start, v.end, w);
    DistIsSub(win.offset, x, w);
  }

  lemma LowSum(a: nat, b: nat, w: nat)
    requires a < Pow2(w) && b < Pow2(w)
    ensures Low(a + b, w) == if a + b < Pow2(w) then a + b else a + b - Pow2(w)
  {
    if a + b < Pow2(w) {
      LowSmall(a + b, w);
    } else {
      Quotient(a + b, Pow2(w), 1, a + b - Pow2(w));
    }
  }

  /** Device memory starts after `start`, avoids what is reserved, and does not overlap. */
  lemma {:induction false} DeviceNoOverlap(lim: Limits, reserved: seq<Region>, start: nat, top: nat)
    requires lim.win.Valid() && start < Pow2(lim.win.wordBits) && top < Pow2(lim.win.wordBits)
    requires Separated(reserved) && WordRegions(reserved, lim.win.wordBits)
    requires reserved != [] ==> start <= reserved[0].start
    ensures NoOverlap(OfDevice(lim, reserved, start, top))
    ensures forall x: int :: HasUntyped(OfDevice(lim, reserved, start, top), x) ==>
      && 0 <= x < Pow2(lim.win.wordBits)
      && start <= PhysicalAddress(lim.win, x) && !Covers(reserved, PhysicalAddress(lim.win, x))
  {
    assert NoOverlap([]);
    hide Pow2, OfRegion, NoOverlap, PhysicalAddress;
    if reserved == [] {
      if start < top {
        PaddrNoOverlap(lim, true, Region(start, top));
      }
    } else {
      var r := reserved[0];
      var later := OfDevice(lim, reserved[1..], r.end, top);
      DeviceNoOverlap(lim, reserved[1..], r.end, top);
      forall x: int | 0 <= x < Pow2(lim.win.wordBits) {
        FirstOrLater(reserved, PhysicalAddress(lim.win, x));
      }
      if start < r.start {
        var first := OfPaddr(lim, true, Region(start, r.start));
        PaddrNoOverlap(lim, true, Region(start, r.start));
        ConcatNoOverlap(first, later);
        forall x: int { HasConcat(first, later, x); }
      } else {
        assert [] + later == later;
      }
    }
  }

  lemma FirstOrLater(rs: seq<Region>, p: int)
    requires rs != [] && Separated(rs)
    ensures p < rs[0].start ==> !Covers(rs, p)
    ensures rs[0].end <= p ==> (Covers(rs, p) <==> Covers(rs[1..], p))
  {
    assert rs == [rs[0]] + rs[1..];
    CoversAppend([rs[0]], rs[1..]);
    CoversOne(rs[0]);
  }

  lemma PaddrNoOverlap(lim: Limits, isDevice: bool, r: Region)
    requires lim.win.Valid() && r.start <= r.end < Pow2(lim.win.wordBits)
    ensures NoOverlap(OfPaddr(lim, isDevice, r))
    ensures forall x: int :: HasUntyped(OfPaddr(lim, isDevice, r), x) ==>
      0 <= x < Pow2(lim.win.wordBits) && Within(r, PhysicalAddress(lim.win, x))
  {
    RegionNoOverlap(lim, isDevice, PaddrToPptrReg(lim.win, r));
    forall x: int | InRegion(PaddrToPptrReg(lim.win, r), x, lim.win.wordBits)
      ensures Within(r, PhysicalAddress(lim.win, x))
    {
      PaddrRegion(lim.win, r, x);
    }
  }

  /** Free regions in order do not overlap, and their capabilities cover nothing else. */
  lemma {:induction false} FreeNoOverlap(lim: Limits, free: seq<Region>)
    requires WordRegions(free, lim.win.wordBits) && OrderedButEmpty(free)
    ensures NoOverlap(OfFree(lim, free))
    ensures forall x: int :: HasUntyped(OfFree(lim, free), x) ==> 0 <= x < Pow2(lim.win.wordBits) && Covers(free, x)
  {
    assert NoOverlap([]);
    hide Pow2, OfRegion, NoOverlap, InRegion;
    if free != [] {
      var r := free[0];
      RegionNoOverlap(lim, false, r);
      FreeNoOverlap(lim, free[1..]);
      forall x: int | InRegion(r, x, lim.win.wordBits) ensures Within(r, x) && !Covers(free[1..], x) {
        PlainRegion(r, x, lim.win.wordBits);
      }
      var first, later := OfRegion(lim, false, r), OfFree(lim, free[1..]);
      ConcatNoOverlap(first, later);
      forall x: int ensures HasUntyped(first + later, x) ==> 0 <= x < Pow2(lim.win.wordBits) && Covers(free, x) {
        HasConcat(first, later, x);
        if HasUntyped(first, x) {
          PlainRegion(r, x, lim.win.wordBits);
        }
        HeadOrTail(free, x);
      }
    }
  }

  lemma PlainRegion(r: Region, x: int, w: nat)
    requires WordRegion(r, w) && r.start <= r.end && InRegion(r, x, w)
    ensures Within(r, x) && 0 <= x < Pow2(w)
  {
    DistIsSub(r.start, r.end, w);
  }

  lemma PhysicalIs(win: Window, x: nat)
    requires win.Valid() && win.offset <= x < Pow2(win.wordBits)
    ensures PhysicalAddress(win, x) == x - win.offset
  {
    SubSmall(x, win.offset, win.wordBits);
  }

  /**
    The state after init_freemem: `resv` accounts for the free regions and the regions `reservedV`
    that the caller reserved, and `freeNow` is the free memory without the root server's block.
   */
  ghost predicate AfterInit(win: Window, init: seq<Region>, resv: seq<Region>, reservedV: seq<Region>,
                            free: seq<Region>, freeNow: seq<Region>, block: Region)
  {
    && win.Valid() && Separated(resv) && WordRegions(resv, win.wordBits)
    && OrderedButEmpty(freeNow) && WordRegions(freeNow, win.wordBits)
    && Accounted(init, resv, free, reservedV, win.offset, true)
    && (forall x: int :: Covers(free, x) ==> win.offset <= x < Pow2(win.wordBits) && !Covers(reservedV, x))
    && (forall x: int :: Covers(freeNow, x) <==> Covers(free, x) && !Within(block, x))
    && (forall x: int :: Within(block, x) ==> Covers(free, x))
  }

  /**
    After init_freemem no two of the untyped capabilities overlap, be they for devices, for the
    boot part of the kernel image or for free memory, and none overlaps the root server's block.
   */
  lemma BootUntypedNoOverlap(lim: Limits, init: seq<Region>, resv: seq<Region>, reservedV: seq<Region>,
                             free: seq<Region>, freeNow: seq<Region>, block: Region, bootImage: Region, deviceTop: nat)
    requires AfterInit(lim.win, init, resv, reservedV, free, freeNow, block)
    requires deviceTop < Pow2(lim.win.wordBits) && bootImage.start <= bootImage.end < Pow2(lim.win.wordBits)
    requires forall p: int :: Within(bootImage, p) ==> Covers(reservedV, p + lim.win.offset)
    ensures var us := Take(BootUntyped(lim, resv, bootImage, deviceTop, freeNow), lim.maxCaps);
      && (forall i, j :: 0 <= i < j < |us| ==> Disjoint(us[i], us[j]))
      && (forall x: int :: HasUntyped(us, x) ==> !Within(block, x))
  {
    var all := BootUntyped(lim, resv, bootImage, deviceTop, freeNow);
    NoOverlapAfterInit(lim, init, resv, reservedV, free, freeNow, block, bootImage, deviceTop);
    forall x: int | HasUntyped(Take(all, lim.maxCaps), x) ensures HasUntyped(all, x) {
      var us := Take(all, lim.maxCaps);
      var k :| 0 <= k < |us| && InUntyped(us[k], x);
      HasAt(all, k, x);
    }
  }

  lemma NoOverlapAfterInit(lim: Limits, init: seq<Region>, resv: seq<Region>, reservedV: seq<Region>,
                           free: seq<Region>, freeNow: seq<Region>, block: Region, bootImage: Region, deviceTop: nat)
    requires AfterInit(lim.win, init, resv, reservedV, free, freeNow, block)
    requires deviceTop < Pow2(lim.win.wordBits) && bootImage.start <= bootImage.end < Pow2(lim.win.wordBits)
    requires forall p: int :: Within(bootImage, p) ==> Covers(reservedV, p + lim.win.offset)
    ensures var us := BootUntyped(lim, resv, bootImage, deviceTop, freeNow);
      NoOverlap(us) && forall x: int :: HasUntyped(us, x) ==> !Within(block, x)
  {
    var device := OfDevice(lim, resv, 0, deviceTop);
    var others := OfPaddr(lim, false, bootImage) + OfFree(lim, freeNow);
    DeviceNoOverlap(lim, resv, 0, deviceTop);
    OthersNoOverlap(lim, init, resv, reservedV, free, freeNow, block, bootImage);
    hide Pow2, OfRegion, PhysicalAddress, OfDevice, OfPaddr, OfFree, NoOverlap, HasUntyped, Covers, Accounted;
    forall x: int | Within(block, x) ensures Covers(resv, PhysicalAddress(lim.win, x)) {
      FreeIsReserved(lim.win, init, resv, reservedV, free, freeNow, block, bootImage, x);
    }
    ConcatNoOverlap(device, others);
    forall x: int { HasConcat(device, others, x); }
  }

  lemma FreeIsReserved(win: Window, init: seq<Region>, resv: seq<Region>, reservedV: seq<Region>,
                       free: seq<Region>, freeNow: seq<Region>, block: Region, bootImage: Region, x: int)
    requires AfterInit(win, init, resv, reservedV, free, freeNow, block) && Covers(free, x)
    requires forall p: int :: Within(bootImage, p) ==> Covers(reservedV, p + win.offset)
    ensures 0 <= x && PhysicalAddress(win, x) == x - win.offset && Covers(resv, x - win.offset)
    ensures !Within(bootImage, x - win.offset)
  {
    PhysicalIs(win, x);
    assert Covers(free, (x - win.offset) + win.offset);
  }

  lemma OthersNoOverlap(lim: Limits, init: seq<Region>, resv: seq<Region>, reservedV: seq<Region>,
                        free: seq<Region>, freeNow: seq<Region>, block: Region, bootImage: Region)
    requires AfterInit(lim.win, init, resv, reservedV, free, freeNow, block)
    requires bootImage.start <= bootImage.end < Pow2(lim.win.wordBits)
    requires forall p: int :: Within(bootImage, p) ==> Covers(reservedV, p + lim.win.offset)
    ensures var others := OfPaddr(lim, false, bootImage) + OfFree(lim, freeNow);
      && NoOverlap(others)
      && forall x: int :: HasUntyped(others, x) ==>
        0 <= x && !Within(block, x) && Covers(resv, PhysicalAddress(lim.win, x))
  {
    var image, given := OfPaddr(lim, false, bootImage), OfFree(lim, freeNow);
    PaddrNoOverlap(lim, false, bootImage);
    FreeNoOverlap(lim, freeNow);
    hide Pow2, OfRegion, PhysicalAddress, OfPaddr, OfFree, NoOverlap, HasUntyped, Covers;
    forall x: int | Covers(free, x)
      ensures 0 <= x && Covers(resv, PhysicalAddress(lim.win, x)) && !Within(bootImage, PhysicalAddress(lim.win, x))
    {
      FreeIsReserved(lim.win, init, resv, reservedV, free, freeNow, block, bootImage, x);
    }
    forall p: int | Within(bootImage, p) ensures Covers(resv, p) {
      assert Covers(reservedV, p + lim.win.offset);
    }
    ConcatNoOverlap(image, given);
    forall x: int { HasConcat(image, given, x); }
  }
}
