/** Setting up free memory at boot (kernel/src/kernel/boot.c: insert_region, init_freemem). */
module FreeMemory {
  import opened Words
  import opened Regions
  import opened RegionSubtraction
  import opened ReservedMemory

  /** The kernel window: physical addresses up to `paddrTop` are mapped at `offset` upwards. */
  datatype Window = Window(wordBits: nat, offset: nat, paddrTop: nat) {
    predicate Valid() {
      offset + paddrTop < Pow2(wordBits)
    }

    function PaddrToPptr(p: nat): nat {
      Low(p + offset, wordBits)
    }

    function PptrToPaddr(v: nat): nat
      requires Valid()
    {
      Sub(v, offset, wordBits)
    }

    function PptrToPaddrReg(r: Region): Region
      requires Valid()
    {
      Region(PptrToPaddr(r.start), PptrToPaddr(r.end))
    }

    /** Compares physical addresses, because adding the offset may have wrapped. */
    function CeilingKernelWindow(v: nat): nat
      requires Valid()
    {
      if PptrToPaddr(v) > paddrTop then offset + paddrTop else v
    }

    /** An available region as the kernel sees it. */
    function Clipped(r: Region): Region
      requires Valid()
    {
      Region(CeilingKernelWindow(PaddrToPptr(r.start)), CeilingKernelWindow(PaddrToPptr(r.end)))
    }

    function Paddr(r: Region): Region
      requires offset <= r.start && offset <= r.end
    {
      Region(r.start - offset, r.end - offset)
    }
  }

  /** Clipping keeps exactly the addresses of the kernel window, although the addition may wrap. */
  lemma ClippedAt(win: Window, p: nat)
    requires win.Valid() && p < Pow2(win.wordBits)
    ensures win.CeilingKernelWindow(win.PaddrToPptr(p)) == win.offset + Min(p, win.paddrTop)
  {
    var w := Pow2(win.wordBits);
    if p + win.offset < w {
      LowSmall(p + win.offset, win.wordBits);
      SubSmall(p + win.offset, win.offset, win.wordBits);
    } else {
      Quotient(p + win.offset, w, 1, p + win.offset - w);
      Quotient(p + win.offset - w + w - win.offset, w, 0, p);
    }
  }

  lemma PaddrExact(win: Window, r: Region)
    requires win.Valid() && win.offset <= r.start && win.offset <= r.end
    requires r.start < Pow2(win.wordBits) && r.end < Pow2(win.wordBits)
    ensures win.PptrToPaddrReg(r) == win.Paddr(r)
  {
    SubSmall(r.start, win.offset, win.wordBits);
    SubSmall(r.end, win.offset, win.wordBits);
  }

  predicate WordRegion(r: Region, w: nat) {
    r.start < Pow2(w) && r.end < Pow2(w)
  }

  predicate WordRegions(rs: seq<Region>, w: nat) {
    forall i :: 0 <= i < |rs| ==> WordRegion(rs[i], w)
  }

  predicate InWindow(win: Window, r: Region) {
    win.offset <= r.start <= r.end < Pow2(win.wordBits)
  }

  /** A sane list of available memory: not empty, and in order. */
  method CheckAvailableMemory(available: seq<Region>) returns (ok: bool)
    ensures ok <==> available != [] && Ordered(available)
  {
    if |available| == 0 {
      return false;
    }
    var i := 0;
    while i < |available|
      invariant 0 <= i <= |available| && Ordered(available[..i])
    {
      var r := available[i];
      if r.start > r.end || r.start == r.end {
        return false;
      }
      if i > 0 && r.start < available[i - 1].end {
        return false;
      }
      OrderedMore(available, i);
      i := i + 1;
    }
    assert available[..i] == available;
    return true;
  }

  lemma OrderedMore(rs: seq<Region>, i: nat)
    requires i < |rs| && Ordered(rs[..i]) && rs[i].start < rs[i].end && (i > 0 ==> rs[i - 1].end <= rs[i].start)
    ensures Ordered(rs[..i + 1])
  {
    var longer := rs[..i + 1];
    assert forall k :: 0 <= k < i ==> longer[k] == rs[..i][k];
    assert i > 0 ==> forall k :: 0 <= k < i ==> longer[k].end <= rs[i - 1].end;
  }

  /** A sane list of reserved memory: in order; empty regions are allowed. */
  method CheckReservedMemory(reserved: seq<Region>) returns (ok: bool)
    ensures ok <==> Sorted(reserved)
  {
    var i := 0;
    while i < |reserved|
      invariant 0 <= i <= |reserved| && Sorted(reserved[..i])
    {
      var r := reserved[i];
      if r.start > r.end {
        return false;
      }
      if i > 0 && r.start < reserved[i - 1].end {
        return false;
      }
      SortedMore(reserved, i);
      i := i + 1;
    }
    assert reserved[..i] == reserved;
    return true;
  }

  lemma SortedMore(rs: seq<Region>, i: nat)
    requires i < |rs| && Sorted(rs[..i]) && rs[i].start <= rs[i].end && (i > 0 ==> rs[i - 1].end <= rs[i].start)
    ensures Sorted(rs[..i + 1])
  {
    var longer := rs[..i + 1];
    assert forall k :: 0 <= k < i ==> longer[k] == rs[..i][k];
    assert i > 0 ==> forall k :: 0 <= k < i ==> longer[k].end <= rs[i - 1].end;
  }

  // ---------------------------------------------------------------- free regions

  /** The table of free regions holds `given`, as far as there are slots. */
  ghost predicate FreeIs(free: seq<Region>, given: seq<Region>) {
    forall k :: 0 <= k < |free| ==> free[k] == if k < |given| then given[k] else REG_EMPTY
  }

  /** What has been reserved: the regions there before, those given out as free, those of the list. */
  ghost predicate Accounted(init: seq<Region>, resv: seq<Region>, free: seq<Region>, res: seq<Region>, offset: nat,
                            room: bool)
  {
    forall p: int ::
      && (Covers(resv, p) ==> Covers(init, p) || Covers(free, p + offset) || Covers(res, p + offset))
      && (room && (Covers(init, p) || Covers(free, p + offset) || Covers(res, p + offset)) ==> Covers(resv, p))
  }

  /** `after` covers what `before` does and region `r`, if there was room. */
  ghost predicate Grown(before: seq<Region>, after: seq<Region>, r: Region, room: bool) {
    forall p: int ::
      && (Covers(after, p) ==> Covers(before, p) || Within(r, p))
      && (room && (Covers(before, p) || Within(r, p)) ==> Covers(after, p))
  }

  lemma ApartFromCovers(r: Region, rs: seq<Region>)
    requires r.start < r.end && Separated(rs)
    requires forall p: int :: Covers(rs, p) ==> !Within(r, p)
    ensures Apart(r, rs)
  {
    forall i | 0 <= i < |rs| ensures r.end <= rs[i].start || rs[i].end <= r.start {
      var p := if r.start < rs[i].start then rs[i].start else r.start;
      if r.start < rs[i].end && rs[i].start < r.end {
        CoveredBy(rs, i, p);
        assert false;
      }
    }
  }

  lemma CoveredBy(rs: seq<Region>, i: nat, p: int)
    requires i < |rs| && Within(rs[i], p)
    ensures Covers(rs, p)
  {
  }

  /** Takes the first free slot, if there is one; running out of slots is not fatal. */
  method InsertRegion(boot: NdksBoot, win: Window, reg: Region, ghost given: seq<Region>) returns (ok: bool)
    requires boot.Valid() && boot.resvCount < boot.reserved.Length && boot.freemem != boot.reserved
    requires win.Valid() && InWindow(win, reg) && Ordered(given)
    requires FreeIs(boot.freemem[..], given)
    requires !IsRegEmpty(reg) ==> Apart(win.Paddr(reg), boot.Resv())
    modifies boot.reserved, boot`resvCount, boot.freemem
    ensures boot.Valid() && boot.resvCount < boot.reserved.Length
    ensures IsRegEmpty(reg) ==>
      && ok && boot.freemem[..] == old(boot.freemem[..])
      && boot.resvCount == old(boot.resvCount) && boot.Resv() == old(boot.Resv())
    ensures !IsRegEmpty(reg) ==>
      && ok == (|given| < boot.freemem.Length)
      && FreeIs(boot.freemem[..], given + [reg])
      && boot.resvCount <= old(boot.resvCount) + (if ok then 1 else 0)
      && Grown(old(boot.Resv()), boot.Resv(), if ok then win.Paddr(reg) else REG_EMPTY,
               !ok || old(boot.resvCount) + 1 < boot.reserved.Length)
  {
    if IsRegEmpty(reg) {
      return true;
    }
    PaddrExact(win, reg);
    var i := 0;
    while i < boot.freemem.Length
      invariant 0 <= i <= boot.freemem.Length && i <= |given|
    {
      if IsRegEmpty(boot.freemem[i]) {
        assert i == |given| by {
          assert boot.freemem[..][i] == boot.freemem[i];
        }
        ghost var before := boot.freemem[..];
        var reserved := boot.ReserveRegion(win.PptrToPaddrReg(reg));
        assert boot.freemem[..] == before;
        boot.freemem[i] := reg;
        assert boot.freemem[..] == before[i := reg];
        return true;
      }
      assert boot.freemem[..][i] == boot.freemem[i];
      i := i + 1;
    }
    return false;
  }

  /** Those of the regions given out that found a slot. */
  function Kept(given: seq<Region>, slots: nat): seq<Region> {
    given[..Min(|given|, slots)]
  }

  lemma AccountFree(init: seq<Region>, before: seq<Region>, after: seq<Region>, given: seq<Region>, reg: Region,
                    slots: nat, res: seq<Region>, win: Window, room: bool)
    requires InWindow(win, reg)
    requires Accounted(init, before, Kept(given, slots), res, win.offset, room)
    requires Grown(before, after, if |given| < slots then win.Paddr(reg) else REG_EMPTY, room)
    ensures Accounted(init, after, Kept(given + [reg], slots), res, win.offset, room)
  {
    if |given| < slots {
      assert Kept(given + [reg], slots) == Kept(given, slots) + [reg];
      CoversAppend(Kept(given, slots), [reg]);
      CoversOne(reg);
      assert forall p: int :: Within(win.Paddr(reg), p) <==> Within(reg, p + win.offset);
    } else {
      assert Kept(given + [reg], slots) == Kept(given, slots);
    }
  }

  lemma AccountReserved(init: seq<Region>, before: seq<Region>, after: seq<Region>, free: seq<Region>,
                        res: seq<Region>, r: nat, win: Window, room: bool)
    requires r < |res| && InWindow(win, res[r])
    requires Accounted(init, before, free, res[..r], win.offset, room)
    requires Grown(before, after, win.Paddr(res[r]), room)
    ensures Accounted(init, after, free, res[..r + 1], win.offset, room)
  {
    assert res[..r + 1] == res[..r] + [res[r]];
    CoversAppend(res[..r], [res[r]]);
    CoversOne(res[r]);
    assert forall p: int :: Within(win.Paddr(res[r]), p) <==> Within(res[r], p + win.offset);
  }

  /** An empty reserved region needs no reserving. */
  lemma AccountEmpty(init: seq<Region>, resv: seq<Region>, free: seq<Region>, res: seq<Region>, r: nat, offset: nat,
                     room: bool)
    requires r < |res| && res[r].start == res[r].end
    requires Accounted(init, resv, free, res[..r], offset, room)
    ensures Accounted(init, resv, free, res[..r + 1], offset, room)
  {
    assert res[..r + 1] == res[..r] + [res[r]];
    CoversAppend(res[..r], [res[r]]);
    CoversOne(res[r]);
  }

  /** Neither available nor reserved memory was reserved before. */
  ghost predicate Unclaimed(init: seq<Region>, rs: seq<Region>, offset: nat) {
    forall p: int :: Covers(init, p) ==> !Covers(rs, p + offset)
  }

  lemma PrefixCovers(rs: seq<Region>, k: nat, x: int)
    requires k <= |rs|
    ensures Covers(rs[..k], x) ==> Covers(rs, x)
    ensures Covers(rs[k..], x) ==> Covers(rs, x)
  {
    assert rs == rs[..k] + rs[k..];
    CoversAppend(rs[..k], rs[k..]);
  }

  /** A region about to be given out is not reserved yet. */
  lemma FreeApart(init: seq<Region>, resv: seq<Region>, given: seq<Region>, m: Region, rest: seq<Region>, slots: nat,
                  avail: seq<Region>, res: seq<Region>, r: nat, win: Window, room: bool)
    requires Sorted(avail) && Sorted(res) && given + [m] + rest == Subtract(avail, res) && r <= |res|
    requires Separated(resv) && Accounted(init, resv, Kept(given, slots), res[..r], win.offset, room)
    requires Unclaimed(init, avail, win.offset) && InWindow(win, m) && m.start < m.end
    ensures Apart(win.Paddr(m), resv)
  {
    var s := Subtract(avail, res);
    SubtractOrdered(avail, res, 0);
    assert m == s[|given|];
    forall p: int | Covers(resv, p) ensures !Within(win.Paddr(m), p) {
      var x := p + win.offset;
      if Within(win.Paddr(m), p) {
        CoveredBy(s, |given|, x);
        SubtractCovers(avail, res, x);
        PrefixCovers(res, r, x);
        OnlyOnce(s, |given|, x);
        assert given == s[..|given|];
        PrefixCovers(given, Min(|given|, slots), x);
        assert false;
      }
    }
    ApartFromCovers(win.Paddr(m), resv);
  }

  lemma OnlyOnce(rs: seq<Region>, i: nat, x: int)
    requires i < |rs| && Sorted(rs) && Within(rs[i], x)
    ensures !Covers(rs[..i], x)
  {
  }

  /** A region about to be reserved is not reserved yet. */
  lemma ReservedApart(init: seq<Region>, resv: seq<Region>, given: seq<Region>, rest: seq<Region>, slots: nat,
                      avail: seq<Region>, res: seq<Region>, r: nat, win: Window, room: bool)
    requires Sorted(avail) && Sorted(res) && given + rest == Subtract(avail, res)
    requires r < |res| && res[r].start < res[r].end && InWindow(win, res[r])
    requires Separated(resv) && Accounted(init, resv, Kept(given, slots), res[..r], win.offset, room)
    requires Unclaimed(init, res, win.offset)
    ensures Apart(win.Paddr(res[r]), resv)
  {
    var s := Subtract(avail, res);
    forall p: int | Covers(resv, p) ensures !Within(win.Paddr(res[r]), p) {
      var x := p + win.offset;
      if Within(win.Paddr(res[r]), p) {
        CoveredBy(res, r, x);
        SubtractCovers(avail, res, x);
        OnlyOnce(res, r, x);
        assert given == s[..|given|];
        PrefixCovers(given, Min(|given|, slots), x);
        PrefixCovers(s, |given|, x);
        assert false;
      }
    }
    ApartFromCovers(win.Paddr(res[r]), resv);
  }

  /** The memory given out so far, with what is left to do, in the middle of the loops. */
  ghost predicate InProgress(init: seq<Region>, boot: NdksBoot, given: seq<Region>, rest: seq<Region>,
                             avail: seq<Region>, res: seq<Region>, r: nat, win: Window)
    reads boot, boot.reserved, boot.freemem
    requires r <= |res|
  {
    && boot.Valid() && boot.resvCount < boot.reserved.Length
    && given + rest == Subtract(avail, res)
    && FreeIs(boot.freemem[..], given)
    && Accounted(init, boot.Resv(), Kept(given, boot.freemem.Length), res[..r], win.offset,
                 Room(init, avail, res, boot))
    && (Room(init, avail, res, boot) ==> boot.resvCount <= |init| + r + Min(|given|, boot.freemem.Length))
  }

  /** How many free regions find a slot. */
  function KeptCount(avail: seq<Region>, res: seq<Region>, slots: nat): nat {
    Min(|Subtract(avail, res)|, slots)
  }

  /** The table of reserved regions has an entry for each region there before, reserved or kept free, and one more. */
  ghost predicate Room(init: seq<Region>, avail: seq<Region>, res: seq<Region>, boot: NdksBoot) {
    |init| + |res| + KeptCount(avail, res, boot.freemem.Length) < boot.reserved.Length
  }

  /**
    A table with an entry for each region there before, each of the list and each slot for a free
    region has room if a slot is left.
   */
  lemma SizedRoom(init: seq<Region>, avail: seq<Region>, res: seq<Region>, boot: NdksBoot)
    requires |init| + |res| + boot.freemem.Length <= boot.reserved.Length
    requires |Subtract(avail, res)| < boot.freemem.Length
    ensures Room(init, avail, res, boot)
  {
  }

  /** What the loops assume of their input. */
  ghost predicate Inputs(init: seq<Region>, boot: NdksBoot, avail: seq<Region>, res: seq<Region>, win: Window) {
    && win.Valid() && boot.freemem != boot.reserved
    && Sorted(avail) && Sorted(res)
    && (forall i :: 0 <= i < |avail| ==> InWindow(win, avail[i]))
    && (forall i :: 0 <= i < |res| ==> InWindow(win, res[i]))
    && Unclaimed(init, avail, win.offset) && Unclaimed(init, res, win.offset)
  }

  method Give(boot: NdksBoot, win: Window, reg: Region, ghost init: seq<Region>, ghost given: seq<Region>,
              ghost rest: seq<Region>, ghost avail: seq<Region>, ghost res: seq<Region>, ghost r: nat)
    requires Inputs(init, boot, avail, res, win) && r <= |res|
    requires InProgress(init, boot, given, [reg] + rest, avail, res, r, win)
    requires InWindow(win, reg) && reg.start < reg.end
    modifies boot.reserved, boot`resvCount, boot.freemem
    ensures InProgress(init, boot, given + [reg], rest, avail, res, r, win)
  {
    ghost var slots, room := boot.freemem.Length, Room(init, avail, res, boot);
    ghost var before := boot.Resv();
    assert given + ([reg] + rest) == given + [reg] + rest;
    FreeApart(init, before, given, reg, rest, slots, avail, res, r, win, room);
    SubtractOrdered(avail, res, 0);
    OrderedPrefix(given, [reg] + rest);
    var ok := InsertRegion(boot, win, reg, given);
    hide Accounted, Grown, FreeIs;
    GrownLess(before, boot.Resv(), if ok then win.Paddr(reg) else REG_EMPTY,
              !ok || old(boot.resvCount) + 1 < boot.reserved.Length, room);
    AccountFree(init, before, boot.Resv(), given, reg, slots, res[..r], win, room);
  }

  lemma GrownLess(before: seq<Region>, after: seq<Region>, r: Region, more: bool, room: bool)
    requires Grown(before, after, r, more) && (room ==> more)
    ensures Grown(before, after, r, room)
  {
  }

  lemma OrderedPrefix(a: seq<Region>, b: seq<Region>)
    requires Ordered(a + b)
    ensures Ordered(a)
  {
    assert forall k :: 0 <= k < |a| ==> a[k] == (a + b)[k];
  }

  method Reserve(boot: NdksBoot, win: Window, res: seq<Region>, r: nat, ghost init: seq<Region>,
                 ghost given: seq<Region>, ghost rest: seq<Region>, ghost avail: seq<Region>)
    requires Inputs(init, boot, avail, res, win) && r < |res| && res[r].start < res[r].end
    requires InProgress(init, boot, given, rest, avail, res, r, win)
    modifies boot.reserved, boot`resvCount
    ensures InProgress(init, boot, given, rest, avail, res, r + 1, win)
  {
    ghost var slots, room := boot.freemem.Length, Room(init, avail, res, boot);
    ghost var before, free := boot.Resv(), boot.freemem[..];
    ReservedApart(init, before, given, rest, slots, avail, res, r, win, room);
    PaddrExact(win, res[r]);
    var ok := boot.ReserveRegion(win.PptrToPaddrReg(res[r]));
    assert boot.freemem[..] == free;
    assert room ==> ok;
    hide Accounted, FreeIs;
    AccountReserved(init, before, boot.Resv(), Kept(given, slots), res, r, win, room);
  }

  /** Hands out the available memory that is not reserved, and reserves both. */
  method RemoveReserved(boot: NdksBoot, win: Window, availReg: array<Region>, nAvailable: nat, reserved: seq<Region>)
    requires boot.Valid() && boot.resvCount < boot.reserved.Length
    requires availReg != boot.reserved && availReg != boot.freemem && nAvailable <= availReg.Length
    requires Inputs(boot.Resv(), boot, availReg[..nAvailable], reserved, win)
    requires FreeIs(boot.freemem[..], [])
    modifies boot.reserved, boot`resvCount, boot.freemem, availReg
    ensures boot.Valid() && boot.resvCount < boot.reserved.Length
    ensures var free := Subtract(old(availReg[..nAvailable]), reserved);
      && FreeIs(boot.freemem[..], free)
      && Accounted(old(boot.Resv()), boot.Resv(), Kept(free, boot.freemem.Length), reserved, win.offset,
                   Room(old(boot.Resv()), old(availReg[..nAvailable]), reserved, boot))
  {
    ghost var init, avail := boot.Resv(), availReg[..nAvailable];
    ghost var given: seq<Region> := [];
    var a, r := 0, 0;
    assert reserved[0..] == reserved;
    while a < nAvailable && r < |reserved|
      invariant a <= nAvailable && r <= |reserved|
      invariant Pending(availReg[a..nAvailable], win)
      invariant InProgress(init, boot, given, Subtract(availReg[a..nAvailable], reserved[r..]), avail, reserved, r, win)
      decreases nAvailable - a, |reserved| - r, HeadSize(availReg[a..nAvailable])
    {
      hide InProgress, Inputs, Pending;
      ghost var pend, rest := availReg[a..nAvailable], reserved[r..];
      assert pend[0] == availReg[a] && rest[0] == reserved[r];
      assert pend[1..] == availReg[a + 1..nAvailable] && rest[1..] == reserved[r + 1..];
      PendingTail(pend, win);
      if reserved[r].start == reserved[r].end {
        EmptyReserved(init, boot, given, Subtract(pend, rest), avail, reserved, r, win);
        r := r + 1;
      } else if availReg[a].start >= availReg[a].end {
        a := a + 1;
      } else if reserved[r].end <= availReg[a].start {
        Reserve(boot, win, reserved, r, init, given, Subtract(pend, rest), avail);
        r := r + 1;
      } else if reserved[r].start >= availReg[a].end {
        Give(boot, win, availReg[a], init, given, Subtract(pend[1..], rest), avail, reserved, r);
        given := given + [availReg[a]];
        a := a + 1;
      } else {
        if reserved[r].start <= availReg[a].start {
          PendingTrimmed(pend, win, Min(availReg[a].end, reserved[r].end));
          availReg[a] := availReg[a].(start := Min(availReg[a].end, reserved[r].end));
          assert availReg[a..nAvailable] == pend[0 := availReg[a]];
        } else {
          var m := availReg[a];
          m := m.(end := reserved[r].start);
          if availReg[a].end > reserved[r].end {
            ghost var h := Region(reserved[r].end, availReg[a].end);
            Give(boot, win, m, init, given, Subtract(pend[0 := h], rest), avail, reserved, r);
            PendingTrimmed(pend, win, reserved[r].end);
            availReg[a] := availReg[a].(start := reserved[r].end);
            assert availReg[a..nAvailable] == pend[0 := h];
          } else {
            Give(boot, win, m, init, given, Subtract(pend[1..], rest), avail, reserved, r);
            a := a + 1;
          }
          given := given + [m];
        }
      }
    }
    ReserveRest(boot, win, reserved, r, init, given, Subtract(availReg[a..nAvailable], reserved[r..]), avail);
    assert reserved[|reserved|..] == [];
    GiveRest(boot, win, availReg, a, nAvailable, init, given, avail, reserved);
  }

  method ReserveRest(boot: NdksBoot, win: Window, res: seq<Region>, r0: nat, ghost init: seq<Region>,
                     ghost given: seq<Region>, ghost rest: seq<Region>, ghost avail: seq<Region>)
    requires Inputs(init, boot, avail, res, win) && r0 <= |res|
    requires InProgress(init, boot, given, rest, avail, res, r0, win)
    modifies boot.reserved, boot`resvCount
    ensures InProgress(init, boot, given, rest, avail, res, |res|, win)
  {
    var r := r0;
    while r < |res|
      invariant r <= |res| && InProgress(init, boot, given, rest, avail, res, r, win)
    {
      hide InProgress, Inputs;
      if res[r].start < res[r].end {
        Reserve(boot, win, res, r, init, given, rest, avail);
      } else {
        assert res[r].start == res[r].end by {
          InputsSane(init, boot, avail, res, win, r);
        }
        EmptyReserved(init, boot, given, rest, avail, res, r, win);
      }
      r := r + 1;
    }
  }

  lemma InputsSane(init: seq<Region>, boot: NdksBoot, avail: seq<Region>, res: seq<Region>, win: Window, r: nat)
    requires Inputs(init, boot, avail, res, win) && r < |res|
    ensures res[r].start <= res[r].end
  {
  }

  method GiveRest(boot: NdksBoot, win: Window, availReg: array<Region>, a0: nat, nAvailable: nat,
                  ghost init: seq<Region>, ghost given0: seq<Region>, ghost avail: seq<Region>, ghost res: seq<Region>)
    requires Inputs(init, boot, avail, res, win) && a0 <= nAvailable <= availReg.Length
    requires availReg != boot.reserved && availReg != boot.freemem
    requires Pending(availReg[a0..nAvailable], win)
    requires InProgress(init, boot, given0, Subtract(availReg[a0..nAvailable], []), avail, res, |res|, win)
    modifies boot.reserved, boot`resvCount, boot.freemem
    ensures boot.Valid() && boot.resvCount < boot.reserved.Length
    ensures var free := Subtract(avail, res);
      && FreeIs(boot.freemem[..], free)
      && Accounted(init, boot.Resv(), Kept(free, boot.freemem.Length), res, win.offset, Room(init, avail, res, boot))
  {
    hide InProgress, Inputs, Pending;
    var a := a0;
    ghost var given := given0;
    while a < nAvailable
      invariant a <= nAvailable && Pending(availReg[a..nAvailable], win)
      invariant InProgress(init, boot, given, Subtract(availReg[a..nAvailable], []), avail, res, |res|, win)
    {
      ghost var pend := availReg[a..nAvailable];
      assert pend[0] == availReg[a] && pend[1..] == availReg[a + 1..nAvailable];
      PendingTail(pend, win);
      if availReg[a].start < availReg[a].end {
        Give(boot, win, availReg[a], init, given, Subtract(pend[1..], []), avail, res, |res|);
        given := given + [availReg[a]];
      }
      a := a + 1;
    }
    AllGiven(init, boot, given, Subtract(availReg[a..nAvailable], []), avail, res, win);
  }

  lemma AllGiven(init: seq<Region>, boot: NdksBoot, given: seq<Region>, rest: seq<Region>,
                 avail: seq<Region>, res: seq<Region>, win: Window)
    requires InProgress(init, boot, given, rest, avail, res, |res|, win) && rest == []
    ensures boot.Valid() && boot.resvCount < boot.reserved.Length
    ensures var free := Subtract(avail, res);
      && FreeIs(boot.freemem[..], free)
      && Accounted(init, boot.Resv(), Kept(free, boot.freemem.Length), res, win.offset, Room(init, avail, res, boot))
  {
    assert given + rest == given;
    assert res[..|res|] == res;
  }

  /** What is left of the available memory. */
  ghost predicate Pending(pend: seq<Region>, win: Window) {
    Sorted(pend) && forall i :: 0 <= i < |pend| ==> InWindow(win, pend[i])
  }

  lemma PendingTail(pend: seq<Region>, win: Window)
    requires pend != [] && Pending(pend, win)
    ensures Pending(pend[1..], win) && InWindow(win, pend[0]) && pend[0].start <= pend[0].end
  {
  }

  lemma PendingTrimmed(pend: seq<Region>, win: Window, start: nat)
    requires pend != [] && Pending(pend, win) && pend[0].start <= start <= pend[0].end
    ensures Pending(pend[0 := Region(start, pend[0].end)], win)
  {
  }

  lemma EmptyReserved(init: seq<Region>, boot: NdksBoot, given: seq<Region>, rest: seq<Region>,
                      avail: seq<Region>, res: seq<Region>, r: nat, win: Window)
    requires r < |res| && res[r].start == res[r].end
    requires InProgress(init, boot, given, rest, avail, res, r, win)
    ensures InProgress(init, boot, given, rest, avail, res, r + 1, win)
  {
    AccountEmpty(init, boot.Resv(), Kept(given, boot.freemem.Length), res, r, win.offset, Room(init, avail, res, boot));
  }
}
