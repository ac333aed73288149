/**
  Capability-space lookup (kernel/src/kernel/cspace.c) and its fast form
  (kernel/include/fastpath/fastpath.h). Capability nodes form a graph that may have cycles.
  `Descend` reads an address of n bits from its most significant end, node by node; the two loops
  of the kernel, which shift and mask a full machine word in different ways, are proved to
  compute it.
 */
module CSpace {
  import opened Words
  import opened Caps

  const CTE_SIZE := 32

  /** The capability stored in each slot, by the address of the slot. */
  type Memory = nat -> Cap

  datatype Fault =
    | InvalidRoot
    | GuardMismatch(guard: nat, bitsLeft: nat, bitsFound: nat)
    | DepthMismatch(bitsFound: nat, bitsLeft: nat)

  datatype Resolved = Failed(fault: Fault) | Found(slot: nat, bitsLeft: nat)

  /** What the field widths of a capability guarantee, and that a node resolves bits. */
  predicate ResolvesBits(cap: Cap, w: nat) {
    cap.CNodeCap? ==> cap.radix < w && cap.guardSize < w && cap.radix + cap.guardSize > 0
  }

  /** What the fast form needs besides, for its shifts: a node of at least two slots. */
  predicate TwoSlots(cap: Cap, w: nat) {
    ResolvesBits(cap, w) && (cap.CNodeCap? ==> cap.radix > 0)
  }

  /** An empty guard has the value 0. */
  predicate Regular(cap: Cap, w: nat) {
    TwoSlots(cap, w) && (cap.CNodeCap? && cap.guardSize == 0 ==> cap.guard == 0)
  }

  ghost predicate AllResolveBits(mem: Memory, w: nat) {
    forall a: nat :: ResolvesBits(mem(a), w)
  }

  ghost predicate AllTwoSlots(mem: Memory, w: nat) {
    forall a: nat :: TwoSlots(mem(a), w)
  }

  ghost predicate AllRegular(mem: Memory, w: nat) {
    forall a: nat :: Regular(mem(a), w)
  }

  function SlotAt(node: Cap, index: nat): nat
    requires node.CNodeCap?
  {
    node.ptr + index * CTE_SIZE
  }

  /** Looking up the n-bit address `r`, most significant bits first, from `node`. */
  ghost function Descend(mem: Memory, w: nat, node: Cap, r: nat, n: nat): Resolved
    requires AllResolveBits(mem, w) && ResolvesBits(node, w) && node.CNodeCap?
    decreases n
  {
    var level := node.radix + node.guardSize;
    if node.guardSize > n || Shr(r, n - node.guardSize) != node.guard then
      Failed(GuardMismatch(node.guard, n, node.guardSize))
    else if level > n then
      Failed(DepthMismatch(level, n))
    else
      var slot := SlotAt(node, Shr(Low(r, n - node.guardSize), n - level));
      if n == level || !mem(slot).CNodeCap? then
        Found(slot, n - level)
      else
        Descend(mem, w, mem(slot), Low(r, n - level), n - level)
  }

  /** The lookup of the last n bits of the word `c`. */
  ghost function Lookup(mem: Memory, w: nat, root: Cap, c: nat, n: nat): Resolved
    requires AllResolveBits(mem, w) && ResolvesBits(root, w)
  {
    if root.CNodeCap? then Descend(mem, w, root, Low(c, n), n) else Failed(InvalidRoot)
  }

  // ---------------------------------------------------------------- shifts and masks

  /** Bits a .. a + b of a word, whichever of shift and mask comes first. */
  lemma FieldOf(c: nat, a: nat, b: nat)
    ensures Low(Shr(c, a), b) == Shr(Low(c, a + b), a)
  {
    Pow2Add(a, b);
    Split(c, Pow2(a), Pow2(b));
  }

  lemma LowLow(c: nat, n: nat, k: nat)
    requires k <= n
    ensures Low(Low(c, n), k) == Low(c, k)
  {
    Pow2Add(k, n - k);
    Split(c, Pow2(k), Pow2(n - k));
  }

  /** Shifting a w-bit word up by `b` leaves its last w - b bits at the top. */
  lemma ShiftedUp(c: nat, w: nat, b: nat)
    requires b <= w
    ensures Shl(c, b, w) == Low(c, w - b) * Pow2(b)
  {
    Pow2Add(w - b, b);
    DivMul(c, Pow2(w - b), Pow2(b));
  }

  /** A field at the top of a word that has been shifted up. */
  lemma TopField(r: nat, w: nat, b: nat, k: nat)
    requires b + k <= w
    ensures Shr(r * Pow2(b), w - k) == Shr(r, w - b - k)
  {
    Pow2Add(w - b - k, b);
    assert w - b - k + b == w - k;
    DivMul(r, Pow2(w - b - k), Pow2(b));
  }

  /** The slow form's index field, where its bits are there. */
  lemma SlowIndex(c: nat, n: nat, guardSize: nat, radix: nat)
    requires radix + guardSize <= n
    ensures Low(Shr(c, n - (radix + guardSize)), radix)
         == Shr(Low(Low(c, n), n - guardSize), n - (radix + guardSize))
  {
    FieldOf(c, n - (radix + guardSize), radix);
    LowLow(c, n, n - guardSize);
  }

  /** The fast form's guard field, where its bits are there. */
  lemma FastGuard(c: nat, w: nat, bits: nat, guardSize: nat)
    requires bits + guardSize <= w
    ensures Shr(Shl(c, bits, w), w - guardSize) == Shr(Low(c, w - bits), w - bits - guardSize)
  {
    ShiftedUp(c, w, bits);
    TopField(Low(c, w - bits), w, bits, guardSize);
  }

  /** The fast form's index field, where its bits are there. */
  lemma FastIndex(c: nat, w: nat, bits: nat, guardSize: nat, radix: nat)
    requires bits + guardSize + radix <= w
    ensures Shr(Shl(Shl(c, bits, w), guardSize, w), w - radix)
         == Shr(Low(Low(c, w - bits), w - bits - guardSize), w - bits - (radix + guardSize))
  {
    var r := Low(c, w - bits);
    ShiftedUp(c, w, bits);
    Pow2Add(bits, guardSize);
    Associate(r, Pow2(bits), Pow2(guardSize));
    ShiftedUp(r, w, bits + guardSize);
    TopField(Low(r, w - bits - guardSize), w, bits + guardSize, radix);
  }

  /** The slow form's guard field; its shift is masked because a shift by the word size is undefined. */
  lemma SlowGuard(c: nat, wordRadix: nat, n: nat, guardSize: nat)
    requires guardSize <= n <= Pow2(wordRadix)
    ensures n < Pow2(Pow2(wordRadix))
    ensures Low(Shr(c, Low(Sub(n, guardSize, Pow2(wordRadix)), wordRadix)), guardSize)
         == Shr(Low(c, n), n - guardSize)
  {
    var w := Pow2(wordRadix);
    BelowPow2(w);
    SubSmall(n, guardSize, w);
    if guardSize == 0 {
      LowSmall(Low(c, n), n);
    } else {
      LowSmall(n - guardSize, wordRadix);
      FieldOf(c, n - guardSize, guardSize);
    }
  }

  // ---------------------------------------------------------------- the slow form

  /** Resolves the last `nBits` bits of `capptr`; word size w = 2^wordRadix. */
  method ResolveAddressBits(mem: Memory, wordRadix: nat, root: Cap, capptr: nat, nBits: nat) returns (ret: Resolved)
    requires AllResolveBits(mem, Pow2(wordRadix)) && ResolvesBits(root, Pow2(wordRadix))
    requires nBits <= Pow2(wordRadix)
    ensures ret == Lookup(mem, Pow2(wordRadix), root, capptr, nBits)
  {
    if !root.CNodeCap? {
      return Failed(InvalidRoot);
    }
    var nodeCap, n := root, nBits;
    ghost var w := Pow2(wordRadix);
    BelowPow2(w);
    while true
      invariant 0 <= n <= w && nodeCap.CNodeCap? && ResolvesBits(nodeCap, w)
      invariant Lookup(mem, w, root, capptr, nBits) == Descend(mem, w, nodeCap, Low(capptr, n), n)
      decreases n
    {
      var levelBits := nodeCap.radix + nodeCap.guardSize;
      // An unsigned subtraction, masked to the word radix.
      var guard := Low(Shr(capptr, Low(Sub(n, nodeCap.guardSize, Pow2(wordRadix)), wordRadix)), nodeCap.guardSize);
      if nodeCap.guardSize <= n {
        SlowGuard(capptr, wordRadix, n, nodeCap.guardSize);
      }
      if nodeCap.guardSize > n || guard != nodeCap.guard {
        return Failed(GuardMismatch(nodeCap.guard, n, nodeCap.guardSize));
      }
      if levelBits > n {
        return Failed(DepthMismatch(levelBits, n));
      }
      SlowIndex(capptr, n, nodeCap.guardSize, nodeCap.radix);
      var offset := Low(Shr(capptr, n - levelBits), nodeCap.radix);
      var slot := SlotAt(nodeCap, offset);
      if n == levelBits {
        return Found(slot, 0);
      }
      LowLow(capptr, n, n - levelBits);
      n := n - levelBits;
      nodeCap := mem(slot);
      assert ResolvesBits(mem(slot), w);
      if !nodeCap.CNodeCap? {
        return Found(slot, n);
      }
    }
  }

  /** A thread's lookup of a capability: the whole word, and the null capability on a fault. */
  ghost function CapFound(mem: Memory, r: Resolved): Cap {
    match r
    case Failed(_) => NullCap
    case Found(slot, _) => mem(slot)
  }

  method LookupCap(mem: Memory, wordRadix: nat, root: Cap, cPtr: nat) returns (failed: bool, cap: Cap)
    requires AllResolveBits(mem, Pow2(wordRadix)) && ResolvesBits(root, Pow2(wordRadix))
    ensures var r := Lookup(mem, Pow2(wordRadix), root, cPtr, Pow2(wordRadix));
      failed == r.Failed? && cap == CapFound(mem, r)
  {
    var luRet := ResolveAddressBits(mem, wordRadix, root, cPtr, Pow2(wordRadix));
    match luRet
    case Failed(_) => return true, NullCap;
    case Found(slot, _) => return false, mem(slot);
  }

  datatype SlotRet = SlotFound(slot: nat) | LookupFailed(fault: Fault) | RangeError(min: nat, max: nat)

  /** The lookup that node operations use: exactly `depth` bits must be resolved. */
  method LookupSlotForCNodeOp(mem: Memory, wordRadix: nat, root: Cap, capptr: nat, depth: nat) returns (ret: SlotRet)
    requires AllResolveBits(mem, Pow2(wordRadix)) && ResolvesBits(root, Pow2(wordRadix))
    ensures ret.RangeError? <==> root.CNodeCap? && !(1 <= depth <= Pow2(wordRadix))
    ensures forall slot :: ret == SlotFound(slot) <==>
      && 1 <= depth <= Pow2(wordRadix)
      && Lookup(mem, Pow2(wordRadix), root, capptr, depth) == Found(slot, 0)
    ensures ret.LookupFailed? ==>
      ret.fault ==
      if !root.CNodeCap? then InvalidRoot else
        match Lookup(mem, Pow2(wordRadix), root, capptr, depth)
        case Failed(fault) => fault
        case Found(_, bitsLeft) => DepthMismatch(0, bitsLeft)
  {
    if !root.CNodeCap? {
      return LookupFailed(InvalidRoot);
    }
    if depth < 1 || depth > Pow2(wordRadix) {
      return RangeError(1, Pow2(wordRadix));
    }
    var resRet := ResolveAddressBits(mem, wordRadix, root, capptr, depth);
    match resRet
    case Failed(fault) => return LookupFailed(fault);
    case Found(slot, bitsRemaining) =>
      if bitsRemaining != 0 {
        return LookupFailed(DepthMismatch(0, bitsRemaining));
      }
      return SlotFound(slot);
  }

  // ---------------------------------------------------------------- the fast form

  lemma TwoSlotsResolve(mem: Memory, w: nat)
    requires AllTwoSlots(mem, w)
    ensures AllResolveBits(mem, w)
  {
    forall a: nat ensures ResolvesBits(mem(a), w) {
      assert TwoSlots(mem(a), w);
    }
  }

  /** The descent of the fast form: it does not compare empty guards, and every failure is the null capability. */
  ghost function FastDescend(mem: Memory, w: nat, node: Cap, r: nat, n: nat): Cap
    requires AllTwoSlots(mem, w) && TwoSlots(node, w) && node.CNodeCap?
    decreases n
  {
    var level := node.radix + node.guardSize;
    if level > n || (node.guardSize > 0 && Shr(r, n - node.guardSize) != node.guard) then NullCap
    else
      var slot := SlotAt(node, Shr(Low(r, n - node.guardSize), n - level));
      assert TwoSlots(mem(slot), w);
      if n == level || !mem(slot).CNodeCap? then mem(slot)
      else FastDescend(mem, w, mem(slot), Low(r, n - level), n - level)
  }

  ghost function FastLookup(mem: Memory, w: nat, root: Cap, c: nat): Cap
    requires AllTwoSlots(mem, w) && TwoSlots(root, w)
  {
    if root.CNodeCap? then FastDescend(mem, w, root, Low(c, w), w) else NullCap
  }

  /** Follows the nodes without comparing empty guards. */
  method LookupFp(mem: Memory, w: nat, root: Cap, cptr: nat) returns (cap: Cap)
    requires AllTwoSlots(mem, w) && TwoSlots(root, w)
    ensures cap == FastLookup(mem, w, root, cptr)
  {
    if !root.CNodeCap? {
      return NullCap;
    }
    var bits := 0;
    cap := root;
    ghost var target := FastLookup(mem, w, root, cptr);
    // A do-while loop: the first round is always taken.
    var again := true;
    while again
      invariant again ==> bits < w && cap.CNodeCap? && TwoSlots(cap, w)
      invariant again ==> target == FastDescend(mem, w, cap, Low(cptr, w - bits), w - bits)
      invariant !again ==> target == if bits > w then NullCap else cap
      decreases w - bits, again
    {
      var guardBits, radixBits := cap.guardSize, cap.radix;
      var cptr2 := Shl(cptr, bits, w);
      ghost var n := w - bits;
      if guardBits <= n {
        FastGuard(cptr, w, bits, guardBits);
      }
      if guardBits != 0 && Shr(cptr2, w - guardBits) != cap.guard {
        return NullCap;
      }
      var radix := Shr(Shl(cptr2, guardBits, w), w - radixBits);
      var slot := SlotAt(cap, radix);
      if guardBits + radixBits <= n {
        FastIndex(cptr, w, bits, guardBits, radixBits);
        LowLow(cptr, n, n - (radixBits + guardBits));
      }
      assert TwoSlots(mem(slot), w);
      cap := mem(slot);
      bits := bits + guardBits + radixBits;
      again := bits < w && cap.CNodeCap?;
    }
    if bits > w {
      return NullCap;
    }
  }

  // ---------------------------------------------------------------- fast against slow

  /** The slow form was stopped by a node whose guard is empty but has a value. */
  predicate StoppedByEmptyGuard(r: Resolved) {
    r.Failed? && r.fault.GuardMismatch? && r.fault.bitsFound == 0
  }

  lemma {:induction false} DescentsDiffer(mem: Memory, w: nat, node: Cap, r: nat, n: nat)
    requires AllTwoSlots(mem, w) && TwoSlots(node, w) && node.CNodeCap? && r < Pow2(n)
    ensures AllResolveBits(mem, w)
    ensures var slow := Descend(mem, w, node, r, n);
      CapFound(mem, slow) == FastDescend(mem, w, node, r, n) || StoppedByEmptyGuard(slow)
    decreases n
  {
    TwoSlotsResolve(mem, w);
    var level := node.radix + node.guardSize;
    if level <= n && Shr(r, n - node.guardSize) == node.guard {
      var slot := SlotAt(node, Shr(Low(r, n - node.guardSize), n - level));
      assert TwoSlots(mem(slot), w);
      if n != level && mem(slot).CNodeCap? {
        DivMod(r, Pow2(n - level));
        DescentsDiffer(mem, w, mem(slot), Low(r, n - level), n - level);
      }
    }
  }

  /**
    Main result: on every graph and address the fast form returns what the slow form returns, but
    for one case: the slow form is stopped by an empty guard that has a value, and the fast form,
    which does not look at it, finds something.
   */
  lemma FastDiffers(mem: Memory, w: nat, root: Cap, c: nat)
    requires AllTwoSlots(mem, w) && TwoSlots(root, w)
    ensures AllResolveBits(mem, w)
    ensures var fast, slow := FastLookup(mem, w, root, c), Lookup(mem, w, root, c, w);
      fast != CapFound(mem, slow) <==> StoppedByEmptyGuard(slow) && fast != NullCap
  {
    TwoSlotsResolve(mem, w);
    if root.CNodeCap? {
      DivMod(c, Pow2(w));
      DescentsDiffer(mem, w, root, Low(c, w), w);
    }
  }

  lemma {:induction false} RegularDescent(mem: Memory, w: nat, node: Cap, r: nat, n: nat)
    requires AllRegular(mem, w) && Regular(node, w) && node.CNodeCap? && r < Pow2(n)
    ensures AllResolveBits(mem, w) && !StoppedByEmptyGuard(Descend(mem, w, node, r, n))
    decreases n
  {
    forall a: nat ensures TwoSlots(mem(a), w) {
      assert Regular(mem(a), w);
    }
    TwoSlotsResolve(mem, w);
    LowSmall(r, n);
    var level := node.radix + node.guardSize;
    if level <= n && Shr(r, n - node.guardSize) == node.guard {
      var slot := SlotAt(node, Shr(Low(r, n - node.guardSize), n - level));
      assert Regular(mem(slot), w);
      if n != level && mem(slot).CNodeCap? {
        DivMod(r, Pow2(n - level));
        RegularDescent(mem, w, mem(slot), Low(r, n - level), n - level);
      }
    }
  }

  /** Main result: where empty guards have the value 0, fast and slow lookup agree on every address. */
  lemma RegularAgrees(mem: Memory, w: nat, root: Cap, c: nat)
    requires AllRegular(mem, w) && Regular(root, w)
    ensures AllTwoSlots(mem, w) && AllResolveBits(mem, w)
    ensures FastLookup(mem, w, root, c) == CapFound(mem, Lookup(mem, w, root, c, w))
  {
    forall a: nat ensures TwoSlots(mem(a), w) {
      assert Regular(mem(a), w);
    }
    FastDiffers(mem, w, root, c);
    if root.CNodeCap? {
      DivMod(c, Pow2(w));
      RegularDescent(mem, w, root, Low(c, w), w);
    }
  }

  /** Through a node with an empty guard of value 1 the fast form finds a thread, the slow form nothing. */
  lemma IrregularGuard(mem: Memory, cptr: nat)
    requires forall a: nat :: mem(a) == ThreadCap(1)
    ensures AllTwoSlots(mem, 64) && AllResolveBits(mem, 64)
    ensures var root := CNodeCap(0, 63, 0, 1);
      && TwoSlots(root, 64) && FastLookup(mem, 64, root, cptr) == ThreadCap(1)
      && CapFound(mem, Lookup(mem, 64, root, cptr, 64)) == NullCap
  {
    LowSmall(Low(cptr, 64), 64);
  }

  /** New guards are cut down to their size, so capability data keeps nodes regular. */
  lemma UpdateKeepsRegular(cap: Cap, preserve: bool, data: nat, guardSize: nat, guard: nat)
    requires Regular(cap, WORD_BITS)
    ensures Regular(UpdateCapData(preserve, data, guardSize, guard, cap), WORD_BITS)
  {
    if cap.CNodeCap? && guardSize + cap.radix <= WORD_BITS {
      LowSmallGuard(guard, guardSize);
    }
  }

  lemma LowSmallGuard(guard: nat, guardSize: nat)
    ensures 0 <= guard % Pow2(guardSize) < Pow2(guardSize)
  {
    DivMod(guard, Pow2(guardSize));
  }

  // ---------------------------------------------------------------- paths

  /** A choice of one index per node, each node found in the slot that the previous index chose. */
  ghost predicate IsPath(mem: Memory, node: Cap, path: seq<nat>)
    decreases |path|
  {
    && node.CNodeCap? && node.guard < Pow2(node.guardSize)
    && path != [] && path[0] < Pow2(node.radix)
    && (|path| > 1 ==> IsPath(mem, mem(SlotAt(node, path[0])), path[1..]))
  }

  ghost function PathBits(mem: Memory, node: Cap, path: seq<nat>): nat
    requires IsPath(mem, node, path)
    decreases |path|
  {
    node.radix + node.guardSize
      + if |path| == 1 then 0 else PathBits(mem, mem(SlotAt(node, path[0])), path[1..])
  }

  ghost function PathEnd(mem: Memory, node: Cap, path: seq<nat>): nat
    requires IsPath(mem, node, path)
    decreases |path|
  {
    var slot := SlotAt(node, path[0]);
    if |path| == 1 then slot else PathEnd(mem, mem(slot), path[1..])
  }

  function Head(node: Cap, index: nat): nat
    requires node.CNodeCap?
  {
    node.guard * Pow2(node.radix) + index
  }

  /** The address of a path: guard, index, guard, index, and so on. */
  ghost function PathAddress(mem: Memory, node: Cap, path: seq<nat>): nat
    requires IsPath(mem, node, path)
    decreases |path|
  {
    if |path| == 1 then Head(node, path[0])
    else
      var next := mem(SlotAt(node, path[0]));
      Head(node, path[0]) * Pow2(PathBits(mem, next, path[1..])) + PathAddress(mem, next, path[1..])
  }

  /** The path spells the first n - left bits of the last n of `c`, ends at `slot`, and stops where it has to. */
  ghost predicate Leads(mem: Memory, root: Cap, path: seq<nat>, c: nat, n: nat, slot: nat, left: nat) {
    && IsPath(mem, root, path)
    && PathBits(mem, root, path) + left == n
    && PathAddress(mem, root, path) == Shr(Low(c, n), left)
    && PathEnd(mem, root, path) == slot
    && (left == 0 || !mem(slot).CNodeCap?)
  }

  lemma ShrShr(x: nat, a: nat, b: nat)
    ensures Shr(Shr(x, a), b) == Shr(x, a + b)
  {
    Pow2Add(a, b);
    Split(x, Pow2(a), Pow2(b));
  }

  lemma ShrLow(x: nat, n: nat)
    ensures x == Shr(x, n) * Pow2(n) + Low(x, n)
  {
    DivMod(x, Pow2(n));
  }

  lemma Unpacked(hi: nat, n: nat, lo: nat)
    requires lo < Pow2(n)
    ensures Shr(hi * Pow2(n) + lo, n) == hi && Low(hi * Pow2(n) + lo, n) == lo
  {
    Quotient(hi * Pow2(n) + lo, Pow2(n), hi, lo);
  }

  lemma Bound(hi: nat, a: nat, lo: nat, b: nat)
    requires hi < Pow2(a) && lo < Pow2(b)
    ensures hi * Pow2(b) + lo < Pow2(a + b)
  {
    Pow2Add(a, b);
    Below(hi, Pow2(a), lo, Pow2(b));
  }

  /** Bits of an address: what one node reads, where `left` more bits follow, is the head. */
  lemma NodeReads(r: nat, n: nat, left: nat, guardSize: nat, radix: nat)
    requires r < Pow2(n) && n == guardSize + radix + left
    ensures var head := Shr(r, left);
      && Shr(head, radix) == Shr(r, n - guardSize)
      && Low(head, radix) == Shr(Low(r, n - guardSize), left)
      && Shr(head, radix) < Pow2(guardSize)
  {
    ShrShr(r, left, radix);
    FieldOf(r, left, radix);
    FieldOf(r, left + radix, guardSize);
    LowSmall(r, n);
  }

  lemma {:induction false} AddressBound(mem: Memory, node: Cap, path: seq<nat>)
    requires IsPath(mem, node, path)
    ensures PathAddress(mem, node, path) < Pow2(PathBits(mem, node, path))
    decreases |path|
  {
    Bound(node.guard, node.guardSize, path[0], node.radix);
    if |path| > 1 {
      var next := mem(SlotAt(node, path[0]));
      AddressBound(mem, next, path[1..]);
      var k := PathBits(mem, next, path[1..]);
      Bound(Head(node, path[0]), node.guardSize + node.radix, PathAddress(mem, next, path[1..]), k);
    }
  }

  /** Every path is followed. */
  lemma {:induction false} FollowsPath(mem: Memory, w: nat, node: Cap, path: seq<nat>, r: nat, n: nat, left: nat)
    requires AllResolveBits(mem, w) && ResolvesBits(node, w)
    requires IsPath(mem, node, path) && PathBits(mem, node, path) + left == n && r < Pow2(n)
    requires Shr(r, left) == PathAddress(mem, node, path)
    requires left == 0 || !mem(PathEnd(mem, node, path)).CNodeCap?
    ensures Descend(mem, w, node, r, n) == Found(PathEnd(mem, node, path), left)
    decreases |path|
  {
    var level := node.radix + node.guardSize;
    var head := Head(node, path[0]);
    Unpacked(node.guard, node.radix, path[0]);
    if |path| == 1 {
      NodeReads(r, n, left, node.guardSize, node.radix);
    } else {
      var next := mem(SlotAt(node, path[0]));
      var k := PathBits(mem, next, path[1..]);
      var rest := PathAddress(mem, next, path[1..]);
      AddressBound(mem, next, path[1..]);
      Unpacked(head, k, rest);
      ShrShr(r, left, k);
      NodeReads(r, n, n - level, node.guardSize, node.radix);
      FieldOf(r, left, k);
      assert ResolvesBits(next, w);
      FollowsPath(mem, w, next, path[1..], Low(r, n - level), n - level, left);
    }
  }

  /** Whatever is found lies at the end of a path. */
  lemma {:induction false} FoundOnPath(mem: Memory, w: nat, node: Cap, r: nat, n: nat) returns (path: seq<nat>)
    requires AllResolveBits(mem, w) && ResolvesBits(node, w) && node.CNodeCap? && r < Pow2(n)
    requires Descend(mem, w, node, r, n).Found?
    ensures var d := Descend(mem, w, node, r, n);
      && IsPath(mem, node, path) && PathEnd(mem, node, path) == d.slot
      && PathBits(mem, node, path) + d.bitsLeft == n
      && PathAddress(mem, node, path) == Shr(r, d.bitsLeft)
      && (d.bitsLeft == 0 || !mem(d.slot).CNodeCap?)
    decreases n
  {
    var level := node.radix + node.guardSize;
    NodeReads(r, n, n - level, node.guardSize, node.radix);
    var index := Shr(Low(r, n - node.guardSize), n - level);
    var head := Shr(r, n - level);
    ShrLow(head, node.radix);
    assert head == Head(node, index);
    path := [index];
    var next := mem(SlotAt(node, index));
    if n != level && next.CNodeCap? {
      assert ResolvesBits(next, w);
      var d := Descend(mem, w, next, Low(r, n - level), n - level);
      var rest := FoundOnPath(mem, w, next, Low(r, n - level), n - level);
      path := [index] + rest;
      assert path[1..] == rest;
      var k := PathBits(mem, next, rest);
      ShrShr(r, d.bitsLeft, k);
      FieldOf(r, d.bitsLeft, k);
      ShrLow(Shr(r, d.bitsLeft), k);
    }
  }

  /** A lookup finds a slot exactly if a path spelled by the address leads there. */
  lemma LookupIffPath(mem: Memory, w: nat, root: Cap, c: nat, n: nat, slot: nat, left: nat)
    requires AllResolveBits(mem, w) && ResolvesBits(root, w)
    ensures Lookup(mem, w, root, c, n) == Found(slot, left) <==>
            exists path :: Leads(mem, root, path, c, n, slot, left)
  {
    if Lookup(mem, w, root, c, n) == Found(slot, left) {
      var path := FoundOnPath(mem, w, root, Low(c, n), n);
      assert Leads(mem, root, path, c, n, slot, left);
    }
    if path :| Leads(mem, root, path, c, n, slot, left) {
      FollowsPath(mem, w, root, path, Low(c, n), n, left);
    }
  }

  /** The path, perhaps empty, spells the first n - left bits of the n-bit address `r` and leads to the node `stop`. */
  ghost predicate Reaches(mem: Memory, node: Cap, path: seq<nat>, r: nat, n: nat, stop: Cap, left: nat) {
    if path == [] then stop == node && left == n
    else
      && IsPath(mem, node, path) && mem(PathEnd(mem, node, path)) == stop && left > 0
      && PathBits(mem, node, path) + left == n && PathAddress(mem, node, path) == Shr(r, left)
  }

  /** Whether the node's guard is the start of the n-bit address. */
  predicate GuardMatches(node: Cap, r: nat, n: nat)
    requires node.CNodeCap?
  {
    node.guardSize <= n && Shr(r, n - node.guardSize) == node.guard
  }

  /**
    A lookup that fails has come by a path to a node that it cannot go on from, and the fault tells of
    this node: a guard that does not match, or else more bits to resolve than are left.
   */
  lemma {:induction false} FaultOnPath(mem: Memory, w: nat, node: Cap, r: nat, n: nat)
    returns (path: seq<nat>, stop: Cap, left: nat)
    requires AllResolveBits(mem, w) && ResolvesBits(node, w) && node.CNodeCap? && r < Pow2(n)
    requires Descend(mem, w, node, r, n).Failed?
    ensures Reaches(mem, node, path, r, n, stop, left) && stop.CNodeCap? && left <= n
    ensures var fault := Descend(mem, w, node, r, n).fault;
      if GuardMatches(stop, Low(r, left), left) then
        stop.radix + stop.guardSize > left && fault == DepthMismatch(stop.radix + stop.guardSize, left)
      else fault == GuardMismatch(stop.guard, left, stop.guardSize)
    decreases n
  {
    var level := node.radix + node.guardSize;
    LowSmall(r, n);
    path, stop, left := [], node, n;
    if GuardMatches(node, r, n) && level <= n {
      NodeReads(r, n, n - level, node.guardSize, node.radix);
      var index := Shr(Low(r, n - node.guardSize), n - level);
      var head := Shr(r, n - level);
      ShrLow(head, node.radix);
      assert head == Head(node, index);
      var next := mem(SlotAt(node, index));
      assert ResolvesBits(next, w);
      path, stop, left := FaultOnPath(mem, w, next, Low(r, n - level), n - level);
      LowLow(r, n - level, left);
      if path == [] {
        path := [index];
      } else {
        var rest, k := path, PathBits(mem, next, path);
        path := [index] + rest;
        assert path[1..] == rest;
        ShrShr(r, left, k);
        FieldOf(r, left, k);
        ShrLow(Shr(r, left), k);
      }
    }
  }
}
