/**
  The derivation list in memory: capability slots linked in both directions, rewritten in place
  (kernel/src/object/cnode.c).

  `Spells(list, ns)` says that the links of the slots spell out the sequence `list` and that the
  slots hold the nodes `ns`. Every method takes both as ghost arguments and says what the links
  spell out afterwards, in terms of modules Derivation and Insertion.
 */
module Mdb {
  import opened Caps
  import opened Derivation
  import opened Insertion

  datatype MdbNode = MdbNode(prev: Cte?, next: Cte?, revocable: bool, firstBadged: bool)

  class Cte {
    var cap: Cap
    var mdb: MdbNode

    constructor ()
      ensures Vacant(this)
    {
      cap := NullCap;
      mdb := NullMdbNode();
    }
  }

  function NullMdbNode(): MdbNode {
    MdbNode(null, null, false, false)
  }

  // ---------------------------------------------------------------- the list spelled out by the links

  ghost function At(list: seq<Cte>, i: int): Cte? {
    if 0 <= i < |list| then list[i] else null
  }

  ghost predicate Distinct(list: seq<Cte>) {
    forall i, j :: 0 <= i < j < |list| ==> list[i] != list[j]
  }

  ghost predicate Holds(slot: Cte, node: Node, prev: Cte?, next: Cte?)
    reads slot
  {
    slot.cap == node.cap && slot.mdb == MdbNode(prev, next, node.revocable, node.firstBadged)
  }

  ghost predicate Spells(list: seq<Cte>, ns: seq<Node>)
    reads list
  {
    && |ns| == |list|
    && Distinct(list)
    && forall i {:trigger ns[i]} :: 0 <= i < |list| ==>
      !ns[i].cap.NullCap? && Holds(list[i], ns[i], At(list, i - 1), At(list, i + 1))
  }

  ghost predicate Vacant(slot: Cte)
    reads slot
  {
    slot.cap == NullCap && slot.mdb == NullMdbNode()
  }

  lemma Neighbours(list: seq<Cte>, ns: seq<Node>, i: nat)
    requires Spells(list, ns) && i < |list|
    ensures |ns| == |list| && Distinct(list)
    ensures Holds(list[i], ns[i], At(list, i - 1), At(list, i + 1))
    ensures i + 1 < |list| ==> !ns[i + 1].cap.NullCap?
    ensures i > 0 ==> Holds(list[i - 1], ns[i - 1], At(list, i - 2), list[i])
    ensures i + 1 < |list| ==> Holds(list[i + 1], ns[i + 1], list[i], At(list, i + 2))
    ensures At(list, i - 1) == (if i > 0 then list[i - 1] else null)
    ensures At(list, i + 1) == (if i + 1 < |list| then list[i + 1] else null)
  {
  }

  lemma VacantOutside(list: seq<Cte>, ns: seq<Node>, slot: Cte)
    requires Spells(list, ns) && Vacant(slot)
    ensures slot !in list
  {
    forall i | 0 <= i < |list| ensures list[i] != slot {
      assert !ns[i].cap.NullCap? && list[i].cap == ns[i].cap;
    }
  }

  // ---------------------------------------------------------------- deletion

  ghost function RemovedAt(list: seq<Cte>, d: nat): (r: seq<Cte>)
    requires d < |list|
    ensures |r| == |list| - 1
  {
    seq(|list| - 1, k requires 0 <= k < |list| - 1 => if k < d then list[k] else list[k + 1])
  }

  lemma RemovedPlace(list: seq<Cte>, d: nat, k: nat)
    requires d < |list| && k + 1 < |list|
    ensures var r, i := RemovedAt(list, d), if k < d then k else k + 1;
      && r[k] == list[i]
      && At(r, k - 1) == At(list, if i - 1 == d then d - 1 else i - 1)
      && At(r, k + 1) == At(list, if i + 1 == d then d + 1 else i + 1)
  {
  }

  lemma RemovedDistinct(list: seq<Cte>, d: nat)
    requires Distinct(list) && d < |list|
    ensures Distinct(RemovedAt(list, d)) && forall x :: x in RemovedAt(list, d) ==> x in list && x != list[d]
  {
  }

  /** Which slots stand at two places. */
  lemma Apart(list: seq<Cte>, i: int, j: int)
    requires Distinct(list) && 0 <= i < |list|
    ensures At(list, i) == list[i] && (At(list, j) == list[i] <==> i == j)
  {
  }

  method EmptySlot(slot: Cte, ghost list: seq<Cte>, ghost ns: seq<Node>, ghost d: nat)
    requires Spells(list, ns)
    requires slot.cap.NullCap? || (d < |list| && list[d] == slot)
    modifies slot, list
    ensures old(slot.cap).NullCap? ==> unchanged(slot) && unchanged(list)
    ensures !old(slot.cap).NullCap? ==> Vacant(slot) && Spells(RemovedAt(list, d), Deleted(ns, d))
  {
    if !slot.cap.NullCap? {
      Neighbours(list, ns, d);
      RemovedDistinct(list, d);
      hide At, RemovedAt, Distinct;
      var mdbNode := slot.mdb;
      var prev, next := mdbNode.prev, mdbNode.next;
      if prev != null {
        prev.mdb := prev.mdb.(next := next);
      }
      if next != null {
        next.mdb := next.mdb.(prev := prev);
      }
      if next != null {
        next.mdb := next.mdb.(firstBadged := next.mdb.firstBadged || mdbNode.firstBadged);
      }
      slot.cap := NullCap;
      slot.mdb := NullMdbNode();
      ghost var l, r := RemovedAt(list, d), Deleted(ns, d);
      forall k | 0 <= k < |l|
        ensures !r[k].cap.NullCap? && Holds(l[k], r[k], At(l, k - 1), At(l, k + 1))
      {
        ghost var i := if k < d then k else k + 1;
        RemovedPlace(list, d, k);
        Apart(list, i, d - 1);
        Apart(list, i, d + 1);
        Apart(list, i, d);
        assert old(Holds(list[i], ns[i], At(list, i - 1), At(list, i + 1)));
      }
    }
  }

  datatype Status = None | Preempted

  /**
    Revocation. How each deletion ends and whether the preemption point after it fires are not
    visible here: `stuck(k)` and `preempt(k)` say so for the k-th round. A deletion that completes
    empties its slot; one that is stuck leaves the list as it was, whereas the kernel's may have
    deleted other nodes on the way.
   */
  method CteRevoke(slot: Cte, stuck: nat -> bool, preempt: nat -> bool,
                   ghost list: seq<Cte>, ghost ns: seq<Node>, ghost i: nat)
    returns (status: Status, ghost l: seq<Cte>, ghost r: seq<Node>)
    requires Spells(list, ns) && WellFormed(ns) && i < |list| && list[i] == slot
    modifies list
    ensures Spells(l, r) && WellFormed(r) && i < |l| <= |list| && l[..i + 1] == list[..i + 1]
    ensures Revoked(r, i) == Revoked(ns, i)
    ensures status == None ==> r == Revoked(ns, i)
    ensures (forall k :: !stuck(k) && !preempt(k)) ==> status == None
  {
    hide Spells, WellFormed, RunEnd, Deleted, RemovedAt, IsMdbParentOf, IsMdbParentOfSlots, Distinct;
    l, r := list, ns;
    var round := 0;
    Neighbours(l, r, i);
    var nextPtr := slot.mdb.next;
    while nextPtr != null && IsMdbParentOfSlots(slot, nextPtr)
      invariant Spells(l, r) && WellFormed(r) && i < |l| == |r| && |l| <= |list| && l[..i + 1] == list[..i + 1]
      invariant slot == l[i] && nextPtr == At(l, i + 1)
      invariant forall k :: 0 <= k < |l| ==> l[k] in list
      invariant Revoked(r, i) == Revoked(ns, i)
      decreases |l|
    {
      Neighbours(l, r, i);
      ParentSlots(l, r, i);
      if stuck(round) {
        return Preempted, l, r;
      }
      RevokeStep(r, i);
      EmptySlot(nextPtr, l, r, i + 1);
      RemovedKeeps(l, i + 1);
      l, r := RemovedAt(l, i + 1), Deleted(r, i + 1);
      if preempt(round) {
        return Preempted, l, r;
      }
      Neighbours(l, r, i);
      nextPtr := slot.mdb.next;
      round := round + 1;
    }
    Neighbours(l, r, i);
    if nextPtr != null {
      ParentSlots(l, r, i);
    }
    status := None;
  }

  lemma ParentSlots(list: seq<Cte>, ns: seq<Node>, i: nat)
    requires Spells(list, ns) && i + 1 < |list|
    ensures |ns| == |list| && (IsMdbParentOfSlots(list[i], list[i + 1]) <==> IsMdbParentOf(ns[i], ns[i + 1]))
  {
    Neighbours(list, ns, i);
  }

  lemma RemovedKeeps(list: seq<Cte>, d: nat)
    requires d < |list|
    ensures RemovedAt(list, d)[..d] == list[..d]
    ensures d > 0 ==> RemovedAt(list, d)[d - 1] == list[d - 1]
    ensures forall k :: 0 <= k < |list| - 1 ==> RemovedAt(list, d)[k] in list
  {
  }

  /** isMDBParentOf on two slots */
  predicate IsMdbParentOfSlots(a: Cte, b: Cte)
    reads a, b
  {
    IsMdbParentOf(Node(a.cap, a.mdb.revocable, a.mdb.firstBadged), Node(b.cap, b.mdb.revocable, b.mdb.firstBadged))
  }

  // ---------------------------------------------------------------- insertion

  ghost function AddedBehind(list: seq<Cte>, s: nat, slot: Cte): (r: seq<Cte>)
    requires s < |list|
    ensures |r| == |list| + 1
  {
    seq(|list| + 1, k requires 0 <= k < |list| + 1 =>
      if k <= s then list[k] else if k == s + 1 then slot else list[k - 1])
  }

  lemma AddedPlace(list: seq<Cte>, s: nat, slot: Cte, k: nat)
    requires s < |list| && k <= |list|
    ensures var r := AddedBehind(list, s, slot);
      && r[s + 1] == slot && At(r, s) == list[s] && At(r, s + 1) == slot && At(r, s + 2) == At(list, s + 1)
      && (k <= s ==> r[k] == list[k] && At(r, k - 1) == At(list, k - 1))
      && (k < s ==> At(r, k + 1) == At(list, k + 1))
      && (k > s + 1 ==> r[k] == list[k - 1] && At(r, k + 1) == At(list, k))
      && (k > s + 2 ==> At(r, k - 1) == At(list, k - 2))
  {
  }

  lemma AddedDistinct(list: seq<Cte>, s: nat, slot: Cte)
    requires s < |list| && Distinct(list) && slot !in list
    ensures Distinct(AddedBehind(list, s, slot))
  {
  }

  method CteInsert(newCap: Cap, srcSlot: Cte, destSlot: Cte, ghost list: seq<Cte>, ghost ns: seq<Node>, ghost s: nat)
    requires Spells(list, ns) && s < |list| && list[s] == srcSlot
    requires Vacant(destSlot) && !newCap.NullCap?
    modifies destSlot, list
    ensures Spells(AddedBehind(list, s, destSlot), Inserted(ns, s, newCap))
  {
    hide UntypedAsFull, IsCapRevocable, AddedBehind, At;
    Neighbours(list, ns, s);
    VacantOutside(list, ns, destSlot);
    var srcMdb, srcCap := srcSlot.mdb, srcSlot.cap;
    var revocable := IsCapRevocable(newCap, srcCap);
    var newMdb := srcMdb.(prev := srcSlot, revocable := revocable, firstBadged := revocable);
    srcSlot.cap := UntypedAsFull(srcCap, newCap);
    destSlot.cap := newCap;
    destSlot.mdb := newMdb;
    srcSlot.mdb := srcSlot.mdb.(next := destSlot);
    if newMdb.next != null {
      newMdb.next.mdb := newMdb.next.mdb.(prev := destSlot);
    }
    ghost var l, r := AddedBehind(list, s, destSlot), Inserted(ns, s, newCap);
    AddedDistinct(list, s, destSlot);
    forall k | 0 <= k < |l|
      ensures !r[k].cap.NullCap? && Holds(l[k], r[k], At(l, k - 1), At(l, k + 1))
    {
      AddedPlace(list, s, destSlot, k);
      if k != s + 1 {
        ghost var i := if k <= s then k else k - 1;
        assert old(Holds(list[i], ns[i], At(list, i - 1), At(list, i + 1)));
      }
    }
  }

  method InsertNewCap(parent: Cte, slot: Cte, cap: Cap, ghost list: seq<Cte>, ghost ns: seq<Node>, ghost s: nat)
    requires Spells(list, ns) && s < |list| && list[s] == parent
    requires Vacant(slot) && !cap.NullCap?
    modifies slot, list
    ensures Spells(AddedBehind(list, s, slot), NewInserted(ns, s, cap))
  {
    hide AddedBehind, At;
    Neighbours(list, ns, s);
    VacantOutside(list, ns, slot);
    var next := parent.mdb.next;
    slot.cap := cap;
    slot.mdb := MdbNode(parent, next, true, true);
    if next != null {
      next.mdb := next.mdb.(prev := slot);
    }
    parent.mdb := parent.mdb.(next := slot);
    ghost var l, r := AddedBehind(list, s, slot), NewInserted(ns, s, cap);
    AddedDistinct(list, s, slot);
    forall k | 0 <= k < |l|
      ensures !r[k].cap.NullCap? && Holds(l[k], r[k], At(l, k - 1), At(l, k + 1))
    {
      AddedPlace(list, s, slot, k);
      if k != s + 1 {
        ghost var i := if k <= s then k else k - 1;
        assert old(Holds(list[i], ns[i], At(list, i - 1), At(list, i + 1)));
      }
    }
  }

  // ---------------------------------------------------------------- moving and swapping

  lemma MovedDistinct(list: seq<Cte>, s: nat, slot: Cte)
    requires Distinct(list) && s < |list|
    ensures slot !in list ==> Distinct(list[s := slot])
  {
  }

  lemma MovedPlace(list: seq<Cte>, s: nat, slot: Cte, k: nat)
    requires s < |list| && k < |list|
    ensures var r := list[s := slot];
      && r[k] == (if k == s then slot else list[k])
      && At(r, k - 1) == (if k - 1 == s then slot else At(list, k - 1))
      && At(r, k + 1) == (if k + 1 == s then slot else At(list, k + 1))
  {
  }

  method CteMove(newCap: Cap, srcSlot: Cte, destSlot: Cte, ghost list: seq<Cte>, ghost ns: seq<Node>, ghost s: nat)
    requires Spells(list, ns) && s < |list| && list[s] == srcSlot
    requires Vacant(destSlot) && !newCap.NullCap?
    modifies destSlot, list
    ensures Spells(list[s := destSlot], ns[s := ns[s].(cap := newCap)])
    ensures Vacant(srcSlot)
  {
    hide At;
    MovedDistinct(list, s, destSlot);
    Neighbours(list, ns, s);
    VacantOutside(list, ns, destSlot);
    var mdb := srcSlot.mdb;
    destSlot.cap := newCap;
    srcSlot.cap := NullCap;
    destSlot.mdb := mdb;
    srcSlot.mdb := NullMdbNode();
    if mdb.prev != null {
      mdb.prev.mdb := mdb.prev.mdb.(next := destSlot);
    }
    if mdb.next != null {
      mdb.next.mdb := mdb.next.mdb.(prev := destSlot);
    }
    ghost var l, r := list[s := destSlot], ns[s := ns[s].(cap := newCap)];
    forall k | 0 <= k < |l|
      ensures !r[k].cap.NullCap? && Holds(l[k], r[k], At(l, k - 1), At(l, k + 1))
    {
      MovedPlace(list, s, destSlot, k);
      Apart(list, k, s - 1);
      Apart(list, k, s + 1);
      assert old(Holds(list[k], ns[k], At(list, k - 1), At(list, k + 1)));
    }
  }

  /** The slots after a swap: each of the two stands where the other stood. */
  ghost function Exchanged(list: seq<Cte>, a: Cte, b: Cte): (r: seq<Cte>)
    ensures |r| == |list|
  {
    seq(|list|, k requires 0 <= k < |list| => if list[k] == a then b else if list[k] == b then a else list[k])
  }

  ghost function Other(slot: Cte?, a: Cte, b: Cte): Cte? {
    if slot == a then b else if slot == b then a else slot
  }

  /** The nodes after a swap: they keep their places, and two of them get new capabilities. */
  ghost function SwappedNodes(ns: seq<Node>, list: seq<Cte>, a: Cte, cap1: Cap, b: Cte, cap2: Cap): (r: seq<Node>)
    requires |ns| == |list|
    ensures |r| == |ns|
  {
    seq(|ns|, k requires 0 <= k < |ns| =>
      if list[k] == a then ns[k].(cap := cap1) else if list[k] == b then ns[k].(cap := cap2) else ns[k])
  }

  lemma ExchangedPlace(list: seq<Cte>, a: Cte, b: Cte, k: nat)
    requires k < |list|
    ensures var r := Exchanged(list, a, b);
      && r[k] == Other(list[k], a, b)
      && At(r, k - 1) == Other(At(list, k - 1), a, b)
      && At(r, k + 1) == Other(At(list, k + 1), a, b)
    ensures At(list, k - 1) == (if k > 0 then list[k - 1] else null)
    ensures At(list, k + 1) == (if k + 1 < |list| then list[k + 1] else null)
  {
  }

  lemma SwappedPlace(ns: seq<Node>, list: seq<Cte>, a: Cte, cap1: Cap, b: Cte, cap2: Cap, k: nat)
    requires k < |ns| == |list|
    ensures var r := SwappedNodes(ns, list, a, cap1, b, cap2);
      && r[k] == ns[k].(cap := r[k].cap)
      && r[k].cap == if list[k] == a then cap1 else if list[k] == b then cap2 else ns[k].cap
  {
  }

  lemma ExchangedDistinct(list: seq<Cte>, a: Cte, b: Cte)
    requires Distinct(list)
    ensures Distinct(Exchanged(list, a, b))
  {
  }

  /** `m`, the links of slot `x`, after the neighbours named in `mdb` have been pointed at `slot`. */
  ghost function Relinked(m: MdbNode, x: Cte, mdb: MdbNode, slot: Cte): MdbNode {
    m.(next := if x == mdb.prev then slot else m.next, prev := if x == mdb.next then slot else m.prev)
  }

  method RelinkNeighbours(mdb: MdbNode, slot: Cte, ghost slots: set<Cte>)
    requires mdb.prev != null ==> mdb.prev in slots
    requires mdb.next != null ==> mdb.next in slots
    modifies slots`mdb
    ensures forall x :: x in slots ==> x.mdb == Relinked(old(x.mdb), x, mdb, slot)
  {
    if mdb.prev != null {
      mdb.prev.mdb := mdb.prev.mdb.(next := slot);
    }
    if mdb.next != null {
      mdb.next.mdb := mdb.next.mdb.(prev := slot);
    }
  }

  /** The links of position `k` before the swap. */
  ghost function LinksAt(list: seq<Cte>, ns: seq<Node>, k: nat): MdbNode
    requires k < |list| == |ns|
  {
    MdbNode(At(list, k - 1), At(list, k + 1), ns[k].revocable, ns[k].firstBadged)
  }

  /** The links of slot `x`, which were `m`, after the links of the two slots have been swapped. */
  ghost function AfterSwap(m: MdbNode, x: Cte, slot1: Cte, mdb1: MdbNode, slot2: Cte, old2: MdbNode): MdbNode {
    var mdb2 := Relinked(old2, slot2, mdb1, slot2);
    Relinked(if x == slot1 then mdb2 else if x == slot2 then mdb1 else Relinked(m, x, mdb1, slot2), x, mdb2, slot1)
  }

  /** Pointing the neighbours of each slot at the other slot exchanges the two, even if they are neighbours. */
  lemma SwapLinks(list: seq<Cte>, ns: seq<Node>, i: nat, slot2: Cte, old2: MdbNode, j: nat, k: nat, m: MdbNode)
    requires Distinct(list) && i < |list| == |ns| && k < |list| && i != j
    requires if j < |list| then list[j] == slot2 && old2 == LinksAt(list, ns, j)
             else slot2 !in list && old2 == NullMdbNode()
    requires k != i && k != j ==> m == LinksAt(list, ns, k)
    ensures AfterSwap(m, Other(list[k], list[i], slot2), list[i], LinksAt(list, ns, i), slot2, old2)
         == MdbNode(Other(At(list, k - 1), list[i], slot2), Other(At(list, k + 1), list[i], slot2),
                    ns[k].revocable, ns[k].firstBadged)
  {
  }

  method SwapMdbNodes(slot1: Cte, slot2: Cte, ghost slots: set<Cte>)
    requires slot1 != slot2 && slot1 in slots && slot2 in slots
    requires slot1.mdb.prev != null ==> slot1.mdb.prev in slots
    requires slot1.mdb.next != null ==> slot1.mdb.next in slots
    requires var mdb2 := Relinked(slot2.mdb, slot2, slot1.mdb, slot2);
      (mdb2.prev != null ==> mdb2.prev in slots) && (mdb2.next != null ==> mdb2.next in slots)
    requires Relinked(slot1.mdb, slot1, slot1.mdb, slot2) == slot1.mdb
    modifies slots`mdb
    ensures forall x :: x in slots ==> x.mdb == AfterSwap(old(x.mdb), x, slot1, old(slot1.mdb), slot2, old(slot2.mdb))
  {
    hide Relinked;
    var mdb1 := slot1.mdb;
    RelinkNeighbours(mdb1, slot2, slots);
    var mdb2 := slot2.mdb;
    slot1.mdb := mdb2;
    slot2.mdb := mdb1;
    RelinkNeighbours(mdb2, slot1, slots);
  }

  /** Swaps two slots, neighbours or not; the second may also be vacant. */
  method CteSwap(cap1: Cap, slot1: Cte, cap2: Cap, slot2: Cte,
                 ghost list: seq<Cte>, ghost ns: seq<Node>, ghost i: nat, ghost j: nat)
    requires Spells(list, ns) && slot1 != slot2
    requires i < |list| && list[i] == slot1 && !cap1.NullCap?
    requires if j < |list| then list[j] == slot2 && !cap2.NullCap? else Vacant(slot2) && cap2.NullCap?
    modifies slot2, list
    ensures Spells(Exchanged(list, slot1, slot2), SwappedNodes(ns, list, slot1, cap1, slot2, cap2))
    ensures j >= |list| ==> Vacant(slot1)
  {
    hide Exchanged, At, Relinked, SwappedNodes, AfterSwap;
    ghost var slots := (set x | x in list) + {slot2};
    Neighbours(list, ns, i);
    if j < |list| {
      Neighbours(list, ns, j);
    } else {
      VacantOutside(list, ns, slot2);
    }
    ghost var mdb1, old2 := slot1.mdb, slot2.mdb;
    SwapNeighboursListed(list, ns, i, slot2, old2, j);
    slot1.cap := cap2;
    slot2.cap := cap1;
    SwapMdbNodes(slot1, slot2, slots);
    ghost var l, r := Exchanged(list, slot1, slot2), SwappedNodes(ns, list, slot1, cap1, slot2, cap2);
    ExchangedDistinct(list, slot1, slot2);
    forall k | 0 <= k < |l|
      ensures !r[k].cap.NullCap? && Holds(l[k], r[k], At(l, k - 1), At(l, k + 1))
    {
      ExchangedPlace(list, slot1, slot2, k);
      SwappedPlace(ns, list, slot1, cap1, slot2, cap2, k);
      SwapLinks(list, ns, i, slot2, old2, j, k, old(l[k].mdb));
      assert old(Holds(list[k], ns[k], At(list, k - 1), At(list, k + 1)));
      assert l[k] in slots;
    }
  }

  lemma SwapNeighboursListed(list: seq<Cte>, ns: seq<Node>, i: nat, slot2: Cte, old2: MdbNode, j: nat)
    requires Distinct(list) && i < |list| == |ns| && i != j
    requires if j < |list| then list[j] == slot2 && old2 == LinksAt(list, ns, j)
             else slot2 !in list && old2 == NullMdbNode()
    ensures var mdb2 := Relinked(old2, slot2, LinksAt(list, ns, i), slot2);
      && (mdb2.prev != null ==> mdb2.prev in list || mdb2.prev == slot2)
      && (mdb2.next != null ==> mdb2.next in list || mdb2.next == slot2)
      && Relinked(LinksAt(list, ns, i), list[i], LinksAt(list, ns, i), slot2) == LinksAt(list, ns, i)
      && (j >= |list| ==>
            AfterSwap(LinksAt(list, ns, i), list[i], list[i], LinksAt(list, ns, i), slot2, old2) == NullMdbNode())
  {
  }

  /** The slots of two positions changed, and their capabilities. */
  ghost function Rotated(list: seq<Cte>, i: nat, slot2: Cte, j: nat, slot3: Cte): seq<Cte>
    requires i < |list| && j < |list|
  {
    list[i := slot2][j := slot3]
  }

  ghost function RotatedNodes(ns: seq<Node>, i: nat, cap1: Cap, j: nat, cap2: Cap): seq<Node>
    requires i < |ns| && j < |ns| && i != j
  {
    ns[i := ns[i].(cap := cap1)][j := ns[j].(cap := cap2)]
  }

  /**
    Moves the first capability to the second slot and the second to the third, which may be the
    first: a swap there does to the list what the two moves do.
   */
  method InvokeCNodeRotate(cap1: Cap, cap2: Cap, slot1: Cte, slot2: Cte, slot3: Cte,
                           ghost list: seq<Cte>, ghost ns: seq<Node>, ghost i: nat, ghost j: nat)
    requires Spells(list, ns) && i < |list| && j < |list| && i != j && list[i] == slot1 && list[j] == slot2
    requires slot3 == slot1 || Vacant(slot3)
    requires !cap1.NullCap? && !cap2.NullCap?
    modifies slot3, list
    ensures Spells(Rotated(list, i, slot2, j, slot3), RotatedNodes(ns, i, cap1, j, cap2))
    ensures slot3 != slot1 ==> Vacant(slot1)
  {
    hide Spells, Vacant;
    RotatedApart(list, ns, i, j);
    if slot1 == slot3 {
      CteSwap(cap1, slot1, cap2, slot2, list, ns, i, j);
      SwapIsRotation(list, ns, i, cap1, j, cap2);
    } else {
      CteMove(cap2, slot2, slot3, list, ns, j);
      ghost var list', ns' := list[j := slot3], ns[j := ns[j].(cap := cap2)];
      CteMove(cap1, slot1, slot2, list', ns', i);
      assert list'[i := slot2] == Rotated(list, i, slot2, j, slot3);
      assert ns'[i := ns'[i].(cap := cap1)] == RotatedNodes(ns, i, cap1, j, cap2);
    }
  }

  lemma RotatedApart(list: seq<Cte>, ns: seq<Node>, i: nat, j: nat)
    requires Spells(list, ns) && i < |list| && j < |list| && i != j
    ensures |ns| == |list| && Distinct(list) && list[i] != list[j]
  {
  }

  lemma SwapIsRotation(list: seq<Cte>, ns: seq<Node>, i: nat, cap1: Cap, j: nat, cap2: Cap)
    requires Distinct(list) && i < |list| == |ns| && j < |list| && i != j
    ensures Exchanged(list, list[i], list[j]) == Rotated(list, i, list[j], j, list[i])
    ensures SwappedNodes(ns, list, list[i], cap1, list[j], cap2) == RotatedNodes(ns, i, cap1, j, cap2)
  {
  }
}
