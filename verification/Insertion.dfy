/**
  Inserting into, moving within and searching the derivation list (kernel/src/object/cnode.c).

  Two kinds of capability are inserted behind a source node: a copy derived from the source
  (cteInsert), and a capability to a new object made from the source (insertNewCap, and cteInsert
  for an interrupt handler). In both cases the new node joins the runs that must revoke it and
  every other node keeps its run.
 */
module Insertion {
  import opened Words
  import opened Caps
  import opened Derivation

  // ---------------------------------------------------------------- deriving a copy

  datatype Derived = Derived(ok: bool, cap: Cap)

  /** ensureNoChildren */
  predicate NoChildren(ns: seq<Node>, s: nat)
    requires s < |ns|
  {
    !(s + 1 < |ns| && IsMdbParentOf(ns[s], ns[s + 1]))
  }

  /** deriveCap, for a capability `cap` made from the one in node `s`. */
  function DeriveCap(ns: seq<Node>, s: nat, cap: Cap): Derived
    requires s < |ns|
  {
    match cap
    case ZombieCap(_, _, _) => Derived(true, NullCap)
    case IrqControlCap => Derived(true, NullCap)
    case UntypedCap(_, _, _, _) => if NoChildren(ns, s) then Derived(true, cap) else Derived(false, NullCap)
    case _ => Derived(true, cap)
  }

  /** What invokeCNodeInsert may be called with, for source node `s`. */
  ghost predicate Copyable(ns: seq<Node>, s: nat, n: Cap)
    requires s < |ns|
  {
    && CopyOf(n, ns[s].cap)
    && !n.NullCap? && !n.ZombieCap? && !n.IrqControlCap?
    && (n.UntypedCap? ==> NoChildren(ns, s))
  }

  /** Every capability that the copy and mint operations derive is copyable. */
  lemma DerivedCopyable(ns: seq<Node>, s: nat, r: Rights, mint: bool, data: nat, guardSize: nat, guard: nat)
    requires s < |ns| && !ns[s].cap.NullCap?
    ensures var masked := MaskCapRights(r, ns[s].cap);
      var cap := if mint then UpdateCapData(false, data, guardSize, guard, masked) else masked;
      var d := DeriveCap(ns, s, cap);
      d.ok && !d.cap.NullCap? ==> Copyable(ns, s, d.cap)
  {
    MaskAndUpdateCopy(false, data, guardSize, guard, r, ns[s].cap);
  }

  /**
    Deriving fails exactly for an untyped capability that has something left to revoke; it yields no
    capability exactly for zombies and the interrupt control; and otherwise the one it was given.
   */
  lemma DerivedIff(ns: seq<Node>, s: nat, cap: Cap)
    requires s < |ns| && !cap.NullCap?
    ensures var d := DeriveCap(ns, s, cap);
      && (!d.ok <==> cap.UntypedCap? && RunEnd(ns, s) > s + 1)
      && (d.ok ==> d.cap == if cap.ZombieCap? || cap.IrqControlCap? then NullCap else cap)
  {
  }

  /** setUntypedCapAsFull: an untyped capability that is copied has no room left for objects of its own. */
  function UntypedAsFull(src: Cap, n: Cap): (r: Cap)
    ensures SameShape(r, src) && Badge(r) == Badge(src)
    ensures src.UntypedCap? && SameShape(n, src) && src.blockSize >= MIN_UNTYPED_BITS ==>
      r.freeIndex * Pow2(MIN_UNTYPED_BITS) == Pow2(src.blockSize)
  {
    Pow2Add(if src.UntypedCap? && src.blockSize >= MIN_UNTYPED_BITS then src.blockSize - MIN_UNTYPED_BITS else 0,
            MIN_UNTYPED_BITS);
    if src.UntypedCap? && n.UntypedCap? && src.ptr == n.ptr && n.blockSize == src.blockSize
       && src.blockSize >= MIN_UNTYPED_BITS
    then src.(freeIndex := Pow2(src.blockSize - MIN_UNTYPED_BITS))
    else src
  }

  // ---------------------------------------------------------------- insertion

  /** The list with `node` behind position `s`. */
  function InsertedNode(ns: seq<Node>, s: nat, node: Node): (r: seq<Node>)
    requires s < |ns|
    ensures |r| == |ns| + 1
  {
    seq(|ns| + 1, k requires 0 <= k < |ns| + 1 =>
      if k <= s then ns[k] else if k == s + 1 then node else ns[k - 1])
  }

  function Filled(ns: seq<Node>, s: nat, n: Cap): (r: seq<Node>)
    requires s < |ns|
    ensures |r| == |ns|
  {
    ns[s := ns[s].(cap := UntypedAsFull(ns[s].cap, n))]
  }

  /** cteInsert */
  function Inserted(ns: seq<Node>, s: nat, n: Cap): seq<Node>
    requires s < |ns|
  {
    var revocable := IsCapRevocable(n, ns[s].cap);
    InsertedNode(Filled(ns, s, n), s, Node(n, revocable, revocable))
  }

  /** insertNewCap */
  function NewInserted(ns: seq<Node>, s: nat, n: Cap): seq<Node>
    requires s < |ns|
  {
    InsertedNode(ns, s, Node(n, true, true))
  }

  /** What an insertion needs in order to disturb no run; both kinds of insertion provide it. */
  ghost predicate Insertable(ns: seq<Node>, s: nat, node: Node)
    requires s < |ns|
  {
    && NodeOk(node)
    && SameRegionAs(ns[s].cap, node.cap)
    && LeaderFlagged(ns[s], node)
    && (forall i :: 0 <= i < s && SameRegionAs(ns[i].cap, node.cap) ==> SameRegionAs(ns[i].cap, ns[s].cap))
    && (forall k, j {:trigger SameRegionAs(node.cap, ns[k].cap), SameRegionAs(node.cap, ns[j].cap)} ::
          s < k <= j < |ns| && SameRegionAs(node.cap, ns[j].cap) ==> SameRegionAs(node.cap, ns[k].cap))
    && (s + 1 < |ns| ==> !IsMdbParentOf(node, ns[s + 1]) && LeaderFlagged(node, ns[s + 1]))
    && (forall i :: 0 <= i <= s && s + 1 < RunEnd(ns, i) ==> IsMdbParentOf(ns[i], node))
  }

  lemma InsertedNodeWellFormed(ns: seq<Node>, s: nat, node: Node)
    requires WellFormed(ns) && s < |ns| && Insertable(ns, s, node)
    ensures WellFormed(InsertedNode(ns, s, node))
  {
    var r := InsertedNode(ns, s, node);
    forall i, k, j | 0 <= i < k <= j < |r| && SameRegionAs(r[i].cap, r[j].cap)
      ensures SameRegionAs(r[i].cap, r[k].cap)
    {
      InsertedChunk(ns, s, node, i, k, j);
    }
    forall i | 0 < i < |r| ensures LeaderFlagged(r[i - 1], r[i]) {
      if i <= s {
        assert LeaderFlagged(ns[i - 1], ns[i]);
      } else if i > s + 2 {
        assert LeaderFlagged(ns[i - 2], ns[i - 1]);
      }
    }
  }

  lemma InsertedChunk(ns: seq<Node>, s: nat, node: Node, i: nat, k: nat, j: nat)
    requires WellFormed(ns) && s < |ns| && Insertable(ns, s, node)
    requires var r := InsertedNode(ns, s, node); i < k <= j < |r| && SameRegionAs(r[i].cap, r[j].cap)
    ensures var r := InsertedNode(ns, s, node); SameRegionAs(r[i].cap, r[k].cap)
  {
    var r := InsertedNode(ns, s, node);
    if i <= s {
      if j > s && i < s {
        // the region of node i reaches past position s, so it holds the source
        assert SameRegionAs(ns[i].cap, ns[s].cap) by {
          if j > s + 1 {
            assert SameRegionAs(ns[i].cap, ns[j - 1].cap);
          }
        }
      }
      if k == s + 1 {
        if i < s {
          SameRegionTrans(ns[i].cap, ns[s].cap, node.cap);
        }
      } else if k > s + 1 {
        assert SameRegionAs(ns[i].cap, ns[j - 1].cap);
      } else if j > s + 1 {
        assert SameRegionAs(ns[i].cap, ns[j - 1].cap);
      }
    } else if i == s + 1 {
      assert r[k] == ns[k - 1] && r[j] == ns[j - 1];
    } else {
      assert r[i] == ns[i - 1] && r[k] == ns[k - 1] && r[j] == ns[j - 1];
    }
  }

  /** Main result about insertion: every old node keeps its run, and gains at most the new node. */
  lemma InsertedNodeRuns(ns: seq<Node>, s: nat, node: Node, i: nat)
    requires WellFormed(ns) && s < |ns| && Insertable(ns, s, node) && i < |ns|
    ensures var r, end := InsertedNode(ns, s, node), RunEnd(ns, i);
      if i > s then RunEnd(r, i + 1) == end + 1
      else if end > s + 1 then RunEnd(r, i) == end + 1
      else if end == s + 1 && IsMdbParentOf(ns[i], node) then RunEnd(r, i) == end + 1
      else RunEnd(r, i) == end
  {
    hide RunEnd;
    if i > s {
      InsertedBeforeRun(ns, s, node, i);
    } else if RunEnd(ns, i) > s + 1 {
      InsertedIntoRun(ns, s, node, i);
    } else {
      InsertedAfterRun(ns, s, node, i);
    }
  }

  lemma InsertedBeforeRun(ns: seq<Node>, s: nat, node: Node, i: nat)
    requires s < i < |ns|
    ensures RunEnd(InsertedNode(ns, s, node), i + 1) == RunEnd(ns, i) + 1
  {
    hide RunEnd;
    RunEndIff(ns, i, RunEnd(ns, i));
    RunEndIff(InsertedNode(ns, s, node), i + 1, RunEnd(ns, i) + 1);
  }

  lemma InsertedIntoRun(ns: seq<Node>, s: nat, node: Node, i: nat)
    requires i <= s < |ns| && RunEnd(ns, i) > s + 1 && IsMdbParentOf(ns[i], node)
    ensures RunEnd(InsertedNode(ns, s, node), i) == RunEnd(ns, i) + 1
  {
    hide RunEnd;
    var r, end := InsertedNode(ns, s, node), RunEnd(ns, i);
    RunEndIff(ns, i, end);
    forall k | i < k < end + 1 ensures IsMdbParentOf(r[i], r[k]) {
      if k > s + 1 {
        assert IsMdbParentOf(ns[i], ns[k - 1]);
      }
    }
    RunEndIff(r, i, end + 1);
  }

  lemma InsertedAfterRun(ns: seq<Node>, s: nat, node: Node, i: nat)
    requires i <= s < |ns| && RunEnd(ns, i) <= s + 1
    ensures RunEnd(InsertedNode(ns, s, node), i)
            == if RunEnd(ns, i) == s + 1 && IsMdbParentOf(ns[i], node) then s + 2 else RunEnd(ns, i)
  {
    hide RunEnd;
    var r, end := InsertedNode(ns, s, node), RunEnd(ns, i);
    RunEndIff(ns, i, end);
    RunEndIff(r, i, if end == s + 1 && IsMdbParentOf(ns[i], node) then s + 2 else end);
  }

  /** The new node itself revokes nothing yet. */
  lemma InsertedNodeOwnRun(ns: seq<Node>, s: nat, node: Node)
    requires s < |ns| && Insertable(ns, s, node)
    ensures RunEnd(InsertedNode(ns, s, node), s + 1) == s + 2
  {
    RunEndIff(InsertedNode(ns, s, node), s + 1, s + 2);
  }

  // ---------------------------------------------------------------- a copy is insertable

  lemma CopyInsertable(ns: seq<Node>, s: nat, n: Cap)
    requires WellFormed(ns) && s < |ns| && Copyable(ns, s, n)
    ensures var revocable := IsCapRevocable(n, ns[s].cap); Insertable(ns, s, Node(n, revocable, revocable))
  {
    hide RunEnd;
    var node := Node(n, IsCapRevocable(n, ns[s].cap), IsCapRevocable(n, ns[s].cap));
    CopyRegion(ns, s, n);
    if s + 1 < |ns| {
      CopySuccessor(ns, s, n);
    }
    forall i | 0 <= i <= s && s + 1 < RunEnd(ns, i) ensures IsMdbParentOf(ns[i], node) {
      CopyJoinsRun(ns, s, n, i);
    }
  }

  lemma CopyRegion(ns: seq<Node>, s: nat, n: Cap)
    requires WellFormed(ns) && s < |ns| && Copyable(ns, s, n)
    ensures Placed(n) && SameRegionAs(ns[s].cap, n)
    ensures forall i :: 0 <= i < |ns| ==>
      SameRegionAs(ns[i].cap, n) == SameRegionAs(ns[i].cap, ns[s].cap) &&
      SameRegionAs(n, ns[i].cap) == SameRegionAs(ns[s].cap, ns[i].cap)
  {
    SameShapeSamePlace(n, ns[s].cap);
    SameRegionReflexive(ns[s].cap);
    SameShapeSameRegion(n, ns[s].cap, ns[s].cap);
    forall i | 0 <= i < |ns|
      ensures SameRegionAs(ns[i].cap, n) == SameRegionAs(ns[i].cap, ns[s].cap)
      ensures SameRegionAs(n, ns[i].cap) == SameRegionAs(ns[s].cap, ns[i].cap)
    {
      SameShapeSameRegion(n, ns[s].cap, ns[i].cap);
    }
  }

  lemma CopySuccessor(ns: seq<Node>, s: nat, n: Cap)
    requires WellFormed(ns) && s < |ns| && Copyable(ns, s, n) && s + 1 < |ns|
    ensures var node := Node(n, IsCapRevocable(n, ns[s].cap), IsCapRevocable(n, ns[s].cap));
      !IsMdbParentOf(node, ns[s + 1]) && LeaderFlagged(node, ns[s + 1])
  {
    SameShapeSameRegion(n, ns[s].cap, ns[s + 1].cap);
    assert LeaderFlagged(ns[s], ns[s + 1]);
  }

  lemma CopyJoinsRun(ns: seq<Node>, s: nat, n: Cap, i: nat)
    requires WellFormed(ns) && i <= s < |ns| && Copyable(ns, s, n)
    requires s + 1 < RunEnd(ns, i) || (i < s && s < RunEnd(ns, i))
    ensures IsMdbParentOf(ns[i], Node(n, IsCapRevocable(n, ns[s].cap), IsCapRevocable(n, ns[s].cap)))
  {
    RunEndIff(ns, i, RunEnd(ns, i));
    CopyRegion(ns, s, n);
    if i < s {
      assert IsMdbParentOf(ns[i], ns[s]);
    } else {
      assert IsMdbParentOf(ns[i], ns[s + 1]);
    }
  }

  // ---------------------------------------------------------------- a new object is insertable

  /** The object of `n` is made from node `s`: its region overlaps nothing but what the source lies in. */
  ghost predicate FreshChild(ns: seq<Node>, s: nat, n: Cap)
    requires s < |ns|
  {
    && (ns[s].cap.UntypedCap? || ns[s].cap.IrqControlCap?)
    && ns[s].revocable
    && !n.NullCap? && Placed(n)
    && SameRegionAs(ns[s].cap, n)
    && (forall i :: 0 <= i < |ns| && i != s && SameRegionAs(ns[i].cap, n) ==>
          i < s && SameRegionAs(ns[i].cap, ns[s].cap))
    && (forall i :: 0 <= i < |ns| ==> !SameRegionAs(n, ns[i].cap))
  }

  lemma FreshChildInsertable(ns: seq<Node>, s: nat, n: Cap)
    requires WellFormed(ns) && s < |ns| && FreshChild(ns, s, n)
    ensures Insertable(ns, s, Node(n, true, true))
    ensures IsMdbParentOf(ns[s], Node(n, true, true))
  {
    hide RunEnd;
    var node := Node(n, true, true);
    forall i | 0 <= i <= s && s + 1 < RunEnd(ns, i) ensures IsMdbParentOf(ns[i], node) {
      if i < s {
        RunEndIff(ns, i, RunEnd(ns, i));
        assert IsMdbParentOf(ns[i], ns[s]);
        SameRegionTrans(ns[i].cap, ns[s].cap, n);
      }
    }
  }

  // ---------------------------------------------------------------- cteInsert, insertNewCap and cteMove

  /** The lists differ in nothing that the region tests, the badges or the flags can see. */
  ghost predicate Alike(r: seq<Node>, ns: seq<Node>) {
    && |r| == |ns|
    && forall i :: 0 <= i < |ns| ==> AlikeNode(r[i], ns[i])
  }

  ghost predicate AlikeNode(a: Node, b: Node) {
    && SameShape(a.cap, b.cap) && Badge(a.cap) == Badge(b.cap)
    && a.revocable == b.revocable && a.firstBadged == b.firstBadged
  }

  lemma AlikeTests(a: Node, a': Node, b: Node, b': Node)
    requires AlikeNode(a', a) && AlikeNode(b', b)
    ensures SameRegionAs(a'.cap, b'.cap) == SameRegionAs(a.cap, b.cap)
    ensures IsMdbParentOf(a', b') == IsMdbParentOf(a, b)
    ensures LeaderFlagged(a', b') == LeaderFlagged(a, b)
  {
    SameShapeSameRegion(a'.cap, a.cap, b'.cap);
    SameShapeSameRegion(b'.cap, b.cap, a.cap);
  }

  lemma AlikeRuns(r: seq<Node>, ns: seq<Node>, i: nat)
    requires Alike(r, ns) && i < |ns|
    ensures RunEnd(r, i) == RunEnd(ns, i)
  {
    hide RunEnd;
    var end := RunEnd(ns, i);
    RunEndIff(ns, i, end);
    forall k | i < k < |ns| ensures IsMdbParentOf(r[i], r[k]) == IsMdbParentOf(ns[i], ns[k]) {
      AlikeTests(ns[i], r[i], ns[k], r[k]);
    }
    RunEndIff(r, i, end);
  }

  lemma AlikeWellFormed(r: seq<Node>, ns: seq<Node>)
    requires Alike(r, ns) && WellFormed(ns)
    ensures WellFormed(r)
  {
    forall i | 0 <= i < |r| ensures NodeOk(r[i]) {
      SameShapeSamePlace(r[i].cap, ns[i].cap);
    }
    forall i, j | 0 <= i < |r| && 0 <= j < |r|
      ensures SameRegionAs(r[i].cap, r[j].cap) == SameRegionAs(ns[i].cap, ns[j].cap)
      ensures LeaderFlagged(r[i], r[j]) == LeaderFlagged(ns[i], ns[j])
    {
      AlikeTests(ns[i], r[i], ns[j], r[j]);
    }
  }

  /**
    Main result about moving: a move, or a swap, that changes at most the guard of a capability keeps
    the list well formed and every run as it is.
   */
  lemma MutatedCorrect(ns: seq<Node>, s: nat, data: nat, guardSize: nat, guard: nat, i: nat)
    requires WellFormed(ns) && s < |ns| && i < |ns|
    requires UpdateCapData(true, data, guardSize, guard, ns[s].cap) != NullCap
    ensures var r := ns[s := ns[s].(cap := UpdateCapData(true, data, guardSize, guard, ns[s].cap))];
      WellFormed(r) && RunEnd(r, i) == RunEnd(ns, i)
  {
    var n := UpdateCapData(true, data, guardSize, guard, ns[s].cap);
    MaskAndUpdateCopy(true, data, guardSize, guard, Rights(true, true, true, true), ns[s].cap);
    var r := ns[s := ns[s].(cap := n)];
    assert Alike(r, ns);
    AlikeWellFormed(r, ns);
    AlikeRuns(r, ns, i);
  }

  /**
    Main result about cteInsert: the list stays well formed and every old node keeps its run. A node
    before the source comes to revoke the copy exactly if it revokes the source; the source does
    exactly if it is revocable, whatever its kind and badge.
   */
  lemma InsertedCorrect(ns: seq<Node>, s: nat, n: Cap, i: nat)
    requires WellFormed(ns) && s < |ns| && i < |ns| && Copyable(ns, s, n)
    ensures var r, end := Inserted(ns, s, n), RunEnd(ns, i);
      && WellFormed(r)
      && RunEnd(r, s + 1) == s + 2
      && RunEnd(r, if i > s then i + 1 else i)
         == if i > s || (i < s && s < end) || (i == s && ns[s].revocable) then end + 1 else end
  {
    hide RunEnd;
    var f := Filled(ns, s, n);
    var revocable := IsCapRevocable(n, ns[s].cap);
    assert Alike(f, ns);
    AlikeWellFormed(f, ns);
    AlikeRuns(f, ns, i);
    AlikeTests(ns[i], f[i], Node(n, revocable, revocable), Node(n, revocable, revocable));
    if i <= s && (s + 1 < RunEnd(ns, i) || (i < s && s < RunEnd(ns, i))) {
      CopyJoinsRun(ns, s, n, i);
    }
    CopyOfRevocable(ns, s, n);
    FilledCopyable(ns, s, n);
    CopyInsertable(f, s, n);
    InsertedNodeWellFormed(f, s, Node(n, revocable, revocable));
    InsertedNodeRuns(f, s, Node(n, revocable, revocable), i);
    InsertedNodeOwnRun(f, s, Node(n, revocable, revocable));
  }

  /** A copy of a badged capability has its badge and starts no new group, so a revocable source is its parent. */
  lemma CopyOfRevocable(ns: seq<Node>, s: nat, n: Cap)
    requires WellFormed(ns) && s < |ns| && Copyable(ns, s, n)
    ensures IsMdbParentOf(ns[s], Node(n, IsCapRevocable(n, ns[s].cap), IsCapRevocable(n, ns[s].cap)))
            <==> ns[s].revocable
  {
    CopyRegion(ns, s, n);
    SameRegionReflexive(ns[s].cap);
  }

  lemma FilledCopyable(ns: seq<Node>, s: nat, n: Cap)
    requires s < |ns| && Copyable(ns, s, n)
    ensures Copyable(Filled(ns, s, n), s, n)
    ensures IsCapRevocable(n, Filled(ns, s, n)[s].cap) == IsCapRevocable(n, ns[s].cap)
  {
    if s + 1 < |ns| {
      AlikeTests(ns[s], Filled(ns, s, n)[s], ns[s + 1], ns[s + 1]);
    }
  }

  /** Main result about insertNewCap: the source and everything that revokes it come to revoke the new object. */
  lemma NewInsertedCorrect(ns: seq<Node>, s: nat, n: Cap, i: nat)
    requires WellFormed(ns) && s < |ns| && i < |ns| && FreshChild(ns, s, n)
    ensures var r, end := NewInserted(ns, s, n), RunEnd(ns, i);
      && WellFormed(r)
      && RunEnd(r, s + 1) == s + 2
      && RunEnd(r, if i > s then i + 1 else i) == if i >= s || s < end then end + 1 else end
  {
    hide RunEnd;
    var node := Node(n, true, true);
    FreshChildInsertable(ns, s, n);
    InsertedNodeWellFormed(ns, s, node);
    InsertedNodeRuns(ns, s, node, i);
    InsertedNodeOwnRun(ns, s, node);
    if i < s && RunEnd(ns, i) == s + 1 {
      RunEndIff(ns, i, s + 1);
      assert IsMdbParentOf(ns[i], ns[s]);
      SameRegionTrans(ns[i].cap, ns[s].cap, n);
    }
  }

  // ---------------------------------------------------------------- the last capability to an object

  /** isFinalCapability looks at the two neighbours only. */
  predicate IsFinal(ns: seq<Node>, i: nat)
    requires i < |ns|
  {
    if i > 0 && SameObjectAs(ns[i - 1].cap, ns[i].cap) then false
    else if i + 1 == |ns| then true
    else !SameObjectAs(ns[i].cap, ns[i + 1].cap)
  }

  /** Main result about finality: the two neighbours decide for the whole list. */
  lemma FinalIffUnique(ns: seq<Node>, i: nat)
    requires WellFormed(ns) && i < |ns|
    ensures IsFinal(ns, i) <==> forall j :: 0 <= j < |ns| && j != i ==> !SameObjectAs(ns[i].cap, ns[j].cap)
  {
    forall j | 0 <= j < |ns| && j != i && SameObjectAs(ns[i].cap, ns[j].cap) ensures !IsFinal(ns, i) {
      SharedIsNotFinal(ns, i, j);
    }
    if i > 0 && SameObjectAs(ns[i - 1].cap, ns[i].cap) {
      SameObjectSymmetric(ns[i - 1].cap, ns[i].cap);
    }
  }

  lemma SharedIsNotFinal(ns: seq<Node>, i: nat, j: nat)
    requires WellFormed(ns) && i < |ns| && j < |ns| && i != j && SameObjectAs(ns[i].cap, ns[j].cap)
    ensures !IsFinal(ns, i)
  {
    if i < j {
      assert SameRegionAs(ns[i].cap, ns[i + 1].cap);
    } else {
      SameObjectSymmetric(ns[i].cap, ns[j].cap);
      assert SameRegionAs(ns[j].cap, ns[i - 1].cap);
      SameObjectSymmetric(ns[j].cap, ns[i - 1].cap);
      SameRegionTrans(ns[i - 1].cap, ns[j].cap, ns[i].cap);
    }
  }
}
