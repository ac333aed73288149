/**
  The capability derivation list as a sequence of nodes (kernel/src/object/cnode.c).

  The list has no tree structure: which capabilities `ns[i]` revokes is decided by walking to the
  right for as long as the nodes test as its children. `RunEnd` is where that walk stops. The
  chain invariants make this walk agree with derivation, and every operation keeps them.
 */
module Derivation {
  import opened Caps

  datatype Node = Node(cap: Cap, revocable: bool, firstBadged: bool)

  predicate IsMdbParentOf(a: Node, b: Node) {
    if !a.revocable then false
    else if !SameRegionAs(a.cap, b.cap) then false
    else if IsBadged(a.cap) then
      if Badge(a.cap) == 0 then true
      else Badge(a.cap) == Badge(b.cap) && !b.firstBadged
    else true
  }

  function RunFrom(ns: seq<Node>, i: nat, j: nat): (end: nat)
    requires i < j <= |ns|
    ensures j <= end <= |ns|
    decreases |ns| - j
  {
    if j < |ns| && IsMdbParentOf(ns[i], ns[j]) then RunFrom(ns, i, j + 1) else j
  }

  /** The nodes from `i + 1` up to `RunEnd(ns, i)` are the ones that revoking node `i` deletes. */
  function RunEnd(ns: seq<Node>, i: nat): (end: nat)
    requires i < |ns|
    ensures i < end <= |ns|
  {
    RunFrom(ns, i, i + 1)
  }

  lemma {:induction false} RunFromSpec(ns: seq<Node>, i: nat, j: nat)
    requires i < j <= |ns|
    ensures var end := RunFrom(ns, i, j);
      && (forall k :: j <= k < end ==> IsMdbParentOf(ns[i], ns[k]))
      && (end < |ns| ==> !IsMdbParentOf(ns[i], ns[end]))
    decreases |ns| - j
  {
    if j < |ns| && IsMdbParentOf(ns[i], ns[j]) {
      RunFromSpec(ns, i, j + 1);
    }
  }

  lemma {:induction false} RunFromUnique(ns: seq<Node>, i: nat, j: nat, end: nat)
    requires i < j <= end <= |ns|
    requires forall k :: j <= k < end ==> IsMdbParentOf(ns[i], ns[k])
    requires end < |ns| ==> !IsMdbParentOf(ns[i], ns[end])
    ensures RunFrom(ns, i, j) == end
    decreases |ns| - j
  {
    if j < end {
      RunFromUnique(ns, i, j + 1, end);
    }
  }

  /** The run is the maximal row of children. */
  lemma RunEndIff(ns: seq<Node>, i: nat, end: nat)
    requires i < end <= |ns|
    ensures RunEnd(ns, i) == end <==>
      (forall k :: i < k < end ==> IsMdbParentOf(ns[i], ns[k])) &&
      (end < |ns| ==> !IsMdbParentOf(ns[i], ns[end]))
  {
    RunFromSpec(ns, i, i + 1);
    if (forall k :: i < k < end ==> IsMdbParentOf(ns[i], ns[k])) && (end < |ns| ==> !IsMdbParentOf(ns[i], ns[end])) {
      RunFromUnique(ns, i, i + 1, end);
    }
  }

  /**
    What ends a run, by region, badge and flag: a node that is not revocable has none; that of an
    unbadged node goes on to the end of its region; that of a badged one to the next group of badges.
   */
  lemma RunByRegion(ns: seq<Node>, i: nat, end: nat)
    requires i < end <= |ns|
    ensures !ns[i].revocable ==> (RunEnd(ns, i) == end <==> end == i + 1)
    ensures ns[i].revocable && Badge(ns[i].cap) == 0 ==>
      (RunEnd(ns, i) == end <==>
        && (forall k :: i < k < end ==> SameRegionAs(ns[i].cap, ns[k].cap))
        && (end < |ns| ==> !SameRegionAs(ns[i].cap, ns[end].cap)))
    ensures ns[i].revocable && Badge(ns[i].cap) != 0 ==>
      (RunEnd(ns, i) == end <==>
        && (forall k :: i < k < end ==> SameRegionAs(ns[i].cap, ns[k].cap) && SameGroup(ns[i], ns[k]))
        && (end < |ns| ==> !SameRegionAs(ns[i].cap, ns[end].cap) || !SameGroup(ns[i], ns[end])))
  {
    hide RunEnd;
    RunEndIff(ns, i, end);
    RunEndIff(ns, i, i + 1);
  }

  /** A node with the badge of `a` that is not the first of a group. */
  predicate SameGroup(a: Node, b: Node) {
    Badge(b.cap) == Badge(a.cap) && !b.firstBadged
  }

  // ---------------------------------------------------------------- the chain invariants

  /** A region is never interrupted: between a node and a node of its region all lie in the region. */
  ghost predicate Chunked(ns: seq<Node>) {
    forall i, k, j {:trigger SameRegionAs(ns[i].cap, ns[j].cap), SameRegionAs(ns[i].cap, ns[k].cap)} ::
      0 <= i < k <= j < |ns| && SameRegionAs(ns[i].cap, ns[j].cap) ==> SameRegionAs(ns[i].cap, ns[k].cap)
  }

  /** The first of a group of equal badges is flagged. */
  ghost predicate LeaderFlagged(a: Node, b: Node) {
    (SameRegionAs(a.cap, b.cap) && IsBadged(a.cap) && Badge(a.cap) != Badge(b.cap) && Badge(b.cap) != 0)
    ==> b.firstBadged
  }

  ghost predicate LeadersFlagged(ns: seq<Node>) {
    forall i :: 0 < i < |ns| ==> LeaderFlagged(ns[i - 1], ns[i])
  }

  ghost predicate NodeOk(n: Node) {
    && !n.cap.NullCap?
    && Placed(n.cap)
    && (n.cap.UntypedCap? ==> n.revocable)
  }

  ghost predicate WellFormed(ns: seq<Node>) {
    && (forall i :: 0 <= i < |ns| ==> NodeOk(ns[i]))
    && Chunked(ns)
    && LeadersFlagged(ns)
  }

  /** A revocable capability without a badge revokes whatever stands behind it in its region, in the whole list. */
  lemma UnbadgedRun(ns: seq<Node>, i: nat, k: nat)
    requires WellFormed(ns) && i < k < |ns| && ns[i].revocable && Badge(ns[i].cap) == 0
    ensures k < RunEnd(ns, i) <==> SameRegionAs(ns[i].cap, ns[k].cap)
  {
    hide RunEnd;
    RunByRegion(ns, i, RunEnd(ns, i));
  }

  // ---------------------------------------------------------------- deletion

  /** emptySlot: the successor inherits the flag of the deleted node. */
  function Deleted(ns: seq<Node>, d: nat): (r: seq<Node>)
    requires d < |ns|
    ensures |r| == |ns| - 1
  {
    seq(|ns| - 1, k requires 0 <= k < |ns| - 1 =>
      if k < d then ns[k]
      else if k == d then ns[k + 1].(firstBadged := ns[k + 1].firstBadged || ns[k].firstBadged)
      else ns[k + 1])
  }

  /** Where position `i` of the list goes when position `d` is deleted. */
  function Moved(i: nat, d: nat): nat {
    if i > d then i - 1 else i
  }

  lemma DeletedNodes(ns: seq<Node>, d: nat)
    requires d < |ns|
    ensures var r := Deleted(ns, d);
      && (forall i :: 0 <= i < d ==> r[i] == ns[i])
      && (forall i :: d <= i < |r| ==> r[i].cap == ns[i + 1].cap && r[i].revocable == ns[i + 1].revocable)
      && (forall i :: d < i < |r| ==> r[i] == ns[i + 1])
      && (d < |r| ==> r[d].firstBadged == (ns[d + 1].firstBadged || ns[d].firstBadged))
  {
  }

  /** Main result about deletion: every surviving node loses exactly the deleted node from its run. */
  lemma DeletedRuns(ns: seq<Node>, d: nat, i: nat)
    requires WellFormed(ns) && d < |ns| && i < |ns| && i != d
    ensures RunEnd(Deleted(ns, d), Moved(i, d))
            == if d < RunEnd(ns, i) then RunEnd(ns, i) - 1 else RunEnd(ns, i)
  {
    if i > d {
      DeletedRunToTheRight(ns, d, i);
    } else if d < RunEnd(ns, i) {
      DeletedFromRun(ns, d, i);
    } else {
      if RunEnd(ns, i) == d && d + 1 < |ns| {
        RunEndIff(ns, i, d);
        SuccessorStaysOutside(ns, i, d);
      }
      DeletedAfterRun(ns, d, i);
    }
  }

  lemma DeletedRunToTheRight(ns: seq<Node>, d: nat, i: nat)
    requires d < i < |ns|
    ensures RunEnd(Deleted(ns, d), i - 1) == RunEnd(ns, i) - 1
  {
    var end := RunEnd(ns, i);
    RunEndIff(ns, i, end);
    DeletedNodes(ns, d);
    RunEndIff(Deleted(ns, d), i - 1, end - 1);
  }

  lemma DeletedFromRun(ns: seq<Node>, d: nat, i: nat)
    requires i < |ns| && i < d < RunEnd(ns, i)
    ensures RunEnd(Deleted(ns, d), i) == RunEnd(ns, i) - 1
  {
    var r, end := Deleted(ns, d), RunEnd(ns, i);
    RunEndIff(ns, i, end);
    DeletedNodes(ns, d);
    forall k | i < k < end - 1 ensures IsMdbParentOf(r[i], r[k]) {
      assert IsMdbParentOf(ns[i], ns[d]);
      assert IsMdbParentOf(ns[i], ns[k + 1]) && IsMdbParentOf(ns[i], ns[k]);
    }
    RunEndIff(r, i, end - 1);
  }

  lemma DeletedAfterRun(ns: seq<Node>, d: nat, i: nat)
    requires i < |ns| && RunEnd(ns, i) <= d < |ns|
    requires RunEnd(ns, i) == d && d + 1 < |ns| ==>
      !IsMdbParentOf(ns[i], ns[d + 1].(firstBadged := ns[d + 1].firstBadged || ns[d].firstBadged))
    ensures RunEnd(Deleted(ns, d), i) == RunEnd(ns, i)
  {
    var end := RunEnd(ns, i);
    RunEndIff(ns, i, end);
    DeletedNodes(ns, d);
    RunEndIff(Deleted(ns, d), i, end);
  }

  /** The node after the deleted end of a run does not slip into the run. */
  lemma SuccessorStaysOutside(ns: seq<Node>, i: nat, d: nat)
    requires WellFormed(ns) && i < d && d + 1 < |ns| && !IsMdbParentOf(ns[i], ns[d])
    ensures !IsMdbParentOf(ns[i], ns[d + 1].(firstBadged := ns[d + 1].firstBadged || ns[d].firstBadged))
  {
    if ns[i].revocable && SameRegionAs(ns[i].cap, ns[d + 1].cap) {
      assert SameRegionAs(ns[i].cap, ns[d].cap);
      assert LeaderFlagged(ns[d], ns[d + 1]);
    }
  }

  lemma DeletedWellFormed(ns: seq<Node>, d: nat)
    requires WellFormed(ns) && d < |ns|
    ensures WellFormed(Deleted(ns, d))
  {
    var r := Deleted(ns, d);
    DeletedNodes(ns, d);
    forall i, k, j | 0 <= i < k <= j < |r| && SameRegionAs(r[i].cap, r[j].cap)
      ensures SameRegionAs(r[i].cap, r[k].cap)
    {
      var i', k', j' := if i < d then i else i + 1, if k < d then k else k + 1, if j < d then j else j + 1;
      assert r[i].cap == ns[i'].cap && r[k].cap == ns[k'].cap && r[j].cap == ns[j'].cap;
      assert SameRegionAs(ns[i'].cap, ns[k'].cap);
    }
    forall i | 0 < i < |r| ensures LeaderFlagged(r[i - 1], r[i]) {
      if i < d {
        assert LeaderFlagged(ns[i - 1], ns[i]);
      } else if i > d {
        assert LeaderFlagged(ns[i], ns[i + 1]);
      } else {
        assert LeaderFlagged(ns[d - 1], ns[d]);
        assert LeaderFlagged(ns[d], ns[d + 1]);
        if SameRegionAs(ns[d - 1].cap, ns[d + 1].cap) {
          assert SameRegionAs(ns[d - 1].cap, ns[d].cap);
        }
      }
    }
  }

  // ---------------------------------------------------------------- revocation

  /** cteRevoke with every deletion completing: delete the right neighbour while it is a child. */
  function Revoked(ns: seq<Node>, i: nat): (r: seq<Node>)
    requires i < |ns|
    ensures |r| <= |ns|
    decreases |ns|
  {
    if i + 1 < |ns| && IsMdbParentOf(ns[i], ns[i + 1]) then Revoked(Deleted(ns, i + 1), i) else ns
  }

  /** `r` is `ns` without the `n` nodes that follow position `i`; only flags of leaders may differ. */
  ghost predicate CutOut(r: seq<Node>, ns: seq<Node>, i: nat, n: nat)
    requires i + n < |ns|
  {
    && |r| == |ns| - n
    && r[..i + 1] == ns[..i + 1]
    && forall k :: i < k < |r| ==> r[k].cap == ns[k + n].cap && r[k].revocable == ns[k + n].revocable
  }

  lemma CutOutOneMore(r: seq<Node>, ns: seq<Node>, i: nat, n: nat)
    requires i + 1 + n < |ns|
    requires CutOut(r, Deleted(ns, i + 1), i, n)
    ensures CutOut(r, ns, i, n + 1)
  {
    var d := Deleted(ns, i + 1);
    DeletedNodes(ns, i + 1);
    assert d[..i + 1] == ns[..i + 1];
    forall k | i < k < |r| ensures r[k].cap == ns[k + (n + 1)].cap && r[k].revocable == ns[k + (n + 1)].revocable {
      assert r[k].cap == d[k + n].cap;
    }
  }

  /** One deletion of a revocation: the next node is a child of node `i`. */
  lemma RevokeStep(ns: seq<Node>, i: nat)
    requires WellFormed(ns) && i + 1 < |ns| && IsMdbParentOf(ns[i], ns[i + 1])
    ensures WellFormed(Deleted(ns, i + 1))
    ensures i + 1 < RunEnd(ns, i) && RunEnd(Deleted(ns, i + 1), i) == RunEnd(ns, i) - 1
  {
    DeletedWellFormed(ns, i + 1);
    DeletedRuns(ns, i + 1, i);
  }

  lemma NoChildNoRun(ns: seq<Node>, i: nat)
    requires i < |ns| && !(i + 1 < |ns| && IsMdbParentOf(ns[i], ns[i + 1]))
    ensures RunEnd(ns, i) == i + 1 && Revoked(ns, i) == ns
  {
  }

  lemma NothingCut(ns: seq<Node>, i: nat)
    requires i < |ns|
    ensures CutOut(ns, ns, i, 0)
  {
  }

  /** Main result about revocation: exactly the run goes, and what follows keeps its place and capability. */
  lemma {:induction false} RevokedRun(ns: seq<Node>, i: nat, n: nat)
    requires WellFormed(ns) && i < |ns| && n == RunEnd(ns, i) - (i + 1)
    ensures WellFormed(Revoked(ns, i))
    ensures CutOut(Revoked(ns, i), ns, i, n)
    ensures RunEnd(Revoked(ns, i), i) == i + 1
    decreases |ns|
  {
    hide RunEnd, WellFormed, Deleted, IsMdbParentOf, CutOut;
    if i + 1 < |ns| && IsMdbParentOf(ns[i], ns[i + 1]) {
      var d := Deleted(ns, i + 1);
      RevokeStep(ns, i);
      RevokedRun(d, i, n - 1);
      CutOutOneMore(Revoked(d, i), ns, i, n - 1);
    } else {
      NoChildNoRun(ns, i);
      NothingCut(ns, i);
    }
  }

  /** What is left of a run that ended at `end`, once the `n` nodes after position `i` are gone. */
  function EndAfterCut(end: nat, i: nat, n: nat): nat {
    if end <= i + 1 then end else if end < i + 1 + n then i + 1 else end - n
  }

  /** What revoking node `i` takes from the run of a node before it: exactly the nodes of both runs. */
  lemma {:induction false} RevokedRunsBefore(ns: seq<Node>, i: nat, n: nat, a: nat)
    requires WellFormed(ns) && a < i < |ns| && n == RunEnd(ns, i) - (i + 1)
    ensures |Revoked(ns, i)| == |ns| - n
    ensures RunEnd(Revoked(ns, i), a) == EndAfterCut(RunEnd(ns, a), i, n)
    decreases |ns|
  {
    hide RunEnd;
    if i + 1 < |ns| && IsMdbParentOf(ns[i], ns[i + 1]) {
      var d := Deleted(ns, i + 1);
      RevokeStep(ns, i);
      DeletedRuns(ns, i + 1, a);
      RevokedRunsBefore(d, i, n - 1, a);
    } else {
      NoChildNoRun(ns, i);
    }
  }

  /** Revoking node `i` leaves the runs of the nodes behind its own run as they are. */
  lemma {:induction false} RevokedRunsBehind(ns: seq<Node>, i: nat, n: nat, a: nat)
    requires WellFormed(ns) && i < |ns| && n == RunEnd(ns, i) - (i + 1) && i + n < a < |ns|
    ensures |Revoked(ns, i)| == |ns| - n
    ensures RunEnd(Revoked(ns, i), a - n) == RunEnd(ns, a) - n
    decreases |ns|
  {
    hide RunEnd;
    if i + 1 < |ns| && IsMdbParentOf(ns[i], ns[i + 1]) {
      var d := Deleted(ns, i + 1);
      RevokeStep(ns, i);
      DeletedRunToTheRight(ns, i + 1, a);
      RevokedRunsBehind(d, i, n - 1, a - 1);
    } else {
      NoChildNoRun(ns, i);
    }
  }
}
