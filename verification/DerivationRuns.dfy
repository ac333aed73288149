/**
  What revocation is for, over whole histories of the derivation list: a capability revokes exactly
  what has been derived from it, directly or through other capabilities, whatever has been deleted in
  between (kernel/src/object/cnode.c).

  The kernel keeps no derivation tree. Here every node carries an identity and the set of the
  identities it was derived from; no operation looks at them.
 */
module DerivationRuns {
  import opened Caps
  import opened Derivation
  import opened Insertion
  import opened PriorityQueues

  datatype History = History(ns: seq<Node>, ids: seq<nat>, origins: seq<set<nat>>, next: nat)

  datatype Event =
    | Copy(src: nat, cap: Cap)          // cteInsert of a copied or minted capability
    | MakeObject(src: nat, cap: Cap)    // insertNewCap
    | Delete(at: nat)                   // emptySlot
    | Update(at: nat, guardSize: nat, guard: nat)  // cteMove with updated data

  /** What the kernel has checked before the operation. */
  ghost predicate Possible(h: History, e: Event) {
    match e
    case Copy(src, cap) => src < |h.ns| && Copyable(h.ns, src, cap)
    case MakeObject(src, cap) => src < |h.ns| && FreshChild(h.ns, src, cap)
    case Delete(at) => at < |h.ns|
    case Update(at, guardSize, guard) =>
      at < |h.ns| && UpdateCapData(true, 0, guardSize, guard, h.ns[at].cap) != NullCap
  }

  /** A new node behind `src`, derived from it and from all that it was derived from. */
  function Derive(h: History, ns: seq<Node>, src: nat): History
    requires src < |h.ns| == |h.ids| == |h.origins|
  {
    History(ns, InsertAt(h.ids, src + 1, h.next),
            InsertAt(h.origins, src + 1, h.origins[src] + {h.ids[src]}), h.next + 1)
  }

  function Removed(h: History, d: nat): History
    requires d < |h.ns| == |h.ids| == |h.origins|
  {
    History(Deleted(h.ns, d), RemoveAt(h.ids, d), RemoveAt(h.origins, d), h.next)
  }

  ghost function Step(h: History, e: Event): History
    requires Possible(h, e) && |h.ns| == |h.ids| == |h.origins|
  {
    match e
    case Copy(src, cap) => Derive(h, Inserted(h.ns, src, cap), src)
    case MakeObject(src, cap) => Derive(h, NewInserted(h.ns, src, cap), src)
    case Delete(at) => Removed(h, at)
    case Update(at, guardSize, guard) =>
      h.(ns := h.ns[at := h.ns[at].(cap := UpdateCapData(true, 0, guardSize, guard, h.ns[at].cap))])
  }

  ghost predicate AllBelow(s: set<nat>, n: nat) {
    forall x :: x in s ==> x < n
  }

  /** Identities are given out once. */
  ghost predicate Identified(h: History) {
    && |h.ns| == |h.ids| == |h.origins|
    && (forall i :: 0 <= i < |h.ids| ==> h.ids[i] < h.next && AllBelow(h.origins[i], h.next))
    && (forall i, j :: 0 <= i < j < |h.ids| ==> h.ids[i] != h.ids[j])
  }

  /** Node k was made from node i, or from one that was. */
  predicate DerivedFrom(h: History, k: nat, i: nat)
    requires i < |h.ids| && k < |h.origins|
  {
    h.ids[i] in h.origins[k]
  }

  /** Node i revokes node k exactly if it is revocable and k was derived from it. */
  ghost predicate RevokesDerived(h: History, i: nat, k: nat)
    requires Identified(h) && i < |h.ns| && k < |h.ns|
  {
    (i < k < RunEnd(h.ns, i)) <==> h.ns[i].revocable && DerivedFrom(h, k, i)
  }

  ghost predicate Correct(h: History) {
    && WellFormed(h.ns) && Identified(h)
    && forall i, k :: 0 <= i < |h.ns| && 0 <= k < |h.ns| ==> RevokesDerived(h, i, k)
  }

  /** Where a node behind position `s` goes when one is inserted there. */
  function Shifted(i: nat, s: nat): nat {
    if i > s then i + 1 else i
  }

  /** An insertion that adds the new node to the runs of the source, if revocable, and of those that revoke it. */
  lemma DeriveCorrect(h: History, ns: seq<Node>, src: nat)
    requires Correct(h) && src < |h.ns| && WellFormed(ns) && |ns| == |h.ns| + 1
    requires forall i :: 0 <= i < |h.ns| ==> ns[Shifted(i, src)].revocable == h.ns[i].revocable
    requires RunEnd(ns, src + 1) == src + 2
    requires forall i :: 0 <= i < |h.ns| ==>
      RunEnd(ns, Shifted(i, src)) ==
      RunEnd(h.ns, i) + if i > src || (i < src < RunEnd(h.ns, i)) || (i == src && h.ns[src].revocable) then 1 else 0
    ensures Correct(Derive(h, ns, src))
  {
    hide RunEnd, WellFormed;
    DeriveIdentified(h, ns, src);
    var g := Derive(h, ns, src);
    hide Derive, Identified;
    forall i, k | 0 <= i < |g.ns| && 0 <= k < |g.ns| ensures RevokesDerived(g, i, k) {
      if i == src + 1 {
        NothingDerived(h, ns, src, k);
      } else if k == src + 1 {
        NewlyDerived(h, ns, src, if i > src then i - 1 else i);
      } else {
        StillDerived(h, ns, src, if i > src then i - 1 else i, if k > src then k - 1 else k);
      }
    }
  }

  /** Where identities and origins go. */
  lemma DerivePlaces(h: History, ns: seq<Node>, src: nat, i: nat)
    requires src < |h.ns| == |h.ids| == |h.origins| && i < |h.ns|
    ensures var g := Derive(h, ns, src);
      && |g.ids| == |g.origins| == |h.ids| + 1 && g.ns == ns && g.next == h.next + 1
      && g.ids[Shifted(i, src)] == h.ids[i] && g.origins[Shifted(i, src)] == h.origins[i]
      && g.ids[src + 1] == h.next && g.origins[src + 1] == h.origins[src] + {h.ids[src]}
  {
  }

  lemma DeriveIdentified(h: History, ns: seq<Node>, src: nat)
    requires Identified(h) && src < |h.ns| && |ns| == |h.ns| + 1
    ensures Identified(Derive(h, ns, src))
  {
    var g := Derive(h, ns, src);
    DerivePlaces(h, ns, src, src);
    forall i | 0 <= i < |g.ids| && i != src + 1
      ensures var j := if i > src then i - 1 else i; g.ids[i] == h.ids[j] && g.origins[i] == h.origins[j]
    {
      DerivePlaces(h, ns, src, if i > src then i - 1 else i);
    }
    hide Derive, InsertAt, Shifted;
    forall i | 0 <= i < |g.ids| ensures g.ids[i] < g.next && AllBelow(g.origins[i], g.next) {
      var j := if i == src + 1 then src else if i > src then i - 1 else i;
      assert h.ids[j] < h.next && AllBelow(h.origins[j], h.next);
    }
    hide AllBelow;
  }

  /** Nothing has been derived from the new node. */
  lemma NothingDerived(h: History, ns: seq<Node>, src: nat, k: nat)
    requires Identified(h) && src < |h.ns| && |ns| == |h.ns| + 1 && k < |ns|
    requires RunEnd(ns, src + 1) == src + 2 && Identified(Derive(h, ns, src))
    ensures RevokesDerived(Derive(h, ns, src), src + 1, k)
  {
    hide RunEnd, Derive;
    DerivePlaces(h, ns, src, if k <= src then k else if k > src + 1 then k - 1 else src);
  }

  /** A node revokes the new one exactly if it is its source, or revokes the source. */
  lemma NewlyDerived(h: History, ns: seq<Node>, src: nat, i: nat)
    requires Correct(h) && src < |h.ns| && i < |h.ns| && |ns| == |h.ns| + 1
    requires ns[Shifted(i, src)].revocable == h.ns[i].revocable
    requires RunEnd(ns, Shifted(i, src)) ==
      RunEnd(h.ns, i) + if i > src || (i < src < RunEnd(h.ns, i)) || (i == src && h.ns[src].revocable) then 1 else 0
    requires Identified(Derive(h, ns, src))
    ensures RevokesDerived(Derive(h, ns, src), Shifted(i, src), src + 1)
  {
    assert RevokesDerived(h, i, src) && RevokesDerived(h, src, src);
    hide RunEnd, WellFormed, Derive, Correct;
    DerivePlaces(h, ns, src, i);
    assert i < src ==> h.ids[i] != h.ids[src];
    assert src < i ==> h.ids[src] != h.ids[i];
    if i == src {
      NotRevocable(h.ns, src);
    }
  }

  lemma NotRevocable(ns: seq<Node>, i: nat)
    requires i < |ns|
    ensures !ns[i].revocable ==> RunEnd(ns, i) == i + 1
  {
  }

  lemma StillDerived(h: History, ns: seq<Node>, src: nat, i: nat, k: nat)
    requires Correct(h) && src < |h.ns| && i < |h.ns| && k < |h.ns| && |ns| == |h.ns| + 1
    requires ns[Shifted(i, src)].revocable == h.ns[i].revocable
    requires RunEnd(ns, Shifted(i, src)) ==
      RunEnd(h.ns, i) + if i > src || (i < src < RunEnd(h.ns, i)) || (i == src && h.ns[src].revocable) then 1 else 0
    requires Identified(Derive(h, ns, src))
    ensures RevokesDerived(Derive(h, ns, src), Shifted(i, src), Shifted(k, src))
  {
    assert RevokesDerived(h, i, k);
    hide RunEnd, WellFormed, Derive, Correct;
    DerivePlaces(h, ns, src, i);
    DerivePlaces(h, ns, src, k);
    NotRevocable(h.ns, src);
  }

  lemma RemovedPlaces(h: History, d: nat, i: nat)
    requires d < |h.ns| == |h.ids| == |h.origins| && i + 1 < |h.ns|
    ensures var g, j := Removed(h, d), if i < d then i else i + 1;
      && |g.ns| == |g.ids| == |g.origins| == |h.ns| - 1 && g.next == h.next
      && g.ids[i] == h.ids[j] && g.origins[i] == h.origins[j] && g.ns[i].revocable == h.ns[j].revocable
  {
  }

  lemma RemovedIdentified(h: History, d: nat)
    requires Identified(h) && d < |h.ns|
    ensures Identified(Removed(h, d))
  {
    var g := Removed(h, d);
    forall i | 0 <= i < |g.ids|
      ensures var j := if i < d then i else i + 1; g.ids[i] == h.ids[j] && g.origins[i] == h.origins[j]
    {
      RemovedPlaces(h, d, i);
    }
    assert |g.ns| == |g.ids| == |g.origins| && g.next == h.next;
    hide Removed;
  }

  lemma RemovedPair(h: History, d: nat, i: nat, k: nat)
    requires Correct(h) && d < |h.ns| && i + 1 < |h.ns| && k + 1 < |h.ns| && Identified(Removed(h, d))
    ensures |Removed(h, d).ns| == |h.ns| - 1 && RevokesDerived(Removed(h, d), i, k)
  {
    var i', k' := if i < d then i else i + 1, if k < d then k else k + 1;
    assert RevokesDerived(h, i', k');
    DeletedRuns(h.ns, d, i');
    RemovedPlaces(h, d, i);
    RemovedPlaces(h, d, k);
    assert Removed(h, d).ns == Deleted(h.ns, d) && Moved(i', d) == i;
    hide RunEnd, WellFormed, Removed, Deleted, Correct, Identified;
  }

  lemma DeleteCorrect(h: History, d: nat)
    requires Correct(h) && d < |h.ns|
    ensures Correct(Removed(h, d))
  {
    DeletedWellFormed(h.ns, d);
    RemovedIdentified(h, d);
    assert WellFormed(Removed(h, d).ns) && |Removed(h, d).ns| == |h.ns| - 1;
    hide RunEnd, WellFormed, Removed, Deleted, Identified, RevokesDerived;
    forall i, k | 0 <= i < |h.ns| - 1 && 0 <= k < |h.ns| - 1 ensures RevokesDerived(Removed(h, d), i, k) {
      RemovedPair(h, d, i, k);
    }
  }

  lemma UpdateCorrect(h: History, e: Event)
    requires Correct(h) && e.Update? && Possible(h, e)
    ensures Correct(Step(h, e))
  {
    hide RunEnd, WellFormed;
    var g := Step(h, e);
    MutatedCorrect(h.ns, e.at, 0, e.guardSize, e.guard, 0);
    forall i, k | 0 <= i < |g.ns| && 0 <= k < |g.ns| ensures RevokesDerived(g, i, k) {
      MutatedCorrect(h.ns, e.at, 0, e.guardSize, e.guard, i);
      assert RevokesDerived(h, i, k);
    }
  }

  lemma CopyCorrect(h: History, src: nat, cap: Cap)
    requires Correct(h) && src < |h.ns| && Copyable(h.ns, src, cap)
    ensures Correct(Derive(h, Inserted(h.ns, src, cap), src))
  {
    var r := Inserted(h.ns, src, cap);
    hide RunEnd, Copyable, Derive;
    forall i | 0 <= i < |h.ns|
      ensures WellFormed(r) && |r| == |h.ns| + 1 && RunEnd(r, src + 1) == src + 2
      ensures r[Shifted(i, src)].revocable == h.ns[i].revocable
      ensures RunEnd(r, Shifted(i, src)) ==
        RunEnd(h.ns, i) + if i > src || (i < src < RunEnd(h.ns, i)) || (i == src && h.ns[src].revocable) then 1 else 0
    {
      InsertedCorrect(h.ns, src, cap, i);
      hide WellFormed;
    }
    assert 0 <= src < |h.ns|;
    hide Correct, WellFormed, Inserted;
    DeriveCorrect(h, r, src);
  }

  lemma MakeCorrect(h: History, src: nat, cap: Cap)
    requires Correct(h) && src < |h.ns| && FreshChild(h.ns, src, cap)
    ensures Correct(Derive(h, NewInserted(h.ns, src, cap), src))
  {
    var r := NewInserted(h.ns, src, cap);
    hide RunEnd, Derive;
    forall i | 0 <= i < |h.ns|
      ensures WellFormed(r) && |r| == |h.ns| + 1 && RunEnd(r, src + 1) == src + 2
      ensures r[Shifted(i, src)].revocable == h.ns[i].revocable
      ensures RunEnd(r, Shifted(i, src)) ==
        RunEnd(h.ns, i) + if i > src || (i < src < RunEnd(h.ns, i)) || (i == src && h.ns[src].revocable) then 1 else 0
    {
      NewInsertedCorrect(h.ns, src, cap, i);
      hide WellFormed;
    }
    assert 0 <= src < |h.ns|;
    hide Correct, WellFormed, NewInserted, FreshChild;
    DeriveCorrect(h, r, src);
  }

  lemma StepCorrect(h: History, e: Event)
    requires Correct(h) && Possible(h, e)
    ensures Correct(Step(h, e))
  {
    match e
    case Copy(src, cap) => CopyCorrect(h, src, cap);
    case MakeObject(src, cap) => MakeCorrect(h, src, cap);
    case Delete(at) => DeleteCorrect(h, at);
    case Update(_, _, _) => UpdateCorrect(h, e);
  }

  // ---------------------------------------------------------------- whole histories

  ghost predicate AllPossible(h: History, es: seq<Event>)
    requires Correct(h)
    decreases |es|
  {
    es != [] ==> Possible(h, es[0]) && (StepCorrect(h, es[0]); AllPossible(Step(h, es[0]), es[1..]))
  }

  ghost function Run(h: History, es: seq<Event>): (g: History)
    requires Correct(h) && AllPossible(h, es)
    ensures Correct(g)
    decreases |es|
  {
    if es == [] then h
    else
      StepCorrect(h, es[0]);
      Run(Step(h, es[0]), es[1..])
  }

  /** A list starts with a single capability, from which nothing has been derived. */
  lemma SingleCorrect(n: Node)
    requires NodeOk(n)
    ensures Correct(History([n], [0], [{}], 1))
  {
    assert WellFormed([n]);
  }

  /**
    Main result: after any history, revoking a revocable capability deletes exactly the capabilities
    that were derived from it and are left, and revoking any other deletes nothing.
   */
  lemma RevokedExactlyDerived(h: History, es: seq<Event>, i: nat)
    requires Correct(h) && AllPossible(h, es) && i < |Run(h, es).ns|
    ensures var g := Run(h, es);
      var n := |g.ns| - |Revoked(g.ns, i)|;
      && n >= 0 && i + n < |g.ns| && CutOut(Revoked(g.ns, i), g.ns, i, n)
      && forall k :: 0 <= k < |g.ns| ==> (i < k <= i + n <==> g.ns[i].revocable && DerivedFrom(g, k, i))
  {
    hide AllPossible, Correct, RunEnd, WellFormed, CutOut, DerivedFrom, Step, Deleted;
    RunIsExact(Run(h, es), i);
  }

  lemma RunIsExact(g: History, i: nat)
    requires Correct(g) && i < |g.ns|
    ensures var n := |g.ns| - |Revoked(g.ns, i)|;
      && n >= 0 && i + n < |g.ns| && CutOut(Revoked(g.ns, i), g.ns, i, n)
      && forall k :: 0 <= k < |g.ns| ==> (i < k <= i + n <==> g.ns[i].revocable && DerivedFrom(g, k, i))
  {
    RevokedRun(g.ns, i, RunEnd(g.ns, i) - (i + 1));
    hide RunEnd, WellFormed, Correct, CutOut;
    var n := |g.ns| - |Revoked(g.ns, i)|;
    assert i + n + 1 == RunEnd(g.ns, i);
    forall k | 0 <= k < |g.ns|
      ensures i < k <= i + n <==> g.ns[i].revocable && DerivedFrom(g, k, i)
    {
      assert RevokesDerived(g, i, k);
    }
  }
}
