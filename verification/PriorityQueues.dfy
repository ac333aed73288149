/** Queues ordered by priority, as sequences: what every endpoint and notification queue is. */
module PriorityQueues {

  /** Where a thread of priority `p` goes: behind every thread of at least its priority. */
  function Place(ps: seq<nat>, p: nat): (k: nat)
    ensures k <= |ps|
  {
    if ps == [] || p <= ps[|ps| - 1] then |ps| else Place(ps[..|ps| - 1], p)
  }

  function InsertAt<T>(list: seq<T>, k: nat, x: T): (r: seq<T>)
    requires k <= |list|
    ensures |r| == |list| + 1
  {
    list[..k] + [x] + list[k..]
  }

  function RemoveAt<T>(list: seq<T>, k: nat): (r: seq<T>)
    requires k < |list|
    ensures |r| == |list| - 1
  {
    list[..k] + list[k + 1..]
  }

  ghost predicate NonIncreasing(ps: seq<nat>) {
    forall i, j :: 0 <= i < j < |ps| ==> ps[i] >= ps[j]
  }

  /** In an ordered queue all before the place have at least the priority and all from it on less. */
  lemma {:induction false} PlaceSplits(ps: seq<nat>, p: nat)
    requires NonIncreasing(ps)
    ensures var k := Place(ps, p);
      && (forall i :: 0 <= i < k ==> ps[i] >= p)
      && (forall i :: k <= i < |ps| ==> ps[i] < p)
  {
    if ps != [] && p > ps[|ps| - 1] {
      PlaceSplits(ps[..|ps| - 1], p);
    }
  }

  /** Inserting keeps the order; removing does too. */
  lemma InsertOrdered(ps: seq<nat>, p: nat)
    requires NonIncreasing(ps)
    ensures NonIncreasing(InsertAt(ps, Place(ps, p), p))
  {
    PlaceSplits(ps, p);
  }

  lemma RemoveOrdered(ps: seq<nat>, k: nat)
    requires NonIncreasing(ps) && k < |ps|
    ensures NonIncreasing(RemoveAt(ps, k))
  {
  }

  /** The place, found from the back. */
  lemma {:induction false} PlaceFromBack(ps: seq<nat>, p: nat, k: nat)
    requires k <= |ps| && (forall i :: k <= i < |ps| ==> ps[i] < p) && (k > 0 ==> p <= ps[k - 1])
    ensures Place(ps, p) == k
  {
    if k < |ps| {
      PlaceFromBack(ps[..|ps| - 1], p, k);
    }
  }
}
