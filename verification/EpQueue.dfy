/**
  Queues of blocked threads, linked through the threads (kernel/include/object/tcb.h tcbEPAppend,
  kernel/src/object/tcb.c tcbEPDequeue), and the same work as the fast paths do it
  (kernel/src/fastpath/fastpath.c).
 */
module EpQueue {
  import opened PriorityQueues

  class Tcb {
    var tcbPriority: nat
    var tcbEPNext: Tcb?
    var tcbEPPrev: Tcb?

    constructor (priority: nat)
      ensures tcbPriority == priority
    {
      tcbPriority, tcbEPNext, tcbEPPrev := priority, null, null;
    }
  }

  datatype TcbQueue = TcbQueue(head: Tcb?, end: Tcb?)

  ghost function At(list: seq<Tcb>, i: int): Tcb? {
    if 0 <= i < |list| then list[i] else null
  }

  ghost predicate Distinct(list: seq<Tcb>) {
    forall i, j :: 0 <= i < j < |list| ==> list[i] != list[j]
  }

  ghost predicate Linked(t: Tcb, prev: Tcb?, next: Tcb?)
    reads t
  {
    t.tcbEPPrev == prev && t.tcbEPNext == next
  }

  /** The links of the threads and the ends of the queue spell out the list. */
  ghost predicate Spells(queue: TcbQueue, list: seq<Tcb>)
    reads list
  {
    && Distinct(list)
    && queue == TcbQueue(At(list, 0), At(list, |list| - 1))
    && forall i :: 0 <= i < |list| ==> Linked(list[i], At(list, i - 1), At(list, i + 1))
  }

  ghost function Priorities(list: seq<Tcb>): (ps: seq<nat>)
    reads list
    ensures |ps| == |list|
  {
    seq(|list|, i requires 0 <= i < |list| reads list => list[i].tcbPriority)
  }

  /** The queue with one more thread, behind all of at least its priority. */
  ghost function Enqueued(list: seq<Tcb>, tcb: Tcb): seq<Tcb>
    reads list, tcb
  {
    InsertAt(list, Place(Priorities(list), tcb.tcbPriority), tcb)
  }

  lemma InsertedPlace(list: seq<Tcb>, k: nat, tcb: Tcb, i: nat)
    requires k <= |list| && i <= |list|
    ensures var l, j := InsertAt(list, k, tcb), if i < k then i else i - 1;
      && l[i] == (if i == k then tcb else list[j])
      && At(l, i - 1) == (if i == k + 1 then tcb else if i == k then At(list, k - 1) else At(list, j - 1))
      && At(l, i + 1) == (if i + 1 == k then tcb else if i == k then At(list, k) else At(list, j + 1))
  {
  }

  lemma RemovedPlace(list: seq<Tcb>, k: nat, i: nat)
    requires k < |list| && i + 1 < |list|
    ensures var l, j := RemoveAt(list, k), if i < k then i else i + 1;
      && l[i] == list[j]
      && At(l, i - 1) == At(list, if j - 1 == k then k - 1 else j - 1)
      && At(l, i + 1) == At(list, if j + 1 == k then k + 1 else j + 1)
  {
  }

  lemma InsertedSpells(queue: TcbQueue, list: seq<Tcb>, k: nat, tcb: Tcb)
    requires Distinct(list) && tcb !in list && k <= |list| && queue == TcbQueue(At(list, 0), At(list, |list| - 1))
    ensures var l := InsertAt(list, k, tcb);
      && Distinct(l)
      && At(l, 0) == (if k == 0 then tcb else queue.head)
      && At(l, |l| - 1) == (if k == |list| then tcb else queue.end)
  {
  }

  lemma RemovedSpells(queue: TcbQueue, list: seq<Tcb>, k: nat)
    requires Distinct(list) && k < |list| && queue == TcbQueue(At(list, 0), At(list, |list| - 1))
    ensures var l := RemoveAt(list, k);
      && Distinct(l)
      && At(l, 0) == (if k == 0 then At(list, 1) else queue.head)
      && At(l, |l| - 1) == (if k == |list| - 1 then At(list, k - 1) else queue.end)
  {
  }

  /** Two places of a list hold different threads. */
  lemma Apart(list: seq<Tcb>, i: int, j: int)
    requires Distinct(list) && 0 <= i < |list|
    ensures At(list, i) == At(list, j) <==> i == j
    ensures At(list, i) == list[i]
  {
  }

  /** Walks back from the end over the threads of lower priority. */
  method FindPlace(tcb: Tcb, queue: TcbQueue, ghost list: seq<Tcb>)
    returns (before: Tcb?, after: Tcb?, ghost k: nat)
    requires Spells(queue, list)
    ensures k == Place(Priorities(list), tcb.tcbPriority)
    ensures before == At(list, k - 1) && after == At(list, k)
  {
    before, after := queue.end, null;
    k := |list|;
    while before != null && tcb.tcbPriority > before.tcbPriority
      invariant 0 <= k <= |list| && before == At(list, k - 1) && after == At(list, k)
      invariant forall i :: k <= i < |list| ==> list[i].tcbPriority < tcb.tcbPriority
      decreases k
    {
      assert Linked(list[k - 1], At(list, k - 2), At(list, k));
      after := before;
      before := after.tcbEPPrev;
      k := k - 1;
    }
    PlaceFromBack(Priorities(list), tcb.tcbPriority, k);
  }

  /** Makes `next` follow `before` and `prev` precede `after`, at the end of the queue where there is none. */
  method Join(queue: TcbQueue, before: Tcb?, next: Tcb?, after: Tcb?, prev: Tcb?, ghost members: set<Tcb>)
    returns (r: TcbQueue)
    requires (before != null ==> before in members) && (after != null ==> after in members)
    modifies members`tcbEPNext, members`tcbEPPrev
    ensures forall x :: x in members ==>
      Linked(x, if x == after then prev else old(x.tcbEPPrev), if x == before then next else old(x.tcbEPNext))
    ensures r == TcbQueue(if before == null then next else queue.head, if after == null then prev else queue.end)
  {
    r := queue;
    if before == null {
      r := r.(head := next);
    } else {
      before.tcbEPNext := next;
    }
    if after == null {
      r := r.(end := prev);
    } else {
      after.tcbEPPrev := prev;
    }
  }

  ghost predicate InSet(list: seq<Tcb>, members: set<Tcb>) {
    forall i :: 0 <= i < |list| ==> list[i] in members
  }

  lemma AppendLinks(list: seq<Tcb>, k: nat, tcb: Tcb, i: nat)
    requires Distinct(list) && k <= |list| && i <= |list| && i != k
    ensures var l, j := InsertAt(list, k, tcb), if i < k then i else i - 1;
      && l[i] == list[j]
      && At(l, i - 1) == (if list[j] == At(list, k) then tcb else At(list, j - 1))
      && At(l, i + 1) == (if list[j] == At(list, k - 1) then tcb else At(list, j + 1))
  {
    var j := if i < k then i else i - 1;
    InsertedPlace(list, k, tcb, i);
    Apart(list, j, k - 1);
    Apart(list, j, k);
  }

  lemma DequeueLinks(list: seq<Tcb>, k: nat, i: nat)
    requires Distinct(list) && k < |list| && i + 1 < |list|
    ensures var l, j := RemoveAt(list, k), if i < k then i else i + 1;
      && l[i] == list[j]
      && At(l, i - 1) == (if list[j] == At(list, k + 1) then At(list, k - 1) else At(list, j - 1))
      && At(l, i + 1) == (if list[j] == At(list, k - 1) then At(list, k + 1) else At(list, j + 1))
  {
    var j := if i < k then i else i + 1;
    RemovedPlace(list, k, i);
    Apart(list, j, k - 1);
    Apart(list, j, k + 1);
  }

  /** Links a thread in between two neighbours of a queue. */
  method LinkIn(tcb: Tcb, queue: TcbQueue, before: Tcb?, after: Tcb?, ghost list: seq<Tcb>, ghost k: nat,
                ghost members: set<Tcb>)
    returns (r: TcbQueue)
    requires Spells(queue, list) && tcb !in list && InSet(list, members) && tcb in members
    requires k <= |list| && before == At(list, k - 1) && after == At(list, k)
    modifies members`tcbEPNext, members`tcbEPPrev
    ensures Spells(r, InsertAt(list, k, tcb))
  {
    InsertedSpells(queue, list, k, tcb);
    hide Distinct, InsertAt;
    r := Join(queue, before, tcb, after, tcb, members);
    tcb.tcbEPNext := after;
    tcb.tcbEPPrev := before;
    assert forall j :: 0 <= j < |list| ==>
      Linked(list[j], if list[j] == after then tcb else At(list, j - 1),
                      if list[j] == before then tcb else At(list, j + 1));
    ghost var l := InsertAt(list, k, tcb);
    forall i | 0 <= i < |l| ensures Linked(l[i], At(l, i - 1), At(l, i + 1)) {
      if i != k {
        AppendLinks(list, k, tcb, i);
      } else {
        InsertedPlace(list, k, tcb, i);
      }
    }
  }

  method TcbEPAppend(tcb: Tcb, queue: TcbQueue, ghost list: seq<Tcb>, ghost members: set<Tcb>) returns (r: TcbQueue)
    requires Spells(queue, list) && tcb !in list && InSet(list, members) && tcb in members
    modifies members`tcbEPNext, members`tcbEPPrev
    ensures Spells(r, old(Enqueued(list, tcb)))
  {
    hide Spells, InsertAt, Place, Priorities, InSet;
    var before, after;
    ghost var k: nat;
    before, after, k := FindPlace(tcb, queue, list);
    r := LinkIn(tcb, queue, before, after, list, k, members);
  }

  method TcbEPDequeue(tcb: Tcb, queue: TcbQueue, ghost list: seq<Tcb>, ghost k: nat, ghost members: set<Tcb>)
    returns (r: TcbQueue)
    requires Spells(queue, list) && k < |list| && list[k] == tcb && InSet(list, members)
    modifies members`tcbEPNext, members`tcbEPPrev
    ensures Spells(r, RemoveAt(list, k))
  {
    assert Linked(tcb, At(list, k - 1), At(list, k + 1));
    RemovedSpells(queue, list, k);
    Apart(list, k, k - 1);
    Apart(list, k, k + 1);
    hide Distinct, RemoveAt;
    var prev, next := tcb.tcbEPPrev, tcb.tcbEPNext;
    r := Join(queue, prev, next, next, prev, members);
    assert forall j :: 0 <= j < |list| ==>
      Linked(list[j], if list[j] == next then prev else At(list, j - 1),
                      if list[j] == prev then next else At(list, j + 1));
    ghost var l := RemoveAt(list, k);
    forall i | 0 <= i < |l| ensures Linked(l[i], At(l, i - 1), At(l, i + 1)) {
      DequeueLinks(list, k, i);
    }
  }

  lemma RemovedMembers(list: seq<Tcb>, k: nat, members: set<Tcb>)
    requires Distinct(list) && k < |list| && InSet(list, members)
    ensures list[k] !in RemoveAt(list, k) && InSet(RemoveAt(list, k), members) && list[k] in members
  {
  }

  method Requeue(thread: Tcb, queue: TcbQueue, ghost list: seq<Tcb>, ghost k: nat, ghost members: set<Tcb>)
    returns (r: TcbQueue)
    requires Spells(queue, list) && k < |list| && list[k] == thread && InSet(list, members)
    modifies members`tcbEPNext, members`tcbEPPrev
    ensures Spells(r, old(Enqueued(RemoveAt(list, k), thread)))
  {
    ghost var rest := RemoveAt(list, k);
    RemovedMembers(list, k, members);
    r := TcbEPDequeue(thread, queue, list, k, members);
    hide Spells, Place, InsertAt, RemoveAt, InSet;
    assert Priorities(rest) == old(Priorities(rest));
    r := TcbEPAppend(thread, r, rest, members);
  }

  // ---------------------------------------------------------------- the fast paths

  datatype EpState = EPIdle | EPSend | EPRecv

  lemma EndsOf(queue: TcbQueue, list: seq<Tcb>)
    requires Spells(queue, list)
    ensures queue.head == (if list == [] then null else list[0])
    ensures queue.end == null <==> list == []
  {
  }

  lemma AloneIn(list: seq<Tcb>, thread: Tcb)
    ensures list == [] ==> Enqueued(list, thread) == [thread]
  {
  }

  /** An endpoint: the kind of threads that wait at it, and the ends of their queue. */
  class Endpoint {
    var state: EpState
    var queue: TcbQueue

    constructor ()
      ensures Waiting(EPIdle, [])
    {
      state, queue := EPIdle, TcbQueue(null, null);
    }

    /** The threads waiting, and the state: idle exactly if there are none. */
    ghost predicate Waiting(st: EpState, list: seq<Tcb>)
      reads this, list
    {
      state == st && Spells(queue, list) && (st == EPIdle <==> list == [])
    }

    method DequeueFirst(dest: Tcb, ghost list: seq<Tcb>, ghost members: set<Tcb>)
      requires Spells(queue, list) && InSet(list, members) && list != [] && dest == list[0]
      modifies this`queue, members`tcbEPNext, members`tcbEPPrev
      ensures Spells(queue, list[1..]) && (queue.head == null <==> |list| == 1)
    {
      assert RemoveAt(list, 0) == list[1..];
      hide Spells, RemoveAt, InSet;
      var q := TcbEPDequeue(dest, queue, list, 0, members);
      EndsOf(q, list[1..]);
      queue := q;
    }

    /** The general path: take the first receiver, and fall idle if it was the last. */
    method TakeFirst(ghost list: seq<Tcb>, ghost members: set<Tcb>) returns (dest: Tcb)
      requires state == EPRecv && Waiting(EPRecv, list) && InSet(list, members)
      modifies this, members`tcbEPNext, members`tcbEPPrev
      ensures dest == list[0] && Waiting(if |list| == 1 then EPIdle else EPRecv, list[1..])
    {
      EndsOf(queue, list);
      hide Spells, InSet;
      dest := queue.head;
      DequeueFirst(dest, list, members);
      if queue.head == null {
        state := EPIdle;
      }
    }

    /** The fast path of a call does the same with fewer stores. */
    method TakeFirstFast(ghost list: seq<Tcb>, ghost members: set<Tcb>) returns (dest: Tcb)
      requires state == EPRecv && Waiting(EPRecv, list) && InSet(list, members)
      modifies this, members`tcbEPNext, members`tcbEPPrev
      ensures dest == list[0] && Waiting(if |list| == 1 then EPIdle else EPRecv, list[1..])
    {
      dest := queue.head;
      assert Linked(dest, null, At(list, 1));
      queue := queue.(head := dest.tcbEPNext);
      if dest.tcbEPNext != null {
        dest.tcbEPNext.tcbEPPrev := null;
      } else {
        queue := queue.(end := null);
        state := EPIdle;
      }
      ghost var l := list[1..];
      forall i | 0 <= i < |l| ensures Linked(l[i], At(l, i - 1), At(l, i + 1)) {
        assert old(Linked(list[i + 1], At(list, i), At(list, i + 2)));
        Apart(list, 1, i + 1);
      }
    }

    /** Puts a thread into the queue at the place of its priority. */
    method Append(thread: Tcb, ghost list: seq<Tcb>, ghost members: set<Tcb>)
      requires state != EPSend && Waiting(state, list) && thread !in list && InSet(list, members) && thread in members
      modifies this, members`tcbEPNext, members`tcbEPPrev
      ensures Waiting(EPRecv, old(Enqueued(list, thread)))
    {
      hide Spells, Place, Priorities, InsertAt, InSet;
      var q := TcbEPAppend(thread, queue, list, members);
      state := EPRecv;
      queue := q;
    }

    /** The general path: wait to receive. */
    method WaitToReceive(thread: Tcb, ghost list: seq<Tcb>, ghost members: set<Tcb>)
      requires state != EPSend && Waiting(state, list) && thread !in list && InSet(list, members) && thread in members
      modifies this, members`tcbEPNext, members`tcbEPPrev
      ensures Waiting(EPRecv, old(Enqueued(list, thread)))
    {
      Append(thread, list, members);
    }

    /** The fast path of a reply: a shorter way into an empty queue. */
    method WaitToReceiveFast(thread: Tcb, ghost list: seq<Tcb>, ghost members: set<Tcb>)
      requires state != EPSend && Waiting(state, list) && thread !in list && InSet(list, members) && thread in members
      modifies this, members`tcbEPNext, members`tcbEPPrev
      ensures Waiting(EPRecv, old(Enqueued(list, thread)))
    {
      EndsOf(queue, list);
      if queue.end == null {
        AloneIn(list, thread);
        thread.tcbEPPrev := null;
        thread.tcbEPNext := null;
        queue := TcbQueue(thread, thread);
        state := EPRecv;
      } else {
        Append(thread, list, members);
      }
    }

    /** Moves a thread whose priority has changed to its new place. */
    method ReorderEP(thread: Tcb, ghost list: seq<Tcb>, ghost k: nat, ghost members: set<Tcb>)
      requires Waiting(state, list) && k < |list| && list[k] == thread && InSet(list, members)
      modifies this, members`tcbEPNext, members`tcbEPPrev
      ensures Waiting(state, old(Enqueued(RemoveAt(list, k), thread))) && state == old(state)
    {
      hide Spells, Place, InsertAt, RemoveAt, Priorities;
      var q := Requeue(thread, queue, list, k, members);
      queue := q;
    }
  }

  /** Every queue stays ordered by priority, first come first served among equals. */
  lemma EnqueuedOrdered(list: seq<Tcb>, tcb: Tcb)
    requires NonIncreasing(Priorities(list))
    ensures NonIncreasing(Priorities(Enqueued(list, tcb)))
    ensures var k := Place(Priorities(list), tcb.tcbPriority);
      && (forall i :: 0 <= i < k ==> list[i].tcbPriority >= tcb.tcbPriority)
      && (forall i :: k <= i < |list| ==> list[i].tcbPriority < tcb.tcbPriority)
  {
    var ps, p := Priorities(list), tcb.tcbPriority;
    PlaceSplits(ps, p);
    InsertOrdered(ps, p);
    assert Priorities(Enqueued(list, tcb)) == InsertAt(ps, Place(ps, p), p);
    assert forall i :: 0 <= i < |list| ==> ps[i] == list[i].tcbPriority;
  }
}
