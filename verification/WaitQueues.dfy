/**
  The queues of endpoints and notifications: which threads wait where, in which order, and how the
  state of the object and of the threads agree (kernel/src/object/endpoint.c,
  kernel/src/object/notification.c).
 */
module WaitQueues {
  import opened CallStacks
  import opened PriorityQueues

  /** The state of an endpoint or notification. */
  datatype Kind = EPIdle | EPSend | EPRecv | NtfnIdle | NtfnWaiting | NtfnActive

  /** The queue of each object, its state, and the object each blocked thread waits at. */
  datatype Waits = Waits(
    queue: map<nat, seq<nat>>,
    kind: map<nat, Kind>,
    blockingObject: map<nat, nat>,
    prio: map<nat, nat>)

  function Queue(w: Waits, o: nat): seq<nat> { if o in w.queue then w.queue[o] else [] }
  function KindOf(w: Waits, o: nat): Kind { if o in w.kind then w.kind[o] else EPIdle }
  function StateIn(st: map<nat, TsType>, t: nat): TsType { if t in st then st[t] else Inactive }
  function Prio(w: Waits, t: nat): nat { Get(w.prio, t) }

  /** The object that a thread waits at. */
  function WaitsAt(st: map<nat, TsType>, w: Waits, t: nat): nat {
    if Waiting(StateIn(st, t)) then Get(w.blockingObject, t) else 0
  }

  predicate Waiting(s: TsType) {
    s.BlockedOnSend? || s.BlockedOnReceive? || s.BlockedOnNotification?
  }

  /** The object state in which threads of this state wait. */
  function KindFor(s: TsType): Kind
    requires Waiting(s)
  {
    match s
    case BlockedOnSend => EPSend
    case BlockedOnReceive => EPRecv
    case BlockedOnNotification => NtfnWaiting
  }

  function IdleOf(k: Kind): Kind {
    if k.EPIdle? || k.EPSend? || k.EPRecv? then EPIdle else NtfnIdle
  }

  predicate HasWaiters(k: Kind) {
    k.EPSend? || k.EPRecv? || k.NtfnWaiting?
  }

  ghost predicate NoDuplicates(q: seq<nat>) {
    forall i, j :: 0 <= i < j < |q| ==> q[i] != q[j]
  }

  function Priorities(w: Waits, q: seq<nat>): (ps: seq<nat>)
    ensures |ps| == |q|
  {
    seq(|q|, i requires 0 <= i < |q| => Prio(w, q[i]))
  }

  /** One object's queue: as its state says, without duplicates, and in order of priority. */
  ghost predicate QueueOk(w: Waits, o: nat) {
    && (Queue(w, o) != [] <==> HasWaiters(KindOf(w, o)))
    && NoDuplicates(Queue(w, o))
    && NonIncreasing(Priorities(w, Queue(w, o)))
  }

  /** A thread is in an object's queue exactly if it waits at the object, in the state of its queue. */
  ghost predicate MembersOk(st: map<nat, TsType>, w: Waits) {
    && (forall o, t {:trigger t in Queue(w, o)} :: t in Queue(w, o) ==> t != 0 && o != 0 && WaitsAt(st, w, t) == o)
    && (forall t :: Waiting(StateIn(st, t)) ==>
          t in Queue(w, WaitsAt(st, w, t)) && KindOf(w, WaitsAt(st, w, t)) == KindFor(StateIn(st, t)))
  }

  ghost predicate WaitInv(st: map<nat, TsType>, w: Waits) {
    (forall o :: QueueOk(w, o)) && MembersOk(st, w)
  }

  // ---------------------------------------------------------------- a thread starts to wait

  function PlaceIn(w: Waits, t: nat, q: seq<nat>): (k: nat)
    ensures k <= |q|
  {
    Place(Priorities(w, q), Prio(w, t))
  }

  /** The thread waits at the object, behind all of at least its priority. */
  function Enqueued(w: Waits, t: nat, o: nat, k: Kind): Waits {
    w.(queue := w.queue[o := InsertAt(Queue(w, o), PlaceIn(w, t, Queue(w, o)), t)],
       kind := w.kind[o := k],
       blockingObject := w.blockingObject[t := o])
  }

  /** The others keep their order, before and behind a thread that starts to wait. */
  lemma OrderAfterEnqueue(w: Waits, t: nat, o: nat, k: Kind)
    requires QueueOk(w, o)
    ensures var q, v, n := Queue(w, o), Enqueued(w, t, o, k), PlaceIn(w, t, Queue(w, o));
      && Queue(v, o) == q[..n] + [t] + q[n..]
      && (forall i :: 0 <= i < n ==> Prio(w, q[i]) >= Prio(w, t))
      && (forall i :: n <= i < |q| ==> Prio(w, q[i]) < Prio(w, t))
  {
    PlaceSplits(Priorities(w, Queue(w, o)), Prio(w, t));
    var q, n := Queue(w, o), PlaceIn(w, t, Queue(w, o));
    assert forall i :: 0 <= i < |q| ==> Priorities(w, q)[i] == Prio(w, q[i]);
  }

  /** A thread that starts to wait gets to the head exactly if nobody of at least its priority waits. */
  lemma HeadAfterEnqueue(w: Waits, t: nat, o: nat, k: Kind)
    requires QueueOk(w, o)
    ensures var q, v := Queue(w, o), Enqueued(w, t, o, k);
      && Queue(v, o) != []
      && Queue(v, o)[0] == if q == [] || Prio(w, q[0]) < Prio(w, t) then t else q[0]
  {
    OrderAfterEnqueue(w, t, o, k);
  }

  lemma InsertMembers<T>(q: seq<T>, k: nat, x: T)
    requires k <= |q|
    ensures forall y :: y in InsertAt(q, k, x) <==> y in q || y == x
  {
    assert q == q[..k] + q[k..];
  }

  lemma InsertNoDuplicates(q: seq<nat>, k: nat, x: nat)
    requires k <= |q| && NoDuplicates(q) && x !in q
    ensures NoDuplicates(InsertAt(q, k, x))
  {
  }

  lemma EnqueuedQueue(w: Waits, t: nat, o: nat, k: Kind)
    requires QueueOk(w, o) && HasWaiters(k) && t !in Queue(w, o)
    ensures QueueOk(Enqueued(w, t, o, k), o)
  {
    var q, v := Queue(w, o), Enqueued(w, t, o, k);
    var at := PlaceIn(w, t, q);
    InsertNoDuplicates(q, at, t);
    InsertOrdered(Priorities(w, q), Prio(w, t));
    assert Priorities(v, Queue(v, o)) == InsertAt(Priorities(w, q), at, Prio(w, t));
  }

  /** A thread that starts to wait, at an idle object or at one where such threads wait already. */
  lemma EnqueuedInv(st: map<nat, TsType>, w: Waits, t: nat, o: nat, s: TsType)
    requires WaitInv(st, w) && t != 0 && o != 0 && Waiting(s) && !Waiting(StateIn(st, t))
    requires KindOf(w, o) == KindFor(s) || KindOf(w, o) == IdleOf(KindFor(s))
    ensures WaitInv(st[t := s], Enqueued(w, t, o, KindFor(s)))
  {
    var k := KindFor(s);
    var st', v := st[t := s], Enqueued(w, t, o, k);
    NotWaiting(st, w, t);
    EnqueuedQueue(w, t, o, k);
    EnqueuedFields(st, w, t, o, s);
    hide Enqueued, Queue, KindOf, StateIn, WaitsAt, Priorities, NoDuplicates, Get;
    forall x | x != o ensures QueueOk(v, x) {
      assert QueueOk(w, x);
      SamePriorities(w, v, Queue(v, x));
    }
    assert QueueOk(w, o);
  }

  lemma SamePriorities(w: Waits, v: Waits, q: seq<nat>)
    requires v.prio == w.prio
    ensures Priorities(v, q) == Priorities(w, q)
  {
  }

  lemma NotWaiting(st: map<nat, TsType>, w: Waits, t: nat)
    requires MembersOk(st, w) && !Waiting(StateIn(st, t))
    ensures forall o :: t !in Queue(w, o)
  {
    forall o ensures t !in Queue(w, o) {
      if t in Queue(w, o) {
        assert false;
      }
    }
  }

  lemma EnqueuedFields(st: map<nat, TsType>, w: Waits, t: nat, o: nat, s: TsType)
    requires Waiting(s) && o != 0
    ensures var st', v := st[t := s], Enqueued(w, t, o, KindFor(s));
      && v.prio == w.prio
      && (forall x :: x != o ==> Queue(v, x) == Queue(w, x) && KindOf(v, x) == KindOf(w, x))
      && (forall y :: y in Queue(v, o) <==> y in Queue(w, o) || y == t)
      && KindOf(v, o) == KindFor(s)
      && (forall y :: StateIn(st', y) == if y == t then s else StateIn(st, y))
      && (forall y :: WaitsAt(st', v, y) == if y == t then o else WaitsAt(st, w, y))
  {
    InsertMembers(Queue(w, o), PlaceIn(w, t, Queue(w, o)), t);
  }

  // ---------------------------------------------------------------- a thread stops waiting

  function IndexOf(q: seq<nat>, t: nat): (k: nat)
    requires t in q
    ensures k < |q| && q[k] == t
  {
    if q[0] == t then 0 else 1 + IndexOf(q[1..], t)
  }

  /** The thread leaves the object's queue; with the last one the object falls idle. */
  function Dequeued(w: Waits, t: nat, o: nat): Waits
    requires t in Queue(w, o)
  {
    var q := RemoveAt(Queue(w, o), IndexOf(Queue(w, o), t));
    w.(queue := w.queue[o := q], kind := if q == [] then w.kind[o := IdleOf(KindOf(w, o))] else w.kind)
  }

  lemma RemoveMembers(q: seq<nat>, k: nat)
    requires k < |q| && NoDuplicates(q)
    ensures NoDuplicates(RemoveAt(q, k))
    ensures forall y :: y in RemoveAt(q, k) <==> y in q && y != q[k]
  {
    var r := RemoveAt(q, k);
    forall y | y in q && y != q[k] ensures y in r {
      var j :| 0 <= j < |q| && q[j] == y;
      assert r[if j < k then j else j - 1] == y;
    }
  }

  lemma DequeuedQueue(w: Waits, t: nat, o: nat)
    requires QueueOk(w, o) && t in Queue(w, o)
    ensures QueueOk(Dequeued(w, t, o), o)
  {
    var q, v := Queue(w, o), Dequeued(w, t, o);
    var k := IndexOf(q, t);
    RemoveMembers(q, k);
    RemoveOrdered(Priorities(w, q), k);
    assert Priorities(v, Queue(v, o)) == RemoveAt(Priorities(w, q), k);
  }

  lemma DequeuedFields(st: map<nat, TsType>, w: Waits, t: nat, o: nat, s: TsType)
    requires QueueOk(w, o) && t in Queue(w, o) && !Waiting(s)
    ensures var st', v := st[t := s], Dequeued(w, t, o);
      && v.prio == w.prio
      && (forall x :: x != o ==> Queue(v, x) == Queue(w, x) && KindOf(v, x) == KindOf(w, x))
      && (forall y :: y in Queue(v, o) <==> y in Queue(w, o) && y != t)
      && (Queue(v, o) != [] ==> KindOf(v, o) == KindOf(w, o))
      && (forall y :: StateIn(st', y) == if y == t then s else StateIn(st, y))
      && (forall y :: WaitsAt(st', v, y) == if y == t then 0 else WaitsAt(st, w, y))
  {
    RemoveMembers(Queue(w, o), IndexOf(Queue(w, o), t));
  }

  /** A thread that stops waiting, wherever it stands in the queue. */
  lemma DequeuedInv(st: map<nat, TsType>, w: Waits, t: nat, o: nat, s: TsType)
    requires WaitInv(st, w) && t in Queue(w, o) && !Waiting(s)
    ensures WaitInv(st[t := s], Dequeued(w, t, o))
  {
    var st', v := st[t := s], Dequeued(w, t, o);
    assert QueueOk(w, o);
    DequeuedQueue(w, t, o);
    DequeuedFields(st, w, t, o, s);
    OnlyThere(st, w, t, o);
    hide Dequeued, Queue, KindOf, StateIn, WaitsAt, Priorities, NoDuplicates, Get;
    forall x | x != o ensures QueueOk(v, x) {
      assert QueueOk(w, x);
      SamePriorities(w, v, Queue(v, x));
    }
  }

  lemma OnlyThere(st: map<nat, TsType>, w: Waits, t: nat, o: nat)
    requires MembersOk(st, w) && t in Queue(w, o)
    ensures forall x :: t in Queue(w, x) ==> x == o
    ensures WaitsAt(st, w, t) == o && Waiting(StateIn(st, t))
  {
  }

  /** Changing between states in which threads do not wait. */
  lemma StateInv(st: map<nat, TsType>, w: Waits, t: nat, s: TsType)
    requires WaitInv(st, w) && !Waiting(StateIn(st, t)) && !Waiting(s)
    ensures WaitInv(st[t := s], w)
  {
    var st' := st[t := s];
    assert forall y :: StateIn(st', y) == if y == t then s else StateIn(st, y);
    assert forall y :: WaitsAt(st', w, y) == WaitsAt(st, w, y);
    NotWaiting(st, w, t);
    assert forall o :: QueueOk(w, o);
    hide StateIn, WaitsAt, QueueOk, Queue, KindOf;
  }

  /** Changing the state of an object at which no thread waits. */
  lemma KindInv(st: map<nat, TsType>, w: Waits, o: nat, k: Kind)
    requires WaitInv(st, w) && !HasWaiters(KindOf(w, o)) && !HasWaiters(k)
    ensures WaitInv(st, w.(kind := w.kind[o := k]))
  {
    var v := w.(kind := w.kind[o := k]);
    assert QueueOk(w, o);
    assert forall x :: Queue(v, x) == Queue(w, x) && KindOf(v, x) == if x == o then k else KindOf(w, x);
    assert forall y :: WaitsAt(st, v, y) == WaitsAt(st, w, y);
    hide StateIn, WaitsAt, Queue, KindOf, Priorities, NoDuplicates;
    forall x ensures QueueOk(v, x) {
      assert QueueOk(w, x);
      SamePriorities(w, v, Queue(v, x));
    }
  }

  /** The first of a queue waits at the object in the queue's state. */
  lemma HeadWaits(st: map<nat, TsType>, w: Waits, o: nat)
    requires WaitInv(st, w) && HasWaiters(KindOf(w, o))
    ensures Queue(w, o) != []
    ensures forall t :: t in Queue(w, o) ==>
      t != 0 && o != 0 && Waiting(StateIn(st, t)) && KindFor(StateIn(st, t)) == KindOf(w, o) && WaitsAt(st, w, t) == o
  {
    assert QueueOk(w, o);
  }

  /** Taking the first of a queue. */
  lemma TakenFirst(w: Waits, o: nat)
    requires Queue(w, o) != []
    ensures var v := Dequeued(w, Queue(w, o)[0], o);
      && Queue(v, o) == Queue(w, o)[1..]
      && KindOf(v, o) == if |Queue(w, o)| == 1 then IdleOf(KindOf(w, o)) else KindOf(w, o)
  {
  }
}
