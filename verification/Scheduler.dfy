/**
  The scheduler: which thread runs when the kernel returns (kernel/src/kernel/thread.c,
  kernel/src/object/tcb.c).
 */
module Scheduler {
  import opened Words
  import opened Bitmaps
  import opened ReadyQueues

  datatype Action = ResumeCurrentThread | ChooseNewThread | SwitchTo(candidate: nat)

  /** What the scheduler knows of threads. A thread is schedulable if it can run and has a budget. */
  datatype Threads = Threads(prio: map<nat, nat>, dom: map<nat, nat>,
                             queued: map<nat, bool>, schedulable: map<nat, bool>)

  /** The threads and their queues at one moment. */
  datatype View = View(T: Threads, r: Ready)

  function PrioOf(T: Threads, t: nat): nat { if t in T.prio then T.prio[t] else 0 }
  function DomOf(T: Threads, t: nat): nat { if t in T.dom then T.dom[t] else 0 }
  predicate Queued(T: Threads, t: nat) { t in T.queued && T.queued[t] }
  predicate Schedulable(T: Threads, t: nat) { t in T.schedulable && T.schedulable[t] }

  /** A thread is in the queue of its domain and priority, once, exactly if its queued flag is set. */
  ghost predicate QueuesOk(T: Threads, r: Ready) {
    && (forall d: nat, p: nat, t {:trigger t in Q(r, d, p)} :: t in Q(r, d, p) ==>
          Queued(T, t) && DomOf(T, t) == d && PrioOf(T, t) == p)
    && (forall t: nat :: Queued(T, t) ==> t in Q(r, DomOf(T, t), PrioOf(T, t)) && Schedulable(T, t))
    && (forall d: nat, p: nat :: NoDuplicates(Q(r, d, p)))
  }

  ghost predicate NoDuplicates(q: seq<nat>) {
    forall i, j :: 0 <= i < j < |q| ==> q[i] != q[j]
  }

  ghost predicate PriosOk(lay: Layout, T: Threads) {
    forall t: nat :: PrioToL1Index(lay, PrioOf(T, t)) < lay.l2Size
  }

  ghost predicate Inv(lay: Layout, T: Threads, r: Ready) {
    BitsOk(lay, r) && QueuesOk(T, r) && PriosOk(lay, T)
  }

  function WithoutThread(q: seq<nat>, t: nat): (s: seq<nat>)
    ensures forall x :: x in s <==> x in q && x != t
  {
    if q == [] then [] else (if q[0] == t then [] else [q[0]]) + WithoutThread(q[1..], t)
  }

  /** Taking a thread out leaves all others in their order. */
  lemma {:induction false} WithoutAt(q: seq<nat>, k: nat)
    requires NoDuplicates(q) && k < |q|
    ensures WithoutThread(q, q[k]) == q[..k] + q[k + 1..]
  {
    if k == 0 {
      WithoutNone(q[1..], q[0]);
    } else {
      assert q[0] != q[k];
      WithoutAt(q[1..], k - 1);
    }
  }

  lemma {:induction false} WithoutNone(q: seq<nat>, t: nat)
    requires t !in q
    ensures WithoutThread(q, t) == q
  {
    if q != [] {
      WithoutNone(q[1..], t);
    }
  }

  lemma {:induction false} WithoutKeeps(q: seq<nat>, t: nat)
    requires NoDuplicates(q)
    ensures NoDuplicates(WithoutThread(q, t))
  {
    if q != [] {
      assert q[0] !in q[1..];
      WithoutKeeps(q[1..], t);
    }
  }

  // ---------------------------------------------------------------- one thread joins or leaves a queue

  function Joined(lay: Layout, T: Threads, r: Ready, t: nat, q: seq<nat>): Ready
    requires PrioToL1Index(lay, PrioOf(T, t)) < lay.l2Size
  {
    var d, p := DomOf(T, t), PrioOf(T, t);
    if Q(r, d, p) == [] || q == [] then WithQueue(lay, r, d, p, q) else r.(queue := r.queue[(d, p) := q])
  }

  function Flagged(T: Threads, t: nat, b: bool): Threads {
    T.(queued := T.queued[t := b])
  }

  lemma JoinedQueues(lay: Layout, T: Threads, r: Ready, t: nat, q: seq<nat>)
    requires BitsOk(lay, r) && PriosOk(lay, T)
    ensures BitsOk(lay, Joined(lay, T, r, t, q))
    ensures var s := Joined(lay, T, r, t, q);
      forall d: nat, p: nat :: Q(s, d, p) == if d == DomOf(T, t) && p == PrioOf(T, t) then q else Q(r, d, p)
  {
    var d, p := DomOf(T, t), PrioOf(T, t);
    if Q(r, d, p) == [] || q == [] {
      WithQueueOk(lay, r, d, p, q);
      WithQueueFields(lay, r, d, p, q);
    } else {
      SameBits(lay, r, d, p, q);
    }
  }

  /** A thread's flag and its place in its queue change together. */
  lemma QueuesStep(T: Threads, U: Threads, r: Ready, s: Ready, t: nat, b: bool, q: seq<nat>)
    requires QueuesOk(T, r) && (b ==> Schedulable(T, t)) && NoDuplicates(q)
    requires forall x :: x in q <==> (x in Q(r, DomOf(T, t), PrioOf(T, t)) && x != t) || (b && x == t)
    requires forall x: nat :: Queued(U, x) <==> if x == t then b else Queued(T, x)
    requires forall x: nat :: PrioOf(U, x) == PrioOf(T, x) && DomOf(U, x) == DomOf(T, x)
    requires forall x: nat :: Schedulable(U, x) <==> Schedulable(T, x)
    requires forall d: nat, p: nat :: Q(s, d, p) == if d == DomOf(T, t) && p == PrioOf(T, t) then q else Q(r, d, p)
    ensures QueuesOk(U, s)
  {
    hide Queued, Schedulable, DomOf, PrioOf, Q, NoDuplicates;
    forall d: nat, p: nat, x | x in Q(s, d, p) ensures Queued(U, x) && DomOf(U, x) == d && PrioOf(U, x) == p {
      if !(d == DomOf(T, t) && p == PrioOf(T, t)) {
        assert x in Q(r, d, p);
      }
    }
  }

  lemma SamePrios(lay: Layout, T: Threads, t: nat, b: bool)
    requires PriosOk(lay, T)
    ensures PriosOk(lay, Flagged(T, t, b))
  {
    FlaggedFields(T, t, b);
    assert forall x: nat :: PrioOf(Flagged(T, t, b), x) == PrioOf(T, x);
  }

  /** A thread is added to its queue, at either end. */
  lemma EnqueuedInv(lay: Layout, T: Threads, r: Ready, t: nat, q: seq<nat>)
    requires Inv(lay, T, r) && !Queued(T, t) && Schedulable(T, t)
    requires var had := Q(r, DomOf(T, t), PrioOf(T, t)); q == [t] + had || q == had + [t]
    ensures Inv(lay, Flagged(T, t, true), Joined(lay, T, r, t, q))
  {
    JoinedQueues(lay, T, r, t, q);
    FlaggedFields(T, t, true);
    NotIn(T, r, t);
    SamePrios(lay, T, t, true);
    assert NoDuplicates(q) by {
      assert NoDuplicates(Q(r, DomOf(T, t), PrioOf(T, t)));
    }
    hide BitsOk, Joined, Flagged, QueuesOk, Q, NoDuplicates, PriosOk;
    QueuesStep(T, Flagged(T, t, true), r, Joined(lay, T, r, t, q), t, true, q);
  }

  lemma NotIn(T: Threads, r: Ready, t: nat)
    requires QueuesOk(T, r) && !Queued(T, t)
    ensures forall d: nat, p: nat :: t !in Q(r, d, p)
  {
  }

  lemma FlaggedFields(T: Threads, t: nat, b: bool)
    ensures var U := Flagged(T, t, b);
      && (forall x: nat :: Queued(U, x) <==> if x == t then b else Queued(T, x))
      && (forall x: nat :: PrioOf(U, x) == PrioOf(T, x) && DomOf(U, x) == DomOf(T, x))
      && (forall x: nat :: Schedulable(U, x) <==> Schedulable(T, x))
  {
  }

  /** A thread is taken out of its queue, wherever it stands. */
  lemma DequeuedInv(lay: Layout, T: Threads, r: Ready, t: nat)
    requires Inv(lay, T, r) && Queued(T, t)
    ensures var q := WithoutThread(Q(r, DomOf(T, t), PrioOf(T, t)), t);
      Inv(lay, Flagged(T, t, false), Joined(lay, T, r, t, q))
  {
    var had := Q(r, DomOf(T, t), PrioOf(T, t));
    var q := WithoutThread(had, t);
    JoinedQueues(lay, T, r, t, q);
    FlaggedFields(T, t, false);
    SamePrios(lay, T, t, false);
    assert NoDuplicates(had);
    WithoutKeeps(had, t);
    hide BitsOk, Joined, Flagged, QueuesOk, Q, NoDuplicates, PriosOk, WithoutThread;
    QueuesStep(T, Flagged(T, t, false), r, Joined(lay, T, r, t, q), t, false, q);
  }

  /** No thread of the current domain that is queued has a higher priority than `t`. */
  ghost predicate Leads(T: Threads, r: Ready, dom: nat, t: nat) {
    IsTop(r, dom, PrioOf(T, t))
  }

  class Node {
    const lay: Layout
    const idleThread: nat
    const numDomains: nat
    var T: Threads
    var r: Ready
    var curThread: nat
    var action: Action
    var curDomain: nat
    var domainTime: nat

    constructor (lay: Layout, idleThread: nat, numDomains: nat, T: Threads)
      requires numDomains > 0 && PriosOk(lay, T) && !Schedulable(T, idleThread)
      requires forall t: nat :: !Queued(T, t)
      ensures Valid()
    {
      this.lay, this.idleThread, this.numDomains, this.T := lay, idleThread, numDomains, T;
      r, curThread, action, curDomain, domainTime := Ready(map[], map[], map[]), idleThread, ChooseNewThread, 0, 0;
      new;
      forall d: nat, p: nat | PrioToL1Index(lay, p) < lay.l2Size
        ensures !TestBit(L2(r, d, InvertL1Index(lay, PrioToL1Index(lay, p))), L2Bit(lay, p))
      {
        NoBits(L2Bit(lay, p));
      }
      forall i: nat ensures !TestBit(0, i) {
        NoBits(i);
      }
    }

    /** The running thread is the right one: the idle thread only if no thread of the domain is queued. */
    ghost predicate RightChoice()
      reads this
    {
      if curThread == idleThread then forall p: nat :: Q(r, curDomain, p) == []
      else Schedulable(T, curThread) && DomOf(T, curThread) == curDomain && Leads(T, r, curDomain, curThread)
    }

    ghost predicate Valid()
      reads this
    {
      && Inv(lay, T, r) && !Schedulable(T, idleThread) && curDomain < numDomains
      && match action
         case ResumeCurrentThread => RightChoice()
         case ChooseNewThread => true
         case SwitchTo(c) =>
           && Schedulable(T, c) && !Queued(T, c) && DomOf(T, c) == curDomain && c != curThread
           && (curThread != idleThread ==> Leads(T, r, curDomain, curThread))
    }

    /** The current thread can go on, and no thread that can run instead has a higher priority. */
    ghost predicate GoesOn()
      reads this
    {
      && Schedulable(T, curThread) && !Queued(T, curThread) && DomOf(T, curThread) == curDomain
      && Leads(T, r, curDomain, curThread)
      && (action.SwitchTo? ==> PrioOf(T, action.candidate) <= PrioOf(T, curThread))
    }

    /** The threads that the scheduler must not lose. */
    ghost predicate Kept(t: nat)
      reads this
    {
      Queued(T, t) || (t == curThread && Schedulable(T, t)) || action == SwitchTo(t)
    }

    /** The domain whose queues are searched: with one domain it is domain 0. */
    function SearchDomain(): nat
      reads this
    {
      if numDomains > 1 then curDomain else 0
    }

    // -------------------------------------------------------------- queues

    method AddToBitmap(d: nat, p: nat)
      requires PrioToL1Index(lay, p) < lay.l2Size
      modifies this`r
      ensures var i, j := PrioToL1Index(lay, p), L2Bit(lay, p);
        var at := (d, InvertL1Index(lay, i));
        r == old(r).(l1 := old(r).l1[d := SetBit(L1(old(r), d), i)],
                     l2 := old(r).l2[at := SetBit(L2(old(r), d, at.1), j)])
    {
      var l1index := PrioToL1Index(lay, p);
      var inverted := InvertL1Index(lay, l1index);
      r := r.(l1 := r.l1[d := SetBit(L1(r, d), l1index)]);
      r := r.(l2 := r.l2[(d, inverted) := SetBit(L2(r, d, inverted), L2Bit(lay, p))]);
    }

    method RemoveFromBitmap(d: nat, p: nat)
      requires PrioToL1Index(lay, p) < lay.l2Size
      modifies this`r
      ensures var i, j := PrioToL1Index(lay, p), L2Bit(lay, p);
        var at := (d, InvertL1Index(lay, i));
        var cleared := ClearBit(L2(old(r), d, at.1), j);
        r == old(r).(l1 := if cleared == 0 then old(r).l1[d := ClearBit(L1(old(r), d), i)] else old(r).l1,
                     l2 := old(r).l2[at := cleared])
    {
      var l1index := PrioToL1Index(lay, p);
      var inverted := InvertL1Index(lay, l1index);
      var cleared := ClearBit(L2(r, d, inverted), L2Bit(lay, p));
      r := r.(l2 := r.l2[(d, inverted) := cleared]);
      if cleared == 0 {
        r := r.(l1 := r.l1[d := ClearBit(L1(r, d), l1index)]);
      }
    }

    /** Puts a thread at the front or at the back of its queue, unless it is queued. */
    method Insert(t: nat, atFront: bool)
      requires Inv(lay, T, r) && Schedulable(T, t)
      modifies this`T, this`r
      ensures Inv(lay, T, r)
      ensures old(Queued(T, t)) ==> T == old(T) && r == old(r)
      ensures !old(Queued(T, t)) ==>
        var had := Q(old(r), DomOf(old(T), t), PrioOf(old(T), t));
        && T == Flagged(old(T), t, true)
        && r == Joined(lay, old(T), old(r), t, if atFront then [t] + had else had + [t])
    {
      if !Queued(T, t) {
        var dom, prio := DomOf(T, t), PrioOf(T, t);
        var queue := Q(r, dom, prio);
        EnqueuedInv(lay, T, r, t, if atFront then [t] + queue else queue + [t]);
        hide BitsOk, QueuesOk;
        if queue == [] {
          AddToBitmap(dom, prio);
        }
        r := r.(queue := r.queue[(dom, prio) := if atFront then [t] + queue else queue + [t]]);
        T := T.(queued := T.queued[t := true]);
      }
    }

    method TcbSchedEnqueue(t: nat)
      requires Inv(lay, T, r) && Schedulable(T, t)
      modifies this`T, this`r
      ensures Inv(lay, T, r) && EnqueuedOne(old(T), old(r), T, r, t, true)
    {
      InsertedOne(lay, T, r, t, true);
      Insert(t, true);
    }

    method TcbSchedAppend(t: nat)
      requires Inv(lay, T, r) && Schedulable(T, t)
      modifies this`T, this`r
      ensures Inv(lay, T, r) && EnqueuedOne(old(T), old(r), T, r, t, false)
    {
      InsertedOne(lay, T, r, t, false);
      Insert(t, false);
    }

    method TcbSchedDequeue(t: nat)
      requires Inv(lay, T, r)
      modifies this`T, this`r
      ensures Inv(lay, T, r) && DequeuedOne(old(T), old(r), T, r, t)
    {
      if Queued(T, t) {
        var dom, prio := DomOf(T, t), PrioOf(T, t);
        var newQueue := WithoutThread(Q(r, dom, prio), t);
        DequeuedInv(lay, T, r, t);
        RemovedOne(lay, T, r, t);
        hide BitsOk, QueuesOk, DequeuedOne;
        r := r.(queue := r.queue[(dom, prio) := newQueue]);
        T := T.(queued := T.queued[t := false]);
        if newQueue == [] {
          RemoveFromBitmap(dom, prio);
        }
      }
    }

    // -------------------------------------------------------------- choosing a thread

    method SwitchToThread(t: nat)
      requires Inv(lay, T, r)
      modifies this`T, this`r, this`curThread
      ensures Inv(lay, T, r) && curThread == t && DequeuedOne(old(T), old(r), T, r, t)
    {
      TcbSchedDequeue(t);
      curThread := t;
    }

    /** The first thread of the highest priority, or the idle thread if none is queued. */
    method ChooseThread()
      requires Inv(lay, T, r) && curDomain < numDomains && !Schedulable(T, idleThread)
      modifies this`T, this`r, this`curThread
      ensures Inv(lay, T, r) && RightChoice()
      ensures Chosen(View(old(T), old(r)), View(T, r), curDomain, idleThread, curThread)
      ensures curThread != idleThread ==> Queued(old(T), curThread) && DequeuedOne(old(T), old(r), T, r, curThread)
      ensures curThread == idleThread ==> T == old(T) && r == old(r)
    {
      var dom := if numDomains > 1 then curDomain else 0;
      NothingQueued(lay, r, dom);
      if L1(r, dom) != 0 {
        var prio := GetHighestPrio(lay, r, dom);
        var thread := Q(r, dom, prio)[0];
        InQueue(T, r, dom, prio);
        ghost var T0, r0 := T, r;
        hide BitsOk, QueuesOk, PriosOk, DequeuedOne, IsTop, Q;
        SwitchToThread(thread);
        StillTop(T0, r0, T, r, dom, thread);
      } else {
        curThread := idleThread;
      }
    }

    method ScheduleChooseNewThread(nextDomain: nat, nextDomainTime: nat)
      requires Inv(lay, T, r) && curDomain < numDomains && nextDomain < numDomains && !Schedulable(T, idleThread)
      modifies this`T, this`r, this`curThread, this`curDomain, this`domainTime
      ensures Inv(lay, T, r) && RightChoice() && curDomain < numDomains
      ensures curDomain == (if old(domainTime) == 0 then nextDomain else old(curDomain))
      ensures Chosen(View(old(T), old(r)), View(T, r), curDomain, idleThread, curThread)
      ensures curThread != idleThread ==> Queued(old(T), curThread) && DequeuedOne(old(T), old(r), T, r, curThread)
      ensures curThread == idleThread ==> T == old(T) && r == old(r)
    {
      if domainTime == 0 {
        curDomain := nextDomain;
        domainTime := nextDomainTime;
      }
      ChooseThread();
    }

    /**
      Decides which thread runs next. Whatever the scheduler action was, the thread is the right
      choice afterwards, and every thread that could run is still queued or is the one that runs. A
      candidate runs at once exactly if no queued thread has a higher priority and the current thread,
      if it can go on, has a lower one. Otherwise the current thread goes to the front of its queue and
      the candidate to that of its own, but behind a current thread of its priority, and the first of
      the highest queue runs. So the current thread goes on unless its domain's time is over or a
      thread of higher priority can run.
     */
    method Schedule(nextDomain: nat, nextDomainTime: nat) returns (ghost lined: View, ghost mid: View)
      requires Valid() && nextDomain < numDomains
      modifies this`T, this`r, this`curThread, this`action, this`curDomain, this`domainTime
      ensures Valid() && action.ResumeCurrentThread? && RightChoice()
      ensures forall t: nat :: Kept(t) <==> old(Kept(t))
      ensures old(action).ResumeCurrentThread? ==>
        T == old(T) && r == old(r) && curThread == old(curThread) && curDomain == old(curDomain)
      ensures !old(action).ResumeCurrentThread? ==>
        var cur, run := old(curThread), old(Schedulable(T, curThread));
        && (if run then EnqueuedOne(old(T), old(r), lined.T, lined.r, cur, true) else lined == View(old(T), old(r)))
        && if old(action).SwitchTo? then
             Tried(lined, mid, View(T, r), old(curDomain), curDomain, cur, run, old(action).candidate, idleThread,
                   curThread)
           else mid == lined && Chosen(mid, View(T, r), curDomain, idleThread, curThread)
      ensures curDomain in {old(curDomain), nextDomain} && (old(domainTime) != 0 ==> curDomain == old(curDomain))
      ensures !old(action).ResumeCurrentThread? && old(domainTime) != 0 && old(GoesOn()) ==> curThread == old(curThread)
    {
      hide BitsOk, QueuesOk, PriosOk, Chosen, Tried, Heads, QueueWith, QueueWithout, IsTop;
      hide PrioOf, DomOf, Queued, Schedulable, Q;
      lined := View(T, r);
      mid := lined;
      if !action.ResumeCurrentThread? {
        ghost var before, cur := View(T, r), curThread;
        ghost var stays := GoesOn() && domainTime != 0;
        var wasRunnable := false;
        if Schedulable(T, curThread) {
          wasRunnable := true;
          TcbSchedEnqueue(curThread);
          lined := View(T, r);
          EnqueuedLeads(before, lined, cur, true, curDomain, cur);
          if stays {
            CurrentHeads(before, lined, curDomain, cur);
          }
        }
        if action.ChooseNewThread? {
          mid := lined;
          ScheduleChooseNewThread(nextDomain, nextDomainTime);
          if stays {
            ChosenIsHead(mid, View(T, r), curDomain, idleThread, cur, curThread);
          }
        } else {
          mid := TryCandidate(action.candidate, wasRunnable, nextDomain, nextDomainTime);
          if stays {
            TriedIsHead(lined, mid, View(T, r), curDomain, cur, action.candidate, idleThread, curThread);
          }
        }
      }
      action := ResumeCurrentThread;
    }

    /** The candidate runs if nothing better is queued; otherwise it is queued too. */
    method TryCandidate(candidate: nat, wasRunnable: bool, nextDomain: nat, nextDomainTime: nat)
      returns (ghost mid: View)
      requires Inv(lay, T, r) && curDomain < numDomains && nextDomain < numDomains && !Schedulable(T, idleThread)
      requires Schedulable(T, candidate) && !Queued(T, candidate) && DomOf(T, candidate) == curDomain
      requires curThread != idleThread ==> Leads(T, r, curDomain, curThread)
      requires wasRunnable ==> Schedulable(T, curThread)
      modifies this`T, this`r, this`curThread, this`curDomain, this`domainTime
      ensures Inv(lay, T, r) && curDomain < numDomains && RightChoice()
      ensures Alike(old(T), T)
      ensures forall t: nat ::
        Queued(T, t) || (t == curThread && t != idleThread) <==> old(Queued(T, t)) || t == candidate
      ensures Tried(View(old(T), old(r)), mid, View(T, r), old(curDomain), curDomain, old(curThread), wasRunnable,
                    candidate, idleThread, curThread)
      ensures curDomain in {old(curDomain), nextDomain} && (old(domainTime) != 0 ==> curDomain == old(curDomain))
    {
      hide BitsOk, QueuesOk, PriosOk, Chosen, QueueWith, QueueWithout;
      mid := View(T, r);
      var fastfail := curThread == idleThread || PrioOf(T, candidate) < PrioOf(T, curThread);
      var highest := IsHighestPrio(lay, r, curDomain, PrioOf(T, candidate));
      if fastfail && !highest {
        TcbSchedEnqueue(candidate);
        mid := View(T, r);
        ScheduleChooseNewThread(nextDomain, nextDomainTime);
      } else if wasRunnable && PrioOf(T, candidate) == PrioOf(T, curThread) {
        TcbSchedAppend(candidate);
        mid := View(T, r);
        ScheduleChooseNewThread(nextDomain, nextDomainTime);
      } else {
        ghost var v := View(T, r);
        SwitchToThread(candidate);
        StillTop(v.T, v.r, T, r, curDomain, candidate);
      }
    }

    // -------------------------------------------------------------- what asks for a new choice

    method RescheduleRequired()
      requires Inv(lay, T, r) && !Schedulable(T, idleThread) && curDomain < numDomains
      requires action.SwitchTo? ==> Schedulable(T, action.candidate)
      modifies this`T, this`r, this`action
      ensures Valid() && action.ChooseNewThread?
      ensures forall t: nat :: Kept(t) <==> old(Kept(t))
      ensures Alike(old(T), T)
      ensures CandidateQueued(old(action), View(old(T), old(r)), View(T, r))
    {
      hide BitsOk, QueuesOk, PriosOk;
      if !action.ResumeCurrentThread? && !action.ChooseNewThread? && Schedulable(T, action.candidate) {
        TcbSchedEnqueue(action.candidate);
      }
      action := ChooseNewThread;
    }

    /**
      A thread that has become able to run becomes the candidate, if it is the first. It is eligible
      if it has a scheduling context and is not in the release queue; any other is skipped.
     */
    method PossibleSwitchTo(target: nat, eligible: bool) returns (ghost mid: View)
      requires Valid()
      requires eligible ==>
        Schedulable(T, target) && !Queued(T, target) && target != curThread && action != SwitchTo(target)
      modifies this`T, this`r, this`action
      ensures Valid()
      ensures forall t: nat :: Kept(t) <==> old(Kept(t)) || (eligible && t == target)
      ensures !eligible ==> T == old(T) && r == old(r) && action == old(action)
      ensures eligible && old(DomOf(T, target)) != curDomain ==>
        action == old(action) && EnqueuedOne(old(T), old(r), T, r, target, true)
      ensures eligible && old(DomOf(T, target)) == curDomain ==>
        if old(action).ResumeCurrentThread? then action == SwitchTo(target) && T == old(T) && r == old(r)
        else
          && action == ChooseNewThread && CandidateQueued(old(action), View(old(T), old(r)), mid)
          && EnqueuedOne(mid.T, mid.r, T, r, target, true)
    {
      mid := View(T, r);
      if !eligible {
        return;
      }
      hide BitsOk, QueuesOk, PriosOk;
      if curDomain != DomOf(T, target) {
        ghost var T0, r0 := T, r;
        TcbSchedEnqueue(target);
        OtherDomain(T0, r0, T, r, curDomain, target);
      } else if !action.ResumeCurrentThread? {
        RescheduleRequired();
        mid := View(T, r);
        TcbSchedEnqueue(target);
      } else {
        action := SwitchTo(target);
      }
    }

    /** A thread that is not queued changes its state; the running one may not be able to go on. */
    method SetSchedulable(t: nat, b: bool)
      requires Valid() && t != idleThread && !Queued(T, t) && action != SwitchTo(t)
      modifies this`T, this`action
      ensures Valid() && T == old(T).(schedulable := old(T).schedulable[t := b])
      ensures action ==
        if t == curThread && old(action).ResumeCurrentThread? && !b then ChooseNewThread else old(action)
    {
      ghost var U := T.(schedulable := T.schedulable[t := b]);
      assert forall x: nat ::
        Queued(U, x) == Queued(T, x) && PrioOf(U, x) == PrioOf(T, x) && DomOf(U, x) == DomOf(T, x);
      assert forall x: nat :: Schedulable(U, x) == if x == t then b else Schedulable(T, x);
      hide Queued, PrioOf, DomOf, Schedulable, Q, BitsOk;
      T := T.(schedulable := T.schedulable[t := b]);
      if t == curThread && action.ResumeCurrentThread? && !b {
        action := ChooseNewThread;
      }
    }

    /** Stops a thread: it leaves its queue first, and the running one cannot go on. */
    method Suspend(t: nat)
      requires Valid() && t != idleThread && action != SwitchTo(t)
      modifies this`T, this`r, this`action
      ensures Valid() && !Queued(T, t) && !Schedulable(T, t)
      ensures forall x: nat :: Kept(x) <==> x != t && old(Kept(x))
      ensures forall x: nat :: x != t ==> (Schedulable(T, x) <==> old(Schedulable(T, x)))
      ensures forall d: nat, p: nat :: Q(r, d, p) == QueueWithout(old(T), Q(old(r), d, p), t, d, p)
      ensures action == if t == curThread && old(action).ResumeCurrentThread? then ChooseNewThread else old(action)
    {
      Unqueue(t);
      SetSchedulable(t, false);
    }

    method Unqueue(t: nat)
      requires Valid() && action != SwitchTo(t)
      modifies this`T, this`r
      ensures Valid() && DequeuedOne(old(T), old(r), T, r, t)
    {
      hide BitsOk, QueuesOk, PriosOk;
      TcbSchedDequeue(t);
      assert forall d: nat, x: nat :: old(IsTop(r, d, PrioOf(T, x))) ==> IsTop(r, d, PrioOf(T, x));
    }

    /** A new priority: a thread in a queue moves to another, and the choice is made again. */
    method SetPriority(t: nat, prio: nat) returns (ghost mid: View)
      requires Valid() && t != idleThread && PrioToL1Index(lay, prio) < lay.l2Size
      requires t == curThread ==> Schedulable(T, t)
      modifies this`T, this`r, this`action
      ensures Valid() && PrioOf(T, t) == prio
      ensures forall x: nat :: x != t ==> PrioOf(T, x) == old(PrioOf(T, x))
      ensures forall x: nat :: Kept(x) <==> old(Kept(x))
      ensures if old(Queued(T, t)) || t == curThread then
          && action == ChooseNewThread && Requeued(View(old(T), old(r)), mid, t, prio)
          && CandidateQueued(old(action), mid, View(T, r))
        else r == old(r) && action == old(action)
    {
      hide BitsOk, QueuesOk, PriosOk;
      mid := View(T, r);
      if Queued(T, t) || t == curThread {
        QueuedCanRun(lay, T, r, t);
        Requeue(t, prio);
        mid := View(T, r);
        RescheduleRequired();
      } else {
        NewPriority(lay, T, r, t, prio);
        WithPrioFields(T, t, prio);
        T := WithPrio(T, t, prio);
      }
    }

    method Requeue(t: nat, prio: nat)
      requires Inv(lay, T, r) && Schedulable(T, t) && PrioToL1Index(lay, prio) < lay.l2Size
      modifies this`T, this`r
      ensures Inv(lay, T, r) && PrioOf(T, t) == prio
      ensures forall x: nat :: x != t ==> PrioOf(T, x) == old(PrioOf(T, x))
      ensures forall x: nat :: DomOf(T, x) == old(DomOf(T, x)) && Schedulable(T, x) == old(Schedulable(T, x))
      ensures forall x: nat :: Queued(T, x) <==> x == t || old(Queued(T, x))
      ensures Requeued(View(old(T), old(r)), View(T, r), t, prio)
    {
      hide BitsOk, QueuesOk, PriosOk, Q, IsTop;
      TcbSchedDequeue(t);
      NewPriority(lay, T, r, t, prio);
      WithPrioFields(T, t, prio);
      hide WithPrio, PrioOf, DomOf, Queued, Schedulable;
      T := WithPrio(T, t, prio);
      TcbSchedEnqueue(t);
    }
  }

  /** The queue of a domain and priority once a thread has joined its own, at the front or at the back. */
  function QueueWith(T: Threads, q: seq<nat>, t: nat, atFront: bool, d: nat, p: nat): seq<nat> {
    if d != DomOf(T, t) || p != PrioOf(T, t) || Queued(T, t) then q else if atFront then [t] + q else q + [t]
  }

  /** The queue of a domain and priority once a thread has left its own. */
  function QueueWithout(T: Threads, q: seq<nat>, t: nat, d: nat, p: nat): seq<nat> {
    if d != DomOf(T, t) || p != PrioOf(T, t) || !Queued(T, t) then q else WithoutThread(q, t)
  }

  /** A thread has joined its queue at one end, if it was not there; every other queue is as it was. */
  ghost predicate EnqueuedOne(T: Threads, r: Ready, U: Threads, s: Ready, t: nat, atFront: bool) {
    && (forall x: nat :: Queued(U, x) <==> x == t || Queued(T, x))
    && Alike(T, U)
    && (forall d: nat, p: nat :: Q(s, d, p) == QueueWith(T, Q(r, d, p), t, atFront, d, p))
  }

  /** A thread has left its queue, if it was there; the others keep their order, and every other queue is as it was. */
  ghost predicate DequeuedOne(T: Threads, r: Ready, U: Threads, s: Ready, t: nat) {
    && (forall x: nat :: Queued(U, x) <==> x != t && Queued(T, x))
    && Alike(T, U)
    && (forall d: nat, p: nat :: Q(s, d, p) == QueueWithout(T, Q(r, d, p), t, d, p))
  }

  /** A pending candidate has gone to the front of its queue. */
  ghost predicate CandidateQueued(action: Action, v: View, w: View) {
    if action.SwitchTo? then EnqueuedOne(v.T, v.r, w.T, w.r, action.candidate, true) else w == v
  }

  /** The thread has left its queue for the front of the queue of its new priority. */
  ghost predicate Requeued(v: View, w: View, t: nat, prio: nat) {
    forall d: nat, p: nat ::
      var rest := QueueWithout(v.T, Q(v.r, d, p), t, d, p);
      Q(w.r, d, p) == if d == DomOf(v.T, t) && p == prio then [t] + rest else rest
  }

  /** The thread is the first of the highest queue of the domain. */
  ghost predicate Heads(v: View, dom: nat, t: nat) {
    var q := Q(v.r, dom, PrioOf(v.T, t));
    q != [] && q[0] == t && DomOf(v.T, t) == dom && IsTop(v.r, dom, PrioOf(v.T, t))
  }

  /** The first of the highest queue has been taken, or the idle thread, if nothing is queued. */
  ghost predicate Chosen(v: View, w: View, dom: nat, idle: nat, t: nat) {
    if t == idle then w == v && forall p: nat :: Q(v.r, dom, p) == []
    else Heads(v, dom, t) && DequeuedOne(v.T, v.r, w.T, w.r, t)
  }

  /** The candidate is better than all that is queued, and not just as good as a current thread that can go on. */
  ghost predicate RunsAtOnce(v: View, dom: nat, cur: nat, run: bool, c: nat) {
    IsTop(v.r, dom, PrioOf(v.T, c)) && !(run && PrioOf(v.T, c) == PrioOf(v.T, cur))
  }

  /** What becomes of a candidate: it runs at once, or is queued before the choice from the queues is made. */
  ghost predicate Tried(v: View, mid: View, w: View, dom: nat, newDom: nat, cur: nat, run: bool, c: nat, idle: nat,
                        t: nat)
  {
    if RunsAtOnce(v, dom, cur, run, c) then t == c && newDom == dom && DequeuedOne(v.T, v.r, w.T, w.r, c)
    else
      && EnqueuedOne(v.T, v.r, mid.T, mid.r, c, !(run && PrioOf(v.T, c) == PrioOf(v.T, cur)))
      && Chosen(mid, w, newDom, idle, t)
  }

  lemma CurrentHeads(v: View, w: View, dom: nat, cur: nat)
    requires EnqueuedOne(v.T, v.r, w.T, w.r, cur, true) && !Queued(v.T, cur)
    requires DomOf(v.T, cur) == dom && Leads(v.T, v.r, dom, cur)
    ensures Heads(w, dom, cur) && Queued(w.T, cur) && PrioOf(w.T, cur) == PrioOf(v.T, cur)
  {
  }

  lemma EnqueuedLeads(v: View, w: View, t: nat, atFront: bool, dom: nat, x: nat)
    requires EnqueuedOne(v.T, v.r, w.T, w.r, t, atFront) && PrioOf(v.T, t) <= PrioOf(v.T, x)
    ensures Leads(v.T, v.r, dom, x) ==> Leads(w.T, w.r, dom, x)
  {
  }

  lemma ChosenIsHead(v: View, w: View, dom: nat, idle: nat, cur: nat, t: nat)
    requires Heads(v, dom, cur) && Chosen(v, w, dom, idle, t)
    ensures t == cur
  {
    assert PrioOf(v.T, t) == PrioOf(v.T, cur);
  }

  lemma TriedIsHead(v: View, mid: View, w: View, dom: nat, cur: nat, c: nat, idle: nat, t: nat)
    requires Heads(v, dom, cur) && Tried(v, mid, w, dom, dom, cur, true, c, idle, t)
    requires c != cur && !Queued(v.T, c) && PrioOf(v.T, c) <= PrioOf(v.T, cur)
    ensures t == cur
  {
    assert PrioOf(v.T, c) < PrioOf(v.T, cur) ==> !IsTop(v.r, dom, PrioOf(v.T, c));
    assert Heads(mid, dom, cur);
    ChosenIsHead(mid, w, dom, idle, cur, t);
  }

  ghost predicate Alike(T: Threads, U: Threads) {
    forall x: nat :: PrioOf(U, x) == PrioOf(T, x) && DomOf(U, x) == DomOf(T, x)
                     && (Schedulable(U, x) <==> Schedulable(T, x))
  }

  lemma InsertedOne(lay: Layout, T: Threads, r: Ready, t: nat, atFront: bool)
    requires Inv(lay, T, r) && Schedulable(T, t)
    ensures if Queued(T, t) then EnqueuedOne(T, r, T, r, t, atFront) else
      var had := Q(r, DomOf(T, t), PrioOf(T, t));
      EnqueuedOne(T, r, Flagged(T, t, true), Joined(lay, T, r, t, if atFront then [t] + had else had + [t]), t, atFront)
  {
    if !Queued(T, t) {
      var had := Q(r, DomOf(T, t), PrioOf(T, t));
      JoinedQueues(lay, T, r, t, if atFront then [t] + had else had + [t]);
      FlaggedFields(T, t, true);
      hide Joined, Flagged, BitsOk, QueuesOk, Queued, Q, PrioOf, DomOf, Schedulable;
    }
  }

  lemma RemovedOne(lay: Layout, T: Threads, r: Ready, t: nat)
    requires Inv(lay, T, r) && Queued(T, t)
    ensures var q := WithoutThread(Q(r, DomOf(T, t), PrioOf(T, t)), t);
      DequeuedOne(T, r, Flagged(T, t, false), Joined(lay, T, r, t, q), t)
  {
    JoinedQueues(lay, T, r, t, WithoutThread(Q(r, DomOf(T, t), PrioOf(T, t)), t));
    FlaggedFields(T, t, false);
    hide Joined, Flagged, BitsOk, QueuesOk, Queued, Q, PrioOf, DomOf, Schedulable;
  }

  lemma InQueue(T: Threads, r: Ready, d: nat, p: nat)
    requires QueuesOk(T, r) && Q(r, d, p) != []
    ensures var t := Q(r, d, p)[0]; Queued(T, t) && DomOf(T, t) == d && PrioOf(T, t) == p && Schedulable(T, t)
  {
    assert Q(r, d, p)[0] in Q(r, d, p);
  }

  /** Taking out a thread of the highest priority leaves none above it. */
  lemma StillTop(T: Threads, r: Ready, U: Threads, s: Ready, d: nat, t: nat)
    requires DequeuedOne(T, r, U, s, t) && IsTop(r, d, PrioOf(T, t))
    ensures Leads(U, s, d, t) && DomOf(U, t) == DomOf(T, t) && (Schedulable(U, t) <==> Schedulable(T, t))
    ensures forall x: nat :: Schedulable(U, x) <==> Schedulable(T, x)
  {
  }

  lemma OtherDomain(T: Threads, r: Ready, U: Threads, s: Ready, d: nat, t: nat)
    requires EnqueuedOne(T, r, U, s, t, true) && DomOf(T, t) != d
    ensures forall p: nat :: Q(s, d, p) == [] <==> Q(r, d, p) == []
    ensures forall x: nat :: Leads(T, r, d, x) ==> Leads(U, s, d, x)
  {
  }

  function WithPrio(T: Threads, t: nat, prio: nat): Threads {
    T.(prio := T.prio[t := prio])
  }

  lemma WithPrioFields(T: Threads, t: nat, prio: nat)
    ensures var U := WithPrio(T, t, prio);
      && (forall x: nat :: PrioOf(U, x) == if x == t then prio else PrioOf(T, x))
      && (forall x: nat :: DomOf(U, x) == DomOf(T, x) && Queued(U, x) == Queued(T, x))
      && (forall x: nat :: Schedulable(U, x) == Schedulable(T, x))
  {
  }

  /** The priority of a thread that is not queued may change. */
  lemma NewPriority(lay: Layout, T: Threads, r: Ready, t: nat, prio: nat)
    requires Inv(lay, T, r) && !Queued(T, t) && PrioToL1Index(lay, prio) < lay.l2Size
    ensures Inv(lay, WithPrio(T, t, prio), r)
  {
    WithPrioFields(T, t, prio);
    NotIn(T, r, t);
    hide BitsOk, WithPrio, Queued, Schedulable, DomOf, PrioOf, Q, NoDuplicates, PrioToL1Index;
  }

  lemma QueuedCanRun(lay: Layout, T: Threads, r: Ready, t: nat)
    requires Inv(lay, T, r)
    ensures Queued(T, t) ==> Schedulable(T, t)
  {
  }
}
