/**
  Message passing: endpoints, notifications, replies and the donation of scheduling contexts
  (kernel/src/object/endpoint.c, notification.c, reply.c), and the parts of the two fast paths
  that change this state (kernel/src/fastpath/fastpath.c).
 */
module Ipc {
  import opened CallStacks
  import opened PriorityQueues
  import opened WaitQueues

  datatype FaultType = NullFault | Timeout | OtherFault

  /** What a sender left behind when it blocked. */
  datatype Offer = Offer(badge: bv64, canGrant: bool, canGrantReply: bool, isCall: bool)

  function OfferOf(m: map<nat, Offer>, t: nat): Offer {
    if t in m then m[t] else Offer(0, false, false, false)
  }

  function FaultOf(m: map<nat, FaultType>, t: nat): FaultType {
    if t in m then m[t] else NullFault
  }

  function Badge(m: map<nat, bv64>, n: nat): bv64 {
    if n in m then m[n] else 0
  }

  function Pending(m: map<nat, seq<bv64>>, n: nat): seq<bv64> {
    if n in m then m[n] else []
  }

  function OrAll(badges: seq<bv64>): bv64 {
    if badges == [] then 0 else OrAll(badges[..|badges| - 1]) | badges[|badges| - 1]
  }

  /** An active notification holds the bitwise or of the badges it has been sent since the last delivery. */
  ghost predicate Kept(w: Waits, msg: map<nat, bv64>, pending: map<nat, seq<bv64>>) {
    forall n ::
      if KindOf(w, n).NtfnActive? then Badge(msg, n) == OrAll(Pending(pending, n)) && Pending(pending, n) != []
      else Pending(pending, n) == []
  }

  function OfKind(w: Waits, o: nat, k: Kind): Waits {
    w.(kind := w.kind[o := k])
  }

  lemma OfKindFields(w: Waits, o: nat, k: Kind)
    ensures forall n :: KindOf(OfKind(w, o, k), n) == if n == o then k else KindOf(w, n)
  {
  }

  lemma PendingFields(pending: map<nat, seq<bv64>>, o: nat, badges: seq<bv64>)
    ensures var now := pending[o := badges];
      forall n :: Pending(now, n) == if n == o then badges else Pending(pending, n)
  {
  }

  lemma BadgeFields(msg: map<nat, bv64>, o: nat, badge: bv64)
    ensures var now := msg[o := badge];
      forall n :: Badge(now, n) == if n == o then badge else Badge(msg, n)
  {
  }

  /** A thread changes its state. */
  function InState(g: Graph, t: nat, s: TsType): Graph {
    g.(tsType := g.tsType[t := s])
  }

  /** A thread waits to receive, perhaps with a reply object for the caller to come. */
  function Receiving(g: Graph, t: nat, reply: nat): Graph {
    g.(tsType := g.tsType[t := BlockedOnReceive],
       replyObject := g.replyObject[t := reply],
       replyTCB := if reply != 0 then g.replyTCB[reply := t] else g.replyTCB)
  }

  predicate UsesReply(s: TsType) {
    s.BlockedOnReply? || s.BlockedOnReceive?
  }

  lemma InStateInv(g: Graph, rank: map<nat, nat>, t: nat, s: TsType)
    requires Inv(g, rank) && ReplyOf(g, t) == 0 && !UsesReply(s)
    ensures Inv(InState(g, t, s), rank)
  {
    var h := InState(g, t, s);
    SameLinks(g, h, rank);
    assert forall r :: ReplyTcb(h, r) == ReplyTcb(g, r) && Prev(h, r) == Prev(g, r) && Next(h, r) == Next(g, r);
    assert forall x :: State(h, x) == if x == t then s else State(g, x);
    assert forall x :: ReplyOf(h, x) == ReplyOf(g, x);
    hide InState, ReplyTcb, State, ReplyOf, Prev, Next;
    forall r | ReplyTcb(g, r) != 0 ensures ReplyTcb(g, r) != t {
      assert ReplyOf(g, ReplyTcb(g, r)) == r;
    }
  }

  lemma ReceivingInv(g: Graph, rank: map<nat, nat>, t: nat, reply: nat)
    requires Inv(g, rank) && t != 0 && Ready(g, t) && (reply != 0 ==> ReplyTcb(g, reply) == 0)
    ensures Inv(Receiving(g, t, reply), rank)
  {
    var h := Receiving(g, t, reply);
    SameLinks(g, h, rank);
    NoReply(g, t);
    if reply != 0 {
      NotLinked(g, reply);
    }
    assert forall r :: ReplyTcb(h, r) == if r == reply && r != 0 then t else ReplyTcb(g, r);
    assert forall r :: Prev(h, r) == Prev(g, r) && Next(h, r) == Next(g, r);
    assert forall x :: State(h, x) == if x == t then BlockedOnReceive else State(g, x);
    assert forall x :: ReplyOf(h, x) == if x == t then reply else ReplyOf(g, x);
    hide Receiving, ReplyTcb, State, ReplyOf, Prev, Next;
  }

  /** A reply without a thread is in no stack. */
  lemma NotLinked(g: Graph, reply: nat)
    requires Blocked(g) && reply != 0 && ReplyTcb(g, reply) == 0
    ensures Loose(g, reply)
  {
    assert ReplyOf(g, 0) == 0;
  }

  lemma FreeIsLoose(g: Graph, rank: map<nat, nat>, reply: nat)
    requires Inv(g, rank) && reply != 0 && ReplyTcb(g, reply) == 0
    ensures Loose(g, reply)
  {
    NotLinked(g, reply);
  }

  lemma SameStates(st: map<nat, TsType>, st': map<nat, TsType>, w: Waits)
    requires WaitInv(st, w) && forall y :: StateIn(st', y) == StateIn(st, y)
    ensures WaitInv(st', w)
  {
    assert forall y :: WaitsAt(st', w, y) == WaitsAt(st, w, y);
    assert forall o :: QueueOk(w, o);
    hide QueueOk, WaitsAt, StateIn, Queue, KindOf;
  }

  /** The receiver after the message has reached it, without its reply object. */
  function Received(g: Graph, dest: nat): Graph {
    if ReplyOf(g, dest) != 0 then Unlinked(g, ReplyOf(g, dest), dest) else g
  }

  /**
    What delivering a message does to threads and call stacks. A caller is left waiting on the
    receiver's reply object, if there is one and the endpoint lets it be used, or stopped for
    good; a plain sender lends its scheduling context to a receiver that has none.
   */
  function SentGraph(g: Graph, sender: nat, dest: nat, call: bool, mayReply: bool, canDonate: bool): Graph {
    InState(Answered(Received(g, dest), sender, dest, ReplyOf(g, dest), call, mayReply, canDonate), dest, Running)
  }

  /** What becomes of the sender and the scheduling contexts. */
  function Answered(u: Graph, sender: nat, dest: nat, reply: nat, call: bool, mayReply: bool, canDonate: bool): Graph {
    if call then
      if reply != 0 && mayReply then Pushed(u, sender, dest, reply, canDonate) else InState(u, sender, Inactive)
    else if canDonate && TcbSC(u, dest) == 0 then Donated(u, TcbSC(u, sender), dest)
    else u
  }

  ghost function AnsweredRank(u: Graph, rank: map<nat, nat>, sender: nat, dest: nat, reply: nat, call: bool,
                              mayReply: bool, canDonate: bool): map<nat, nat>
  {
    if call && reply != 0 && mayReply then PushRank(u, rank, sender, dest, reply, canDonate) else rank
  }

  lemma AnsweredInv(u: Graph, rank: map<nat, nat>, sender: nat, dest: nat, reply: nat, call: bool, mayReply: bool,
                    canDonate: bool)
    requires Inv(u, rank) && dest != 0 && sender != 0 && sender != dest
    requires State(u, sender) in {BlockedOnSend, Running, Restart} && ReplyOf(u, dest) == 0
    requires (reply != 0 ==> Loose(u, reply)) && (canDonate ==> TcbSC(u, sender) != 0)
    ensures var v := Answered(u, sender, dest, reply, call, mayReply, canDonate);
      && Inv(v, AnsweredRank(u, rank, sender, dest, reply, call, mayReply, canDonate))
      && ReplyOf(v, dest) == 0
      && (forall y :: y != sender ==> State(v, y) == State(u, y))
      && State(v, sender) == (if call then if reply != 0 && mayReply then BlockedOnReply else Inactive
                              else State(u, sender))
  {
    hide Links, Ranked, Blocked, Bound, Pushed, Donated, OnTop;
    if call {
      if reply != 0 && mayReply {
        PushedInv(u, rank, sender, dest, reply, canDonate);
        PushedStates(u, sender, dest, reply, canDonate);
      } else {
        InStateInv(u, rank, sender, Inactive);
      }
    } else if canDonate && TcbSC(u, dest) == 0 {
      DonatedOthers(u, TcbSC(u, sender), dest, rank);
      DonatedStates(u, TcbSC(u, sender), dest);
      DonatedBound(u, TcbSC(u, sender), dest) by {
        BoundSender(u, sender);
      }
    }
  }

  lemma BoundSender(u: Graph, t: nat)
    requires Bound(u) && TcbSC(u, t) != 0
    ensures ScTcb(u, TcbSC(u, t)) == t
  {
  }

  lemma DonatedStates(g: Graph, sc: nat, to: nat)
    ensures var h := Donated(g, sc, to);
      forall t :: State(h, t) == State(g, t) && ReplyOf(h, t) == ReplyOf(g, t)
  {
  }

  lemma ReceivedInv(g: Graph, rank: map<nat, nat>, dest: nat)
    requires Inv(g, rank) && State(g, dest).BlockedOnReceive?
    ensures Inv(Received(g, dest), rank) && ReplyOf(Received(g, dest), dest) == 0
    ensures ReplyOf(g, dest) != 0 ==> Loose(Received(g, dest), ReplyOf(g, dest))
    ensures ReplyOf(g, dest) != 0 ==> ReplyTcb(g, ReplyOf(g, dest)) == dest && dest != 0
    ensures forall x :: x != dest ==> State(Received(g, dest), x) == State(g, x)
    ensures forall x :: x != dest ==> ReplyOf(Received(g, dest), x) == ReplyOf(g, x)
  {
    var reply := ReplyOf(g, dest);
    if reply != 0 {
      assert ReplyTcb(g, reply) == dest;
      UnlinkedBlocked(g, reply, dest);
      UnlinkedOthers(g, reply, dest, rank);
      UnlinkedFields(g, reply, dest);
    }
  }

  /** Any change to a thread that does not wait, and a receiver that stops waiting. */
  lemma SentWaits(st: map<nat, TsType>, st': map<nat, TsType>, w: Waits, t: nat, dest: nat, o: nat,
                  s: TsType, s': TsType)
    requires WaitInv(st, w) && dest in Queue(w, o) && !Waiting(StateIn(st, t)) && !Waiting(s) && !Waiting(s')
    requires forall y :: StateIn(st', y) == if y == dest then s' else if y == t then s else StateIn(st, y)
    ensures WaitInv(st', Dequeued(w, dest, o))
  {
    OnlyThere(st, w, dest, o);
    DequeuedInv(st, w, dest, o, s');
    StateInv(st[dest := s'], Dequeued(w, dest, o), t, s);
    SameStates(st[dest := s'][t := s], st', Dequeued(w, dest, o));
  }

  /** Threads, replies, scheduling contexts, endpoints and notifications. */
  class Kernel {
    var g: Graph
    var w: Waits
    var offers: map<nat, Offer>
    var fault: map<nat, FaultType>
    var badgeRegister: map<nat, bv64>
    var ntfnMsg: map<nat, bv64>
    var ntfnBoundTCB: map<nat, nat>
    var tcbBoundNtfn: map<nat, nat>
    var ntfnSC: map<nat, nat>
    ghost var rank: map<nat, nat>
    // The badges signalled to each notification that have not been delivered.
    ghost var pending: map<nat, seq<bv64>>

    ghost predicate Valid()
      reads this`g, this`w, this`rank
    {
      Inv(g, rank) && WaitInv(g.tsType, w)
    }

    ghost predicate SignalsKept()
      reads this`w, this`ntfnMsg, this`pending
    {
      Kept(w, ntfnMsg, pending)
    }

    // -------------------------------------------------------------- reply objects

    method SetThreadState(t: nat, s: TsType)
      modifies this`g
      ensures g == InState(old(g), t, s)
    {
      g := g.(tsType := g.tsType[t := s]);
    }

    method ReplyUnlink(reply: nat, tcb: nat)
      requires UsesReply(State(g, tcb)) && ReplyTcb(g, reply) == tcb && ReplyOf(g, tcb) == reply
      modifies this`g
      ensures g == Unlinked(old(g), reply, tcb)
    {
      g := g.(replyTCB := g.replyTCB[reply := 0]);
      SetThreadState(tcb, Inactive);
    }

    method SchedContextDonate(sc: nat, to: nat)
      requires sc != 0 && to != 0 && TcbSC(g, to) == 0
      modifies this`g
      ensures g == Donated(old(g), sc, to)
    {
      var from := ScTcb(g, sc);
      if from != 0 {
        g := g.(tcbSC := g.tcbSC[from := 0]);
      }
      g := g.(scTcb := g.scTcb[sc := to]);
      g := g.(tcbSC := g.tcbSC[to := sc]);
    }

    method ReplyPush(caller: nat, callee: nat, reply: nat, canDonate: bool)
      requires Inv(g, rank) && caller != 0 && callee != 0 && Loose(g, reply)
      requires State(g, caller) in {BlockedOnSend, Running, Restart}
      requires State(g, callee) in {Inactive, Running, Restart}
      modifies this`g, this`rank
      ensures g == Pushed(old(g), caller, callee, reply, canDonate) && Inv(g, rank)
    {
      PushedInv(g, rank, caller, callee, reply, canDonate);
      ghost var newRank := PushRank(g, rank, caller, callee, reply, canDonate);
      var scDonated := TcbSC(g, caller);
      g := g.(replyTCB := g.replyTCB[reply := caller]);
      g := g.(tsType := g.tsType[caller := BlockedOnReply], replyObject := g.replyObject[caller := reply]);
      if scDonated != 0 && TcbSC(g, callee) == 0 && canDonate {
        var oldCaller := ScReply(g, scDonated);
        if oldCaller != 0 {
          g := g.(replyNext := g.replyNext[oldCaller := CallStack(reply, false)]);
        }
        g := g.(replyPrev := g.replyPrev[reply := oldCaller]);
        g := g.(scReply := g.scReply[scDonated := reply]);
        g := g.(replyNext := g.replyNext[reply := CallStack(scDonated, true)]);
        SchedContextDonate(scDonated, callee);
      }
      rank := newRank;
    }

    method ReplyPop(reply: nat, tcb: nat)
      requires Inv(g, rank) && ReplyTcb(g, reply) == tcb && State(g, tcb).BlockedOnReply? && ReplyOf(g, tcb) == reply
      requires Next(g, reply).isHead
      modifies this`g
      ensures g == Popped(old(g), reply, tcb) && Inv(g, rank)
    {
      PoppedInv(g, rank, reply, tcb);
      Linked(g, reply);
      assert Next(g, reply).ptr != 0;
      hide Links, Ranked, Blocked, Bound;
      var nextPtr, prevPtr := Next(g, reply).ptr, Prev(g, reply);
      g := g.(scReply := g.scReply[nextPtr := prevPtr]);
      if prevPtr != 0 {
        g := g.(replyNext := g.replyNext[prevPtr := Next(g, reply)]);
      }
      g := g.(replyNext := g.replyNext[reply := CallStack(0, false)]);
      if TcbSC(g, tcb) == 0 {
        SchedContextDonate(nextPtr, tcb);
      }
      g := g.(replyPrev := g.replyPrev[reply := 0]);
      ReplyUnlink(reply, tcb);
    }

    method ReplyRemove(reply: nat, tcb: nat)
      requires Inv(g, rank) && ReplyTcb(g, reply) == tcb && State(g, tcb).BlockedOnReply? && ReplyOf(g, tcb) == reply
      modifies this`g
      ensures g == Removed(old(g), reply, tcb) && Inv(g, rank)
    {
      var up, prevPtr := Next(g, reply), Prev(g, reply);
      if up.ptr != 0 && up.isHead {
        ReplyPop(reply, tcb);
      } else {
        CutInv(g, rank, reply, tcb);
        assert !up.isHead;
        hide Links, Ranked, Blocked, Bound;
        if up.ptr != 0 {
          g := g.(replyPrev := g.replyPrev[up.ptr := 0]);
        }
        if prevPtr != 0 {
          g := g.(replyNext := g.replyNext[prevPtr := CallStack(0, false)]);
        }
        g := g.(replyPrev := g.replyPrev[reply := 0]);
        g := g.(replyNext := g.replyNext[reply := CallStack(0, false)]);
        ReplyUnlink(reply, tcb);
      }
    }

    method ReplyRemoveTcb(tcb: nat)
      requires Inv(g, rank) && State(g, tcb).BlockedOnReply?
      modifies this`g
      ensures g == RemovedTcb(old(g), tcb) && Inv(g, rank)
    {
      var reply := ReplyOf(g, tcb);
      assert ReplyTcb(g, reply) == tcb && reply != 0 && tcb != 0;
      CutInv(g, rank, reply, tcb);
      assert Next(g, reply).isHead ==> Next(g, reply).ptr != 0;
      hide Links, Ranked, Blocked, Bound;
      var up, prevPtr := Next(g, reply), Prev(g, reply);
      if up.ptr != 0 {
        if up.isHead {
          g := g.(scReply := g.scReply[up.ptr := 0]);
        } else {
          g := g.(replyPrev := g.replyPrev[up.ptr := 0]);
        }
      }
      if prevPtr != 0 {
        g := g.(replyNext := g.replyNext[prevPtr := CallStack(0, false)]);
      }
      g := g.(replyPrev := g.replyPrev[reply := 0]);
      g := g.(replyNext := g.replyNext[reply := CallStack(0, false)]);
      ReplyUnlink(reply, tcb);
    }

    // -------------------------------------------------------------- endpoints

    /** A thread that can act: it exists and is not blocked. */
    ghost predicate Acting(t: nat)
      reads this`g
    {
      t != 0 && State(g, t) in {Running, Restart}
    }

    /** Dequeues the first thread waiting at an object, which falls idle if that was the last. */
    method TakeFirst(o: nat) returns (t: nat)
      requires Queue(w, o) != []
      modifies this`w
      ensures t == Queue(old(w), o)[0] && w == Dequeued(old(w), t, o)
    {
      t := Queue(w, o)[0];
      TakenFirst(w, o);
      var queue := Queue(w, o)[1..];
      assert queue == RemoveAt(Queue(w, o), 0);
      w := w.(queue := w.queue[o := queue]);
      if queue == [] {
        w := w.(kind := w.kind[o := IdleOf(KindOf(w, o))]);
      }
    }

    method BlockOnSend(thread: nat, o: Offer, ep: nat)
      requires Valid() && Acting(thread) && ep != 0 && (KindOf(w, ep).EPIdle? || KindOf(w, ep).EPSend?)
      modifies this`g, this`w, this`offers
      ensures Valid()
      ensures g == InState(old(g), thread, BlockedOnSend) && w == Enqueued(old(w), thread, ep, EPSend)
      ensures offers == old(offers)[thread := o]
    {
      hide Inv, WaitInv;
      InStateInv(g, rank, thread, BlockedOnSend);
      EnqueuedInv(g.tsType, w, thread, ep, BlockedOnSend);
      offers := offers[thread := o];
      SetThreadState(thread, BlockedOnSend);
      w := Enqueued(w, thread, ep, EPSend);
    }

    /** Delivers a message from `sender` to a receiver just dequeued. */
    method Deliver(sender: nat, dest: nat, ghost ep: nat, call: bool, mayReply: bool, canDonate: bool,
                   ghost before: Waits)
      requires Inv(g, rank) && WaitInv(g.tsType, before)
      requires dest in Queue(before, ep) && w == Dequeued(before, dest, ep)
      requires State(g, dest).BlockedOnReceive? && dest != 0
      requires Acting(sender) && (canDonate ==> TcbSC(g, sender) != 0)
      modifies this`g, this`rank
      ensures Valid() && g == SentGraph(old(g), sender, dest, call, mayReply, canDonate)
    {
      hide Inv, WaitInv;
      SentInv(g, rank, before, sender, dest, ep, call, mayReply, canDonate);
      ghost var newRank := SentRank(g, rank, sender, dest, call, mayReply, canDonate);
      ReceivedInv(g, rank, dest);
      hide Loose, Dequeued, WaitsAt;
      var reply := ReplyOf(g, dest);
      if reply != 0 {
        ReplyUnlink(reply, dest);
      }
      if call {
        if reply != 0 && mayReply {
          ReplyPush(sender, dest, reply, canDonate);
        } else {
          SetThreadState(sender, Inactive);
        }
      } else if canDonate && TcbSC(g, dest) == 0 {
        SchedContextDonate(TcbSC(g, sender), dest);
      }
      SetThreadState(dest, Running);
      rank := newRank;
    }

    /** Sends a message, or waits until it can be received. */
    method SendIPC(blocking: bool, doCall: bool, badge: bv64, canGrant: bool, canGrantReply: bool, canDonate: bool,
                   thread: nat, ep: nat)
      requires Valid() && Acting(thread) && ep != 0 && IdleOf(KindOf(w, ep)).EPIdle?
      requires canDonate ==> TcbSC(g, thread) != 0
      modifies this`g, this`w, this`rank, this`offers, this`badgeRegister
      ensures Valid()
      ensures !old(KindOf(w, ep)).EPRecv? && blocking ==>
        && g == InState(old(g), thread, BlockedOnSend) && w == Enqueued(old(w), thread, ep, EPSend)
        && offers == old(offers)[thread := Offer(badge, canGrant, canGrantReply, doCall)]
        && badgeRegister == old(badgeRegister)
      ensures !old(KindOf(w, ep)).EPRecv? && !blocking ==>
        g == old(g) && w == old(w) && offers == old(offers) && badgeRegister == old(badgeRegister)
      ensures old(KindOf(w, ep)).EPRecv? ==>
        && old(Queue(w, ep)) != []
        && var dest := old(Queue(w, ep))[0];
        var call := doCall || FaultOf(fault, thread) != NullFault;
        && w == Dequeued(old(w), dest, ep)
        && g == SentGraph(old(g), thread, dest, call, canGrant || canGrantReply, canDonate)
        && badgeRegister == old(badgeRegister)[dest := badge] && offers == old(offers)
    {
      if KindOf(w, ep).EPIdle? || KindOf(w, ep).EPSend? {
        if blocking {
          BlockOnSend(thread, Offer(badge, canGrant, canGrantReply, doCall), ep);
        }
      } else {
        HeadWaits(g.tsType, w, ep);
        StatesIn(g);
        ghost var before := w;
        hide Inv, WaitInv, Dequeued, WaitsAt, QueueOk, SentGraph;
        var dest := TakeFirst(ep);
        assert State(g, dest).BlockedOnReceive?;
        badgeRegister := badgeRegister[dest := badge];
        var call := doCall || FaultOf(fault, thread) != NullFault;
        Deliver(thread, dest, ep, call, canGrant || canGrantReply, canDonate, before);
      }
    }

    // -------------------------------------------------------------- cancelling

    method TcbEPDequeue(t: nat, o: nat)
      requires t in Queue(w, o)
      modifies this`w
      ensures w == Dequeued(old(w), t, o)
    {
      var queue := RemoveAt(Queue(w, o), IndexOf(Queue(w, o), t));
      w := w.(queue := w.queue[o := queue]);
      if queue == [] {
        w := w.(kind := w.kind[o := IdleOf(KindOf(w, o))]);
      }
    }

    /** Takes a thread out of whatever message passing it is blocked in. */
    method CancelIPC(t: nat)
      requires Valid()
      modifies this`g, this`w, this`fault
      ensures Valid() && fault == old(fault)[t := NullFault]
      ensures g == Cancelled(old(g), t)
      ensures w == if Waiting(old(State(g, t))) then Dequeued(old(w), t, WaitsAt(old(g).tsType, old(w), t)) else old(w)
    {
      hide Inv, WaitInv;
      ghost var g0, w0 := g, w;
      CancelledInv(g, rank, w, t);
      StatesIn(g);
      hide Dequeued, Cancelled;
      fault := fault[t := NullFault];
      if Waiting(State(g, t)) {
        TcbEPDequeue(t, Get(w.blockingObject, t));
      }
      CancelState(t);
    }

    method CancelState(t: nat)
      requires Inv(g, rank)
      modifies this`g
      ensures g == Cancelled(old(g), t)
    {
      if State(g, t).BlockedOnReply? {
        ReplyRemoveTcb(t);
      } else if Waiting(State(g, t)) {
        if State(g, t).BlockedOnReceive? {
          var reply := ReplyOf(g, t);
          if reply != 0 {
            ReplyUnlink(reply, t);
          }
        }
        SetThreadState(t, Inactive);
      }
    }

    // -------------------------------------------------------------- receiving

    /** Waits to receive, with a reply object that no thread uses, or none. */
    method BlockOnReceive(thread: nat, ep: nat, reply: nat)
      requires Valid() && Acting(thread) && ep != 0 && (KindOf(w, ep).EPIdle? || KindOf(w, ep).EPRecv?)
      requires reply != 0 ==> ReplyTcb(g, reply) == 0
      modifies this`g, this`w
      ensures Valid()
      ensures g == Receiving(old(g), thread, reply) && w == Enqueued(old(w), thread, ep, EPRecv)
    {
      hide Inv, WaitInv;
      ReceivingInv(g, rank, thread, reply);
      EnqueuedInv(g.tsType, w, thread, ep, BlockedOnReceive);
      g := g.(tsType := g.tsType[thread := BlockedOnReceive]);
      g := g.(replyObject := g.replyObject[thread := reply]);
      if reply != 0 {
        g := g.(replyTCB := g.replyTCB[reply := thread]);
      }
      w := Enqueued(w, thread, ep, EPRecv);
    }

    /** Takes a message from a sender just dequeued. */
    method TakeFrom(sender: nat, thread: nat, ghost ep: nat, reply: nat, call: bool, mayReply: bool,
                    ghost before: Waits)
      requires Inv(g, rank) && WaitInv(g.tsType, before)
      requires sender in Queue(before, ep) && w == Dequeued(before, sender, ep)
      requires State(g, sender).BlockedOnSend? && sender != 0 && Acting(thread)
      requires reply != 0 ==> ReplyTcb(g, reply) == 0
      modifies this`g, this`rank
      ensures Valid()
      ensures g == TakenGraph(old(g), sender, thread, reply, call, mayReply, FaultOf(fault, sender) != Timeout)
    {
      hide Inv, WaitInv;
      ghost var canLend := FaultOf(fault, sender) != Timeout;
      TakenInv(g, rank, before, sender, thread, ep, reply, call, mayReply, canLend);
      if reply != 0 {
        FreeIsLoose(g, rank, reply);
      }
      hide Dequeued, WaitsAt, Loose;
      if call {
        if mayReply && reply != 0 {
          ghost var newRank := PushRank(g, rank, sender, thread, reply, TcbSC(g, sender) != 0 && canLend);
          var canDonate := TcbSC(g, sender) != 0 && FaultOf(fault, sender) != Timeout;
          ReplyPush(sender, thread, reply, canDonate);
          rank := newRank;
        } else {
          SetThreadState(sender, Inactive);
        }
      } else {
        SetThreadState(sender, Running);
      }
    }

    /** Hands a scheduling context back to the notification that lent it. */
    method MaybeReturnSchedContext(ntfn: nat, tcb: nat)
      requires Valid()
      modifies this`g
      ensures Valid() && g == Returned(old(g), Get(ntfnSC, ntfn), tcb)
    {
      hide Inv, WaitInv;
      ReturnedInv(g, rank, Get(ntfnSC, ntfn), tcb);
      SameStates(g.tsType, Returned(g, Get(ntfnSC, ntfn), tcb).tsType, w);
      var sc := Get(ntfnSC, ntfn);
      if sc != 0 && sc == TcbSC(g, tcb) {
        g := g.(tcbSC := g.tcbSC[tcb := 0]);
        g := g.(scTcb := g.scTcb[sc := 0]);
      }
    }

    // -------------------------------------------------------------- notifications

    /** A thread without a scheduling context borrows an unused one from the notification. */
    method MaybeDonateSchedContext(tcb: nat, ntfn: nat)
      requires Valid() && tcb != 0
      modifies this`g
      ensures Valid() && g == Lent(old(g), Get(ntfnSC, ntfn), tcb)
    {
      hide Inv, WaitInv;
      var sc := Get(ntfnSC, ntfn);
      LentInv(g, rank, sc, tcb);
      SameStates(g.tsType, Lent(g, sc, tcb).tsType, w);
      if TcbSC(g, tcb) == 0 {
        if sc != 0 && ScTcb(g, sc) == 0 {
          SchedContextDonate(sc, tcb);
        }
      }
    }

    method SetNtfnIdle(ntfn: nat)
      requires Valid() && SignalsKept() && KindOf(w, ntfn).NtfnActive?
      modifies this`w, this`pending
      ensures Valid() && SignalsKept()
      ensures w == OfKind(old(w), ntfn, NtfnIdle) && pending == old(pending)[ntfn := []]
    {
      hide Inv, WaitInv;
      KindInv(g.tsType, w, ntfn, NtfnIdle);
      OfKindFields(w, ntfn, NtfnIdle);
      PendingFields(pending, ntfn, []);
      hide KindOf, Pending, Badge, OrAll;
      w := w.(kind := w.kind[ntfn := NtfnIdle]);
      pending := pending[ntfn := []];
    }

    /** Delivers the signals of an active notification: all badges sent since the last delivery. */
    method CompleteSignal(ntfn: nat, tcb: nat)
      requires Valid() && SignalsKept() && tcb != 0 && KindOf(w, ntfn).NtfnActive?
      modifies this`g, this`w, this`badgeRegister, this`pending
      ensures Valid() && SignalsKept()
      ensures badgeRegister == old(badgeRegister)[tcb := OrAll(old(Pending(pending, ntfn)))]
      ensures w == OfKind(old(w), ntfn, NtfnIdle) && pending == old(pending)[ntfn := []]
      ensures g == Lent(old(g), Get(ntfnSC, ntfn), tcb)
    {
      badgeRegister := badgeRegister[tcb := Badge(ntfnMsg, ntfn)];
      SetNtfnIdle(ntfn);
      MaybeDonateSchedContext(tcb, ntfn);
    }

    method SetActive(ntfn: nat, badge: bv64)
      requires Valid() && SignalsKept() && (KindOf(w, ntfn).NtfnIdle? || KindOf(w, ntfn).NtfnActive?)
      modifies this`w, this`ntfnMsg, this`pending
      ensures Valid() && SignalsKept()
      ensures w == OfKind(old(w), ntfn, NtfnActive)
      ensures pending == old(pending)[ntfn := old(Pending(pending, ntfn)) + [badge]]
    {
      hide Inv, WaitInv, Kept;
      KindInv(g.tsType, w, ntfn, NtfnActive);
      KeptActive(w, ntfnMsg, pending, ntfn, badge);
      hide Pending, Badge, OrAll;
      if KindOf(w, ntfn).NtfnIdle? {
        w := w.(kind := w.kind[ntfn := NtfnActive]);
        ntfnMsg := ntfnMsg[ntfn := badge];
      } else {
        ntfnMsg := ntfnMsg[ntfn := Badge(ntfnMsg, ntfn) | badge];
        w := w.(kind := w.kind[ntfn := NtfnActive]);
      }
      pending := pending[ntfn := Pending(pending, ntfn) + [badge]];
    }

    function Woken(ntfn: nat): nat
      reads this`g, this`w, this`ntfnBoundTCB
    {
      WokenBy(g, w, ntfnBoundTCB, ntfn)
    }

    /** Signals a notification: a waiting thread gets the badge, and without one it is kept. */
    method SendSignal(ntfn: nat, badge: bv64)
      requires Valid() && SignalsKept() && IdleOf(KindOf(w, ntfn)).NtfnIdle?
      modifies this`g, this`w, this`fault, this`badgeRegister, this`ntfnMsg, this`pending
      ensures Valid() && SignalsKept()
      ensures old(Woken(ntfn)) != 0 ==>
        && badgeRegister == old(badgeRegister)[old(Woken(ntfn)) := badge] && pending == old(pending)
        && g == Signalled(old(g), old(Woken(ntfn)), Get(ntfnSC, ntfn))
        && old(Woken(ntfn) in Queue(w, WaitsAt(g.tsType, w, Woken(ntfn))))
        && w == Dequeued(old(w), old(Woken(ntfn)), old(WaitsAt(g.tsType, w, Woken(ntfn))))
      ensures fault == SignalFaults(old(g), old(w), ntfnBoundTCB, old(fault), ntfn)
      ensures old(Woken(ntfn)) == 0 ==>
        && badgeRegister == old(badgeRegister) && g == old(g)
        && w == OfKind(old(w), ntfn, NtfnActive)
        && pending == old(pending)[ntfn := old(Pending(pending, ntfn)) + [badge]]
    {
      hide Inv, WaitInv;
      ghost var woken := Woken(ntfn);
      WokenWaits(ntfn);
      hide Dequeued, Lent, Cancelled, WaitsAt, SignalsKept;
      if KindOf(w, ntfn).NtfnIdle? {
        var tcb := Get(ntfnBoundTCB, ntfn);
        if tcb != 0 && State(g, tcb).BlockedOnReceive? {
          WakeBound(tcb, badge, ntfn);
        } else {
          SetActive(ntfn, badge);
        }
      } else if KindOf(w, ntfn).NtfnWaiting? {
        WakeFirst(ntfn, badge);
      } else {
        SetActive(ntfn, badge);
      }
    }

    lemma WokenWaits(ntfn: nat)
      requires Valid()
      ensures KindOf(w, ntfn).NtfnWaiting? ==> Woken(ntfn) != 0 && Queue(w, ntfn) != []
      ensures Woken(ntfn) != 0 ==>
        && Waiting(State(g, Woken(ntfn)))
        && Woken(ntfn) in Queue(w, WaitsAt(g.tsType, w, Woken(ntfn)))
      ensures !Waiting(State(g, 0))
    {
      StatesIn(g);
      if KindOf(w, ntfn).NtfnWaiting? {
        HeadWaits(g.tsType, w, ntfn);
      }
      assert Waiting(State(g, 0)) ==> 0 in Queue(w, WaitsAt(g.tsType, w, 0));
    }

    /** The first of the waiting threads gets the badge and runs. */
    method WakeFirst(ntfn: nat, badge: bv64)
      requires Valid() && SignalsKept() && KindOf(w, ntfn).NtfnWaiting?
      modifies this`g, this`w, this`badgeRegister
      ensures Valid() && SignalsKept()
      ensures var t := old(Woken(ntfn));
        && badgeRegister == old(badgeRegister)[t := badge]
        && g == Signalled(old(g), t, Get(ntfnSC, ntfn))
        && old(Woken(ntfn) in Queue(w, WaitsAt(g.tsType, w, Woken(ntfn))))
        && w == Dequeued(old(w), t, old(WaitsAt(g.tsType, w, Woken(ntfn))))
    {
      hide Inv, WaitInv;
      HeadWaits(g.tsType, w, ntfn);
      StatesIn(g);
      ghost var t := Queue(w, ntfn)[0];
      NotificationWaiter(g, rank, w, ntfn, t);
      DequeuedActive(g.tsType, w, t);
      hide Dequeued, Lent, Cancelled, State, Badge, Pending, OrAll, Get, InState;
      var dest := TakeFirst(ntfn);
      SetThreadState(dest, Running);
      badgeRegister := badgeRegister[dest := badge];
      MaybeDonateSchedContext(dest, ntfn);
    }

    /** The bound thread, which waits for a message, gets the badge instead and runs. */
    method WakeBound(t: nat, badge: bv64, ntfn: nat)
      requires Valid() && SignalsKept() && t != 0 && Waiting(State(g, t))
      modifies this`g, this`w, this`fault, this`badgeRegister
      ensures Valid() && SignalsKept() && badgeRegister == old(badgeRegister)[t := badge]
      ensures fault == old(fault)[t := NullFault]
      ensures g == Signalled(old(g), t, Get(ntfnSC, ntfn))
      ensures old(t in Queue(w, WaitsAt(g.tsType, w, t)))
      ensures w == Dequeued(old(w), t, old(WaitsAt(g.tsType, w, t)))
    {
      hide Inv, WaitInv;
      StatesIn(g);
      DequeuedActive(g.tsType, w, t);
      CancelledStates(g, t);
      hide Dequeued, Lent, Cancelled, WaitsAt, State, KindOf, Badge, Pending, OrAll, Queue, Get;
      CancelIPC(t);
      MakeRunning(t);
      badgeRegister := badgeRegister[t := badge];
      MaybeDonateSchedContext(t, ntfn);
    }

    method MakeRunning(t: nat)
      requires Valid() && State(g, t).Inactive?
      modifies this`g
      ensures Valid() && g == InState(old(g), t, Running)
    {
      hide Inv, WaitInv;
      InStateInv(g, rank, t, Running);
      StatesIn(g);
      StateInv(g.tsType, w, t, Running);
      SetThreadState(t, Running);
    }

    /** Waits for a signal, or takes those that have come. */
    method ReceiveSignal(thread: nat, ntfn: nat, isBlocking: bool)
      requires Valid() && SignalsKept() && Acting(thread) && ntfn != 0 && IdleOf(KindOf(w, ntfn)).NtfnIdle?
      modifies this`g, this`w, this`badgeRegister, this`pending
      ensures Valid() && SignalsKept()
      ensures old(KindOf(w, ntfn)).NtfnActive? ==>
        && badgeRegister == old(badgeRegister)[thread := OrAll(old(Pending(pending, ntfn)))]
        && pending == old(pending)[ntfn := []] && KindOf(w, ntfn).NtfnIdle?
        && g == Lent(old(g), Get(ntfnSC, ntfn), thread)
      ensures !old(KindOf(w, ntfn)).NtfnActive? && isBlocking ==>
        && w == Enqueued(old(w), thread, ntfn, NtfnWaiting)
        && g == Returned(InState(old(g), thread, BlockedOnNotification), Get(ntfnSC, ntfn), thread)
        && badgeRegister == old(badgeRegister) && pending == old(pending)
      ensures !old(KindOf(w, ntfn)).NtfnActive? && !isBlocking ==>
        g == old(g) && w == old(w) && badgeRegister == old(badgeRegister)[thread := 0] && pending == old(pending)
    {
      hide Inv, WaitInv, Lent, Returned, OrAll;
      if KindOf(w, ntfn).NtfnActive? {
        CompleteSignal(ntfn, thread);
      } else if isBlocking {
        StatesIn(g);
        InStateInv(g, rank, thread, BlockedOnNotification);
        EnqueuedInv(g.tsType, w, thread, ntfn, BlockedOnNotification);
        EnqueuedQuiet(w, thread, ntfn);
        KeptSame(w, Enqueued(w, thread, ntfn, NtfnWaiting), ntfnMsg, pending);
        hide Enqueued, Kept;
        SetThreadState(thread, BlockedOnNotification);
        w := Enqueued(w, thread, ntfn, NtfnWaiting);
        MaybeReturnSchedContext(ntfn, thread);
      } else {
        badgeRegister := badgeRegister[thread := 0];
      }
    }

    // -------------------------------------------------------------- receiving a message

    /** A reply object that another thread still waits with is taken from it first. */
    method FreeReply(reply: nat, thread: nat)
      requires Valid() && SignalsKept() && Acting(thread)
      modifies this`g, this`w, this`fault
      ensures Valid() && SignalsKept() && Acting(thread)
      ensures g == Freed(old(g), reply) && w == FreedWaits(old(g), old(w), reply)
      ensures reply != 0 ==> ReplyTcb(g, reply) == 0
      ensures fault == FreedFaults(old(g), old(fault), reply)
      ensures forall o :: IdleOf(KindOf(w, o)) == IdleOf(old(KindOf(w, o)))
    {
      hide Inv, WaitInv;
      FreedFacts(g, rank, w, reply, thread);
      StatesIn(g);
      var other := if reply != 0 then ReplyTcb(g, reply) else 0;
      if other != 0 && Waiting(State(g, other)) {
        DequeuedActive(g.tsType, w, other);
        DequeuedIdle(g.tsType, w, other);
      }
      hide Dequeued, Cancelled, WaitsAt, State, KindOf, Badge, Pending, OrAll;
      if reply != 0 {
        if ReplyTcb(g, reply) != 0 && ReplyTcb(g, reply) != thread {
          CancelIPC(ReplyTcb(g, reply));
        }
      }
    }

    /** Receives a message, delivers pending signals instead, or waits. */
    method ReceiveIPC(thread: nat, ep: nat, isBlocking: bool, reply: nat)
      requires Valid() && SignalsKept() && Acting(thread) && ep != 0 && IdleOf(KindOf(w, ep)).EPIdle?
      modifies this`g, this`w, this`rank, this`fault, this`badgeRegister, this`pending
      ensures Valid() && SignalsKept()
      ensures var g1, w1, ntfn := Freed(old(g), reply), FreedWaits(old(g), old(w), reply), Get(tcbBoundNtfn, thread);
        var g2 := if ntfn != 0 && isBlocking then Returned(g1, Get(ntfnSC, ntfn), thread) else g1;
        if ntfn != 0 && KindOf(w1, ntfn).NtfnActive? then
          && badgeRegister == old(badgeRegister)[thread := OrAll(old(Pending(pending, ntfn)))]
          && pending == old(pending)[ntfn := []]
          && w == OfKind(w1, ntfn, NtfnIdle) && g == Lent(g1, Get(ntfnSC, ntfn), thread)
        else if KindOf(w1, ep).EPSend? then
          && Queue(w1, ep) != []
          && var sender := Queue(w1, ep)[0];
          var o := OfferOf(offers, sender);
          && w == Dequeued(w1, sender, ep)
          && g == TakenGraph(g2, sender, thread, reply, o.isCall || FaultOf(fault, sender) != NullFault,
                             o.canGrant || o.canGrantReply, FaultOf(fault, sender) != Timeout)
          && badgeRegister == old(badgeRegister)[thread := o.badge] && pending == old(pending)
        else if isBlocking then
          && g == Receiving(g2, thread, reply) && w == Enqueued(w1, thread, ep, EPRecv)
          && badgeRegister == old(badgeRegister) && pending == old(pending)
        else g == g2 && w == w1 && badgeRegister == old(badgeRegister)[thread := 0] && pending == old(pending)
      ensures fault == FreedFaults(old(g), old(fault), reply)
    {
      hide Inv, WaitInv, Dequeued, Freed, FreedWaits, Returned, TakenGraph, Receiving, Enqueued, Kept, Lent, Cancelled;
      FreeReply(reply, thread);
      var ntfn := Get(tcbBoundNtfn, thread);
      if ntfn != 0 && KindOf(w, ntfn).NtfnActive? {
        CompleteSignal(ntfn, thread);
      } else {
        if ntfn != 0 && isBlocking {
          ReturnedKeeps(g, Get(ntfnSC, ntfn), thread);
          MaybeReturnSchedContext(ntfn, thread);
        }
        if KindOf(w, ep).EPSend? {
          ReceiveFromQueue(thread, ep, reply);
        } else if isBlocking {
          EnqueuedActive(w, thread, ep);
          KeptSame(w, Enqueued(w, thread, ep, EPRecv), ntfnMsg, pending);
          BlockOnReceive(thread, ep, reply);
        } else {
          badgeRegister := badgeRegister[thread := 0];
        }
      }
    }

    method ReceiveFromQueue(thread: nat, ep: nat, reply: nat)
      requires Valid() && SignalsKept() && Acting(thread) && KindOf(w, ep).EPSend?
      requires reply != 0 ==> ReplyTcb(g, reply) == 0
      modifies this`g, this`w, this`rank, this`badgeRegister
      ensures Valid() && SignalsKept() && old(Queue(w, ep)) != []
      ensures var sender := old(Queue(w, ep))[0];
        var o := OfferOf(offers, sender);
        && w == Dequeued(old(w), sender, ep)
        && g == TakenGraph(old(g), sender, thread, reply, o.isCall || FaultOf(fault, sender) != NullFault,
                           o.canGrant || o.canGrantReply, FaultOf(fault, sender) != Timeout)
        && badgeRegister == old(badgeRegister)[thread := o.badge]
    {
      hide Inv;
      HeadWaits(g.tsType, w, ep);
      StatesIn(g);
      ghost var before := w;
      DequeuedActive(g.tsType, w, Queue(w, ep)[0]);
      assert WaitsAt(g.tsType, w, Queue(w, ep)[0]) == ep;
      hide WaitInv, Dequeued, WaitsAt, TakenGraph, Badge, Pending, OrAll, State, Kept;
      assert State(g, Queue(w, ep)[0]).BlockedOnSend?;
      KeptSame(w, Dequeued(w, Queue(w, ep)[0], ep), ntfnMsg, pending);
      var sender := TakeFirst(ep);
      var o := OfferOf(offers, sender);
      badgeRegister := badgeRegister[thread := o.badge];
      var doCall := o.isCall || FaultOf(fault, sender) != NullFault;
      TakeFrom(sender, thread, ep, reply, doCall, o.canGrant || o.canGrantReply, before);
    }

    // -------------------------------------------------------------- cancelling everything at an object

    /** A thread of a cancelled queue runs again, or stays stopped if it waits for a fault to be handled. */
    method RestartThread(t: nat, ghost o: nat, ghost all: Waits, ghost q: seq<nat>, faults: map<nat, FaultType>)
      requires Inv(g, rank) && t in q && WaitInv(g.tsType, Remaining(all, o, q))
      modifies this`g
      ensures g == RestartOne(old(g), t, faults) && Inv(g, rank)
      ensures WaitInv(g.tsType, Remaining(all, o, RemoveAt(q, IndexOf(q, t))))
    {
      hide Inv, WaitInv;
      RestartInv(g, rank, Remaining(all, o, q), t, o, faults);
      RemainingLess(all, o, q, t);
      hide Remaining, Dequeued;
      if State(g, t).BlockedOnReceive? {
        var reply := ReplyOf(g, t);
        if reply != 0 {
          ReplyUnlink(reply, t);
        }
      }
      SetThreadState(t, if FaultOf(faults, t) == NullFault then Restart else Inactive);
    }

    /** Empties a queue and restarts its threads, first to last. */
    method RestartQueue(o: nat, faults: map<nat, FaultType>)
      requires Valid() && SignalsKept() && HasWaiters(KindOf(w, o))
      modifies this`g, this`w
      ensures Valid() && SignalsKept()
      ensures g == RestartAll(old(g), old(Queue(w, o)), faults)
      ensures w == Remaining(old(w), o, [])
    {
      hide Inv, WaitInv, Kept;
      ghost var w0 := w;
      var rest := Queue(w, o);
      HeadWaits(g.tsType, w, o);
      RemainingAll(g.tsType, w, o);
      RemainingActive(w, o);
      KeptSame(w, Remaining(w, o, []), ntfnMsg, pending);
      hide Dequeued, RestartOne, WaitsAt, KindOf, Queue, IdleOf, IndexOf, Remaining;
      MakeIdle(o);
      while rest != []
        invariant Inv(g, rank) && w == Remaining(w0, o, []) && Kept(w, ntfnMsg, pending)
        invariant WaitInv(g.tsType, Remaining(w0, o, rest))
        invariant RestartAll(old(g), Queue(w0, o), faults) == RestartAll(g, rest, faults)
        decreases |rest|
      {
        assert RemoveAt(rest, IndexOf(rest, rest[0])) == rest[1..] by {
          FirstIndex(rest);
        }
        RestartThread(rest[0], o, w0, rest, faults);
        rest := rest[1..];
      }
    }

    method MakeIdle(o: nat)
      modifies this`w
      ensures w == Remaining(old(w), o, [])
    {
      w := w.(kind := w.kind[o := IdleOf(KindOf(w, o))]);
      w := w.(queue := w.queue[o := []]);
    }

    method CancelAllIPC(ep: nat)
      requires Valid() && SignalsKept() && IdleOf(KindOf(w, ep)).EPIdle?
      modifies this`g, this`w
      ensures Valid() && SignalsKept()
      ensures g == RestartAll(old(g), old(Queue(w, ep)), fault)
      ensures w == if old(KindOf(w, ep)).EPIdle? then old(w) else Remaining(old(w), ep, [])
    {
      if KindOf(w, ep).EPIdle? {
        assert QueueOk(w, ep);
      } else {
        RestartQueue(ep, fault);
      }
    }

    method CancelAllSignals(ntfn: nat)
      requires Valid() && SignalsKept() && IdleOf(KindOf(w, ntfn)).NtfnIdle?
      modifies this`g, this`w
      ensures Valid() && SignalsKept()
      ensures g == RestartAll(old(g), old(Queue(w, ntfn)), map[])
      ensures w == if old(KindOf(w, ntfn)).NtfnWaiting? then Remaining(old(w), ntfn, []) else old(w)
    {
      if KindOf(w, ntfn).NtfnWaiting? {
        RestartQueue(ntfn, map[]);
      } else {
        assert QueueOk(w, ntfn);
      }
    }

    /** Removes exactly the senders with this badge; the others keep their order. */
    method CancelBadgedSends(ep: nat, badge: bv64)
      requires Valid() && SignalsKept() && IdleOf(KindOf(w, ep)).EPIdle?
      modifies this`g, this`w
      ensures Valid() && SignalsKept()
      ensures old(KindOf(w, ep)).EPSend? ==>
        && w == Remaining(old(w), ep, Unbadged(old(Queue(w, ep)), offers, badge))
        && g == RestartAll(old(g), Badged(old(Queue(w, ep)), offers, badge), fault)
      ensures !old(KindOf(w, ep)).EPSend? ==> w == old(w) && g == old(g)
    {
      if KindOf(w, ep).EPSend? {
        ghost var w0 := w;
        var threads := Queue(w, ep);
        RemainingAll(g.tsType, w, ep);
        hide Inv, WaitInv, Dequeued, WaitsAt, Queue, Kept, Remaining, KindOf, RestartAll, Badged, Unbadged;
        MakeIdle(ep);
        var queue := RestartBadged(ep, badge, threads, w0);
        Refilled(w0, ep, queue);
        w := w.(queue := w.queue[ep := queue]);
        if queue != [] {
          w := w.(kind := w.kind[ep := EPSend]);
        }
        RemainingKinds(w0, ep, queue);
        KeptSame(w0, w, ntfnMsg, pending);
      }
    }

    method RestartBadged(ep: nat, badge: bv64, threads: seq<nat>, ghost w0: Waits) returns (queue: seq<nat>)
      requires Inv(g, rank) && WaitInv(g.tsType, Remaining(w0, ep, threads))
      modifies this`g
      ensures Inv(g, rank) && WaitInv(g.tsType, Remaining(w0, ep, queue))
      ensures queue == Unbadged(threads, offers, badge)
      ensures g == RestartAll(old(g), Badged(threads, offers, badge), fault)
    {
      hide Inv, WaitInv, Remaining, RestartOne, RestartAll, IndexOf, RemoveAt, Unbadged, Badged;
      hide Queue, KindOf, Dequeued;
      ghost var g0 := g;
      queue := threads;
      var i := 0;
      UnbadgedNone(threads, offers, badge);
      while i < |threads|
        invariant i <= |threads| && Inv(g, rank)
        invariant queue == Unbadged(threads[..i], offers, badge) + threads[i..]
        invariant WaitInv(g.tsType, Remaining(w0, ep, queue))
        invariant RestartAll(g0, Badged(threads, offers, badge), fault)
               == RestartAll(g, Badged(threads[i..], offers, badge), fault)
      {
        var thread := threads[i];
        BadgedStep(threads, i, offers, badge);
        if OfferOf(offers, thread).badge == badge {
          NoDuplicatesIn(g.tsType, w0, ep, queue, |Unbadged(threads[..i], offers, badge)|);
          RestartFirst(g, thread, Badged(threads[i + 1..], offers, badge), fault);
          RestartThread(thread, ep, w0, queue, fault);
          queue := RemoveAt(queue, IndexOf(queue, thread));
        }
        i := i + 1;
      }
      assert threads[..i] == threads && threads[i..] == [];
      UnbadgedNone([], offers, badge);
      RestartNone(g, fault);
    }

    // -------------------------------------------------------------- the fast paths

    /** The checks of fastpath_call, as far as they concern threads, replies and queues. */
    ghost predicate FastCall(caller: nat, ep: nat)
      reads this`g, this`w, this`fault
    {
      && Acting(caller) && FaultOf(fault, caller).NullFault? && TcbSC(g, caller) != 0
      && KindOf(w, ep).EPRecv? && Queue(w, ep) != []
      && TcbSC(g, Queue(w, ep)[0]) == 0 && ReplyOf(g, Queue(w, ep)[0]) != 0
    }

    /** After its checks the fast path of a call does what the general path does. */
    method FastpathCall(caller: nat, ep: nat, badge: bv64)
      requires Valid() && FastCall(caller, ep)
      modifies this`g, this`w, this`rank, this`badgeRegister
      ensures Valid()
      ensures var dest := old(Queue(w, ep))[0];
        && SameLive(g, SentGraph(old(g), caller, dest, true, true, true))
        && old(dest in Queue(w, ep)) && w == Dequeued(old(w), dest, ep)
        && badgeRegister == old(badgeRegister)[dest := badge]
    {
      hide Inv, WaitInv;
      HeadWaits(g.tsType, w, ep);
      StatesIn(g);
      ghost var g0 := g;
      ghost var dest0 := Queue(w, ep)[0];
      FastCallGraph(g, rank, caller, dest0);
      SentInv(g, rank, w, caller, dest0, ep, true, true, true);
      ghost var newRank := SentRank(g, rank, caller, dest0, true, true, true);
      hide SentGraph, WaitsAt, FastCalled, Dequeued, Queue, KindOf, State, ReplyOf, TcbSC;
      var dest := DequeueFast(ep);
      FastLink(caller, dest);
      badgeRegister := badgeRegister[dest := badge];
      SameLiveInv(g, SentGraph(g0, caller, dest, true, true, true), newRank, w);
      rank := newRank;
    }

    method DequeueFast(ep: nat) returns (dest: nat)
      requires KindOf(w, ep).EPRecv? && Queue(w, ep) != []
      modifies this`w
      ensures dest == old(Queue(w, ep))[0] && w == Dequeued(old(w), dest, ep)
    {
      dest := Queue(w, ep)[0];
      var tail := Queue(w, ep)[1..];
      assert tail == RemoveAt(Queue(w, ep), 0);
      w := w.(queue := w.queue[ep := tail]);
      if tail == [] {
        w := w.(kind := w.kind[ep := EPIdle]);
      }
    }

    /** The check of fastpath_signal: the woken thread has a scheduling context, or the notification lends one. */
    predicate FastSignal(ntfn: nat)
      reads this`g, this`w, this`ntfnBoundTCB, this`ntfnSC
    {
      Woken(ntfn) != 0 && TcbSC(g, Woken(ntfn)) == 0 ==> Get(ntfnSC, ntfn) != 0 && ScTcb(g, Get(ntfnSC, ntfn)) == 0
    }

    /**
      After its checks the fast path of a signal does what the general path does, but that it leaves
      all faults alone; module FaultRuns says when that is the same.
     */
    method FastpathSignal(ntfn: nat, badge: bv64)
      requires Valid() && SignalsKept() && IdleOf(KindOf(w, ntfn)).NtfnIdle? && FastSignal(ntfn)
      modifies this`g, this`w, this`badgeRegister, this`ntfnMsg, this`pending
      ensures Valid() && SignalsKept()
      ensures old(Woken(ntfn)) != 0 ==>
        && badgeRegister == old(badgeRegister)[old(Woken(ntfn)) := badge] && pending == old(pending)
        && g == Signalled(old(g), old(Woken(ntfn)), Get(ntfnSC, ntfn))
        && old(Woken(ntfn) in Queue(w, WaitsAt(g.tsType, w, Woken(ntfn))))
        && w == Dequeued(old(w), old(Woken(ntfn)), old(WaitsAt(g.tsType, w, Woken(ntfn))))
      ensures old(Woken(ntfn)) == 0 ==>
        && badgeRegister == old(badgeRegister) && g == old(g)
        && w == OfKind(old(w), ntfn, NtfnActive)
        && pending == old(pending)[ntfn := old(Pending(pending, ntfn)) + [badge]]
    {
      hide Inv, WaitInv;
      WokenWaits(ntfn);
      hide Dequeued, Signalled, WaitsAt, SignalsKept;
      if KindOf(w, ntfn).NtfnActive? {
        SetActive(ntfn, badge);
        return;
      }
      var dest := if KindOf(w, ntfn).NtfnIdle? then Get(ntfnBoundTCB, ntfn) else Queue(w, ntfn)[0];
      if KindOf(w, ntfn).NtfnIdle? && (dest == 0 || !State(g, dest).BlockedOnReceive?) {
        SetActive(ntfn, badge);
        return;
      }
      FastWake(ntfn, dest, badge, KindOf(w, ntfn).NtfnIdle?);
    }

    method FastWake(ntfn: nat, dest: nat, badge: bv64, idle: bool)
      requires Valid() && SignalsKept() && FastSignal(ntfn) && dest != 0 && dest == Woken(ntfn)
      requires KindOf(w, ntfn).NtfnWaiting? || KindOf(w, ntfn).NtfnIdle?
      requires idle == KindOf(w, ntfn).NtfnIdle?
      modifies this`g, this`w, this`badgeRegister
      ensures Valid() && SignalsKept()
      ensures badgeRegister == old(badgeRegister)[dest := badge]
      ensures g == Signalled(old(g), dest, Get(ntfnSC, ntfn))
      ensures old(dest in Queue(w, WaitsAt(g.tsType, w, dest)))
      ensures w == Dequeued(old(w), dest, old(WaitsAt(g.tsType, w, dest)))
    {
      hide Inv, WaitInv;
      WokenWaits(ntfn);
      StatesIn(g);
      SignalledInv(g, rank, w, dest, Get(ntfnSC, ntfn));
      DequeuedActive(g.tsType, w, dest);
      FastWaiter(g, rank, w, ntfn, dest);
      ghost var w' := Dequeued(w, dest, WaitsAt(g.tsType, w, dest));
      KeptSame(w, w', ntfnMsg, pending);
      hide Signalled, Dequeued, Kept;
      if idle {
        TcbEPDequeue(dest, Get(w.blockingObject, dest));
      } else {
        var first := TakeFirst(ntfn);
      }
      FastGraph(dest, Get(ntfnSC, ntfn));
      badgeRegister := badgeRegister[dest := badge];
    }

    method FastGraph(dest: nat, sc: nat)
      requires dest != 0 && (State(g, dest).BlockedOnReceive? || State(g, dest).BlockedOnNotification?)
      requires ReplyOf(g, dest) != 0 ==> ReplyTcb(g, ReplyOf(g, dest)) == dest
      requires TcbSC(g, dest) == 0 ==> sc != 0 && ScTcb(g, sc) == 0
      modifies this`g
      ensures g == Signalled(old(g), dest, sc)
    {
      FastSignalGraph(g, dest, sc);
      hide Signalled;
      if ReplyOf(g, dest) != 0 {
        ReplyUnlink(ReplyOf(g, dest), dest);
      }
      SetThreadState(dest, Running);
      if TcbSC(g, dest) == 0 {
        g := g.(scTcb := g.scTcb[sc := dest]);
        g := g.(tcbSC := g.tcbSC[dest := sc]);
      }
    }

    /** Unlinks the destination from the reply, links the caller to it, and passes the context on. */
    method FastLink(caller: nat, dest: nat)
      modifies this`g
      ensures g == FastCalled(old(g), caller, dest)
    {
      var reply := ReplyOf(g, dest);
      var sc := TcbSC(g, caller);
      var oldCaller := ScReply(g, sc);
      g := g.(tsType := g.tsType[caller := BlockedOnReply]);
      g := g.(replyObject := g.replyObject[dest := 0]);
      g := g.(replyObject := g.replyObject[caller := reply]);
      g := g.(replyTCB := g.replyTCB[reply := caller]);
      g := g.(scTcb := g.scTcb[sc := dest]);
      g := g.(tcbSC := g.tcbSC[dest := sc]);
      g := g.(tcbSC := g.tcbSC[caller := 0]);
      g := g.(replyPrev := g.replyPrev[reply := oldCaller]);
      if oldCaller != 0 {
        g := g.(replyNext := g.replyNext[oldCaller := CallStack(reply, false)]);
      }
      g := g.(replyNext := g.replyNext[reply := CallStack(sc, true)]);
      g := g.(scReply := g.scReply[sc := reply]);
      g := g.(tsType := g.tsType[dest := Running]);
    }

    /** Answers a caller: its thread leaves the call stack and runs again, unless its fault handler says no. */
    method DoReplyTransfer(reply: nat, restart: bool)
      requires Valid()
      modifies this`g, this`fault, this`badgeRegister
      ensures Valid() && g == Replied(old(g), reply, old(fault), restart)
      ensures var receiver := ReplyTcb(old(g), reply);
        fault == if receiver != 0 && State(old(g), receiver).BlockedOnReply?
                    && FaultOf(old(fault), receiver) != NullFault
                 then old(fault)[receiver := NullFault] else old(fault)
      ensures var receiver := ReplyTcb(old(g), reply);
        badgeRegister == if receiver != 0 && State(old(g), receiver).BlockedOnReply?
                            && FaultOf(old(fault), receiver) == NullFault
                         then old(badgeRegister)[receiver := 0] else old(badgeRegister)
    {
      hide Inv, WaitInv;
      var receiver := ReplyTcb(g, reply);
      if receiver == 0 || !State(g, receiver).BlockedOnReply? {
        return;
      }
      RepliedInv(g, rank, w, reply, fault, restart);
      hide Removed;
      ReplyRemove(reply, receiver);
      if FaultOf(fault, receiver) == NullFault {
        badgeRegister := badgeRegister[receiver := 0];
        SetThreadState(receiver, Running);
      } else {
        fault := fault[receiver := NullFault];
        SetThreadState(receiver, if restart then Restart else Inactive);
      }
    }

    /** The checks of fastpath_reply_recv, as far as they concern threads, replies and queues. */
    ghost predicate FastReplyRecv(thread: nat, ep: nat, reply: nat)
      reads this`g, this`w, this`fault, this`tcbBoundNtfn
    {
      && Acting(thread) && ep != 0 && IdleOf(KindOf(w, ep)).EPIdle? && !KindOf(w, ep).EPSend?
      && (Get(tcbBoundNtfn, thread) != 0 ==> !KindOf(w, Get(tcbBoundNtfn, thread)).NtfnActive?)
      && reply != 0 && ReplyTcb(g, reply) != 0 && Next(g, reply).isHead && Next(g, reply).ptr == TcbSC(g, thread)
      && FaultOf(fault, ReplyTcb(g, reply)).NullFault? && TcbSC(g, ReplyTcb(g, reply)) == 0
    }

    /** Receiving where no signal and no message is there, with a reply object that is free. */
    method ReceiveNothing(thread: nat, ep: nat, reply: nat)
      requires Valid() && SignalsKept() && Acting(thread) && ep != 0 && IdleOf(KindOf(w, ep)).EPIdle?
      requires !KindOf(w, ep).EPSend?
      requires Get(tcbBoundNtfn, thread) != 0 ==> !KindOf(w, Get(tcbBoundNtfn, thread)).NtfnActive?
      requires Freed(g, reply) == g && FreedWaits(g, w, reply) == w && FreedFaults(g, fault, reply) == fault
      requires Returned(g, Get(ntfnSC, Get(tcbBoundNtfn, thread)), thread) == g
      modifies this`g, this`w, this`rank, this`fault, this`badgeRegister, this`pending
      ensures Valid()
      ensures g == Receiving(old(g), thread, reply) && w == Enqueued(old(w), thread, ep, EPRecv)
      ensures fault == old(fault) && badgeRegister == old(badgeRegister) && pending == old(pending)
    {
      hide *;
      ReceiveIPC(thread, ep, true, reply);
    }

    /** The general path: answer the caller, then wait for the next message with the same reply object. */
    method ReplyRecv(thread: nat, ep: nat, reply: nat)
      requires Valid() && SignalsKept() && FastReplyRecv(thread, ep, reply)
      modifies this`g, this`w, this`rank, this`fault, this`badgeRegister, this`pending
      ensures Valid()
      ensures g == RepliedAndWaiting(old(g), thread, reply) && w == Enqueued(old(w), thread, ep, EPRecv)
      ensures badgeRegister == old(badgeRegister)[ReplyTcb(old(g), reply) := 0]
      ensures fault == old(fault) && pending == old(pending)
    {
      hide Inv, WaitInv;
      ReplyRecvFacts(g, rank, thread, reply, Get(ntfnSC, Get(tcbBoundNtfn, thread)), fault);
      hide Popped, Removed, Dequeued, Enqueued, Receiving, Returned, Kept, Lent, TakenGraph, Cancelled, OrAll, Loose,
        Freed, FreedWaits, FreedFaults, Replied, State, InState, KindOf, Queue, ReplyTcb, FaultOf, Pending;
      DoReplyTransfer(reply, false);
      ReceiveNothing(thread, ep, reply);
    }

    /** After its checks the fast path of a reply does what the general path does. */
    method FastpathReplyRecv(thread: nat, ep: nat, reply: nat)
      requires Valid() && FastReplyRecv(thread, ep, reply)
      modifies this`g, this`w, this`badgeRegister
      ensures Valid()
      ensures SameLive(g, RepliedAndWaiting(old(g), thread, reply)) && w == Enqueued(old(w), thread, ep, EPRecv)
      ensures badgeRegister == old(badgeRegister)[ReplyTcb(old(g), reply) := 0]
    {
      hide *;
      ghost var g0 := g;
      FastReplyRecvFacts(thread, ep, reply);
      FastReplyGraph(g, rank, thread, reply);
      RepliedAndWaitingInv(g, rank, w, thread, ep, reply);
      badgeRegister := badgeRegister[ReplyTcb(g, reply) := 0];
      FastSwap(thread, reply);
      FastEnqueue(thread, ep);
      SameLiveInv(g, RepliedAndWaiting(g0, thread, reply), rank, w);
      ValidFrom();
    }

    lemma FastReplyRecvFacts(thread: nat, ep: nat, reply: nat)
      requires Valid() && FastReplyRecv(thread, ep, reply)
      ensures Inv(g, rank) && WaitInv(g.tsType, w)
      ensures thread != 0 && State(g, thread) in {Running, Restart} && ep != 0
      ensures reply != 0 && ReplyTcb(g, reply) != 0 && Next(g, reply).isHead
      ensures Next(g, reply).ptr == TcbSC(g, thread) && TcbSC(g, ReplyTcb(g, reply)) == 0
      ensures KindOf(w, ep).EPIdle? || KindOf(w, ep).EPRecv?
    {
      hide Inv, WaitInv;
    }

    lemma ValidFrom()
      requires Inv(g, rank) && WaitInv(g.tsType, w)
      ensures Valid()
    {
    }

    /** A shorter way into an empty queue. */
    method FastEnqueue(thread: nat, ep: nat)
      modifies this`w
      ensures w == Enqueued(old(w), thread, ep, EPRecv)
    {
      if KindOf(w, ep).EPIdle? && Queue(w, ep) == [] {
        EnqueuedAlone(w, thread, ep);
        w := w.(queue := w.queue[ep := [thread]], blockingObject := w.blockingObject[thread := ep]);
        w := w.(kind := w.kind[ep := EPRecv]);
      } else {
        w := Enqueued(w, thread, ep, EPRecv);
      }
    }

    /** Blocks the thread, passes its scheduling context to the caller, and takes the reply off the stack. */
    method FastSwap(thread: nat, reply: nat)
      modifies this`g
      ensures g == FastReplied(old(g), thread, reply)
    {
      var caller := ReplyTcb(g, reply);
      g := g.(tsType := g.tsType[thread := BlockedOnReceive]);
      g := g.(replyObject := g.replyObject[caller := 0]);
      g := g.(replyObject := g.replyObject[thread := reply]);
      g := g.(replyTCB := g.replyTCB[reply := thread]);
      var prevPtr := Prev(g, reply);
      var sc := TcbSC(g, thread);
      g := g.(tcbSC := g.tcbSC[thread := 0]);
      g := g.(tcbSC := g.tcbSC[caller := sc]);
      g := g.(scTcb := g.scTcb[sc := caller]);
      g := g.(scReply := g.scReply[sc := prevPtr]);
      if prevPtr != 0 {
        g := g.(replyNext := g.replyNext[prevPtr := Next(g, reply)]);
      }
      g := g.(replyPrev := g.replyPrev[reply := 0]);
      g := g.(replyNext := g.replyNext[reply := CallStack(0, false)]);
      g := g.(tsType := g.tsType[caller := Running]);
    }
  }

  /** A thread taken out of its message passing; it is left stopped. */
  function Cancelled(g: Graph, t: nat): Graph {
    if State(g, t).BlockedOnReply? then RemovedTcb(g, t)
    else if State(g, t).BlockedOnReceive? then InState(Received(g, t), t, Inactive)
    else if Waiting(State(g, t)) then InState(g, t, Inactive)
    else g
  }

  lemma CancelledStates(g: Graph, t: nat)
    ensures var h := Cancelled(g, t);
      forall y :: State(h, y) == if y == t && (Waiting(State(g, t)) || State(g, t).BlockedOnReply?) then Inactive
                                 else State(g, y)
  {
    if State(g, t).BlockedOnReply? {
      UnlinkedFields(CutOut(g, ReplyOf(g, t)), ReplyOf(g, t), t);
      assert forall y :: State(CutOut(g, ReplyOf(g, t)), y) == State(g, y);
    } else if State(g, t).BlockedOnReceive? {
      UnlinkedFields(g, ReplyOf(g, t), t);
      InStateStates(Received(g, t), t, Inactive);
    } else if Waiting(State(g, t)) {
      InStateStates(g, t, Inactive);
    }
    hide State, ReplyOf, CutOut, Unlinked, InState;
  }

  lemma CancelledGraph(g: Graph, rank: map<nat, nat>, t: nat)
    requires Inv(g, rank)
    ensures Inv(Cancelled(g, t), rank)
  {
    if State(g, t).BlockedOnReply? {
      assert ReplyOf(g, t) != 0 && ReplyTcb(g, ReplyOf(g, t)) == t && t != 0;
      CutInv(g, rank, ReplyOf(g, t), t);
    } else if State(g, t).BlockedOnReceive? {
      ReceivedInv(g, rank, t);
      InStateInv(Received(g, t), rank, t, Inactive);
    } else if Waiting(State(g, t)) {
      InStateInv(g, rank, t, Inactive);
    }
  }

  lemma CancelledInv(g: Graph, rank: map<nat, nat>, w: Waits, t: nat)
    requires Inv(g, rank) && WaitInv(g.tsType, w)
    ensures Inv(Cancelled(g, t), rank)
    ensures Waiting(State(g, t)) ==> t in Queue(w, WaitsAt(g.tsType, w, t))
    ensures WaitInv(Cancelled(g, t).tsType,
                    if Waiting(State(g, t)) then Dequeued(w, t, WaitsAt(g.tsType, w, t)) else w)
  {
    hide Inv;
    var h := Cancelled(g, t);
    CancelledGraph(g, rank, t);
    CancelledStates(g, t);
    StatesIn(g);
    StatesIn(h);
    hide Inv, Cancelled, State, Dequeued, QueueOk;
    if Waiting(State(g, t)) {
      DequeuedInv(g.tsType, w, t, WaitsAt(g.tsType, w, t), Inactive);
      InMap(g.tsType, t, Inactive);
      SameStates(g.tsType[t := Inactive], h.tsType, Dequeued(w, t, WaitsAt(g.tsType, w, t)));
    } else if State(g, t).BlockedOnReply? {
      StateInv(g.tsType, w, t, Inactive);
      InMap(g.tsType, t, Inactive);
      SameStates(g.tsType[t := Inactive], h.tsType, w);
    } else {
      SameStates(g.tsType, h.tsType, w);
    }
  }

  lemma InMap(st: map<nat, TsType>, t: nat, s: TsType)
    ensures var st' := st[t := s];
      forall y :: StateIn(st', y) == if y == t then s else StateIn(st, y)
  {
  }

  /** What receiving from a blocked sender does to threads and call stacks. */
  function TakenGraph(g: Graph, sender: nat, thread: nat, reply: nat, call: bool, mayReply: bool, canLend: bool): Graph
  {
    if call then
      if mayReply && reply != 0 then Pushed(g, sender, thread, reply, TcbSC(g, sender) != 0 && canLend)
      else InState(g, sender, Inactive)
    else InState(g, sender, Running)
  }

  lemma TakenInv(g: Graph, rank: map<nat, nat>, w: Waits, sender: nat, thread: nat, ep: nat, reply: nat, call: bool,
                 mayReply: bool, canLend: bool)
    requires Inv(g, rank) && WaitInv(g.tsType, w) && sender in Queue(w, ep) && sender != 0 && thread != 0
    requires State(g, sender).BlockedOnSend? && (reply != 0 ==> ReplyTcb(g, reply) == 0)
    ensures var h := TakenGraph(g, sender, thread, reply, call, mayReply, canLend);
      && Inv(h, if call && mayReply && reply != 0 then
                  PushRank(g, rank, sender, thread, reply, TcbSC(g, sender) != 0 && canLend) else rank)
      && WaitInv(h.tsType, Dequeued(w, sender, ep))
  {
    hide Inv;
    var h := TakenGraph(g, sender, thread, reply, call, mayReply, canLend);
    var s := if call then if mayReply && reply != 0 then BlockedOnReply else Inactive else Running;
    if call && mayReply && reply != 0 {
      FreeIsLoose(g, rank, reply);
      PushedInv(g, rank, sender, thread, reply, TcbSC(g, sender) != 0 && canLend);
      PushedStates(g, sender, thread, reply, TcbSC(g, sender) != 0 && canLend);
    } else {
      InStateInv(g, rank, sender, s);
      InStateStates(g, sender, s);
    }
    StatesIn(g);
    StatesIn(h);
    hide Inv, TakenGraph, Dequeued, State;
    DequeuedInv(g.tsType, w, sender, ep, s);
    InMap(g.tsType, sender, s);
    SameStates(g.tsType[sender := s], h.tsType, Dequeued(w, sender, ep));
  }

  function Returned(g: Graph, sc: nat, tcb: nat): Graph {
    if sc != 0 && sc == TcbSC(g, tcb) then g.(tcbSC := g.tcbSC[tcb := 0], scTcb := g.scTcb[sc := 0]) else g
  }

  lemma ReturnedInv(g: Graph, rank: map<nat, nat>, sc: nat, tcb: nat)
    requires Inv(g, rank)
    ensures Inv(Returned(g, sc, tcb), rank)
  {
    var h := Returned(g, sc, tcb);
    assert Links(h) && Ranked(h, rank) && Blocked(h) by {
      SameButBound(g, h, rank);
    }
    if sc != 0 && sc == TcbSC(g, tcb) {
      assert forall s :: ScTcb(h, s) == if s == sc then 0 else ScTcb(g, s);
      assert forall t :: TcbSC(h, t) == if t == tcb then 0 else TcbSC(g, t);
      hide ScTcb, TcbSC, Returned;
    }
  }

  lemma SameButBound(g: Graph, h: Graph, rank: map<nat, nat>)
    requires Links(g) && Ranked(g, rank) && Blocked(g)
    requires h == g.(tcbSC := h.tcbSC, scTcb := h.scTcb)
    ensures Links(h) && Ranked(h, rank) && Blocked(h)
  {
    assert forall r :: Prev(h, r) == Prev(g, r) && Next(h, r) == Next(g, r) && ReplyTcb(h, r) == ReplyTcb(g, r);
    assert forall s :: ScReply(h, s) == ScReply(g, s);
    assert forall t :: State(h, t) == State(g, t) && ReplyOf(h, t) == ReplyOf(g, t);
    hide ReplyTcb, State, ReplyOf, Prev, Next, ScReply;
  }

  function Lent(g: Graph, sc: nat, tcb: nat): Graph {
    if TcbSC(g, tcb) == 0 && sc != 0 && ScTcb(g, sc) == 0 then Donated(g, sc, tcb) else g
  }

  /** The thread that a signal wakes: the first that waits, or the bound thread if it waits for messages. */
  function WokenBy(g: Graph, w: Waits, bound: map<nat, nat>, ntfn: nat): nat {
    if KindOf(w, ntfn).NtfnWaiting? && Queue(w, ntfn) != [] then Queue(w, ntfn)[0]
    else if KindOf(w, ntfn).NtfnIdle? && State(g, Get(bound, ntfn)).BlockedOnReceive? then Get(bound, ntfn)
    else 0
  }

  /** The faults after sendSignal: cancelling the bound thread's wait for a message clears its fault. */
  function SignalFaults(g: Graph, w: Waits, bound: map<nat, nat>, faults: map<nat, FaultType>, ntfn: nat)
    : map<nat, FaultType>
  {
    var t := WokenBy(g, w, bound, ntfn);
    if t != 0 && KindOf(w, ntfn).NtfnIdle? then faults[t := NullFault] else faults
  }

  /** A thread woken by a signal, which borrows the notification's scheduling context if it needs one. */
  function Signalled(g: Graph, t: nat, sc: nat): Graph {
    Lent(InState(Cancelled(g, t), t, Running), sc, t)
  }

  lemma LentInv(g: Graph, rank: map<nat, nat>, sc: nat, tcb: nat)
    requires Inv(g, rank) && tcb != 0
    ensures Inv(Lent(g, sc, tcb), rank)
  {
    if TcbSC(g, tcb) == 0 && sc != 0 && ScTcb(g, sc) == 0 {
      DonatedOthers(g, sc, tcb, rank);
      DonatedBound(g, sc, tcb);
    }
  }

  lemma KeptActive(w: Waits, msg: map<nat, bv64>, pending: map<nat, seq<bv64>>, n: nat, badge: bv64)
    requires Kept(w, msg, pending) && !HasWaiters(KindOf(w, n))
    ensures var word := if KindOf(w, n).NtfnActive? then Badge(msg, n) | badge else badge;
      Kept(OfKind(w, n, NtfnActive), msg[n := word], pending[n := Pending(pending, n) + [badge]])
  {
    var word := if KindOf(w, n).NtfnActive? then Badge(msg, n) | badge else badge;
    var badges := Pending(pending, n) + [badge];
    OrMore(Pending(pending, n), badge);
    FirstBadge(badge);
    assert word == OrAll(badges);
    OfKindFields(w, n, NtfnActive);
    PendingFields(pending, n, badges);
    BadgeFields(msg, n, word);
    hide KindOf, Pending, Badge, OrAll;
  }

  lemma KeptSame(w: Waits, v: Waits, msg: map<nat, bv64>, pending: map<nat, seq<bv64>>)
    requires Kept(w, msg, pending)
    requires forall n :: KindOf(v, n).NtfnActive? <==> KindOf(w, n).NtfnActive?
    ensures Kept(v, msg, pending)
  {
    hide KindOf, Pending, Badge, OrAll;
  }

  lemma FirstBadge(badge: bv64)
    ensures OrAll([]) | badge == badge
  {
  }

  lemma OrMore(badges: seq<bv64>, badge: bv64)
    ensures OrAll(badges + [badge]) == OrAll(badges) | badge
  {
    assert (badges + [badge])[..|badges|] == badges;
  }

  /** A thread that stops waiting does not make a notification active or inactive. */
  lemma DequeuedActive(st: map<nat, TsType>, w: Waits, t: nat)
    requires WaitInv(st, w) && Waiting(StateIn(st, t))
    ensures t in Queue(w, WaitsAt(st, w, t))
    ensures forall n :: KindOf(Dequeued(w, t, WaitsAt(st, w, t)), n).NtfnActive? <==> KindOf(w, n).NtfnActive?
  {
    assert QueueOk(w, WaitsAt(st, w, t));
  }

  function Freed(g: Graph, reply: nat): Graph {
    if reply != 0 && ReplyTcb(g, reply) != 0 then Cancelled(g, ReplyTcb(g, reply)) else g
  }

  function FreedFaults(g: Graph, faults: map<nat, FaultType>, reply: nat): map<nat, FaultType> {
    if reply != 0 && ReplyTcb(g, reply) != 0 then faults[ReplyTcb(g, reply) := NullFault] else faults
  }

  ghost function FreedWaits(g: Graph, w: Waits, reply: nat): Waits {
    if reply != 0 && ReplyTcb(g, reply) != 0 && State(g, ReplyTcb(g, reply)).BlockedOnReceive?
       && ReplyTcb(g, reply) in Queue(w, WaitsAt(g.tsType, w, ReplyTcb(g, reply)))
    then Dequeued(w, ReplyTcb(g, reply), WaitsAt(g.tsType, w, ReplyTcb(g, reply)))
    else w
  }

  /** Waking a waiting thread by a signal keeps the call stacks and the queues in order. */
  lemma SignalledInv(g: Graph, rank: map<nat, nat>, w: Waits, t: nat, sc: nat)
    requires Inv(g, rank) && WaitInv(g.tsType, w) && t != 0 && Waiting(State(g, t))
    ensures Inv(Signalled(g, t, sc), rank) && t in Queue(w, WaitsAt(g.tsType, w, t))
    ensures WaitInv(Signalled(g, t, sc).tsType, Dequeued(w, t, WaitsAt(g.tsType, w, t)))
  {
    hide Inv, WaitInv;
    CancelledInv(g, rank, w, t);
    var c, v := Cancelled(g, t), Dequeued(w, t, WaitsAt(g.tsType, w, t));
    var r := InState(c, t, Running);
    CancelledStates(g, t);
    NoReply(c, t);
    InStateInv(c, rank, t, Running);
    LentInv(r, rank, sc, t);
    StatesIn(c);
    hide Cancelled, Dequeued, WaitsAt, State;
    StateInv(c.tsType, v, t, Running);
    SameStates(r.tsType, Lent(r, sc, t).tsType, v);
  }

  /** What the fast path of a signal relies on: where the thread waits, and its reply object if it has one. */
  lemma FastWaiter(g: Graph, rank: map<nat, nat>, w: Waits, ntfn: nat, dest: nat)
    requires Inv(g, rank) && WaitInv(g.tsType, w) && dest != 0
    requires State(g, dest).BlockedOnReceive? || (KindOf(w, ntfn).NtfnWaiting? && dest in Queue(w, ntfn))
    ensures State(g, dest).BlockedOnReceive? ==>
      && WaitsAt(g.tsType, w, dest) == Get(w.blockingObject, dest)
      && (ReplyOf(g, dest) != 0 ==> ReplyTcb(g, ReplyOf(g, dest)) == dest)
    ensures KindOf(w, ntfn).NtfnWaiting? && dest in Queue(w, ntfn) ==>
      State(g, dest).BlockedOnNotification? && WaitsAt(g.tsType, w, dest) == ntfn
  {
    StatesIn(g);
    if KindOf(w, ntfn).NtfnWaiting? && dest in Queue(w, ntfn) {
      HeadWaits(g.tsType, w, ntfn);
    }
  }

  /** The state after the fast path of a signal, which donates without looking at a former owner. */
  lemma FastSignalGraph(g: Graph, t: nat, sc: nat)
    requires t != 0 && (State(g, t).BlockedOnReceive? || State(g, t).BlockedOnNotification?)
    requires TcbSC(g, t) == 0 ==> sc != 0 && ScTcb(g, sc) == 0
    ensures var u := InState(if State(g, t).BlockedOnReceive? then Received(g, t) else g, t, Running);
      && TcbSC(u, t) == TcbSC(g, t)
      && Signalled(g, t, sc)
         == if TcbSC(g, t) == 0 then u.(scTcb := u.scTcb[sc := t], tcbSC := u.tcbSC[t := sc]) else u
  {
    var u := InState(if State(g, t).BlockedOnReceive? then Received(g, t) else g, t, Running);
    var received := if State(g, t).BlockedOnReceive? then Received(g, t) else g;
    assert received.tsType[t := Inactive][t := Running] == received.tsType[t := Running];
    assert InState(Cancelled(g, t), t, Running) == u;
    assert TcbSC(u, t) == TcbSC(g, t) && ScTcb(u, sc) == ScTcb(g, sc);
  }

  /** A thread that waits at a notification uses no reply object; waking it needs no other change. */
  lemma NotificationWaiter(g: Graph, rank: map<nat, nat>, w: Waits, ntfn: nat, t: nat)
    requires Inv(g, rank) && WaitInv(g.tsType, w) && KindOf(w, ntfn).NtfnWaiting? && t in Queue(w, ntfn)
    ensures State(g, t).BlockedOnNotification? && WaitsAt(g.tsType, w, t) == ntfn
    ensures InState(Cancelled(g, t), t, Running) == InState(g, t, Running)
    ensures Inv(InState(g, t, Running), rank)
    ensures WaitInv(InState(g, t, Running).tsType, Dequeued(w, t, ntfn))
  {
    hide Inv;
    StatesIn(g);
    HeadWaits(g.tsType, w, ntfn);
    assert g.tsType[t := Inactive][t := Running] == g.tsType[t := Running];
    InStateInv(g, rank, t, Running);
    DequeuedInv(g.tsType, w, t, ntfn, Running);
  }

  lemma FreedFacts(g: Graph, rank: map<nat, nat>, w: Waits, reply: nat, thread: nat)
    requires Inv(g, rank) && WaitInv(g.tsType, w) && thread != 0 && State(g, thread) in {Running, Restart}
    ensures reply != 0 ==> ReplyTcb(g, reply) != thread && ReplyTcb(Freed(g, reply), reply) == 0
    ensures State(Freed(g, reply), thread) == State(g, thread)
    ensures reply != 0 && ReplyTcb(g, reply) != 0 ==> UsesReply(State(g, ReplyTcb(g, reply)))
    ensures reply != 0 && ReplyTcb(g, reply) != 0 && State(g, ReplyTcb(g, reply)).BlockedOnReceive? ==>
      ReplyTcb(g, reply) in Queue(w, WaitsAt(g.tsType, w, ReplyTcb(g, reply)))
  {
    if reply != 0 && ReplyTcb(g, reply) != 0 {
      var t := ReplyTcb(g, reply);
      assert ReplyOf(g, t) == reply;
      CancelledStates(g, t);
      StatesIn(g);
    }
  }

  lemma DequeuedIdle(st: map<nat, TsType>, w: Waits, t: nat)
    requires WaitInv(st, w) && Waiting(StateIn(st, t))
    ensures t in Queue(w, WaitsAt(st, w, t))
    ensures forall o :: IdleOf(KindOf(Dequeued(w, t, WaitsAt(st, w, t)), o)) == IdleOf(KindOf(w, o))
  {
  }

  lemma EnqueuedQuiet(w: Waits, t: nat, o: nat)
    requires !KindOf(w, o).NtfnActive?
    ensures forall n :: KindOf(Enqueued(w, t, o, NtfnWaiting), n).NtfnActive? <==> KindOf(w, n).NtfnActive?
  {
  }

  lemma EnqueuedActive(w: Waits, t: nat, o: nat)
    requires !KindOf(w, o).NtfnActive?
    ensures forall n :: KindOf(Enqueued(w, t, o, EPRecv), n).NtfnActive? <==> KindOf(w, n).NtfnActive?
  {
  }

  lemma ReturnedKeeps(g: Graph, sc: nat, tcb: nat)
    ensures var h := Returned(g, sc, tcb);
      (forall t :: State(h, t) == State(g, t)) && (forall r :: ReplyTcb(h, r) == ReplyTcb(g, r))
  {
  }

  /** The queues while the queue of one object has been cut down to `q`. */
  function Remaining(w: Waits, o: nat, q: seq<nat>): Waits {
    w.(queue := w.queue[o := q], kind := w.kind[o := if q == [] then IdleOf(KindOf(w, o)) else KindOf(w, o)])
  }

  function RestartOne(g: Graph, t: nat, faults: map<nat, FaultType>): Graph {
    InState(if State(g, t).BlockedOnReceive? then Received(g, t) else g, t,
            if FaultOf(faults, t) == NullFault then Restart else Inactive)
  }

  function RestartAll(g: Graph, q: seq<nat>, faults: map<nat, FaultType>): Graph
    decreases |q|
  {
    if q == [] then g else RestartAll(RestartOne(g, q[0], faults), q[1..], faults)
  }

  function Badged(q: seq<nat>, offers: map<nat, Offer>, badge: bv64): seq<nat> {
    if q == [] then []
    else (if OfferOf(offers, q[0]).badge == badge then [q[0]] else []) + Badged(q[1..], offers, badge)
  }

  function Unbadged(q: seq<nat>, offers: map<nat, Offer>, badge: bv64): seq<nat> {
    if q == [] then []
    else
      var n := |q| - 1;
      Unbadged(q[..n], offers, badge) + (if OfferOf(offers, q[n]).badge == badge then [] else [q[n]])
  }

  lemma UnbadgedNone(threads: seq<nat>, offers: map<nat, Offer>, badge: bv64)
    ensures threads[0..] == threads && Unbadged(threads[..0], offers, badge) + threads == threads
    ensures Badged([], offers, badge) == []
  {
  }

  lemma RestartNone(g: Graph, faults: map<nat, FaultType>)
    ensures RestartAll(g, [], faults) == g
  {
  }

  lemma RestartFirst(g: Graph, t: nat, rest: seq<nat>, faults: map<nat, FaultType>)
    ensures RestartAll(g, [t] + rest, faults) == RestartAll(RestartOne(g, t, faults), rest, faults)
  {
    assert ([t] + rest)[1..] == rest;
  }

  lemma FirstIndex(q: seq<nat>)
    requires q != []
    ensures IndexOf(q, q[0]) == 0 && RemoveAt(q, 0) == q[1..]
  {
  }

  lemma UnbadgedNext(threads: seq<nat>, i: nat, offers: map<nat, Offer>, badge: bv64)
    requires i < |threads|
    ensures var hit, kept := OfferOf(offers, threads[i]).badge == badge, Unbadged(threads[..i], offers, badge);
      && Unbadged(threads[..i + 1], offers, badge) == (if hit then kept else kept + [threads[i]])
      && Badged(threads[i..], offers, badge)
         == (if hit then [threads[i]] else []) + Badged(threads[i + 1..], offers, badge)
      && threads[i..] == [threads[i]] + threads[i + 1..]
  {
    assert threads[..i + 1][..i] == threads[..i];
    assert threads[i..][1..] == threads[i + 1..];
  }

  /** What is left to do at position `i`, with the threads kept so far in front. */
  lemma BadgedStep(threads: seq<nat>, i: nat, offers: map<nat, Offer>, badge: bv64)
    requires i < |threads|
    ensures var kept := Unbadged(threads[..i], offers, badge);
      var queue, later := kept + threads[i..], Badged(threads[i + 1..], offers, badge);
      && queue[|kept|] == threads[i]
      && (if OfferOf(offers, threads[i]).badge == badge then
            && RemoveAt(queue, |kept|) == Unbadged(threads[..i + 1], offers, badge) + threads[i + 1..]
            && Badged(threads[i..], offers, badge) == [threads[i]] + later
          else
            && queue == Unbadged(threads[..i + 1], offers, badge) + threads[i + 1..]
            && Badged(threads[i..], offers, badge) == later)
  {
    hide Unbadged, Badged, RemoveAt;
    UnbadgedNext(threads, i, offers, badge);
    var kept := Unbadged(threads[..i], offers, badge);
    InTheMiddle(kept, threads[i], threads[i + 1..]);
    NothingBefore(Badged(threads[i + 1..], offers, badge));
  }

  lemma InTheMiddle(kept: seq<nat>, t: nat, rest: seq<nat>)
    ensures var queue := kept + ([t] + rest);
      queue[|kept|] == t && RemoveAt(queue, |kept|) == kept + rest && queue == kept + [t] + rest
  {
  }

  lemma NothingBefore(q: seq<nat>)
    ensures [] + q == q
  {
  }

  /** Restarted threads run or are stopped, as their faults say; all others stay as they are. */
  lemma {:induction false} RestartedStates(g: Graph, q: seq<nat>, faults: map<nat, FaultType>, t: nat)
    ensures State(RestartAll(g, q, faults), t)
         == if t in q then if FaultOf(faults, t) == NullFault then Restart else Inactive else State(g, t)
    decreases |q|
  {
    if q != [] {
      RestartedStates(RestartOne(g, q[0], faults), q[1..], faults, t);
    }
  }

  lemma RestartInv(g: Graph, rank: map<nat, nat>, w: Waits, t: nat, o: nat, faults: map<nat, FaultType>)
    requires Inv(g, rank) && WaitInv(g.tsType, w) && t in Queue(w, o)
    ensures var h := RestartOne(g, t, faults); Inv(h, rank) && WaitInv(h.tsType, Dequeued(w, t, o))
    ensures State(g, t).BlockedOnReceive? && ReplyOf(g, t) != 0 ==> ReplyTcb(g, ReplyOf(g, t)) == t
  {
    hide Inv;
    var s := if FaultOf(faults, t) == NullFault then Restart else Inactive;
    var u := if State(g, t).BlockedOnReceive? then Received(g, t) else g;
    OnlyThere(g.tsType, w, t, o);
    StatesIn(g);
    if State(g, t).BlockedOnReceive? {
      ReceivedInv(g, rank, t);
    }
    InStateInv(u, rank, t, s);
    InStateStates(u, t, s);
    StatesIn(InState(u, t, s));
    hide Inv, InState, Dequeued, State, Received, Queue;
    DequeuedInv(g.tsType, w, t, o, s);
    InMap(g.tsType, t, s);
    SameStates(g.tsType[t := s], InState(u, t, s).tsType, Dequeued(w, t, o));
  }

  lemma RemainingLess(w: Waits, o: nat, q: seq<nat>, t: nat)
    requires t in q
    ensures Queue(Remaining(w, o, q), o) == q
    ensures Dequeued(Remaining(w, o, q), t, o) == Remaining(w, o, RemoveAt(q, IndexOf(q, t)))
  {
  }

  lemma RemainingAll(st: map<nat, TsType>, w: Waits, o: nat)
    requires WaitInv(st, w) && HasWaiters(KindOf(w, o))
    ensures Remaining(w, o, Queue(w, o)) == w
  {
    assert QueueOk(w, o);
  }

  /** Where a thread stands in a queue. */
  lemma NoDuplicatesIn(st: map<nat, TsType>, w: Waits, o: nat, q: seq<nat>, k: nat)
    requires WaitInv(st, Remaining(w, o, q)) && k < |q|
    ensures IndexOf(q, q[k]) == k
  {
    assert QueueOk(Remaining(w, o, q), o);
  }

  lemma Refilled(w: Waits, o: nat, q: seq<nat>)
    requires KindOf(w, o).EPSend?
    ensures var v := Remaining(w, o, []);
      v.(queue := v.queue[o := q], kind := if q != [] then v.kind[o := EPSend] else v.kind) == Remaining(w, o, q)
  {
  }

  lemma RemainingActive(w: Waits, o: nat)
    requires HasWaiters(KindOf(w, o))
    ensures forall n :: KindOf(Remaining(w, o, []), n).NtfnActive? <==> KindOf(w, n).NtfnActive?
  {
  }

  lemma RemainingKinds(w: Waits, o: nat, q: seq<nat>)
    requires HasWaiters(KindOf(w, o))
    ensures forall n :: KindOf(Remaining(w, o, q), n).NtfnActive? <==> KindOf(w, n).NtfnActive?
  {
  }

  /** Equal but for reply fields of threads in states that do not use them. */
  ghost predicate SameLive(a: Graph, b: Graph) {
    && a.(replyObject := b.replyObject) == b
    && forall t :: ReplyOf(a, t) == ReplyOf(b, t)
  }

  lemma SameLiveInv(a: Graph, b: Graph, rank: map<nat, nat>, w: Waits)
    requires SameLive(a, b) && Inv(b, rank) && WaitInv(b.tsType, w)
    ensures Inv(a, rank) && WaitInv(a.tsType, w)
  {
    assert forall r :: Prev(a, r) == Prev(b, r) && Next(a, r) == Next(b, r) && ReplyTcb(a, r) == ReplyTcb(b, r);
    assert forall s :: ScReply(a, s) == ScReply(b, s) && ScTcb(a, s) == ScTcb(b, s);
    assert forall t :: State(a, t) == State(b, t) && TcbSC(a, t) == TcbSC(b, t);
    hide ReplyTcb, State, ReplyOf, Prev, Next, ScReply, ScTcb, TcbSC, WaitInv;
  }

  /** The state after the fast path of a call. */
  function FastCalled(g: Graph, caller: nat, dest: nat): Graph {
    var reply, sc := ReplyOf(g, dest), TcbSC(g, caller);
    var top := OnTop(g, reply, sc);
    g.(tsType := g.tsType[caller := BlockedOnReply][dest := Running],
       replyObject := g.replyObject[dest := 0][caller := reply],
       replyTCB := g.replyTCB[reply := caller],
       scTcb := g.scTcb[sc := dest],
       tcbSC := g.tcbSC[dest := sc][caller := 0],
       replyPrev := top.replyPrev, replyNext := top.replyNext, scReply := top.scReply)
  }

  lemma FastCallGraph(g: Graph, rank: map<nat, nat>, caller: nat, dest: nat)
    requires Inv(g, rank) && State(g, dest).BlockedOnReceive? && State(g, caller) in {Running, Restart}
    requires caller != 0 && dest != 0 && TcbSC(g, caller) != 0 && TcbSC(g, dest) == 0 && ReplyOf(g, dest) != 0
    ensures SameLive(FastCalled(g, caller, dest), SentGraph(g, caller, dest, true, true, true))
  {
    var reply, sc := ReplyOf(g, dest), TcbSC(g, caller);
    BoundSender(g, caller);
    var slow, fast := SentGraph(g, caller, dest, true, true, true), FastCalled(g, caller, dest);
    hide Inv, Links, Ranked, Blocked, Bound;
    SlowCallGraph(g, caller, dest);
    LiveAfterCall(g, caller, dest);
  }

  lemma SlowCallGraph(g: Graph, caller: nat, dest: nat)
    requires caller != dest && TcbSC(g, caller) != 0 && TcbSC(g, dest) == 0 && ReplyOf(g, dest) != 0
    requires ScTcb(g, TcbSC(g, caller)) == caller && caller != 0
    ensures SentGraph(g, caller, dest, true, true, true)
         == FastCalled(g, caller, dest).(replyObject := g.replyObject[caller := ReplyOf(g, dest)])
  {
    var reply, sc := ReplyOf(g, dest), TcbSC(g, caller);
    var u := Unlinked(g, reply, dest);
    assert TcbSC(u, caller) == sc && TcbSC(u, dest) == 0;
    var top := OnTop(Awaiting(u, caller, reply), reply, sc);
    assert ScReply(u, sc) == ScReply(g, sc) && ScTcb(top, sc) == caller;
    hide ReplyOf;
    assert u.replyTCB[reply := caller] == g.replyTCB[reply := caller];
    assert g.tcbSC[caller := 0][dest := sc] == g.tcbSC[dest := sc][caller := 0];
    assert g.tsType[dest := Inactive][caller := BlockedOnReply][dest := Running]
        == g.tsType[caller := BlockedOnReply][dest := Running];
  }

  lemma LiveAfterCall(g: Graph, caller: nat, dest: nat)
    requires caller != dest
    ensures var fast := FastCalled(g, caller, dest);
      forall t :: ReplyOf(fast, t) == ReplyOf(fast.(replyObject := g.replyObject[caller := ReplyOf(g, dest)]), t)
  {
  }

  lemma {:induction false} UnbadgedMembers(q: seq<nat>, offers: map<nat, Offer>, badge: bv64, t: nat)
    ensures t in Unbadged(q, offers, badge) <==> t in q && OfferOf(offers, t).badge != badge
    ensures t in Badged(q, offers, badge) <==> t in q && OfferOf(offers, t).badge == badge
  {
    UnbadgedOnly(q, offers, badge, t);
    BadgedOnly(q, offers, badge, t);
  }

  lemma {:induction false} UnbadgedOnly(q: seq<nat>, offers: map<nat, Offer>, badge: bv64, t: nat)
    ensures t in Unbadged(q, offers, badge) <==> t in q && OfferOf(offers, t).badge != badge
  {
    if q != [] {
      assert q == q[..|q| - 1] + [q[|q| - 1]];
      UnbadgedOnly(q[..|q| - 1], offers, badge, t);
    }
  }

  lemma {:induction false} BadgedOnly(q: seq<nat>, offers: map<nat, Offer>, badge: bv64, t: nat)
    ensures t in Badged(q, offers, badge) <==> t in q && OfferOf(offers, t).badge == badge
  {
    if q != [] {
      assert q == [q[0]] + q[1..];
      BadgedOnly(q[1..], offers, badge, t);
    }
  }

  /** What answering a caller does to threads and call stacks. */
  function Replied(g: Graph, reply: nat, faults: map<nat, FaultType>, restart: bool): Graph {
    var receiver := ReplyTcb(g, reply);
    if receiver == 0 || !State(g, receiver).BlockedOnReply? then g
    else
      InState(Removed(g, reply, receiver), receiver,
              if FaultOf(faults, receiver) == NullFault then Running else if restart then Restart else Inactive)
  }

  lemma RemovedStates(g: Graph, reply: nat, tcb: nat)
    ensures var h := Removed(g, reply, tcb);
      && (forall t :: State(h, t) == if t == tcb then Inactive else State(g, t))
      && ReplyTcb(h, reply) == 0
  {
  }

  lemma RemovedInv(g: Graph, rank: map<nat, nat>, reply: nat)
    requires Inv(g, rank) && ReplyTcb(g, reply) != 0
    ensures Inv(Removed(g, reply, ReplyTcb(g, reply)), rank)
    ensures ReplyOf(g, ReplyTcb(g, reply)) == reply
  {
    if Next(g, reply).isHead {
      PoppedInv(g, rank, reply, ReplyTcb(g, reply));
    } else {
      CutInv(g, rank, reply, ReplyTcb(g, reply));
    }
  }

  lemma RepliedInv(g: Graph, rank: map<nat, nat>, w: Waits, reply: nat, faults: map<nat, FaultType>, restart: bool)
    requires Inv(g, rank) && WaitInv(g.tsType, w)
    requires ReplyTcb(g, reply) != 0 && State(g, ReplyTcb(g, reply)).BlockedOnReply?
    ensures var h := Replied(g, reply, faults, restart); Inv(h, rank) && WaitInv(h.tsType, w)
    ensures ReplyOf(g, ReplyTcb(g, reply)) == reply
  {
    var receiver := ReplyTcb(g, reply);
    hide Inv;
    var cut := Removed(g, reply, receiver);
    var s := if FaultOf(faults, receiver) == NullFault then Running else if restart then Restart else Inactive;
    RemovedInv(g, rank, reply);
    RemovedStates(g, reply, receiver);
    NoReply(cut, receiver) by {
      assert State(cut, receiver) == Inactive;
    }
    InStateInv(cut, rank, receiver, s);
    InStateStates(cut, receiver, s);
    StatesIn(g);
    StatesIn(InState(cut, receiver, s));
    hide Inv, Removed, InState, State;
    StateInv(g.tsType, w, receiver, s);
    InMap(g.tsType, receiver, s);
    SameStates(g.tsType[receiver := s], InState(cut, receiver, s).tsType, w);
  }

  /** The state after a reply that is followed by waiting for the next message. */
  function RepliedAndWaiting(g: Graph, thread: nat, reply: nat): Graph {
    Receiving(InState(Popped(g, reply, ReplyTcb(g, reply)), ReplyTcb(g, reply), Running), thread, reply)
  }

  lemma ReplyRecvFacts(g: Graph, rank: map<nat, nat>, thread: nat, reply: nat, ntfnSC: nat,
                       faults: map<nat, FaultType>)
    requires Inv(g, rank) && thread != 0 && State(g, thread) in {Running, Restart}
    requires reply != 0 && ReplyTcb(g, reply) != 0 && Next(g, reply).isHead && Next(g, reply).ptr == TcbSC(g, thread)
    requires TcbSC(g, ReplyTcb(g, reply)) == 0
    ensures State(g, ReplyTcb(g, reply)).BlockedOnReply? && thread != ReplyTcb(g, reply)
    ensures var g1 := InState(Popped(g, reply, ReplyTcb(g, reply)), ReplyTcb(g, reply), Running);
      && Freed(g1, reply) == g1 && State(g1, thread) == State(g, thread)
      && (forall w :: FreedWaits(g1, w, reply) == w) && (forall f :: FreedFaults(g1, f, reply) == f)
      && Returned(g1, ntfnSC, thread) == g1
      && (FaultOf(faults, ReplyTcb(g, reply)).NullFault? ==> Replied(g, reply, faults, false) == g1)
  {
    Linked(g, reply);
    BoundSender(g, thread);
    RemovedStates(g, reply, ReplyTcb(g, reply));
  }

  lemma HeadWaitsForReply(g: Graph, rank: map<nat, nat>, reply: nat)
    requires Inv(g, rank) && Next(g, reply).isHead
    ensures ReplyTcb(g, reply) != 0 && State(g, ReplyTcb(g, reply)).BlockedOnReply?
  {
    Linked(g, reply);
  }

  lemma RepliedAndWaitingInv(g: Graph, rank: map<nat, nat>, w: Waits, thread: nat, ep: nat, reply: nat)
    requires Inv(g, rank) && WaitInv(g.tsType, w) && thread != 0 && State(g, thread) in {Running, Restart} && ep != 0
    requires reply != 0 && ReplyTcb(g, reply) != 0 && Next(g, reply).isHead
    requires KindOf(w, ep).EPIdle? || KindOf(w, ep).EPRecv?
    ensures var h := RepliedAndWaiting(g, thread, reply);
      Inv(h, rank) && WaitInv(h.tsType, Enqueued(w, thread, ep, EPRecv))
  {
    hide Inv;
    var caller := ReplyTcb(g, reply);
    HeadWaitsForReply(g, rank, reply);
    RepliedInv(g, rank, w, reply, map[], false);
    var g1 := Replied(g, reply, map[], false);
    RemovedStates(g, reply, caller);
    InStateStates(Removed(g, reply, caller), caller, Running);
    assert ReplyTcb(g1, reply) == 0;
    ReceivingInv(g1, rank, thread, reply);
    StatesIn(g1);
    hide Inv, Removed, Popped;
    EnqueuedInv(g1.tsType, w, thread, ep, BlockedOnReceive);
  }

  function FastReplied(g: Graph, thread: nat, reply: nat): Graph {
    var caller, off, sc := ReplyTcb(g, reply), OffTop(g, reply), TcbSC(g, thread);
    g.(tsType := g.tsType[thread := BlockedOnReceive][caller := Running],
       replyObject := g.replyObject[caller := 0][thread := reply],
       replyTCB := g.replyTCB[reply := thread],
       tcbSC := g.tcbSC[thread := 0][caller := sc],
       scTcb := g.scTcb[sc := caller],
       scReply := g.scReply[sc := Prev(g, reply)],
       replyPrev := off.replyPrev, replyNext := off.replyNext)
  }

  lemma FastReplyGraph(g: Graph, rank: map<nat, nat>, thread: nat, reply: nat)
    requires Inv(g, rank) && thread != 0 && State(g, thread) in {Running, Restart}
    requires reply != 0 && ReplyTcb(g, reply) != 0 && Next(g, reply).isHead && Next(g, reply).ptr == TcbSC(g, thread)
    requires TcbSC(g, ReplyTcb(g, reply)) == 0
    ensures SameLive(FastReplied(g, thread, reply), RepliedAndWaiting(g, thread, reply))
  {
    Linked(g, reply);
    BoundSender(g, thread) by {
      assert Next(g, reply).ptr != 0;
    }
    hide Inv, Links, Ranked, Blocked, Bound;
    SlowReplyGraph(g, thread, reply);
    LiveAfterReply(g, thread, reply);
  }

  lemma SlowReplyGraph(g: Graph, thread: nat, reply: nat)
    requires thread != 0 && reply != 0 && ReplyTcb(g, reply) != thread && Next(g, reply).ptr == TcbSC(g, thread)
    requires TcbSC(g, ReplyTcb(g, reply)) == 0 && ScTcb(g, TcbSC(g, thread)) == thread
    ensures RepliedAndWaiting(g, thread, reply)
         == FastReplied(g, thread, reply).(replyObject := g.replyObject[thread := reply])
  {
    var caller, sc := ReplyTcb(g, reply), TcbSC(g, thread);
    assert ScTcb(OffTop(g, reply), sc) == thread;
    assert g.tsType[caller := Inactive][caller := Running][thread := BlockedOnReceive]
        == g.tsType[thread := BlockedOnReceive][caller := Running];
    assert g.replyTCB[reply := 0][reply := thread] == g.replyTCB[reply := thread];
  }

  lemma LiveAfterReply(g: Graph, thread: nat, reply: nat)
    requires ReplyTcb(g, reply) != thread
    ensures var fast := FastReplied(g, thread, reply);
      forall t :: ReplyOf(fast, t) == ReplyOf(fast.(replyObject := g.replyObject[thread := reply]), t)
  {
  }

  lemma EnqueuedAlone(w: Waits, t: nat, o: nat)
    requires Queue(w, o) == []
    ensures Enqueued(w, t, o, EPRecv)
         == w.(queue := w.queue[o := [t]], blockingObject := w.blockingObject[t := o], kind := w.kind[o := EPRecv])
  {
    assert InsertAt([], 0, t) == [t];
  }

  ghost function SentRank(g: Graph, rank: map<nat, nat>, sender: nat, dest: nat, call: bool, mayReply: bool,
                          canDonate: bool): map<nat, nat>
  {
    AnsweredRank(Received(g, dest), rank, sender, dest, ReplyOf(g, dest), call, mayReply, canDonate)
  }

  /** Delivering a message keeps the call stacks and the queues in order. */
  lemma SentInv(g: Graph, rank: map<nat, nat>, w: Waits, sender: nat, dest: nat, ep: nat, call: bool, mayReply: bool,
                canDonate: bool)
    requires Inv(g, rank) && WaitInv(g.tsType, w) && dest in Queue(w, ep) && dest != 0
    requires State(g, dest).BlockedOnReceive? && sender != 0 && State(g, sender) in {Running, Restart}
    requires canDonate ==> TcbSC(g, sender) != 0
    ensures var h := SentGraph(g, sender, dest, call, mayReply, canDonate);
      && Inv(h, SentRank(g, rank, sender, dest, call, mayReply, canDonate))
      && WaitInv(h.tsType, Dequeued(w, dest, ep))
  {
    hide Inv;
    var u, reply := Received(g, dest), ReplyOf(g, dest);
    ReceivedInv(g, rank, dest);
    ReceivedTcbSC(g, dest, sender);
    hide Answered, Received, Inv, Loose, WaitInv, ReplyOf, AnsweredRank, InState;
    AnsweredInv(u, rank, sender, dest, reply, call, mayReply, canDonate);
    var v := Answered(u, sender, dest, reply, call, mayReply, canDonate);
    InStateInv(v, SentRank(g, rank, sender, dest, call, mayReply, canDonate), dest, Running);
    var h := InState(v, dest, Running);
    InStateStates(v, dest, Running);
    StatesIn(g);
    StatesIn(h);
    SentWaits(g.tsType, h.tsType, w, sender, dest, ep, State(v, sender), Running);
  }

  lemma ReceivedTcbSC(g: Graph, dest: nat, t: nat)
    ensures TcbSC(Received(g, dest), t) == TcbSC(g, t)
  {
  }

  lemma InStateStates(g: Graph, t: nat, s: TsType)
    ensures forall y :: State(InState(g, t, s), y) == if y == t then s else State(g, y)
  {
  }

  lemma StatesIn(g: Graph)
    ensures forall y :: StateIn(g.tsType, y) == State(g, y)
  {
  }

  lemma PushedStates(g: Graph, caller: nat, callee: nat, reply: nat, canDonate: bool)
    ensures var h := Pushed(g, caller, callee, reply, canDonate);
      && (forall t :: State(h, t) == if t == caller then BlockedOnReply else State(g, t))
      && (forall t :: ReplyOf(h, t) == if t == caller then reply else ReplyOf(g, t))
  {
  }
}
