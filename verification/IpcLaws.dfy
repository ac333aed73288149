/**
  What the operations of message passing do to threads, replies, scheduling contexts and call stacks,
  and laws between them: it does not matter which of two partners comes first, and cancelling a wait
  undoes it (kernel/src/object/endpoint.c, notification.c, kernel/src/kernel/thread.c).
 */
module IpcLaws {
  import opened CallStacks
  import opened WaitQueues
  import opened Ipc
  import opened CallRuns

  // ---------------------------------------------------------------- what one may see of the state

  /** Exactly thread t has changed its state, to s. */
  ghost predicate OnlyState(h: Graph, g: Graph, t: nat, s: TsType) {
    forall x :: State(h, x) == if x == t then s else State(g, x)
  }

  /** All call stacks are as they were. */
  ghost predicate SameLinks(h: Graph, g: Graph) {
    && (forall r :: Prev(h, r) == Prev(g, r) && Next(h, r) == Next(g, r))
    && (forall s :: ScReply(h, s) == ScReply(g, s))
  }

  /** All scheduling contexts are where they were. */
  ghost predicate SameContexts(h: Graph, g: Graph) {
    (forall s :: ScTcb(h, s) == ScTcb(g, s)) && (forall t :: TcbSC(h, t) == TcbSC(g, t))
  }

  /** Reply objects wait with the threads they did, but for one, which waits with t. */
  ghost predicate OnlyReply(h: Graph, g: Graph, reply: nat, t: nat) {
    forall r :: ReplyTcb(h, r) == if r == reply && r != 0 then t else ReplyTcb(g, r)
  }

  /** The context `sc` has gone to `to`; whoever had it has none. */
  ghost predicate MovedContext(h: Graph, g: Graph, sc: nat, to: nat) {
    && (forall s :: ScTcb(h, s) == if s == sc then to else ScTcb(g, s))
    && (forall t :: TcbSC(h, t) == if t == to then sc else if t == ScTcb(g, sc) && t != 0 then 0 else TcbSC(g, t))
  }

  /** The reply is on top of the stack of `sc`; all other links are as they were. */
  ghost predicate OnTopOf(h: Graph, g: Graph, reply: nat, sc: nat) {
    var below := ScReply(g, sc);
    && (forall r :: Prev(h, r) == if r == reply then below else Prev(g, r))
    && (forall r :: Next(h, r) == if r == reply then CallStack(sc, true)
                                  else if r == below && r != 0 then CallStack(reply, false) else Next(g, r))
    && (forall s :: ScReply(h, s) == if s == sc then reply else ScReply(g, s))
  }

  /** The head reply is off its stack, which the reply below heads now. */
  ghost predicate OffTopOf(h: Graph, g: Graph, reply: nat) {
    var up, below := Next(g, reply), Prev(g, reply);
    && (forall r :: Prev(h, r) == if r == reply then 0 else Prev(g, r))
    && (forall r :: Next(h, r) == if r == reply then CallStack(0, false)
                                  else if r == below && r != 0 then up else Next(g, r))
    && (forall s :: ScReply(h, s) == if s == up.ptr then below else ScReply(g, s))
  }

  /** The reply has no neighbours any more, and they have lost it. */
  ghost predicate CutFrom(h: Graph, g: Graph, reply: nat) {
    var up, below := Next(g, reply), Prev(g, reply);
    && (forall r :: Prev(h, r) == if r == reply || (r == up.ptr && r != 0 && !up.isHead) then 0 else Prev(g, r))
    && (forall r :: Next(h, r) == if r == reply || (r == below && r != 0) then CallStack(0, false) else Next(g, r))
    && (forall s :: ScReply(h, s) == if s == up.ptr && up.isHead then 0 else ScReply(g, s))
  }

  // ---------------------------------------------------------------- calls

  /**
    A call of t, answered by r with a reply object: t waits for the reply, or is stopped if none can be
    used; its context goes to r if r has none, and then the reply is on top of the context's stack.
   */
  ghost predicate Calls(h: Graph, g: Graph, t: nat, r: nat, reply: nat, canDonate: bool) {
    && OnlyState(h, g, t, if reply != 0 then BlockedOnReply else Inactive)
    && OnlyReply(h, g, reply, t)
    && (reply != 0 ==> ReplyOf(h, t) == reply)
    && if reply != 0 && Donates(g, t, r, canDonate) then
         MovedContext(h, g, TcbSC(g, t), r) && OnTopOf(h, g, reply, TcbSC(g, t))
       else SameContexts(h, g) && SameLinks(h, g)
  }

  lemma PushedCalls(g: Graph, t: nat, r: nat, reply: nat, canDonate: bool)
    requires reply != 0
    ensures Calls(Pushed(g, t, r, reply, canDonate), g, t, r, reply, canDonate)
  {
    var w := Awaiting(g, t, reply);
    AwaitingFields(g, t, reply);
    assert SameContexts(w, g) && forall s :: ScReply(w, s) == ScReply(g, s);
    if Donates(g, t, r, canDonate) {
      var sc := TcbSC(g, t);
      var top := OnTop(w, reply, sc);
      OnTopFields(w, reply, sc);
      OnTopOthers(w, reply, sc);
      DonatedFields(top, sc, r);
      DonatedStates(top, sc, r);
      DonatedLinks(top, sc, r);
    }
    hide Awaiting, OnTop, Donated, Prev, Next, ScReply, ScTcb, TcbSC, ReplyTcb, State, ReplyOf;
  }

  lemma OnTopOthers(g: Graph, reply: nat, sc: nat)
    ensures var h := OnTop(g, reply, sc);
      && SameContexts(h, g)
      && (forall t :: State(h, t) == State(g, t) && ReplyOf(h, t) == ReplyOf(g, t))
      && (forall r :: ReplyTcb(h, r) == ReplyTcb(g, r))
  {
  }

  lemma DonatedLinks(g: Graph, sc: nat, to: nat)
    ensures var h := Donated(g, sc, to); SameLinks(h, g) && forall r :: ReplyTcb(h, r) == ReplyTcb(g, r)
  {
  }

  lemma InStateOthers(g: Graph, t: nat, s: TsType)
    ensures var h := InState(g, t, s);
      OnlyState(h, g, t, s) && SameLinks(h, g) && SameContexts(h, g) && forall r :: ReplyTcb(h, r) == ReplyTcb(g, r)
  {
  }

  lemma ReceivedOthers(g: Graph, dest: nat)
    ensures var h := Received(g, dest);
      && (forall x :: x != dest ==> State(h, x) == State(g, x))
      && SameLinks(h, g) && SameContexts(h, g) && OnlyReply(h, g, ReplyOf(g, dest), 0)
  {
  }

  lemma ReceivingOthers(g: Graph, t: nat, reply: nat)
    ensures var h := Receiving(g, t, reply);
      && OnlyState(h, g, t, BlockedOnReceive) && SameLinks(h, g) && SameContexts(h, g) && OnlyReply(h, g, reply, t)
      && ReplyOf(h, t) == reply
  {
  }

  // ---------------------------------------------------------------- one operation at a time

  /**
    Receiving from a blocked sender: exactly the sender changes its state. It runs if it does not
    call; a caller waits for the reply, or stops for want of a reply object it may use.
   */
  lemma TakenEffect(g: Graph, sender: nat, thread: nat, reply: nat, call: bool, mayReply: bool, canLend: bool)
    ensures var h := TakenGraph(g, sender, thread, reply, call, mayReply, canLend);
      var usable := if mayReply then reply else 0;
      if call then Calls(h, g, sender, thread, usable, canLend)
      else OnlyState(h, g, sender, Running) && SameLinks(h, g) && SameContexts(h, g) && OnlyReply(h, g, 0, 0)
  {
    hide Pushed, InState;
    if call && mayReply && reply != 0 {
      PushedCalls(g, sender, thread, reply, TcbSC(g, sender) != 0 && canLend);
    } else {
      InStateOthers(g, sender, if call then Inactive else Running);
    }
    hide Prev, Next, ScReply, ScTcb, TcbSC, ReplyTcb, State, ReplyOf;
  }

  /** A receiver whose wait is over. */
  function Awake(g: Graph, dest: nat): Graph {
    InState(Received(g, dest), dest, Running)
  }

  lemma AwakeEffect(g: Graph, dest: nat)
    requires State(g, dest).BlockedOnReceive?
    ensures var h := Awake(g, dest);
      && OnlyState(h, g, dest, Running) && SameLinks(h, g) && SameContexts(h, g)
      && OnlyReply(h, g, ReplyOf(g, dest), 0)
  {
    ReceivedOthers(g, dest);
    InStateOthers(Received(g, dest), dest, Running);
    hide Received, InState, Prev, Next, ScReply, ScTcb, TcbSC, ReplyTcb, State, ReplyOf;
  }

  /**
    Sending to a waiting receiver is waking the receiver, and then: a call of the receiver with its
    reply object, or a plain send, which may lend the sender's context to a receiver without one.
   */
  lemma SentEffect(g: Graph, sender: nat, dest: nat, call: bool, mayReply: bool, canDonate: bool)
    requires State(g, dest).BlockedOnReceive? && sender != dest
    ensures var h, u, usable :=
        SentGraph(g, sender, dest, call, mayReply, canDonate), Awake(g, dest), if mayReply then ReplyOf(g, dest) else 0;
      if call then Calls(h, u, sender, dest, usable, canDonate)
      else
        && (forall x :: State(h, x) == State(u, x)) && SameLinks(h, u) && OnlyReply(h, u, 0, 0)
        && if canDonate && TcbSC(g, dest) == 0 then MovedContext(h, u, TcbSC(g, sender), dest)
           else SameContexts(h, u)
  {
    var u, a, reply := Received(g, dest), Awake(g, dest), ReplyOf(g, dest);
    var v := Answered(u, sender, dest, reply, call, mayReply, canDonate);
    var h := InState(v, dest, Running);
    AnsweredEffect(u, sender, dest, reply, call, mayReply, canDonate);
    InStateOthers(u, dest, Running);
    InStateOthers(v, dest, Running);
    InStateReplyOf(v, dest, Running);
    ReceivedTcbSC(g, dest, dest);
    assert SentGraph(g, sender, dest, call, mayReply, canDonate) == h && a == InState(u, dest, Running);
    hide Answered, InState, Awake, Received;
    if call {
      CallsAwake(h, v, a, u, sender, dest, if mayReply then reply else 0, canDonate);
    } else {
      SendAwake(h, v, a, u, sender, dest, canDonate);
    }
  }

  /** Nothing but the state of t, which runs now. */
  ghost predicate OnlyRuns(h: Graph, g: Graph, t: nat) {
    OnlyState(h, g, t, Running) && SameLinks(h, g) && SameContexts(h, g) && forall r :: ReplyTcb(h, r) == ReplyTcb(g, r)
  }

  lemma CallsAwake(h: Graph, v: Graph, a: Graph, u: Graph, t: nat, dest: nat, reply: nat, canDonate: bool)
    requires Calls(v, u, t, dest, reply, canDonate) && t != dest
    requires OnlyRuns(h, v, dest) && OnlyRuns(a, u, dest) && ReplyOf(h, t) == ReplyOf(v, t)
    ensures Calls(h, a, t, dest, reply, canDonate)
  {
    hide Prev, Next, ScReply, ScTcb, TcbSC, ReplyTcb, State, ReplyOf;
  }

  lemma SendAwake(h: Graph, v: Graph, a: Graph, u: Graph, t: nat, dest: nat, canDonate: bool)
    requires (forall x :: State(v, x) == State(u, x)) && SameLinks(v, u) && OnlyReply(v, u, 0, 0)
    requires if canDonate && TcbSC(u, dest) == 0 then MovedContext(v, u, TcbSC(u, t), dest) else SameContexts(v, u)
    requires OnlyRuns(h, v, dest) && OnlyRuns(a, u, dest)
    ensures (forall x :: State(h, x) == State(a, x)) && SameLinks(h, a) && OnlyReply(h, a, 0, 0)
    ensures if canDonate && TcbSC(u, dest) == 0 then MovedContext(h, a, TcbSC(u, t), dest) else SameContexts(h, a)
  {
    hide Prev, Next, ScReply, ScTcb, TcbSC, ReplyTcb, State, ReplyOf;
  }

  lemma InStateReplyOf(g: Graph, t: nat, s: TsType)
    ensures forall x :: x != t ==> ReplyOf(InState(g, t, s), x) == ReplyOf(g, x)
  {
  }

  lemma AnsweredEffect(u: Graph, sender: nat, dest: nat, reply: nat, call: bool, mayReply: bool, canDonate: bool)
    ensures var v, usable := Answered(u, sender, dest, reply, call, mayReply, canDonate), if mayReply then reply else 0;
      if call then Calls(v, u, sender, dest, usable, canDonate)
      else
        && (forall x :: State(v, x) == State(u, x)) && SameLinks(v, u) && OnlyReply(v, u, 0, 0)
        && if canDonate && TcbSC(u, dest) == 0 then MovedContext(v, u, TcbSC(u, sender), dest) else SameContexts(v, u)
  {
    hide Pushed, InState, Donated;
    if call && reply != 0 && mayReply {
      PushedCalls(u, sender, dest, reply, canDonate);
    } else if call {
      InStateOthers(u, sender, Inactive);
    } else if canDonate && TcbSC(u, dest) == 0 {
      DonatedFields(u, TcbSC(u, sender), dest);
      DonatedStates(u, TcbSC(u, sender), dest);
      DonatedLinks(u, TcbSC(u, sender), dest);
    }
    hide Prev, Next, ScReply, ScTcb, TcbSC, ReplyTcb, State, ReplyOf;
  }

  // ---------------------------------------------------------------- who comes first

  /**
    Main result about sending: a plain send that finds no receiver and is received later, and a
    receiver that finds no sender and is sent to later, leave the same state: both threads run, and no
    reply object, context or call stack has changed.
   */
  lemma SendAndReceive(g: Graph, t: nat, r: nat, reply: nat, mayReply: bool, canLend: bool)
    requires t != r && State(g, t) == Running && State(g, r) == Running && (reply != 0 ==> ReplyTcb(g, reply) == 0)
    ensures var first, second := TakenGraph(InState(g, t, BlockedOnSend), t, r, reply, false, mayReply, canLend),
                                 SentGraph(Receiving(g, r, reply), t, r, false, mayReply, false);
      && (forall x :: State(first, x) == State(g, x)) && SameStacks(first, g)
      && (forall x :: State(second, x) == State(g, x)) && SameStacks(second, g)
  {
    var sending, waiting := InState(g, t, BlockedOnSend), Receiving(g, r, reply);
    InStateOthers(g, t, BlockedOnSend);
    ReceivingOthers(g, r, reply);
    TakenEffect(sending, t, r, reply, false, mayReply, canLend);
    SentEffect(waiting, t, r, false, mayReply, false);
    AwakeEffect(waiting, r);
    hide TakenGraph, SentGraph, InState, Receiving, Awake, Prev, Next, ScReply, ScTcb, TcbSC, ReplyTcb, State, ReplyOf;
  }

  /**
    Main result about calling: whether the caller or the receiver comes first, the call does the same
    to threads, reply objects, scheduling contexts and call stacks.
   */
  lemma CallAndReceive(g: Graph, t: nat, r: nat, reply: nat, mayReply: bool)
    requires t != r && State(g, t) == Running && State(g, r) == Running && (reply != 0 ==> ReplyTcb(g, reply) == 0)
    ensures var first, second := TakenGraph(InState(g, t, BlockedOnSend), t, r, reply, true, mayReply, true),
                                 SentGraph(Receiving(g, r, reply), t, r, true, mayReply, TcbSC(g, t) != 0);
      var usable := if mayReply then reply else 0;
      Calls(first, g, t, r, usable, true) && Calls(second, g, t, r, usable, true)
  {
    CallFirst(g, t, r, reply, mayReply);
    ReceiveFirst(g, t, r, reply, mayReply);
  }

  lemma CallFirst(g: Graph, t: nat, r: nat, reply: nat, mayReply: bool)
    ensures var usable := if mayReply then reply else 0;
      Calls(TakenGraph(InState(g, t, BlockedOnSend), t, r, reply, true, mayReply, true), g, t, r, usable, true)
  {
    var sending := InState(g, t, BlockedOnSend);
    InStateOthers(g, t, BlockedOnSend);
    TakenEffect(sending, t, r, reply, true, mayReply, true);
    hide TakenGraph, InState;
    CallsFrom(TakenGraph(sending, t, r, reply, true, mayReply, true), sending, g, t, r,
              if mayReply then reply else 0, true);
  }

  lemma ReceiveFirst(g: Graph, t: nat, r: nat, reply: nat, mayReply: bool)
    requires t != r && State(g, r) == Running && (reply != 0 ==> ReplyTcb(g, reply) == 0)
    ensures var usable := if mayReply then reply else 0;
      Calls(SentGraph(Receiving(g, r, reply), t, r, true, mayReply, TcbSC(g, t) != 0), g, t, r, usable, true)
  {
    var waiting, usable := Receiving(g, r, reply), if mayReply then reply else 0;
    var canDonate := TcbSC(g, t) != 0;
    var a, h := Awake(waiting, r), SentGraph(waiting, t, r, true, mayReply, canDonate);
    ReceivingOthers(g, r, reply);
    AwakeEffect(waiting, r);
    SentEffect(waiting, t, r, true, mayReply, canDonate);
    hide SentGraph, Receiving, Awake;
    ReceivedNothing(a, waiting, g, r, reply);
    CallsFrom(h, a, g, t, r, usable, canDonate);
  }

  lemma ReceivedNothing(a: Graph, waiting: Graph, g: Graph, r: nat, reply: nat)
    requires OnlyState(waiting, g, r, BlockedOnReceive) && SameLinks(waiting, g) && SameContexts(waiting, g)
    requires OnlyReply(waiting, g, reply, r) && (reply != 0 ==> ReplyTcb(g, reply) == 0)
    requires OnlyState(a, waiting, r, Running) && SameLinks(a, waiting) && SameContexts(a, waiting)
    requires OnlyReply(a, waiting, reply, 0)
    ensures OnlyRuns(a, g, r)
  {
    hide Prev, Next, ScReply, ScTcb, TcbSC, ReplyTcb, State, ReplyOf;
  }

  /** Only the links, the contexts, the reply objects and the other threads of the state before a call matter. */
  lemma CallsFrom(h: Graph, u: Graph, g: Graph, t: nat, r: nat, reply: nat, canDonate: bool)
    requires Calls(h, u, t, r, reply, canDonate) && SameLinks(u, g) && SameContexts(u, g)
    requires forall x :: x != t ==> State(u, x) == State(g, x)
    requires forall x :: ReplyTcb(u, x) == ReplyTcb(g, x)
    ensures canDonate || TcbSC(g, t) == 0 ==> Calls(h, g, t, r, reply, true)
    ensures Calls(h, g, t, r, reply, canDonate)
  {
    hide Prev, Next, ScReply, ScTcb, TcbSC, ReplyTcb, State, ReplyOf;
  }

  // ---------------------------------------------------------------- cancelling

  /**
    Cancelling: exactly the thread changes its state and is stopped, if it was blocked; its reply
    object is free; contexts stay; and its reply is cut out of the stack it was in, if it waited for one.
   */
  lemma CancelledEffect(g: Graph, rank: map<nat, nat>, t: nat)
    requires Inv(g, rank)
    ensures var h, blocked := Cancelled(g, t), Waiting(State(g, t)) || State(g, t).BlockedOnReply?;
      && OnlyState(h, g, t, if blocked then Inactive else State(g, t))
      && SameContexts(h, g) && OnlyReply(h, g, ReplyOf(g, t), 0)
      && if State(g, t).BlockedOnReply? then CutFrom(h, g, ReplyOf(g, t)) else SameLinks(h, g)
  {
    CancelledStates(g, t);
    var reply := ReplyOf(g, t);
    assert !UsesReply(State(g, t)) ==> reply == 0;
    if State(g, t).BlockedOnReply? {
      CutEffect(g, reply, t);
    } else if State(g, t).BlockedOnReceive? {
      ReceivedOthers(g, t);
      InStateOthers(Received(g, t), t, Inactive);
    } else if Waiting(State(g, t)) {
      InStateOthers(g, t, Inactive);
    }
    hide Received, InState, CutOut, Unlinked, Prev, Next, ScReply, ScTcb, TcbSC, ReplyTcb, State, ReplyOf;
  }

  lemma CutOutOthers(g: Graph, reply: nat)
    ensures var h := CutOut(g, reply); SameContexts(h, g) && forall r :: ReplyTcb(h, r) == ReplyTcb(g, r)
  {
  }

  /** Cancelling a wait undoes it: but for the thread, which is stopped, everything is as before. */
  lemma CancelUndoesWaiting(g: Graph, rank: map<nat, nat>, t: nat, reply: nat)
    requires Inv(g, rank) && t != 0 && State(g, t) in {Running, Restart} && (reply != 0 ==> ReplyTcb(g, reply) == 0)
    ensures var h := Cancelled(InState(g, t, BlockedOnSend), t); OnlyState(h, g, t, Inactive) && SameStacks(h, g)
    ensures var h := Cancelled(InState(g, t, BlockedOnNotification), t);
      OnlyState(h, g, t, Inactive) && SameStacks(h, g)
    ensures var h := Cancelled(Receiving(g, t, reply), t); OnlyState(h, g, t, Inactive) && SameStacks(h, g)
  {
    CancelUndoesState(g, rank, t, BlockedOnSend);
    CancelUndoesState(g, rank, t, BlockedOnNotification);
    CancelUndoesReceiving(g, rank, t, reply);
  }

  lemma CancelUndoesState(g: Graph, rank: map<nat, nat>, t: nat, s: TsType)
    requires Inv(g, rank) && State(g, t) in {Running, Restart} && (s.BlockedOnSend? || s.BlockedOnNotification?)
    ensures var h := Cancelled(InState(g, t, s), t); OnlyState(h, g, t, Inactive) && SameStacks(h, g)
  {
    InStateInv(g, rank, t, s);
    CancelledEffect(InState(g, t, s), rank, t);
    InStateOthers(g, t, s);
    assert ReplyOf(InState(g, t, s), t) == 0;
    hide Cancelled, InState, Inv, Prev, Next, ScReply, ScTcb, TcbSC, ReplyTcb, State, ReplyOf;
  }

  lemma CancelUndoesReceiving(g: Graph, rank: map<nat, nat>, t: nat, reply: nat)
    requires Inv(g, rank) && t != 0 && State(g, t) in {Running, Restart} && (reply != 0 ==> ReplyTcb(g, reply) == 0)
    ensures var h := Cancelled(Receiving(g, t, reply), t); OnlyState(h, g, t, Inactive) && SameStacks(h, g)
  {
    ReceivingInv(g, rank, t, reply);
    CancelledEffect(Receiving(g, t, reply), rank, t);
    ReceivingOthers(g, t, reply);
    hide Cancelled, Receiving, Inv, Prev, Next, ScReply, ScTcb, TcbSC, ReplyTcb, State, ReplyOf;
  }

  // ---------------------------------------------------------------- replying

  /**
    Replying: exactly the caller changes its state, as its fault says, and the reply object is free. A
    reply on top of a stack leaves it to the one below, and hands the context back to a caller that has
    none; any other is cut out and no context moves.
   */
  lemma RepliedEffect(g: Graph, reply: nat, faults: map<nat, FaultType>, restart: bool)
    requires reply != 0 && ReplyTcb(g, reply) != 0 && State(g, ReplyTcb(g, reply)).BlockedOnReply?
    ensures var h, t, up := Replied(g, reply, faults, restart), ReplyTcb(g, reply), Next(g, reply);
      && OnlyState(h, g, t, if FaultOf(faults, t) == NullFault then Running else if restart then Restart else Inactive)
      && OnlyReply(h, g, reply, 0)
      && (if up.isHead then OffTopOf(h, g, reply) else CutFrom(h, g, reply))
      && (if up.isHead && TcbSC(g, t) == 0 then MovedContext(h, g, up.ptr, t) else SameContexts(h, g))
  {
    var t := ReplyTcb(g, reply);
    var u := Removed(g, reply, t);
    RemovedEffect(g, reply, t);
    var s := if FaultOf(faults, t) == NullFault then Running else if restart then Restart else Inactive;
    InStateOthers(u, t, s);
    LinksAfter(InState(u, t, s), u, g, reply);
    ContextsAfter(InState(u, t, s), u, g, Next(g, reply).ptr, t);
    hide OffTopOf, CutFrom, MovedContext, SameContexts, SameLinks;
    hide Removed, InState, FaultOf, Prev, Next, ScReply, ScTcb, TcbSC, ReplyTcb, State, ReplyOf;
  }

  lemma LinksAfter(h: Graph, u: Graph, g: Graph, reply: nat)
    requires SameLinks(h, u)
    ensures (OffTopOf(u, g, reply) ==> OffTopOf(h, g, reply)) && (CutFrom(u, g, reply) ==> CutFrom(h, g, reply))
  {
    hide Prev, Next, ScReply;
  }

  lemma ContextsAfter(h: Graph, u: Graph, g: Graph, sc: nat, t: nat)
    requires SameContexts(h, u)
    ensures (MovedContext(u, g, sc, t) ==> MovedContext(h, g, sc, t)) && (SameContexts(u, g) ==> SameContexts(h, g))
  {
    hide ScTcb, TcbSC;
  }

  lemma RemovedEffect(g: Graph, reply: nat, t: nat)
    requires reply != 0
    ensures var h, up := Removed(g, reply, t), Next(g, reply);
      && OnlyState(h, g, t, Inactive) && OnlyReply(h, g, reply, 0)
      && (if up.isHead then OffTopOf(h, g, reply) else CutFrom(h, g, reply))
      && (if up.isHead && TcbSC(g, t) == 0 then MovedContext(h, g, up.ptr, t) else SameContexts(h, g))
  {
    RemovedStates(g, reply, t);
    if Next(g, reply).isHead {
      PoppedEffect(g, reply, t);
    } else {
      CutEffect(g, reply, t);
    }
    hide OffTopOf, CutFrom, OnlyReply, MovedContext, SameContexts, State;
  }

  lemma CutEffect(g: Graph, reply: nat, t: nat)
    requires reply != 0
    ensures var h := Unlinked(CutOut(g, reply), reply, t);
      CutFrom(h, g, reply) && OnlyReply(h, g, reply, 0) && SameContexts(h, g)
  {
    CutOutFields(g, reply);
    CutOutOthers(g, reply);
    UnlinkedSame(CutOut(g, reply), reply, t);
    hide CutOut, Unlinked, Prev, Next, ScReply, ScTcb, TcbSC, ReplyTcb, State, ReplyOf;
  }

  lemma PoppedEffect(g: Graph, reply: nat, t: nat)
    requires reply != 0
    ensures var h, up := Popped(g, reply, t), Next(g, reply);
      && OffTopOf(h, g, reply) && OnlyReply(h, g, reply, 0)
      && (if TcbSC(g, t) == 0 then MovedContext(h, g, up.ptr, t) else SameContexts(h, g))
  {
    var off, sc := OffTop(g, reply), Next(g, reply).ptr;
    OffTopFields(g, reply);
    OffTopOthers(g, reply);
    UnlinkedSame(if TcbSC(g, t) == 0 then Donated(off, sc, t) else off, reply, t);
    DonatedFields(off, sc, t);
    DonatedLinks(off, sc, t);
    hide OffTop, Donated, Unlinked, Prev, Next, ScReply, ScTcb, TcbSC, ReplyTcb, State, ReplyOf;
  }

  lemma OffTopOthers(g: Graph, reply: nat)
    ensures var h := OffTop(g, reply); SameContexts(h, g) && forall r :: ReplyTcb(h, r) == ReplyTcb(g, r)
  {
  }

  // ---------------------------------------------------------------- signals and restarts

  /** Lending gives a thread without a context an unused one, and does nothing else. */
  lemma LentEffect(g: Graph, sc: nat, t: nat)
    ensures var h := Lent(g, sc, t);
      && (forall x :: State(h, x) == State(g, x)) && SameLinks(h, g) && OnlyReply(h, g, 0, 0)
      && if TcbSC(g, t) == 0 && sc != 0 && ScTcb(g, sc) == 0 then MovedContext(h, g, sc, t) else SameContexts(h, g)
  {
    DonatedFields(g, sc, t);
    DonatedStates(g, sc, t);
    DonatedLinks(g, sc, t);
    hide Donated, Prev, Next, ScReply, ScTcb, TcbSC, ReplyTcb, State, ReplyOf;
  }

  /** What a notification lends and takes back leaves everything as it was. */
  lemma LendAndReturn(g: Graph, rank: map<nat, nat>, sc: nat, t: nat)
    requires Inv(g, rank) && t != 0 && sc != 0
    ensures TcbSC(g, t) == 0 && ScTcb(g, sc) == 0 ==>
      var h := Returned(Lent(g, sc, t), sc, t); SameStacks(h, g) && forall x :: State(h, x) == State(g, x)
    ensures TcbSC(g, t) == sc ==>
      var h := Lent(Returned(g, sc, t), sc, t); SameStacks(h, g) && forall x :: State(h, x) == State(g, x)
  {
    LentEffect(g, sc, t);
    ReturnedEffect(g, sc, t);
    ReturnedEffect(Lent(g, sc, t), sc, t);
    LentEffect(Returned(g, sc, t), sc, t);
    if TcbSC(g, t) == sc {
      BoundSender(g, t);
    }
    hide Lent, Returned, Inv, Prev, Next, ScReply, ScTcb, TcbSC, ReplyTcb, State, ReplyOf;
  }

  lemma ReturnedEffect(g: Graph, sc: nat, t: nat)
    ensures var h := Returned(g, sc, t);
      && (forall x :: State(h, x) == State(g, x)) && SameLinks(h, g) && OnlyReply(h, g, 0, 0)
      && if sc != 0 && sc == TcbSC(g, t) then
           (forall s :: ScTcb(h, s) == if s == sc then 0 else ScTcb(g, s))
           && (forall x :: TcbSC(h, x) == if x == t then 0 else TcbSC(g, x))
         else SameContexts(h, g)
  {
  }

  /** A signal wakes exactly its thread, frees the reply object it waited with, and may lend a context. */
  lemma SignalledEffect(g: Graph, rank: map<nat, nat>, t: nat, sc: nat)
    requires Inv(g, rank) && Waiting(State(g, t))
    ensures var h := Signalled(g, t, sc);
      && OnlyState(h, g, t, Running) && SameLinks(h, g) && OnlyReply(h, g, ReplyOf(g, t), 0)
      && if TcbSC(g, t) == 0 && sc != 0 && ScTcb(g, sc) == 0 then MovedContext(h, g, sc, t) else SameContexts(h, g)
  {
    var c := Cancelled(g, t);
    CancelledEffect(g, rank, t);
    InStateOthers(c, t, Running);
    LentEffect(InState(c, t, Running), sc, t);
    hide Cancelled, InState, Lent, Inv, Prev, Next, ScReply, ScTcb, TcbSC, ReplyTcb, State, ReplyOf;
  }

  /** A restart frees the reply object of a receiver and moves no context; the state is the fault's. */
  lemma RestartedEffect(g: Graph, t: nat, faults: map<nat, FaultType>)
    ensures var h := RestartOne(g, t, faults);
      && OnlyState(h, g, t, if FaultOf(faults, t) == NullFault then Restart else Inactive)
      && SameLinks(h, g) && SameContexts(h, g)
      && OnlyReply(h, g, if State(g, t).BlockedOnReceive? then ReplyOf(g, t) else 0, 0)
  {
    var u := if State(g, t).BlockedOnReceive? then Received(g, t) else g;
    ReceivedOthers(g, t);
    InStateOthers(u, t, if FaultOf(faults, t) == NullFault then Restart else Inactive);
    hide Received, InState, Prev, Next, ScReply, ScTcb, TcbSC, ReplyTcb, State, ReplyOf;
  }

  // ---------------------------------------------------------------- which threads

  /**
    A signal wakes a thread exactly if one waits for the signal, or none does, no signal is pending, and
    the bound thread waits for a message. Of those that wait for it, it is the first of the highest priority.
   */
  lemma WokenIs(g: Graph, w: Waits, bound: map<nat, nat>, ntfn: nat)
    requires WaitInv(g.tsType, w)
    ensures var t := WokenBy(g, w, bound, ntfn);
      match KindOf(w, ntfn)
      case NtfnWaiting =>
        && t in Queue(w, ntfn) && IndexOf(Queue(w, ntfn), t) == 0 && State(g, t).BlockedOnNotification?
        && forall x :: x in Queue(w, ntfn) ==> Prio(w, x) <= Prio(w, t)
      case NtfnIdle => t == if State(g, Get(bound, ntfn)).BlockedOnReceive? then Get(bound, ntfn) else 0
      case _ => t == 0
  {
    if KindOf(w, ntfn).NtfnWaiting? {
      HeadWaits(g.tsType, w, ntfn);
      StatesIn(g);
      var q := Queue(w, ntfn);
      assert QueueOk(w, ntfn);
      forall x | x in q ensures Prio(w, x) <= Prio(w, q[0]) {
        assert q[IndexOf(q, x)] == x;
        assert Priorities(w, q)[IndexOf(q, x)] == Prio(w, x) && Priorities(w, q)[0] == Prio(w, q[0]);
      }
    }
  }

  /** Splitting a queue by badge keeps the order of both parts. */
  lemma {:induction false} BadgesInOrder(p: seq<nat>, q: seq<nat>, offers: map<nat, Offer>, badge: bv64)
    ensures Unbadged(p + q, offers, badge) == Unbadged(p, offers, badge) + Unbadged(q, offers, badge)
    ensures Badged(p + q, offers, badge) == Badged(p, offers, badge) + Badged(q, offers, badge)
  {
    UnbadgedInOrder(p, q, offers, badge);
    BadgedInOrder(p, q, offers, badge);
  }

  lemma {:induction false} UnbadgedInOrder(p: seq<nat>, q: seq<nat>, offers: map<nat, Offer>, badge: bv64)
    ensures Unbadged(p + q, offers, badge) == Unbadged(p, offers, badge) + Unbadged(q, offers, badge)
    decreases |q|
  {
    if q == [] {
      assert p + q == p;
    } else {
      var n := |q| - 1;
      assert (p + q)[..|p + q| - 1] == p + q[..n];
      UnbadgedInOrder(p, q[..n], offers, badge);
    }
  }

  lemma {:induction false} BadgedInOrder(p: seq<nat>, q: seq<nat>, offers: map<nat, Offer>, badge: bv64)
    ensures Badged(p + q, offers, badge) == Badged(p, offers, badge) + Badged(q, offers, badge)
    decreases |p|
  {
    if p == [] {
      assert p + q == q;
    } else {
      assert (p + q)[1..] == p[1..] + q;
      BadgedInOrder(p[1..], q, offers, badge);
    }
  }
}
