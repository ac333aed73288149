/**
  The faults of threads: whether the fast path of a signal, which never clears a fault, leaves the
  same faults as the general path, which clears that of a bound thread (kernel/src/fastpath/fastpath.c,
  kernel/src/object/notification.c). It does, because no thread that waits for a message has a fault.
 */
module FaultRuns {
  import opened CallStacks
  import opened PriorityQueues
  import opened WaitQueues
  import opened Ipc

  ghost predicate SameFaults(a: map<nat, FaultType>, b: map<nat, FaultType>) {
    forall t :: FaultOf(a, t) == FaultOf(b, t)
  }

  /** The two paths agree on all faults exactly if no bound thread is woken or the one that is has none. */
  lemma FaultsAgree(g: Graph, w: Waits, bound: map<nat, nat>, faults: map<nat, FaultType>, ntfn: nat)
    ensures var t := WokenBy(g, w, bound, ntfn);
      SameFaults(SignalFaults(g, w, bound, faults, ntfn), faults)
      <==> t == 0 || KindOf(w, ntfn).NtfnWaiting? || FaultOf(faults, t) == NullFault
  {
    var t, slow := WokenBy(g, w, bound, ntfn), SignalFaults(g, w, bound, faults, ntfn);
    if t != 0 && !KindOf(w, ntfn).NtfnWaiting? && FaultOf(faults, t) != NullFault {
      assert FaultOf(slow, t) != FaultOf(faults, t);
    }
  }

  /** Thread 1 waits for a message at endpoint 2, has a fault, and is bound to the idle notification 3. */
  lemma FaultsDiffer()
    ensures var g := Graph(map[], map[], map[], map[], map[], map[], map[1 := BlockedOnReceive], map[]);
      var w := Waits(map[2 := [1]], map[2 := EPRecv, 3 := NtfnIdle], map[1 := 2], map[]);
      var faults := map[1 := OtherFault];
      && Inv(g, map[]) && WaitInv(g.tsType, w)
      && WokenBy(g, w, map[3 := 1], 3) == 1
      && !SameFaults(SignalFaults(g, w, map[3 := 1], faults, 3), faults)
  {
    var g := Graph(map[], map[], map[], map[], map[], map[], map[1 := BlockedOnReceive], map[]);
    var w := Waits(map[2 := [1]], map[2 := EPRecv, 3 := NtfnIdle], map[1 := 2], map[]);
    assert forall r :: Prev(g, r) == 0 && Next(g, r) == CallStack(0, false) && ReplyTcb(g, r) == 0;
    assert forall s :: ScReply(g, s) == 0 && ScTcb(g, s) == 0;
    assert forall t :: TcbSC(g, t) == 0 && ReplyOf(g, t) == 0 && !State(g, t).BlockedOnReply?;
    assert forall o :: Queue(w, o) == if o == 2 then [1] else [];
    FaultsAgree(g, w, map[3 := 1], map[1 := OtherFault], 3);
  }

  // ---------------------------------------------------------------- no thread that waits for a message has a fault

  datatype Sys = Sys(g: Graph, faults: map<nat, FaultType>)

  predicate Acting(g: Graph, t: nat) {
    t != 0 && State(g, t) in {Running, Restart}
  }

  /** Threads with a fault are blocked on sending it or on its reply, or stopped. */
  ghost predicate Calm(s: Sys) {
    forall t :: State(s.g, t) in {Running, Restart, BlockedOnReceive, BlockedOnNotification} ==>
      FaultOf(s.faults, t) == NullFault
  }

  /** What changes the state or the fault of a thread, by the operation of the kernel that does it. */
  datatype Event =
    | BlockSend(t: nat)                                                      // sendIPC, no receiver
    | Deliver(t: nat, dest: nat, call: bool, mayReply: bool, canDonate: bool) // sendIPC, a receiver
    | FaultBlock(t: nat, fault: FaultType)                                   // a fault, its handler not there
    | FaultDeliver(t: nat, fault: FaultType, dest: nat, mayReply: bool, canDonate: bool)
    | FaultStop(t: nat, fault: FaultType)                                    // a fault without a handler
    | Wait(t: nat, reply: nat)                                               // receiveIPC, no sender
    | Take(t: nat, sender: nat, reply: nat, isCall: bool, mayReply: bool)    // receiveIPC, a sender
    | Cancel(t: nat)                                                         // cancelIPC
    | RestartSender(t: nat)                                                  // cancelAllIPC, cancelBadgedSends
    | RestartWaiter(t: nat)                                                  // cancelAllSignals
    | WaitSignal(t: nat)                                                     // receiveSignal, no signal
    | WakeBound(t: nat, sc: nat)                                             // sendSignal, a bound thread
    | WakeFirst(t: nat, sc: nat)                                             // sendSignal, a waiting thread
    | Reply(reply: nat, restart: bool)                                       // doReplyTransfer
    | Resume(t: nat)                                                         // restart
    | Suspend(t: nat)                                                        // suspend

  predicate Possible(s: Sys, e: Event) {
    match e
    case BlockSend(t) => Acting(s.g, t)
    case Deliver(t, dest, _, _, _) => Acting(s.g, t) && State(s.g, dest).BlockedOnReceive?
    case FaultBlock(t, _) => Acting(s.g, t)
    case FaultDeliver(t, _, dest, _, _) => Acting(s.g, t) && State(s.g, dest).BlockedOnReceive?
    case FaultStop(t, _) => Acting(s.g, t)
    case Wait(t, _) => Acting(s.g, t)
    case Take(t, sender, _, _, _) => Acting(s.g, t) && State(s.g, sender).BlockedOnSend?
    case Cancel(t) => true
    case RestartSender(t) => State(s.g, t).BlockedOnSend? || State(s.g, t).BlockedOnReceive?
    case RestartWaiter(t) => State(s.g, t).BlockedOnNotification?
    case WaitSignal(t) => Acting(s.g, t)
    case WakeBound(t, _) => State(s.g, t).BlockedOnReceive?
    case WakeFirst(t, _) => State(s.g, t).BlockedOnNotification?
    case Reply(_, _) => true
    case Resume(t) => true
    case Suspend(t) => true
  }

  function RepliedFaults(s: Sys, reply: nat): map<nat, FaultType> {
    var t := ReplyTcb(s.g, reply);
    if t != 0 && State(s.g, t).BlockedOnReply? && FaultOf(s.faults, t) != NullFault then s.faults[t := NullFault]
    else s.faults
  }

  function Step(s: Sys, e: Event): Sys {
    match e
    case BlockSend(t) => Sys(InState(s.g, t, BlockedOnSend), s.faults)
    case Deliver(t, dest, call, mayReply, canDonate) =>
      Sys(SentGraph(s.g, t, dest, call || FaultOf(s.faults, t) != NullFault, mayReply, canDonate), s.faults)
    case FaultBlock(t, fault) => Sys(InState(s.g, t, BlockedOnSend), s.faults[t := fault])
    case FaultDeliver(t, fault, dest, mayReply, canDonate) =>
      Sys(SentGraph(s.g, t, dest, fault != NullFault, mayReply, canDonate), s.faults[t := fault])
    case FaultStop(t, fault) => Sys(InState(s.g, t, Inactive), s.faults[t := fault])
    case Wait(t, reply) => Sys(Receiving(s.g, t, reply), s.faults)
    case Take(t, sender, reply, isCall, mayReply) =>
      var fault := FaultOf(s.faults, sender);
      Sys(TakenGraph(s.g, sender, t, reply, isCall || fault != NullFault, mayReply, fault != Timeout), s.faults)
    case Cancel(t) => Sys(Cancelled(s.g, t), s.faults[t := NullFault])
    case RestartSender(t) => Sys(RestartOne(s.g, t, s.faults), s.faults)
    case RestartWaiter(t) => Sys(RestartOne(s.g, t, map[]), s.faults)
    case WaitSignal(t) => Sys(InState(s.g, t, BlockedOnNotification), s.faults)
    case WakeBound(t, sc) => Sys(Signalled(s.g, t, sc), s.faults[t := NullFault])
    case WakeFirst(t, sc) => Sys(Signalled(s.g, t, sc), s.faults)
    case Reply(reply, restart) => Sys(Replied(s.g, reply, s.faults, restart), RepliedFaults(s, reply))
    case Resume(t) => Sys(InState(Cancelled(s.g, t), t, Restart), s.faults[t := NullFault])
    case Suspend(t) => Sys(InState(Cancelled(s.g, t), t, Inactive), s.faults[t := NullFault])
  }

  // Which threads the operations move to which state.

  lemma ReceivedStates(g: Graph, dest: nat)
    ensures forall y :: y != dest ==> State(Received(g, dest), y) == State(g, y)
  {
  }

  lemma LentStates(g: Graph, sc: nat, t: nat)
    ensures forall y :: State(Lent(g, sc, t), y) == State(g, y)
  {
  }

  lemma SentStates(g: Graph, t: nat, dest: nat, call: bool, mayReply: bool, canDonate: bool)
    requires t != dest
    ensures var h := SentGraph(g, t, dest, call, mayReply, canDonate);
      && State(h, dest) == Running
      && State(h, t) == (if call then if ReplyOf(g, dest) != 0 && mayReply then BlockedOnReply else Inactive
                         else State(g, t))
      && forall y :: y != t && y != dest ==> State(h, y) == State(g, y)
  {
    var u, reply := Received(g, dest), ReplyOf(g, dest);
    ReceivedStates(g, dest);
    var v := Answered(u, t, dest, reply, call, mayReply, canDonate);
    if call && reply != 0 && mayReply {
      PushedStates(u, t, dest, reply, canDonate);
    } else if call {
      InStateStates(u, t, Inactive);
    } else if canDonate && TcbSC(u, dest) == 0 {
      DonatedStates(u, TcbSC(u, t), dest);
    }
    InStateStates(v, dest, Running);
    hide State, Received, ReplyOf, Pushed, Donated, InState;
  }

  lemma TakenStates(g: Graph, t: nat, sender: nat, reply: nat, call: bool, mayReply: bool, canLend: bool)
    ensures var h := TakenGraph(g, sender, t, reply, call, mayReply, canLend);
      && State(h, sender) == (if call then if mayReply && reply != 0 then BlockedOnReply else Inactive else Running)
      && forall y :: y != sender ==> State(h, y) == State(g, y)
  {
    if call && mayReply && reply != 0 {
      PushedStates(g, sender, t, reply, TcbSC(g, sender) != 0 && canLend);
    } else {
      InStateStates(g, sender, if call then Inactive else Running);
    }
    hide State, Pushed, InState;
  }

  lemma SignalledStates(g: Graph, t: nat, sc: nat)
    ensures forall y :: State(Signalled(g, t, sc), y) == if y == t then Running else State(g, y)
  {
    CancelledStates(g, t);
    InStateStates(Cancelled(g, t), t, Running);
    LentStates(InState(Cancelled(g, t), t, Running), sc, t);
    hide State, Cancelled, InState, Lent;
  }

  lemma RestartedState(g: Graph, t: nat, faults: map<nat, FaultType>)
    ensures var now := if FaultOf(faults, t) == NullFault then Restart else Inactive;
      forall y :: State(RestartOne(g, t, faults), y) == if y == t then now else State(g, y)
  {
    ReceivedStates(g, t);
    var u := if State(g, t).BlockedOnReceive? then Received(g, t) else g;
    InStateStates(u, t, if FaultOf(faults, t) == NullFault then Restart else Inactive);
    hide State, Received, InState;
  }

  lemma RepliedStates(g: Graph, reply: nat, faults: map<nat, FaultType>, restart: bool)
    ensures forall y :: y != ReplyTcb(g, reply) ==> State(Replied(g, reply, faults, restart), y) == State(g, y)
    ensures var t := ReplyTcb(g, reply);
      t == 0 || !State(g, t).BlockedOnReply? ==> Replied(g, reply, faults, restart) == g
  {
    var t := ReplyTcb(g, reply);
    RemovedStates(g, reply, t);
    InStateStates(Removed(g, reply, t), t,
                  if FaultOf(faults, t) == NullFault then Running else if restart then Restart else Inactive);
    hide Removed, InState;
  }

  lemma StepCalm(s: Sys, e: Event)
    requires Calm(s) && Possible(s, e)
    ensures Calm(Step(s, e))
  {
    match e
    case BlockSend(t) => InStateStates(s.g, t, BlockedOnSend);
    case Deliver(t, dest, call, mayReply, canDonate) =>
      SentStates(s.g, t, dest, call || FaultOf(s.faults, t) != NullFault, mayReply, canDonate);
    case FaultBlock(t, fault) => InStateStates(s.g, t, BlockedOnSend);
    case FaultDeliver(t, fault, dest, mayReply, canDonate) =>
      SentStates(s.g, t, dest, fault != NullFault, mayReply, canDonate);
    case FaultStop(t, fault) => InStateStates(s.g, t, Inactive);
    case Wait(t, reply) => InStateStates(s.g, t, BlockedOnReceive);
    case Take(t, sender, reply, isCall, mayReply) =>
      var fault := FaultOf(s.faults, sender);
      TakenStates(s.g, t, sender, reply, isCall || fault != NullFault, mayReply, fault != Timeout);
      InStateStates(s.g, sender, Running);
    case Cancel(t) => CancelledStates(s.g, t);
    case RestartSender(t) => RestartedState(s.g, t, s.faults);
    case RestartWaiter(t) => RestartedState(s.g, t, map[]);
    case WaitSignal(t) => InStateStates(s.g, t, BlockedOnNotification);
    case WakeBound(t, sc) => SignalledStates(s.g, t, sc);
    case WakeFirst(t, sc) => SignalledStates(s.g, t, sc);
    case Reply(reply, restart) =>
      RepliedStates(s.g, reply, s.faults, restart);
    case Resume(t) =>
      CancelledStates(s.g, t);
      InStateStates(Cancelled(s.g, t), t, Restart);
    case Suspend(t) =>
      CancelledStates(s.g, t);
      InStateStates(Cancelled(s.g, t), t, Inactive);
  }

  function Run(s: Sys, es: seq<Event>): Sys
    decreases |es|
  {
    if es == [] then s else Run(Step(s, es[0]), es[1..])
  }

  predicate AllPossible(s: Sys, es: seq<Event>)
    decreases |es|
  {
    es != [] ==> Possible(s, es[0]) && AllPossible(Step(s, es[0]), es[1..])
  }

  lemma {:induction false} RunCalm(s: Sys, es: seq<Event>)
    requires Calm(s) && AllPossible(s, es)
    ensures Calm(Run(s, es))
    decreases |es|
  {
    hide Calm;
    if es != [] {
      StepCalm(s, es[0]);
      RunCalm(Step(s, es[0]), es[1..]);
    }
  }

  /**
    Main result: after any run of the kernel's operations the fast path of a signal and the general
    path leave every thread with the same fault.
   */
  lemma FaultsAlwaysAgree(s: Sys, es: seq<Event>, w: Waits, bound: map<nat, nat>, ntfn: nat)
    requires Calm(s) && AllPossible(s, es)
    ensures var t := Run(s, es); SameFaults(SignalFaults(t.g, w, bound, t.faults, ntfn), t.faults)
  {
    RunCalm(s, es);
    hide Run;
    var t := Run(s, es);
    FaultsAgree(t.g, w, bound, t.faults, ntfn);
  }
}
