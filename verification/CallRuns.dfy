/**
  Whole runs of the reply operations (kernel/src/object/reply.c), and calls together with their
  replies: what a call does to the call stacks and the scheduling contexts, its reply undoes.
 */
module CallRuns {
  import opened CallStacks
  import opened Ipc

  // ---------------------------------------------------------------- runs

  datatype Op =
    | Push(caller: nat, callee: nat, reply: nat, canDonate: bool)
    | Pop(reply: nat)
    | Remove(reply: nat)
    | RemoveTcb(tcb: nat)

  /** What the kernel asserts when it starts the operation. */
  predicate Allowed(g: Graph, op: Op) {
    match op
    case Push(caller, callee, reply, _) => Loose(g, reply) && Ready(g, caller) && callee != 0
    case Pop(reply) => Next(g, reply).isHead
    case Remove(reply) => ReplyTcb(g, reply) != 0 && State(g, ReplyTcb(g, reply)).BlockedOnReply?
    case RemoveTcb(tcb) => State(g, tcb).BlockedOnReply?
  }

  function Apply(g: Graph, op: Op): Graph {
    match op
    case Push(caller, callee, reply, canDonate) => Pushed(g, caller, callee, reply, canDonate)
    case Pop(reply) => Popped(g, reply, ReplyTcb(g, reply))
    case Remove(reply) => Removed(g, reply, ReplyTcb(g, reply))
    case RemoveTcb(tcb) => RemovedTcb(g, tcb)
  }

  function Execute(g: Graph, ops: seq<Op>): Graph
    decreases |ops|
  {
    if ops == [] then g else Execute(Apply(g, ops[0]), ops[1..])
  }

  predicate AllAllowed(g: Graph, ops: seq<Op>)
    decreases |ops|
  {
    ops != [] ==> Allowed(g, ops[0]) && AllAllowed(Apply(g, ops[0]), ops[1..])
  }

  lemma StepInv(g: Graph, rank: map<nat, nat>, op: Op) returns (after: map<nat, nat>)
    requires Inv(g, rank) && Allowed(g, op)
    ensures Inv(Apply(g, op), after)
  {
    after := rank;
    match op
    case Push(caller, callee, reply, canDonate) =>
      PushedInv(g, rank, caller, callee, reply, canDonate);
      after := PushRank(g, rank, caller, callee, reply, canDonate);
    case Pop(reply) =>
      PoppedInv(g, rank, reply, ReplyTcb(g, reply));
    case Remove(reply) =>
      RemovedInv(g, rank, reply);
    case RemoveTcb(tcb) =>
      CutInv(g, rank, ReplyOf(g, tcb), tcb);
  }

  lemma {:induction false} RunInv(g: Graph, rank: map<nat, nat>, ops: seq<Op>) returns (after: map<nat, nat>)
    requires Inv(g, rank) && AllAllowed(g, ops)
    ensures Inv(Execute(g, ops), after)
    decreases |ops|
  {
    hide Inv;
    if ops == [] {
      after := rank;
    } else {
      var next := StepInv(g, rank, ops[0]);
      after := RunInv(Apply(g, ops[0]), next, ops[1..]);
    }
  }

  /** The replies of a scheduling context, from the head down, linked both ways and each with its blocked thread. */
  ghost predicate CallStackOf(g: Graph, s: nat, l: seq<nat>) {
    && ScReply(g, s) == (if l == [] then 0 else l[0])
    && (forall i :: 0 <= i < |l| ==>
          && Next(g, l[i]) == (if i == 0 then CallStack(s, true) else CallStack(l[i - 1], false))
          && Prev(g, l[i]) == (if i + 1 == |l| then 0 else l[i + 1]))
    && (forall i, j :: 0 <= i < j < |l| ==> l[i] != l[j])
    && (forall i :: 0 <= i < |l| ==>
          State(g, ReplyTcb(g, l[i])).BlockedOnReply? && ReplyOf(g, ReplyTcb(g, l[i])) == l[i])
  }

  /** Main result: after any run of the four operations every scheduling context has such a stack. */
  lemma RunStacks(g: Graph, rank: map<nat, nat>, ops: seq<Op>, s: nat) returns (l: seq<nat>)
    requires Inv(g, rank) && AllAllowed(g, ops)
    ensures CallStackOf(Execute(g, ops), s, l)
  {
    var after := RunInv(g, rank, ops);
    hide Execute;
    var h := Execute(g, ops);
    l := StackExists(h, after, ScReply(h, s));
    StackLinked(h, after, s, l);
  }

  lemma StackLinked(g: Graph, rank: map<nat, nat>, s: nat, l: seq<nat>)
    requires Inv(g, rank) && IsStack(g, ScReply(g, s), l)
    ensures CallStackOf(g, s, l)
  {
    forall i | 0 <= i < |l|
      ensures l[i] != 0 && (i > 0 ==> Prev(g, l[i - 1]) == l[i])
      ensures i + 1 == |l| ==> Prev(g, l[i]) == 0
    {
      StackBelow(g, rank, ScReply(g, s), l, i);
    }
    forall i, j | 0 <= i < j < |l| ensures l[i] != l[j] {
      StackDistinct(g, rank, ScReply(g, s), l, i, j);
    }
    forall i | 0 <= i < |l|
      ensures State(g, ReplyTcb(g, l[i])).BlockedOnReply? && ReplyOf(g, ReplyTcb(g, l[i])) == l[i]
    {
      assert Next(g, l[i]) == if i == 0 then CallStack(s, true) else CallStack(l[i - 1], false);
      Linked(g, l[i]);
    }
  }

  // ---------------------------------------------------------------- a call and its reply

  /** The same call stacks, and the same threads with the same scheduling contexts. */
  ghost predicate SameStacks(h: Graph, g: Graph) {
    && (forall r :: Prev(h, r) == Prev(g, r) && Next(h, r) == Next(g, r) && ReplyTcb(h, r) == ReplyTcb(g, r))
    && (forall s :: ScReply(h, s) == ScReply(g, s) && ScTcb(h, s) == ScTcb(g, s))
    && (forall t :: TcbSC(h, t) == TcbSC(g, t))
  }

  lemma PushedFields(g: Graph, caller: nat, callee: nat, reply: nat)
    requires Donates(g, caller, callee, true) && ScTcb(g, TcbSC(g, caller)) == caller && caller != 0
    ensures var h, sc := Pushed(g, caller, callee, reply, true), TcbSC(g, caller);
      var below := ScReply(g, sc);
      && (forall r :: Prev(h, r) == if r == reply then below else Prev(g, r))
      && (forall r :: Next(h, r) == if r == reply then CallStack(sc, true)
                                    else if r == below && r != 0 then CallStack(reply, false) else Next(g, r))
      && (forall s :: ScReply(h, s) == if s == sc then reply else ScReply(g, s))
      && (forall r :: ReplyTcb(h, r) == if r == reply then caller else ReplyTcb(g, r))
      && (forall t :: State(h, t) == if t == caller then BlockedOnReply else State(g, t))
      && (forall s :: ScTcb(h, s) == if s == sc then callee else ScTcb(g, s))
      && (forall t :: TcbSC(h, t) == if t == callee then sc else if t == caller then 0 else TcbSC(g, t))
  {
  }

  lemma PoppedFields(g: Graph, reply: nat, tcb: nat)
    requires TcbSC(g, tcb) == 0
    ensures var h, up, below := Popped(g, reply, tcb), Next(g, reply), Prev(g, reply);
      && (forall r :: Prev(h, r) == if r == reply then 0 else Prev(g, r))
      && (forall r :: Next(h, r) == if r == reply then CallStack(0, false)
                                    else if r == below && r != 0 then up else Next(g, r))
      && (forall s :: ScReply(h, s) == if s == up.ptr then below else ScReply(g, s))
      && (forall r :: ReplyTcb(h, r) == if r == reply then 0 else ReplyTcb(g, r))
      && (forall t :: State(h, t) == if t == tcb then Inactive else State(g, t))
      && (forall s :: ScTcb(h, s) == if s == up.ptr then tcb else ScTcb(g, s))
      && (forall t :: TcbSC(h, t) == if t == tcb then up.ptr
                                     else if t == ScTcb(g, up.ptr) && t != 0 then 0 else TcbSC(g, t))
  {
  }

  /** Popping a reply that was pushed with donation restores every stack and every scheduling context. */
  lemma PushThenPop(g: Graph, rank: map<nat, nat>, caller: nat, callee: nat, reply: nat)
    requires Inv(g, rank) && Loose(g, reply) && Ready(g, caller) && caller != 0 && callee != 0
    requires Donates(g, caller, callee, true)
    ensures var h := Pushed(g, caller, callee, reply, true);
      && ReplyTcb(h, reply) == caller && Next(h, reply).isHead && State(h, caller) == BlockedOnReply
      && SameStacks(Popped(h, reply, caller), g)
      && forall t :: State(Popped(h, reply, caller), t) == if t == caller then Inactive else State(g, t)
  {
    var h, sc := Pushed(g, caller, callee, reply, true), TcbSC(g, caller);
    PushedFields(g, caller, callee, reply);
    assert caller != callee;
    PoppedFields(h, reply, caller);
    BelowLinked(g, reply, sc);
    hide Pushed, Popped, Prev, Next, ScReply, ScTcb, TcbSC, ReplyTcb, State, Inv, Links, Ranked, Blocked, Bound;
  }

  /** The head of a stack knows its scheduling context; a reply in no stack is the head of none. */
  lemma BelowLinked(g: Graph, reply: nat, sc: nat)
    requires Links(g) && reply != 0 && Next(g, reply).ptr == 0
    ensures var below := ScReply(g, sc); below != reply && (below != 0 ==> Next(g, below) == CallStack(sc, true))
    ensures Next(g, reply) == CallStack(0, false)
  {
  }

  // What the steps of a call and its reply leave alone.

  lemma UnlinkedSame(g: Graph, reply: nat, tcb: nat)
    ensures var u := Unlinked(g, reply, tcb);
      && (forall r :: Prev(u, r) == Prev(g, r) && Next(u, r) == Next(g, r))
      && (forall r :: ReplyTcb(u, r) == if r == reply then 0 else ReplyTcb(g, r))
      && (forall s :: ScReply(u, s) == ScReply(g, s) && ScTcb(u, s) == ScTcb(g, s))
      && (forall t :: TcbSC(u, t) == TcbSC(g, t))
      && (forall t :: State(u, t) == if t == tcb then Inactive else State(g, t))
  {
  }

  lemma ReplyFreed(g: Graph, reply: nat)
    ensures var u := g.(replyTCB := g.replyTCB[reply := 0]);
      && (forall r :: Prev(u, r) == Prev(g, r) && Next(u, r) == Next(g, r))
      && (forall r :: ReplyTcb(u, r) == if r == reply then 0 else ReplyTcb(g, r))
      && (forall s :: ScReply(u, s) == ScReply(g, s) && ScTcb(u, s) == ScTcb(g, s))
      && (forall t :: TcbSC(u, t) == TcbSC(g, t))
  {
  }

  lemma InStateSame(g: Graph, t: nat, ts: TsType)
    ensures var u := InState(g, t, ts);
      && (forall r :: Prev(u, r) == Prev(g, r) && Next(u, r) == Next(g, r) && ReplyTcb(u, r) == ReplyTcb(g, r))
      && (forall s :: ScReply(u, s) == ScReply(g, s) && ScTcb(u, s) == ScTcb(g, s))
      && (forall x :: TcbSC(u, x) == TcbSC(g, x))
      && (forall x :: State(u, x) == if x == t then ts else State(g, x))
  {
  }

  /**
    Main result: the reply undoes the call. A caller with a scheduling context calls a receiver that
    has none and waits with a reply object; once the reply has been sent, every call stack and every
    scheduling context is where it was, both threads run, and the reply object is free again.
   */
  lemma CallThenReply(g: Graph, rank: map<nat, nat>, caller: nat, dest: nat, faults: map<nat, FaultType>, restart: bool)
    requires Inv(g, rank) && State(g, dest).BlockedOnReceive? && ReplyOf(g, dest) != 0 && TcbSC(g, dest) == 0
    requires caller != 0 && State(g, caller) in {Running, Restart} && TcbSC(g, caller) != 0
    requires FaultOf(faults, caller).NullFault?
    ensures var reply, sent := ReplyOf(g, dest), SentGraph(g, caller, dest, true, true, true);
      var h := Replied(sent, reply, faults, restart);
      && State(sent, caller) == BlockedOnReply && ScTcb(sent, TcbSC(g, caller)) == dest
      && SameStacks(h, g.(replyTCB := g.replyTCB[reply := 0]))
      && forall t :: State(h, t) == if t == caller || t == dest then Running else State(g, t)
  {
    hide Prev, Next, ScReply, ScTcb, TcbSC, ReplyTcb, State, ReplyOf, FaultOf, SentGraph, Replied, Inv, Links, Loose;
    var reply, sc := ReplyOf(g, dest), TcbSC(g, caller);
    var sent := SentGraph(g, caller, dest, true, true, true);
    SentFields(g, rank, caller, dest);
    RepliedFields(sent, reply, caller, faults, restart);
    ReplyFreed(g, reply);
    CallFacts(g, rank, caller, dest);
  }

  lemma CallFacts(g: Graph, rank: map<nat, nat>, caller: nat, dest: nat)
    requires Inv(g, rank) && State(g, dest).BlockedOnReceive? && ReplyOf(g, dest) != 0
    ensures var reply, below := ReplyOf(g, dest), ScReply(g, TcbSC(g, caller));
      && dest != 0 && Prev(g, reply) == 0 && Next(g, reply) == CallStack(0, false)
      && below != reply && (below != 0 ==> Next(g, below) == CallStack(TcbSC(g, caller), true))
  {
    var reply := ReplyOf(g, dest);
    ReceivedInv(g, rank, dest);
    UnlinkedSame(g, reply, dest);
    BelowLinked(g, reply, TcbSC(g, caller));
  }

  lemma RepliedFields(g: Graph, reply: nat, tcb: nat, faults: map<nat, FaultType>, restart: bool)
    requires ReplyTcb(g, reply) == tcb && tcb != 0 && State(g, tcb).BlockedOnReply? && Next(g, reply).isHead
    requires TcbSC(g, tcb) == 0 && FaultOf(faults, tcb).NullFault?
    ensures var h, up, below := Replied(g, reply, faults, restart), Next(g, reply), Prev(g, reply);
      && (forall r :: Prev(h, r) == if r == reply then 0 else Prev(g, r))
      && (forall r :: Next(h, r) == if r == reply then CallStack(0, false)
                                    else if r == below && r != 0 then up else Next(g, r))
      && (forall s :: ScReply(h, s) == if s == up.ptr then below else ScReply(g, s))
      && (forall r :: ReplyTcb(h, r) == if r == reply then 0 else ReplyTcb(g, r))
      && (forall t :: State(h, t) == if t == tcb then Running else State(g, t))
      && (forall s :: ScTcb(h, s) == if s == up.ptr then tcb else ScTcb(g, s))
      && (forall t :: TcbSC(h, t) == if t == tcb then up.ptr
                                     else if t == ScTcb(g, up.ptr) && t != 0 then 0 else TcbSC(g, t))
  {
    hide Popped, InState;
    PoppedFields(g, reply, tcb);
    InStateSame(Popped(g, reply, tcb), tcb, Running);
    assert Replied(g, reply, faults, restart) == InState(Popped(g, reply, tcb), tcb, Running);
    hide Prev, Next, ScReply, ScTcb, TcbSC, ReplyTcb, State;
  }

  lemma SentFields(g: Graph, rank: map<nat, nat>, caller: nat, dest: nat)
    requires Inv(g, rank) && State(g, dest).BlockedOnReceive? && ReplyOf(g, dest) != 0 && TcbSC(g, dest) == 0
    requires caller != 0 && State(g, caller) in {Running, Restart} && TcbSC(g, caller) != 0
    ensures var h, sc, reply := SentGraph(g, caller, dest, true, true, true), TcbSC(g, caller), ReplyOf(g, dest);
      var below := ScReply(g, sc);
      && (forall r :: Prev(h, r) == if r == reply then below else Prev(g, r))
      && (forall r :: Next(h, r) == if r == reply then CallStack(sc, true)
                                    else if r == below && r != 0 then CallStack(reply, false) else Next(g, r))
      && (forall s :: ScReply(h, s) == if s == sc then reply else ScReply(g, s))
      && (forall r :: ReplyTcb(h, r) == if r == reply then caller else ReplyTcb(g, r))
      && (forall t :: State(h, t) == if t == caller then BlockedOnReply else if t == dest then Running else State(g, t))
      && (forall s :: ScTcb(h, s) == if s == sc then dest else ScTcb(g, s))
      && (forall t :: TcbSC(h, t) == if t == dest then sc else if t == caller then 0 else TcbSC(g, t))
      && ScTcb(g, sc) == caller && Loose(Received(g, dest), reply)
  {
    hide Unlinked, Pushed, InState;
    var reply, sc := ReplyOf(g, dest), TcbSC(g, caller);
    ReceivedInv(g, rank, dest);
    BoundSender(g, caller);
    hide Inv, Links, Ranked, Blocked, Bound;
    var u := Unlinked(g, reply, dest);
    UnlinkedSame(g, reply, dest);
    PushedFields(u, caller, dest, reply);
    InStateSame(Pushed(u, caller, dest, reply, true), dest, Running);
    hide Prev, Next, ScReply, ScTcb, TcbSC, ReplyTcb, State, ReplyOf;
  }
}
