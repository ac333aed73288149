/**
  Reply objects and the call stacks they form (kernel/src/object/reply.c, kernel/include/object/reply.h,
  schedContext_donate of kernel/src/object/schedcontext.c). Objects are named by numbers; 0 is the
  null pointer, and also the value of a field that has never been written.
 */
module CallStacks {

  datatype TsType =
    | Inactive | Running | Restart
    | BlockedOnReceive | BlockedOnSend | BlockedOnReply | BlockedOnNotification

  /** The link of a reply upwards: to the scheduling context if it is the head of a stack. */
  datatype CallStack = CallStack(ptr: nat, isHead: bool)

  /** The fields of threads, replies and scheduling contexts that make up the call stacks. */
  datatype Graph = Graph(
    replyTCB: map<nat, nat>,
    replyPrev: map<nat, nat>,
    replyNext: map<nat, CallStack>,
    scReply: map<nat, nat>,
    scTcb: map<nat, nat>,
    tcbSC: map<nat, nat>,
    tsType: map<nat, TsType>,
    replyObject: map<nat, nat>)

  function Get(m: map<nat, nat>, k: nat): nat {
    if k in m then m[k] else 0
  }

  function ReplyTcb(g: Graph, r: nat): nat { Get(g.replyTCB, r) }
  function Prev(g: Graph, r: nat): nat { Get(g.replyPrev, r) }
  function Next(g: Graph, r: nat): CallStack { if r in g.replyNext then g.replyNext[r] else CallStack(0, false) }
  function ScReply(g: Graph, s: nat): nat { Get(g.scReply, s) }
  function ScTcb(g: Graph, s: nat): nat { Get(g.scTcb, s) }
  function TcbSC(g: Graph, t: nat): nat { Get(g.tcbSC, t) }
  function State(g: Graph, t: nat): TsType { if t in g.tsType then g.tsType[t] else Inactive }

  /** The reply that a thread waits with; the field means something only in the states that use it. */
  function ReplyOf(g: Graph, t: nat): nat {
    if State(g, t).BlockedOnReceive? || State(g, t).BlockedOnReply? then Get(g.replyObject, t) else 0
  }

  // ---------------------------------------------------------------- what always holds

  /** Links up and down match, and exactly the head of a stack points at the scheduling context. */
  ghost predicate Links(g: Graph) {
    && (forall r :: Prev(g, r) != 0 ==> r != 0 && Next(g, Prev(g, r)) == CallStack(r, false))
    && (forall r :: Next(g, r).ptr != 0 && !Next(g, r).isHead ==> r != 0 && Prev(g, Next(g, r).ptr) == r)
    && (forall s :: ScReply(g, s) != 0 ==> s != 0 && Next(g, ScReply(g, s)) == CallStack(s, true))
    && (forall r :: Next(g, r).isHead ==> Next(g, r).ptr != 0 && r != 0 && ScReply(g, Next(g, r).ptr) == r)
  }

  /** No stack is cyclic: ranks fall on the way down. */
  ghost predicate Ranked(g: Graph, rank: map<nat, nat>) {
    forall r :: Prev(g, r) != 0 ==> Get(rank, Prev(g, r)) < Get(rank, r)
  }

  /** A reply and the thread blocked with it point at each other; replies in stacks have such a thread. */
  ghost predicate Blocked(g: Graph) {
    && (forall r :: ReplyTcb(g, r) != 0 ==> r != 0 && ReplyOf(g, ReplyTcb(g, r)) == r)
    && (forall t :: ReplyOf(g, t) != 0 ==> t != 0 && ReplyTcb(g, ReplyOf(g, t)) == t)
    && (forall t :: State(g, t).BlockedOnReply? ==> ReplyOf(g, t) != 0)
    && (forall r :: Prev(g, r) != 0 || Next(g, r).ptr != 0 ==> State(g, ReplyTcb(g, r)).BlockedOnReply?)
  }

  /** A thread and its scheduling context point at each other. */
  ghost predicate Bound(g: Graph) {
    && (forall s :: ScTcb(g, s) != 0 ==> s != 0 && TcbSC(g, ScTcb(g, s)) == s)
    && (forall t :: TcbSC(g, t) != 0 ==> t != 0 && ScTcb(g, TcbSC(g, t)) == t)
  }

  ghost predicate Inv(g: Graph, rank: map<nat, nat>) {
    Links(g) && Ranked(g, rank) && Blocked(g) && Bound(g)
  }

  /** The replies from `r` downwards. */
  ghost predicate IsStack(g: Graph, r: nat, l: seq<nat>)
    decreases |l|
  {
    if l == [] then r == 0 else r != 0 && l[0] == r && IsStack(g, Prev(g, r), l[1..])
  }

  /** Every reply has a finite stack below it, and only one. */
  lemma {:induction false} StackExists(g: Graph, rank: map<nat, nat>, r: nat) returns (l: seq<nat>)
    requires Ranked(g, rank)
    ensures IsStack(g, r, l)
    ensures forall x :: x in l ==> Get(rank, x) <= Get(rank, r)
    decreases Get(rank, r)
  {
    if r == 0 {
      l := [];
    } else if Prev(g, r) == 0 {
      l := [r];
    } else {
      var rest := StackExists(g, rank, Prev(g, r));
      l := [r] + rest;
    }
  }

  lemma {:induction false} StackUnique(g: Graph, r: nat, l: seq<nat>, l': seq<nat>)
    requires IsStack(g, r, l) && IsStack(g, r, l')
    ensures l == l'
    decreases |l|
  {
    if l != [] {
      StackUnique(g, Prev(g, r), l[1..], l'[1..]);
    }
  }

  /** A stack depends only on the links of its members. */
  lemma {:induction false} StackKept(g: Graph, h: Graph, r: nat, l: seq<nat>)
    requires IsStack(g, r, l) && forall x :: x in l ==> Prev(h, x) == Prev(g, x)
    ensures IsStack(h, r, l)
    decreases |l|
  {
    if l != [] {
      StackKept(g, h, Prev(g, r), l[1..]);
    }
  }

  /** No reply is twice in a stack. */
  lemma {:induction false} StackBelow(g: Graph, rank: map<nat, nat>, r: nat, l: seq<nat>, k: nat)
    requires Ranked(g, rank) && IsStack(g, r, l) && k < |l|
    ensures l[k] != 0 && (k > 0 ==> l[k] == Prev(g, l[k - 1]) && Get(rank, l[k]) < Get(rank, r))
    ensures IsStack(g, l[k], l[k..])
    ensures k > 0 ==> r !in l[k..]
    decreases |l|
  {
    if k > 0 {
      StackBelow(g, rank, Prev(g, r), l[1..], k - 1);
      assert l[k..] == l[1..][k - 1..];
      forall j | k <= j < |l| ensures l[j] != r {
        StackBelow(g, rank, Prev(g, r), l[1..], j - 1);
      }
    }
  }

  // ---------------------------------------------------------------- what the operations do

  function Unlinked(g: Graph, reply: nat, tcb: nat): Graph {
    g.(replyTCB := g.replyTCB[reply := 0], tsType := g.tsType[tcb := Inactive])
  }

  /** The scheduling context goes from the thread that has it, if any, to another. */
  function Donated(g: Graph, sc: nat, to: nat): Graph {
    var from := ScTcb(g, sc);
    var taken := if from != 0 then g.tcbSC[from := 0] else g.tcbSC;
    g.(scTcb := g.scTcb[sc := to], tcbSC := taken[to := sc])
  }

  predicate Donates(g: Graph, caller: nat, callee: nat, canDonate: bool) {
    TcbSC(g, caller) != 0 && TcbSC(g, callee) == 0 && canDonate
  }

  function Awaiting(g: Graph, caller: nat, reply: nat): Graph {
    g.(replyTCB := g.replyTCB[reply := caller],
       tsType := g.tsType[caller := BlockedOnReply],
       replyObject := g.replyObject[caller := reply])
  }

  /** The reply on top of the stack of a scheduling context. */
  function OnTop(g: Graph, reply: nat, sc: nat): Graph {
    var oldCaller := ScReply(g, sc);
    var next := if oldCaller != 0 then g.replyNext[oldCaller := CallStack(reply, false)] else g.replyNext;
    g.(replyPrev := g.replyPrev[reply := oldCaller],
       scReply := g.scReply[sc := reply],
       replyNext := next[reply := CallStack(sc, true)])
  }

  function Pushed(g: Graph, caller: nat, callee: nat, reply: nat, canDonate: bool): Graph {
    var waiting := Awaiting(g, caller, reply);
    if Donates(g, caller, callee, canDonate) then
      Donated(OnTop(waiting, reply, TcbSC(g, caller)), TcbSC(g, caller), callee)
    else waiting
  }

  /** The head reply taken off its stack, which passes to the reply below. */
  function OffTop(g: Graph, reply: nat): Graph {
    var up, prev := Next(g, reply), Prev(g, reply);
    var next := if prev != 0 then g.replyNext[prev := up] else g.replyNext;
    g.(scReply := g.scReply[up.ptr := prev],
       replyNext := next[reply := CallStack(0, false)],
       replyPrev := g.replyPrev[reply := 0])
  }

  function Popped(g: Graph, reply: nat, tcb: nat): Graph {
    var sc := Next(g, reply).ptr;
    var off := OffTop(g, reply);
    Unlinked(if TcbSC(g, tcb) == 0 then Donated(off, sc, tcb) else off, reply, tcb)
  }

  /** The reply cut out: what is above it, a reply or a scheduling context, and what is below part from it. */
  function CutOut(g: Graph, reply: nat): Graph {
    var up, prev := Next(g, reply), Prev(g, reply);
    var scs := if up.isHead then g.scReply[up.ptr := 0] else g.scReply;
    var prevs := if up.ptr != 0 && !up.isHead then g.replyPrev[up.ptr := 0] else g.replyPrev;
    var nexts := if prev != 0 then g.replyNext[prev := CallStack(0, false)] else g.replyNext;
    g.(scReply := scs,
       replyPrev := prevs[reply := 0],
       replyNext := nexts[reply := CallStack(0, false)])
  }

  function Removed(g: Graph, reply: nat, tcb: nat): Graph {
    if Next(g, reply).isHead then Popped(g, reply, tcb) else Unlinked(CutOut(g, reply), reply, tcb)
  }

  function RemovedTcb(g: Graph, tcb: nat): Graph {
    var reply := ReplyOf(g, tcb);
    Unlinked(CutOut(g, reply), reply, tcb)
  }

  // ---------------------------------------------------------------- what the operations keep

  predicate Loose(g: Graph, reply: nat) {
    reply != 0 && ReplyTcb(g, reply) == 0 && Prev(g, reply) == 0 && Next(g, reply).ptr == 0
  }

  predicate Ready(g: Graph, t: nat) {
    t != 0 && !State(g, t).BlockedOnReply? && !State(g, t).BlockedOnReceive?
  }

  // Each operation, field by field.

  lemma OnTopFields(g: Graph, reply: nat, sc: nat)
    ensures var h, below := OnTop(g, reply, sc), ScReply(g, sc);
      && (forall r :: Prev(h, r) == if r == reply then below else Prev(g, r))
      && (forall r :: Next(h, r) == if r == reply then CallStack(sc, true)
                                    else if r == below && r != 0 then CallStack(reply, false) else Next(g, r))
      && (forall s :: ScReply(h, s) == if s == sc then reply else ScReply(g, s))
  {
  }

  lemma OffTopFields(g: Graph, reply: nat)
    ensures var h, up, prev := OffTop(g, reply), Next(g, reply), Prev(g, reply);
      && (forall r :: Prev(h, r) == if r == reply then 0 else Prev(g, r))
      && (forall r :: Next(h, r) == if r == reply then CallStack(0, false)
                                    else if r == prev && r != 0 then up else Next(g, r))
      && (forall s :: ScReply(h, s) == if s == up.ptr then prev else ScReply(g, s))
  {
  }

  lemma CutOutFields(g: Graph, reply: nat)
    ensures var h, up, prev := CutOut(g, reply), Next(g, reply), Prev(g, reply);
      && (forall r :: Prev(h, r) == if r == reply || (r == up.ptr && r != 0 && !up.isHead) then 0 else Prev(g, r))
      && (forall r :: Next(h, r) == if r == reply || (r == prev && r != 0) then CallStack(0, false) else Next(g, r))
      && (forall s :: ScReply(h, s) == if s == up.ptr && up.isHead then 0 else ScReply(g, s))
  {
  }

  lemma DonatedFields(g: Graph, sc: nat, to: nat)
    ensures var h := Donated(g, sc, to);
      && (forall s :: ScTcb(h, s) == if s == sc then to else ScTcb(g, s))
      && (forall t :: TcbSC(h, t) == if t == to then sc else if t == ScTcb(g, sc) && t != 0 then 0 else TcbSC(g, t))
  {
  }

  lemma AwaitingFields(g: Graph, caller: nat, reply: nat)
    ensures var h := Awaiting(g, caller, reply);
      && (forall r :: ReplyTcb(h, r) == if r == reply then caller else ReplyTcb(g, r))
      && (forall t :: State(h, t) == if t == caller then BlockedOnReply else State(g, t))
      && (forall t :: ReplyOf(h, t) == if t == caller then reply else ReplyOf(g, t))
      && (forall r :: Prev(h, r) == Prev(g, r) && Next(h, r) == Next(g, r))
  {
  }

  lemma UnlinkedFields(g: Graph, reply: nat, tcb: nat)
    ensures var h := Unlinked(g, reply, tcb);
      && (forall r :: ReplyTcb(h, r) == if r == reply then 0 else ReplyTcb(g, r))
      && (forall t :: State(h, t) == if t == tcb then Inactive else State(g, t))
      && (forall t :: ReplyOf(h, t) == if t == tcb then 0 else ReplyOf(g, t))
      && (forall r :: Prev(h, r) == Prev(g, r) && Next(h, r) == Next(g, r))
  {
  }

  lemma OnTopLinks(g: Graph, reply: nat, sc: nat)
    requires Links(g) && reply != 0 && Prev(g, reply) == 0 && Next(g, reply).ptr == 0 && sc != 0
    ensures Links(OnTop(g, reply, sc))
  {
    OnTopFields(g, reply, sc);
    hide OnTop, Prev, Next, ScReply;
  }

  /** The new head ranks above the old one; nothing is above it. */
  function RankOnTop(g: Graph, rank: map<nat, nat>, reply: nat, sc: nat): map<nat, nat> {
    rank[reply := Get(rank, ScReply(g, sc)) + 1]
  }

  lemma OnTopRanked(g: Graph, rank: map<nat, nat>, reply: nat, sc: nat)
    requires Links(g) && Ranked(g, rank) && reply != 0 && Next(g, reply).ptr == 0
    requires ScReply(g, sc) != reply
    ensures Ranked(OnTop(g, reply, sc), RankOnTop(g, rank, reply, sc))
  {
    OnTopFields(g, reply, sc);
    hide OnTop, Prev, Next, ScReply;
    forall r | Prev(g, r) != 0 ensures Prev(g, r) != reply {
      assert Next(g, Prev(g, r)) == CallStack(r, false);
    }
  }

  lemma OffTopLinks(g: Graph, rank: map<nat, nat>, reply: nat)
    requires Links(g) && Ranked(g, rank) && Next(g, reply).isHead
    ensures Links(OffTop(g, reply)) && Ranked(OffTop(g, reply), rank)
  {
    OffTopFields(g, reply);
    hide OffTop, Prev, Next, ScReply;
  }

  lemma CutOutLinks(g: Graph, rank: map<nat, nat>, reply: nat)
    requires Links(g) && Ranked(g, rank) && reply != 0
    ensures Links(CutOut(g, reply)) && Ranked(CutOut(g, reply), rank)
  {
    CutOutFields(g, reply);
    hide CutOut, Prev, Next, ScReply;
  }

  lemma DonatedBound(g: Graph, sc: nat, to: nat)
    requires Bound(g) && sc != 0 && to != 0 && TcbSC(g, to) == 0
    ensures Bound(Donated(g, sc, to))
  {
    DonatedFields(g, sc, to);
    hide Donated, ScTcb, TcbSC;
  }

  lemma AwaitingBlocked(g: Graph, caller: nat, reply: nat)
    requires Blocked(g) && Loose(g, reply) && Ready(g, caller)
    ensures Blocked(Awaiting(g, caller, reply))
  {
    AwaitingFields(g, caller, reply);
    NoReply(g, caller);
    hide Awaiting, ReplyTcb, State, ReplyOf, Prev, Next;
  }

  lemma NoReply(g: Graph, t: nat)
    requires Ready(g, t)
    ensures ReplyOf(g, t) == 0
  {
  }

  lemma UnlinkedBlocked(g: Graph, reply: nat, tcb: nat)
    requires Blocked(g) && ReplyTcb(g, reply) == tcb && tcb != 0 && Prev(g, reply) == 0 && Next(g, reply).ptr == 0
    ensures Blocked(Unlinked(g, reply, tcb))
  {
    UnlinkedFields(g, reply, tcb);
    hide Unlinked, ReplyTcb, State, ReplyOf, Prev, Next;
  }

  lemma DonatedOthers(g: Graph, sc: nat, to: nat, rank: map<nat, nat>)
    requires Links(g) && Ranked(g, rank) && Blocked(g)
    ensures var h := Donated(g, sc, to); Links(h) && Ranked(h, rank) && Blocked(h)
  {
    var h := Donated(g, sc, to);
    assert forall r :: Prev(h, r) == Prev(g, r) && Next(h, r) == Next(g, r) && ReplyTcb(h, r) == ReplyTcb(g, r);
    assert forall s :: ScReply(h, s) == ScReply(g, s);
    assert forall t :: State(h, t) == State(g, t) && ReplyOf(h, t) == ReplyOf(g, t);
    hide Donated, ReplyTcb, State, ReplyOf, Prev, Next, ScReply;
  }

  lemma AwaitingOthers(g: Graph, caller: nat, reply: nat, rank: map<nat, nat>)
    requires Links(g) && Ranked(g, rank) && Bound(g)
    ensures var h := Awaiting(g, caller, reply); Links(h) && Ranked(h, rank) && Bound(h)
  {
    SameLinks(g, Awaiting(g, caller, reply), rank);
  }

  lemma UnlinkedOthers(g: Graph, reply: nat, tcb: nat, rank: map<nat, nat>)
    requires Links(g) && Ranked(g, rank) && Bound(g)
    ensures var h := Unlinked(g, reply, tcb); Links(h) && Ranked(h, rank) && Bound(h)
  {
    SameLinks(g, Unlinked(g, reply, tcb), rank);
  }

  lemma SameLinks(g: Graph, h: Graph, rank: map<nat, nat>)
    requires Links(g) && Ranked(g, rank) && Bound(g)
    requires h.replyPrev == g.replyPrev && h.replyNext == g.replyNext && h.scReply == g.scReply
    requires h.scTcb == g.scTcb && h.tcbSC == g.tcbSC
    ensures Links(h) && Ranked(h, rank) && Bound(h)
  {
    assert forall r :: Prev(h, r) == Prev(g, r) && Next(h, r) == Next(g, r);
    assert forall s :: ScReply(h, s) == ScReply(g, s) && ScTcb(h, s) == ScTcb(g, s);
    assert forall t :: TcbSC(h, t) == TcbSC(g, t);
    hide Prev, Next, ScReply, ScTcb, TcbSC;
  }

  lemma SameBound(g: Graph, h: Graph)
    requires Bound(g) && h.scTcb == g.scTcb && h.tcbSC == g.tcbSC
    ensures Bound(h)
  {
    assert forall s :: ScTcb(h, s) == ScTcb(g, s);
    assert forall t :: TcbSC(h, t) == TcbSC(g, t);
    hide ScTcb, TcbSC;
  }

  /** Linking replies keeps threads and replies together if whatever gets linked waits for a reply. */
  lemma RelinkedBlocked(g: Graph, h: Graph)
    requires Blocked(g) && h.replyTCB == g.replyTCB && h.tsType == g.tsType && h.replyObject == g.replyObject
    requires forall r :: Prev(h, r) != 0 || Next(h, r).ptr != 0 ==> State(g, ReplyTcb(g, r)).BlockedOnReply?
    ensures Blocked(h)
  {
    assert forall r :: ReplyTcb(h, r) == ReplyTcb(g, r);
    assert forall t :: State(h, t) == State(g, t) && ReplyOf(h, t) == ReplyOf(g, t);
    hide ReplyTcb, State, ReplyOf, Prev, Next;
  }

  lemma OnTopBlocked(g: Graph, reply: nat, sc: nat)
    requires Blocked(g) && Links(g) && State(g, ReplyTcb(g, reply)).BlockedOnReply?
    ensures Blocked(OnTop(g, reply, sc))
  {
    OnTopFields(g, reply, sc);
    RelinkedBlocked(g, OnTop(g, reply, sc)) by {
      hide OnTop, ReplyTcb, State, ReplyOf, Prev, Next, ScReply;
      assert ScReply(g, sc) != 0 ==> Next(g, ScReply(g, sc)) == CallStack(sc, true);
    }
  }

  lemma OffTopBlocked(g: Graph, reply: nat)
    requires Blocked(g) && Links(g)
    ensures Blocked(OffTop(g, reply))
  {
    OffTopFields(g, reply);
    assert Prev(g, reply) != 0 ==> Next(g, Prev(g, reply)) == CallStack(reply, false);
    RelinkedBlocked(g, OffTop(g, reply));
  }

  lemma CutOutBlocked(g: Graph, reply: nat)
    requires Blocked(g)
    ensures Blocked(CutOut(g, reply))
  {
    CutOutFields(g, reply);
    RelinkedBlocked(g, CutOut(g, reply));
  }

  // ---------------------------------------------------------------- main results

  function PushRank(g: Graph, rank: map<nat, nat>, caller: nat, callee: nat, reply: nat, canDonate: bool)
    : map<nat, nat>
  {
    if Donates(g, caller, callee, canDonate) then RankOnTop(g, rank, reply, TcbSC(g, caller)) else rank
  }

  lemma PushedInv(g: Graph, rank: map<nat, nat>, caller: nat, callee: nat, reply: nat, canDonate: bool)
    requires Inv(g, rank) && Loose(g, reply) && Ready(g, caller) && callee != 0
    ensures Inv(Pushed(g, caller, callee, reply, canDonate), PushRank(g, rank, caller, callee, reply, canDonate))
  {
    var waiting, sc := Awaiting(g, caller, reply), TcbSC(g, caller);
    AwaitingBlocked(g, caller, reply);
    AwaitingOthers(g, caller, reply, rank);
    AwaitingFields(g, caller, reply);
    if Donates(g, caller, callee, canDonate) {
      var top := OnTop(waiting, reply, sc);
      assert ScReply(waiting, sc) == ScReply(g, sc);
      assert ScReply(g, sc) != 0 ==> Next(g, ScReply(g, sc)) == CallStack(sc, true);
      OnTopLinks(waiting, reply, sc);
      OnTopRanked(waiting, rank, reply, sc);
      OnTopBlocked(waiting, reply, sc);
      SameBound(waiting, top);
      DonatedOthers(top, sc, callee, RankOnTop(waiting, rank, reply, sc));
      DonatedBound(top, sc, callee);
    }
  }

  lemma PoppedInv(g: Graph, rank: map<nat, nat>, reply: nat, tcb: nat)
    requires Inv(g, rank) && Next(g, reply).isHead && ReplyTcb(g, reply) == tcb
    ensures Inv(Popped(g, reply, tcb), rank)
  {
    var sc, off := Next(g, reply).ptr, OffTop(g, reply);
    OffTopLinks(g, rank, reply);
    OffTopBlocked(g, reply);
    OffTopFields(g, reply);
    SameBound(g, off);
    Linked(g, reply);
    var back := if TcbSC(g, tcb) == 0 then Donated(off, sc, tcb) else off;
    if TcbSC(g, tcb) == 0 {
      DonatedOthers(off, sc, tcb, rank);
      DonatedBound(off, sc, tcb);
    }
    assert Prev(back, reply) == Prev(off, reply) && Next(back, reply) == Next(off, reply);
    assert ReplyTcb(back, reply) == tcb;
    UnlinkedBlocked(back, reply, tcb);
    UnlinkedOthers(back, reply, tcb, rank);
  }

  /** A reply in a stack has a thread. */
  lemma Linked(g: Graph, reply: nat)
    requires Blocked(g) && Next(g, reply).ptr != 0
    ensures ReplyTcb(g, reply) != 0 && State(g, ReplyTcb(g, reply)).BlockedOnReply?
  {
    assert ReplyOf(g, ReplyTcb(g, reply)) != 0;
  }

  lemma CutInv(g: Graph, rank: map<nat, nat>, reply: nat, tcb: nat)
    requires Inv(g, rank) && reply != 0 && ReplyTcb(g, reply) == tcb && tcb != 0
    ensures Inv(Unlinked(CutOut(g, reply), reply, tcb), rank)
  {
    var cut := CutOut(g, reply);
    CutOutLinks(g, rank, reply);
    CutOutBlocked(g, reply);
    CutOutFields(g, reply);
    SameBound(g, cut);
    assert ReplyTcb(cut, reply) == tcb;
    UnlinkedBlocked(cut, reply, tcb);
    UnlinkedOthers(cut, reply, tcb, rank);
  }

  /** A reply that is in no stack is not below any other. */
  lemma {:induction false} LooseOutside(g: Graph, r: nat, l: seq<nat>, reply: nat)
    requires Links(g) && IsStack(g, r, l) && Next(g, reply).ptr == 0 && r != reply
    ensures reply !in l
    decreases |l|
  {
    if l != [] && Prev(g, r) != 0 {
      assert Next(g, Prev(g, r)) == CallStack(r, false);
      LooseOutside(g, Prev(g, r), l[1..], reply);
    }
  }

  /** The stack of another scheduling context does not hold the head of this one. */
  lemma {:induction false} HeadOutside(g: Graph, r: nat, l: seq<nat>, reply: nat)
    requires Links(g) && IsStack(g, r, l) && Next(g, reply).isHead && r != reply
    ensures reply !in l
    decreases |l|
  {
    if l != [] && Prev(g, r) != 0 {
      assert Next(g, Prev(g, r)) == CallStack(r, false);
      HeadOutside(g, Prev(g, r), l[1..], reply);
    }
  }

  /**
    A push with donation puts the reply on top of the caller's scheduling context's stack, gives the
    context to the callee, and leaves every other stack as it is.
   */
  lemma PushStack(g: Graph, rank: map<nat, nat>, caller: nat, callee: nat, reply: nat, s: nat, l: seq<nat>)
    requires Inv(g, rank) && Loose(g, reply) && Donates(g, caller, callee, true) && caller != 0
    requires IsStack(g, ScReply(g, s), l)
    ensures var h, sc := Pushed(g, caller, callee, reply, true), TcbSC(g, caller);
      && IsStack(h, ScReply(h, s), if s == sc then [reply] + l else l)
      && ScTcb(h, sc) == callee && TcbSC(h, callee) == sc && TcbSC(h, caller) == 0
  {
    var h, sc := Pushed(g, caller, callee, reply, true), TcbSC(g, caller);
    var top := OnTop(Awaiting(g, caller, reply), reply, sc);
    OnTopFields(Awaiting(g, caller, reply), reply, sc);
    AwaitingFields(g, caller, reply);
    assert forall r :: Prev(h, r) == Prev(top, r);
    assert ScReply(g, s) != 0 ==> Next(g, ScReply(g, s)) == CallStack(s, true);
    LooseOutside(g, ScReply(g, s), l, reply);
    StackKept(g, h, ScReply(g, s), l);
    DonatedFields(top, sc, callee);
    assert ([reply] + l)[1..] == l;
  }

  /**
    A pop takes the top off the stack, hands the context back to the thread that called if that has
    none, and leaves every other stack as it is.
   */
  lemma PopStack(g: Graph, rank: map<nat, nat>, reply: nat, tcb: nat, s: nat, l: seq<nat>)
    requires Inv(g, rank) && Next(g, reply).isHead && ReplyTcb(g, reply) == tcb
    requires IsStack(g, ScReply(g, s), l)
    ensures var h, sc := Popped(g, reply, tcb), Next(g, reply).ptr;
      && IsStack(h, ScReply(h, s), if s == sc then l[1..] else l)
      && (TcbSC(g, tcb) == 0 ==> ScTcb(h, sc) == tcb && TcbSC(h, tcb) == sc)
      && (TcbSC(g, tcb) != 0 ==> forall x :: ScTcb(h, x) == ScTcb(g, x) && TcbSC(h, x) == TcbSC(g, x))
      && State(h, tcb) == Inactive && ReplyTcb(h, reply) == 0
  {
    var h, off, sc := Popped(g, reply, tcb), OffTop(g, reply), Next(g, reply).ptr;
    OffTopFields(g, reply);
    assert forall r :: Prev(h, r) == Prev(off, r);
    assert forall x :: ScReply(h, x) == ScReply(off, x);
    if TcbSC(g, tcb) == 0 {
      DonatedFields(off, sc, tcb);
    }
    if s == sc {
      assert ScReply(g, s) == reply;
      forall j | 0 <= j < |l[1..]| ensures l[1..][j] != reply {
        StackBelow(g, rank, reply, l, j + 1);
      }
      StackKept(g, h, Prev(g, reply), l[1..]);
    } else {
      assert ScReply(g, s) != 0 ==> Next(g, ScReply(g, s)) == CallStack(s, true);
      HeadOutside(g, ScReply(g, s), l, reply);
      StackKept(g, h, ScReply(g, s), l);
    }
  }

  /** A stack whose link below position k - 1 is gone ends there. */
  lemma {:induction false} Truncated(g: Graph, h: Graph, r: nat, l: seq<nat>, k: nat)
    requires IsStack(g, r, l) && 0 < k < |l| && Prev(h, l[k - 1]) == 0
    requires forall j :: 0 <= j < k - 1 ==> Prev(h, l[j]) == Prev(g, l[j])
    ensures IsStack(h, r, l[..k])
    decreases |l|
  {
    if k > 1 {
      assert forall j :: 0 <= j < k - 2 ==> l[1..][j] == l[j + 1];
      Truncated(g, h, Prev(g, r), l[1..], k - 1);
      assert l[..k][1..] == l[1..][..k - 1];
    } else {
      assert l[..k] == [r];
    }
  }

  /**
    Cutting a reply out of a stack, at any position, leaves the stack with what was above it, and
    what was below it a stack of no scheduling context.
   */
  lemma CutStack(g: Graph, rank: map<nat, nat>, reply: nat, r: nat, l: seq<nat>, k: nat)
    requires Inv(g, rank) && IsStack(g, r, l) && k < |l| && l[k] == reply && Next(g, l[0]).isHead
    ensures var h := CutOut(g, reply);
      && IsStack(h, if k == 0 then 0 else r, l[..k])
      && (k + 1 < |l| ==> IsStack(h, l[k + 1], l[k + 1..]) && Next(h, l[k + 1]).ptr == 0)
      && (k == 0 ==> ScReply(h, Next(g, reply).ptr) == 0)
      && (k > 0 ==> ScReply(h, Next(g, l[0]).ptr) == r)
  {
    var h := CutOut(g, reply);
    CutOutFields(g, reply);
    StackBelow(g, rank, r, l, k);
    if k > 0 {
      assert Next(g, reply) == CallStack(l[k - 1], false);
      forall j | 0 <= j < k - 1 ensures Prev(h, l[j]) == Prev(g, l[j]) {
        StackDistinct(g, rank, r, l, j, k);
        StackDistinct(g, rank, r, l, j, k - 1);
      }
      Truncated(g, h, r, l, k);
    }
    if k + 1 < |l| {
      StackBelow(g, rank, r, l, k + 1);
      forall j | k + 1 <= j < |l| ensures Prev(h, l[j]) == Prev(g, l[j]) {
        StackDistinct(g, rank, r, l, k, j);
        if k > 0 {
          StackDistinct(g, rank, r, l, k - 1, j);
        }
      }
      assert forall x :: x in l[k + 1..] ==> Prev(h, x) == Prev(g, x);
      StackKept(g, h, l[k + 1], l[k + 1..]);
    }
  }

  lemma StackDistinct(g: Graph, rank: map<nat, nat>, r: nat, l: seq<nat>, i: nat, j: nat)
    requires Ranked(g, rank) && IsStack(g, r, l) && i < j < |l|
    ensures l[i] != l[j]
  {
    StackBelow(g, rank, r, l, i);
    StackBelow(g, rank, l[i], l[i..], j - i);
  }
}
