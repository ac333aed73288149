/**
  The big kernel lock, a CLH queue lock (kernel/include/smp/lock.h, kernel/src/smp/lock.c).

  `n` CPUs run acquire and release concurrently. Every store, exchange and load of the two
  functions is one step of one CPU, and a schedule is any sequence of CPUs; steps are sequentially
  consistent. Request cells and CPUs are numbers; there are `n + 1` cells.
 */
module ClhLock {

  datatype ReqState = Granted | Pending

  /** Where a CPU is: each value names the next step it takes. */
  datatype Pc =
    | Outside               // about to store Pending in its own request cell
    | Marked                // about to exchange the tail for its own cell
    | Exchanged(prev: nat)  // about to store the former tail as the cell it watches
    | Spinning              // about to read the cell it watches
    | Inside                // holds the lock; about to store Granted in its own cell
    | Releasing             // about to take over the cell it watched

  datatype Lock = Lock(
    request: seq<ReqState>,
    watch: seq<nat>,
    myreq: seq<nat>,
    tail: nat,
    pc: seq<Pc>,
    enqueued: seq<nat>,  // history: CPUs in the order of their exchange
    entered: seq<nat>)   // history: CPUs in the order in which they entered

  /** One step of CPU `c`. A CPU whose watched cell is still pending stays where it is. */
  function Step(s: Lock, c: nat): (t: Lock)
    requires Shaped(s) && c < |s.pc|
    ensures Shaped(t) && |t.pc| == |s.pc|
  {
    match s.pc[c]
    case Outside =>
      s.(request := s.request[s.myreq[c] := Pending], pc := s.pc[c := Marked])
    case Marked =>
      s.(tail := s.myreq[c], pc := s.pc[c := Exchanged(s.tail)], enqueued := s.enqueued + [c])
    case Exchanged(prev) =>
      s.(watch := s.watch[c := prev], pc := s.pc[c := Spinning])
    case Spinning =>
      if s.request[s.watch[c]] == Granted then s.(pc := s.pc[c := Inside], entered := s.entered + [c]) else s
    case Inside =>
      s.(request := s.request[s.myreq[c] := Granted], pc := s.pc[c := Releasing])
    case Releasing =>
      s.(myreq := s.myreq[c := s.watch[c]], pc := s.pc[c := Outside])
  }

  /** The pointers point into the arrays. */
  predicate Shaped(s: Lock) {
    var n := |s.pc|;
    && |s.request| == n + 1 && |s.watch| == n && |s.myreq| == n
    && s.tail <= n
    && (forall c :: 0 <= c < n ==> s.myreq[c] <= n)
    && (forall c :: 0 <= c < n ==> s.watch[c] <= n)
    && (forall c :: 0 <= c < n && s.pc[c].Exchanged? ==> s.pc[c].prev <= n)
  }

  /** clh_is_self_in_queue */
  predicate IsSelfInQueue(s: Lock, c: nat)
    requires Shaped(s) && c < |s.pc|
  {
    s.request[s.myreq[c]] == Pending
  }

  // ---------------------------------------------------------------- the initial state

  /** The initialisation loop; memory is zero before it runs, so every state starts as Granted. */
  method ClhLockInit(n: nat) returns (s: Lock)
    ensures Initial(s, n)
  {
    var myreq := seq(n, _ => 0);
    for i := 0 to n
      invariant |myreq| == n && forall c :: 0 <= c < i ==> myreq[c] == c
    {
      myreq := myreq[i := i];
    }
    s := Lock(seq(n + 1, _ => Granted), seq(n, _ => 0), myreq, n, seq(n, _ => Outside), [], []);
    s := s.(request := s.request[n := Granted]);
  }

  ghost predicate Initial(s: Lock, n: nat) {
    && Shaped(s) && |s.pc| == n && s.tail == n
    && (forall c :: 0 <= c < n ==> s.myreq[c] == c && s.pc[c] == Outside)
    && (forall r :: 0 <= r <= n ==> s.request[r] == Granted)
    && s.enqueued == [] && s.entered == []
  }

  // ---------------------------------------------------------------- the invariant

  /** The cell that belongs to CPU `c`; between the two release stores it is already the watched one. */
  function Owned(s: Lock, c: nat): (cell: nat)
    requires Shaped(s) && c < |s.pc|
    ensures cell <= |s.pc|
  {
    if s.pc[c].Releasing? then s.watch[c] else s.myreq[c]
  }

  /** In the queue: from the exchange to the store that grants the lock to the successor. */
  predicate InQueue(pc: Pc) {
    pc.Exchanged? || pc.Spinning? || pc.Inside?
  }

  /** The cell by which CPU `c` will be let in. */
  function Watched(s: Lock, c: nat): nat
    requires Shaped(s) && c < |s.pc|
  {
    if s.pc[c].Exchanged? then s.pc[c].prev else s.watch[c]
  }

  /** The CPUs own different cells, and the spare cell is the one that is left. */
  ghost predicate CellsOneToOne(s: Lock, spare: nat)
    requires Shaped(s)
  {
    && spare <= |s.pc|
    && (forall c :: 0 <= c < |s.pc| ==> Owned(s, c) != spare)
    && (forall c, d :: 0 <= c < d < |s.pc| ==> Owned(s, c) != Owned(s, d))
  }

  /** The queue holds exactly the CPUs between exchange and release; only its head may be inside. */
  ghost predicate Members(s: Lock, q: seq<nat>) {
    && (forall i {:trigger q[i]} :: 0 <= i < |q| ==> q[i] < |s.pc| && InQueue(s.pc[q[i]]))
    && (forall i, j :: 0 <= i < j < |q| ==> q[i] != q[j])
    && (forall c :: 0 <= c < |s.pc| && InQueue(s.pc[c]) ==> c in q)
    && (forall i {:trigger s.pc[q[i]]} :: 0 < i < |q| ==> !s.pc[q[i]].Inside?)
  }

  /** The head watches the spare cell, everyone else the cell of the predecessor; the tail is the last cell. */
  ghost predicate Chained(s: Lock, q: seq<nat>, spare: nat)
    requires Shaped(s) && Members(s, q)
  {
    && (q != [] ==> Watched(s, q[0]) == spare)
    && (forall i {:trigger Watched(s, q[i])} :: 0 < i < |q| ==> Watched(s, q[i]) == Owned(s, q[i - 1]))
    && s.tail == (if q == [] then spare else Owned(s, q[|q| - 1]))
  }

  /** A cell is pending from the first store of its owner's acquire to the first store of its release. */
  ghost predicate States(s: Lock, spare: nat)
    requires Shaped(s) && spare <= |s.pc|
  {
    && s.request[spare] == Granted
    && (forall c :: 0 <= c < |s.pc| ==>
          (s.request[Owned(s, c)] == Pending <==> s.pc[c].Marked? || InQueue(s.pc[c])))
  }

  /** Who exchanged has entered, in the same order, or is still in the queue. */
  ghost predicate History(s: Lock, q: seq<nat>) {
    if q != [] && q[0] < |s.pc| && s.pc[q[0]].Inside? then
      s.enqueued == s.entered + q[1..] && s.entered != [] && s.entered[|s.entered| - 1] == q[0]
    else
      s.enqueued == s.entered + q
  }

  /** `q` is the queue and `spare` the cell that belongs to no CPU. */
  ghost predicate Inv(s: Lock, q: seq<nat>, spare: nat) {
    && Shaped(s)
    && CellsOneToOne(s, spare)
    && Members(s, q)
    && Chained(s, q, spare)
    && States(s, spare)
    && History(s, q)
  }

  lemma InitialInv(s: Lock, n: nat)
    requires Initial(s, n)
    ensures Inv(s, [], n)
  {
  }

  /** The queue and the spare cell after a step of CPU `c`. */
  ghost function NextQueue(s: Lock, q: seq<nat>, c: nat): seq<nat>
    requires c < |s.pc|
  {
    if s.pc[c].Marked? then q + [c] else if s.pc[c].Inside? && q != [] then q[1..] else q
  }

  ghost function NextSpare(s: Lock, spare: nat, c: nat): nat
    requires Shaped(s) && c < |s.pc|
  {
    if s.pc[c].Inside? then s.myreq[c] else spare
  }

  lemma StoreKeepsInv(s: Lock, q: seq<nat>, spare: nat, c: nat)
    requires Inv(s, q, spare) && c < |s.pc| && s.pc[c].Outside?
    ensures Inv(Step(s, c), q, spare)
  {
    hide CellsOneToOne, Chained, States, Members, History;
    OutsideFacts(s, c);
    SameMembers(s, Step(s, c), q);
    hide Members;
    StoreStates(s, spare, c);
    SameCells(s, Step(s, c), q, spare);
  }

  /** The first store of acquire and the last of release change neither queue nor owners. */
  lemma OutsideFacts(s: Lock, c: nat)
    requires Shaped(s) && c < |s.pc| && (s.pc[c].Outside? || s.pc[c].Releasing?)
    ensures var t := Step(s, c);
      && t.tail == s.tail && t.enqueued == s.enqueued && t.entered == s.entered
      && (forall d :: 0 <= d < |s.pc| ==> InQueue(t.pc[d]) == InQueue(s.pc[d]) && t.pc[d].Inside? == s.pc[d].Inside?)
      && (forall d :: 0 <= d < |s.pc| ==> Owned(t, d) == Owned(s, d) && Watched(t, d) == Watched(s, d))
  {
  }

  lemma SameMembers(s: Lock, t: Lock, q: seq<nat>)
    requires |t.pc| == |s.pc| && t.enqueued == s.enqueued && t.entered == s.entered
    requires forall d :: 0 <= d < |s.pc| ==>
      InQueue(t.pc[d]) == InQueue(s.pc[d]) && t.pc[d].Inside? == s.pc[d].Inside?
    ensures (Members(s, q) ==> Members(t, q)) && (History(s, q) ==> History(t, q))
  {
    hide InQueue;
  }

  lemma StoreStates(s: Lock, spare: nat, c: nat)
    requires Shaped(s) && CellsOneToOne(s, spare) && States(s, spare) && c < |s.pc| && s.pc[c].Outside?
    ensures States(Step(s, c), spare)
  {
    OutsideFacts(s, c);
    assert Owned(s, c) == s.myreq[c];
    hide Owned;
    forall d | 0 <= d < |s.pc|
      ensures var t := Step(s, c); t.request[Owned(t, d)] == Pending <==> t.pc[d].Marked? || InQueue(t.pc[d])
    {
      assert d != c ==> Owned(s, d) != Owned(s, c);
    }
  }

  lemma TakeStates(s: Lock, spare: nat, c: nat)
    requires Shaped(s) && spare <= |s.pc| && States(s, spare) && c < |s.pc| && s.pc[c].Releasing?
    ensures States(Step(s, c), spare)
  {
    OutsideFacts(s, c);
    hide Owned;
  }

  /** Who owns and who watches which cell, and the tail, make up the chain. */
  lemma SameCells(s: Lock, t: Lock, q: seq<nat>, spare: nat)
    requires Shaped(s) && Members(s, q) && CellsOneToOne(s, spare) && Chained(s, q, spare)
    requires Shaped(t) && Members(t, q) && |t.pc| == |s.pc| && t.tail == s.tail
    requires forall d :: 0 <= d < |s.pc| ==> Owned(t, d) == Owned(s, d)
    requires forall d :: 0 <= d < |s.pc| ==> Watched(t, d) == Watched(s, d)
    ensures CellsOneToOne(t, spare) && Chained(t, q, spare)
  {
    hide Owned, Watched;
  }

  lemma ExchangeKeepsInv(s: Lock, q: seq<nat>, spare: nat, c: nat)
    requires Inv(s, q, spare) && c < |s.pc| && s.pc[c].Marked?
    ensures Inv(Step(s, c), q + [c], spare)
  {
    hide CellsOneToOne, Chained, States, Members, History;
    ExchangeMembers(s, q, c);
    ExchangeCells(s, q, spare, c);
    ExchangeHistory(s, q, c);
  }

  lemma ExchangeMembers(s: Lock, q: seq<nat>, c: nat)
    requires Shaped(s) && Members(s, q) && c < |s.pc| && s.pc[c].Marked?
    ensures Members(Step(s, c), q + [c])
  {
  }

  lemma ExchangeCells(s: Lock, q: seq<nat>, spare: nat, c: nat)
    requires Shaped(s) && Members(s, q) && CellsOneToOne(s, spare) && Chained(s, q, spare) && States(s, spare)
    requires c < |s.pc| && s.pc[c].Marked? && Members(Step(s, c), q + [c])
    ensures var t := Step(s, c); CellsOneToOne(t, spare) && Chained(t, q + [c], spare) && States(t, spare)
  {
    hide Chained;
    ExchangeChain(s, q, spare, c);
    assert forall d :: 0 <= d < |s.pc| ==> Owned(Step(s, c), d) == Owned(s, d);
  }

  lemma ExchangeChain(s: Lock, q: seq<nat>, spare: nat, c: nat)
    requires Shaped(s) && Members(s, q) && Chained(s, q, spare)
    requires c < |s.pc| && s.pc[c].Marked? && Members(Step(s, c), q + [c])
    ensures Chained(Step(s, c), q + [c], spare)
  {
    ExchangeWatched(s, c);
    hide Owned, Watched, Step;
    var t, longer := Step(s, c), q + [c];
    assert longer[|q|] == c && forall i :: 0 <= i < |q| ==> longer[i] == q[i] && q[i] < |s.pc| && q[i] != c;
    forall i | 0 < i < |longer| ensures Watched(t, longer[i]) == Owned(t, longer[i - 1]) {
      if i < |q| {
        assert Watched(s, q[i]) == Owned(s, q[i - 1]);
      }
    }
  }

  lemma ExchangeWatched(s: Lock, c: nat)
    requires Shaped(s) && c < |s.pc| && s.pc[c].Marked?
    ensures var t := Step(s, c);
      && (forall d :: 0 <= d < |s.pc| ==> Owned(t, d) == Owned(s, d))
      && (forall d :: 0 <= d < |s.pc| && d != c ==> Watched(t, d) == Watched(s, d))
      && Watched(t, c) == s.tail && t.tail == Owned(t, c)
  {
  }

  lemma ExchangeHistory(s: Lock, q: seq<nat>, c: nat)
    requires Shaped(s) && Members(s, q) && History(s, q) && c < |s.pc| && s.pc[c].Marked?
    ensures History(Step(s, c), q + [c])
  {
    assert q != [] ==> (q + [c])[1..] == q[1..] + [c];
  }

  lemma WatchKeepsInv(s: Lock, q: seq<nat>, spare: nat, c: nat)
    requires Inv(s, q, spare) && c < |s.pc| && s.pc[c].Exchanged?
    ensures Inv(Step(s, c), q, spare)
  {
    hide CellsOneToOne, Chained, States, Members, History;
    WatchMembers(s, q, c);
    WatchCells(s, q, spare, c);
    WatchHistory(s, q, c);
  }

  lemma WatchMembers(s: Lock, q: seq<nat>, c: nat)
    requires Shaped(s) && Members(s, q) && c < |s.pc| && s.pc[c].Exchanged?
    ensures Members(Step(s, c), q)
  {
  }

  lemma WatchCells(s: Lock, q: seq<nat>, spare: nat, c: nat)
    requires Shaped(s) && Members(s, q) && CellsOneToOne(s, spare) && Chained(s, q, spare) && States(s, spare)
    requires c < |s.pc| && s.pc[c].Exchanged? && Members(Step(s, c), q)
    ensures var t := Step(s, c); CellsOneToOne(t, spare) && Chained(t, q, spare) && States(t, spare)
  {
    SameCells(s, Step(s, c), q, spare);
  }

  lemma WatchHistory(s: Lock, q: seq<nat>, c: nat)
    requires Shaped(s) && History(s, q) && c < |s.pc| && s.pc[c].Exchanged?
    ensures History(Step(s, c), q)
  {
  }

  /** A spinning CPU reads Granted exactly when it is at the head of the queue. */
  lemma GrantedIffHead(s: Lock, q: seq<nat>, spare: nat, c: nat)
    requires Inv(s, q, spare) && c < |s.pc| && s.pc[c].Spinning?
    ensures q != []
    ensures s.request[s.watch[c]] == Granted <==> q[0] == c
  {
    hide History, CellsOneToOne;
    var k :| 0 <= k < |q| && q[k] == c;
    if k > 0 {
      assert Watched(s, q[k]) == Owned(s, q[k - 1]);
      assert s.request[Owned(s, q[k - 1])] == Pending;
    }
  }

  lemma SpinKeepsInv(s: Lock, q: seq<nat>, spare: nat, c: nat)
    requires Inv(s, q, spare) && c < |s.pc| && s.pc[c].Spinning?
    ensures Inv(Step(s, c), q, spare)
  {
    GrantedIffHead(s, q, spare, c);
    if q[0] == c {
      HeadEntersKeepsInv(s, q, spare, c);
    }
  }

  lemma HeadEntersKeepsInv(s: Lock, q: seq<nat>, spare: nat, c: nat)
    requires Inv(s, q, spare) && c < |s.pc| && s.pc[c].Spinning? && s.request[s.watch[c]] == Granted
    requires q != [] && q[0] == c
    ensures Inv(Step(s, c), q, spare)
  {
    hide CellsOneToOne, Chained, States, Members, History;
    EnterMembers(s, q, c);
    EnterCells(s, q, spare, c);
    EnterHistory(s, q, c);
  }

  lemma EnterMembers(s: Lock, q: seq<nat>, c: nat)
    requires Shaped(s) && Members(s, q) && c < |s.pc| && s.pc[c].Spinning? && q != [] && q[0] == c
    ensures Members(Step(s, c), q)
  {
  }

  lemma EnterCells(s: Lock, q: seq<nat>, spare: nat, c: nat)
    requires Shaped(s) && Members(s, q) && CellsOneToOne(s, spare) && Chained(s, q, spare) && States(s, spare)
    requires c < |s.pc| && s.pc[c].Spinning? && Members(Step(s, c), q)
    ensures var t := Step(s, c); CellsOneToOne(t, spare) && Chained(t, q, spare) && States(t, spare)
  {
    SameCells(s, Step(s, c), q, spare);
  }

  lemma EnterHistory(s: Lock, q: seq<nat>, c: nat)
    requires Shaped(s) && History(s, q) && c < |s.pc| && s.pc[c].Spinning? && q != [] && q[0] == c
    requires s.request[s.watch[c]] == Granted
    ensures History(Step(s, c), q)
  {
    assert q == [q[0]] + q[1..];
  }

  lemma GrantKeepsInv(s: Lock, q: seq<nat>, spare: nat, c: nat)
    requires Inv(s, q, spare) && c < |s.pc| && s.pc[c].Inside?
    ensures q != [] && q[0] == c
    ensures Inv(Step(s, c), q[1..], s.myreq[c])
  {
    assert q != [] && q[0] == c;
    hide CellsOneToOne, Chained, States, Members, History;
    GrantMembers(s, q, c);
    GrantCells(s, q, spare, c);
    GrantHistory(s, q, c);
  }

  lemma GrantMembers(s: Lock, q: seq<nat>, c: nat)
    requires Shaped(s) && Members(s, q) && c < |s.pc| && s.pc[c].Inside? && q != [] && q[0] == c
    ensures Members(Step(s, c), q[1..])
  {
    var t, q' := Step(s, c), q[1..];
    assert forall i :: 0 <= i < |q'| ==> q'[i] == q[i + 1];
    forall d | 0 <= d < |t.pc| && InQueue(t.pc[d]) ensures d in q' {
      assert d in q && d != q[0];
    }
  }

  lemma GrantOwned(s: Lock, q: seq<nat>, spare: nat, c: nat)
    requires Shaped(s) && Members(s, q) && Chained(s, q, spare)
    requires c < |s.pc| && s.pc[c].Inside? && q != [] && q[0] == c
    ensures forall d :: 0 <= d < |s.pc| ==> Owned(Step(s, c), d) == if d == c then spare else Owned(s, d)
    ensures Owned(s, c) == s.myreq[c]
  {
  }

  lemma GrantCells(s: Lock, q: seq<nat>, spare: nat, c: nat)
    requires Shaped(s) && Members(s, q) && CellsOneToOne(s, spare) && Chained(s, q, spare) && States(s, spare)
    requires c < |s.pc| && s.pc[c].Inside? && q != [] && q[0] == c && Members(Step(s, c), q[1..])
    ensures var t := Step(s, c);
      CellsOneToOne(t, s.myreq[c]) && Chained(t, q[1..], s.myreq[c]) && States(t, s.myreq[c])
  {
    hide Owned, Chained;
    GrantOwned(s, q, spare, c);
    GrantChain(s, q, spare, c);
  }

  lemma GrantChain(s: Lock, q: seq<nat>, spare: nat, c: nat)
    requires Shaped(s) && Members(s, q) && Chained(s, q, spare)
    requires c < |s.pc| && s.pc[c].Inside? && q != [] && q[0] == c && Members(Step(s, c), q[1..])
    ensures Chained(Step(s, c), q[1..], s.myreq[c])
  {
    hide Owned, Watched, Step, Shaped, Members, InQueue;
    GrantOwned(s, q, spare, c);
    GrantWatched(s, c);
    Behind(s, q);
    var t, q' := Step(s, c), q[1..];
    forall i | 0 < i < |q'| ensures Watched(t, q'[i]) == Owned(t, q'[i - 1]) {
      assert q'[i] == q[i + 1] && q'[i - 1] == q[i];
    }
    if q' != [] {
      assert q'[0] == q[1] && q'[|q'| - 1] == q[|q| - 1];
    }
  }

  /** Those behind the head are other CPUs. */
  lemma Behind(s: Lock, q: seq<nat>)
    requires Members(s, q)
    ensures forall i :: 0 <= i < |q| ==> q[i] < |s.pc| && (i > 0 ==> q[i] != q[0])
  {
  }

  lemma GrantWatched(s: Lock, c: nat)
    requires Shaped(s) && c < |s.pc| && s.pc[c].Inside?
    ensures var t := Step(s, c);
      t.tail == s.tail && forall d :: 0 <= d < |s.pc| ==> Watched(t, d) == Watched(s, d)
  {
  }

  lemma GrantHistory(s: Lock, q: seq<nat>, c: nat)
    requires Shaped(s) && Members(s, q) && History(s, q) && c < |s.pc| && s.pc[c].Inside? && q != [] && q[0] == c
    ensures History(Step(s, c), q[1..])
  {
  }

  lemma TakeKeepsInv(s: Lock, q: seq<nat>, spare: nat, c: nat)
    requires Inv(s, q, spare) && c < |s.pc| && s.pc[c].Releasing?
    ensures Inv(Step(s, c), q, spare)
  {
    assert spare <= |s.pc|;
    hide CellsOneToOne, Chained, States, Members, History;
    OutsideFacts(s, c);
    SameMembers(s, Step(s, c), q);
    TakeStates(s, spare, c);
    SameCells(s, Step(s, c), q, spare);
  }

  lemma StepInv(s: Lock, q: seq<nat>, spare: nat, c: nat)
    requires Inv(s, q, spare) && c < |s.pc|
    ensures Inv(Step(s, c), NextQueue(s, q, c), NextSpare(s, spare, c))
  {
    match s.pc[c]
    case Outside => StoreKeepsInv(s, q, spare, c);
    case Marked => ExchangeKeepsInv(s, q, spare, c);
    case Exchanged(_) => WatchKeepsInv(s, q, spare, c);
    case Spinning => SpinKeepsInv(s, q, spare, c);
    case Inside => GrantKeepsInv(s, q, spare, c);
    case Releasing => TakeKeepsInv(s, q, spare, c);
  }

  // ---------------------------------------------------------------- whole runs

  ghost predicate Schedule(schedule: seq<nat>, n: nat) {
    forall k :: 0 <= k < |schedule| ==> schedule[k] < n
  }

  function Run(s: Lock, schedule: seq<nat>): (t: Lock)
    requires Shaped(s) && Schedule(schedule, |s.pc|)
    ensures Shaped(t) && |t.pc| == |s.pc|
    decreases |schedule|
  {
    if schedule == [] then s
    else Step(Run(s, schedule[..|schedule| - 1]), schedule[|schedule| - 1])
  }

  lemma {:induction false} RunInv(s: Lock, n: nat, schedule: seq<nat>) returns (q: seq<nat>, spare: nat)
    requires Initial(s, n) && Schedule(schedule, n)
    ensures Inv(Run(s, schedule), q, spare)
    decreases |schedule|
  {
    if schedule == [] {
      q, spare := [], n;
      InitialInv(s, n);
    } else {
      q, spare := RunInv(s, n, schedule[..|schedule| - 1]);
      var before, c := Run(s, schedule[..|schedule| - 1]), schedule[|schedule| - 1];
      StepInv(before, q, spare, c);
      q, spare := NextQueue(before, q, c), NextSpare(before, spare, c);
    }
  }

  /** Main result: in every run at most one CPU is inside. */
  lemma MutualExclusion(s: Lock, n: nat, schedule: seq<nat>, c: nat, d: nat)
    requires Initial(s, n) && Schedule(schedule, n) && c < n && d < n
    ensures var t := Run(s, schedule); t.pc[c].Inside? && t.pc[d].Inside? ==> c == d
  {
    var q, spare := RunInv(s, n, schedule);
    hide CellsOneToOne, Chained, States, History, Run;
    var t := Run(s, schedule);
    if t.pc[c].Inside? && t.pc[d].Inside? {
      var i :| 0 <= i < |q| && q[i] == c;
      var j :| 0 <= j < |q| && q[j] == d;
      assert i == 0 && j == 0;
    }
  }

  /** Main result: CPUs enter in the order of their tail exchanges. */
  lemma FirstComeFirstServed(s: Lock, n: nat, schedule: seq<nat>)
    requires Initial(s, n) && Schedule(schedule, n)
    ensures var t := Run(s, schedule); t.entered <= t.enqueued
  {
    var q, spare := RunInv(s, n, schedule);
  }

  /** Main result: the n + 1 cells are shared out as one for each CPU and one spare, at every moment. */
  lemma CellsAlwaysOneToOne(s: Lock, n: nat, schedule: seq<nat>) returns (spare: nat)
    requires Initial(s, n) && Schedule(schedule, n)
    ensures CellsOneToOne(Run(s, schedule), spare)
  {
    var q;
    q, spare := RunInv(s, n, schedule);
  }

  /** CPU `d` is inside, or two steps of its own at most take it there. */
  ghost predicate InsideSoon(t: Lock, d: nat)
    requires Shaped(t) && d < |t.pc|
  {
    t.pc[d].Inside? || Step(t, d).pc[d].Inside? || Step(Step(t, d), d).pc[d].Inside?
  }

  /** Main result: the queue never stalls; some CPU is inside or gets inside by its own next steps. */
  lemma HeadCanEnter(s: Lock, n: nat, schedule: seq<nat>, c: nat)
    requires Initial(s, n) && Schedule(schedule, n) && c < n
    requires InQueue(Run(s, schedule).pc[c])
    ensures var t := Run(s, schedule);
      exists d :: 0 <= d < n && InsideSoon(t, d)
  {
    var q, spare := RunInv(s, n, schedule);
    var t := Run(s, schedule);
    assert c in q;
    var d := q[0];
    assert InQueue(t.pc[d]);
    if t.pc[d].Spinning? {
      GrantedIffHead(t, q, spare, d);
    } else if t.pc[d].Exchanged? {
      WatchKeepsInv(t, q, spare, d);
      GrantedIffHead(Step(t, d), q, spare, d);
    }
    hide Run;
    assert d < n && InsideSoon(t, d);
  }

  lemma {:induction false} StepThenRun(s: Lock, c: nat, schedule: seq<nat>)
    requires Shaped(s) && c < |s.pc| && Schedule(schedule, |s.pc|)
    ensures Schedule([c] + schedule, |s.pc|) && Run(s, [c] + schedule) == Run(Step(s, c), schedule)
    decreases |schedule|
  {
    var all := [c] + schedule;
    if schedule == [] {
      assert all[..0] == [] && Run(s, []) == s;
    } else {
      assert all[..|all| - 1] == [c] + schedule[..|schedule| - 1];
      StepThenRun(s, c, schedule[..|schedule| - 1]);
    }
  }

  /** How far a CPU of the queue is from being inside. */
  function StepsToEnter(pc: Pc): nat {
    if pc.Exchanged? then 2 else if pc.Spinning? then 1 else 0
  }

  /** The next step of the head brings it nearer to the inside, or out of the queue. */
  lemma HeadStep(s: Lock, q: seq<nat>, spare: nat)
    requires Inv(s, q, spare) && q != []
    ensures var d := q[0];
      && d < |s.pc| && InQueue(s.pc[d])
      && if s.pc[d].Inside? then NextQueue(s, q, d) == q[1..]
         else
           NextQueue(s, q, d) == q && InQueue(Step(s, d).pc[d])
           && StepsToEnter(Step(s, d).pc[d]) < StepsToEnter(s.pc[d])
  {
    hide CellsOneToOne, Chained, States, History;
    if s.pc[q[0]].Spinning? {
      GrantedIffHead(s, q, spare, q[0]);
    }
  }

  lemma {:induction false} EntersByTurns(s: Lock, q: seq<nat>, spare: nat, c: nat) returns (turns: seq<nat>)
    requires Inv(s, q, spare) && c in q
    ensures c < |s.pc| && Schedule(turns, |s.pc|) && (forall k :: 0 <= k < |turns| ==> turns[k] in q)
    ensures Run(s, turns).pc[c].Inside?
    decreases |q|, StepsToEnter(s.pc[q[0]])
  {
    assert Shaped(s);
    HeadStep(s, q, spare);
    hide Inv, Shaped, Step, NextSpare, Run;
    var d := q[0];
    if s.pc[d].Inside? && c == d {
      turns := [];
      RunNone(s);
    } else {
      StepInv(s, q, spare, d);
      var q' := NextQueue(s, q, d);
      assert c in q';
      var rest := EntersByTurns(Step(s, d), q', NextSpare(s, spare, d), c);
      StepThenRun(s, d, rest);
      turns := [d] + rest;
    }
  }

  /** Main result: nobody is left waiting; if the CPUs of the queue take turns, each of them gets inside. */
  lemma EveryoneEnters(s: Lock, n: nat, schedule: seq<nat>, c: nat) returns (turns: seq<nat>)
    requires Initial(s, n) && Schedule(schedule, n) && c < n && InQueue(Run(s, schedule).pc[c])
    ensures var t := Run(s, schedule);
      && Schedule(turns, n) && Run(t, turns).pc[c].Inside?
      && forall k :: 0 <= k < |turns| ==> InQueue(t.pc[turns[k]])
  {
    var q, spare := RunInv(s, n, schedule);
    turns := EntersByTurns(Run(s, schedule), q, spare, c);
  }

  /**
    Main result: outside the two release stores a CPU finds itself in the queue exactly from the
    first store of acquire to the first store of release. Between the two release stores its
    request pointer names a cell that it has already given away, and the answer is whether the CPU
    that owns the cell by then, if any, is in the queue.
   */
  lemma SelfInQueue(s: Lock, n: nat, schedule: seq<nat>, c: nat)
    requires Initial(s, n) && Schedule(schedule, n) && c < n
    ensures var t := Run(s, schedule);
      IsSelfInQueue(t, c) <==>
        if t.pc[c].Releasing? then
          exists d :: 0 <= d < n && Owned(t, d) == t.myreq[c] && (t.pc[d].Marked? || InQueue(t.pc[d]))
        else t.pc[c].Marked? || InQueue(t.pc[c])
  {
    var q, spare := RunInv(s, n, schedule);
    var t := Run(s, schedule);
    assert Owned(t, c) == t.myreq[c] || t.pc[c].Releasing?;
    if t.pc[c].Releasing? && IsSelfInQueue(t, c) {
      var d := OwnerOf(t, spare, t.myreq[c]);
    }
  }

  /** Two CPUs at the start. */
  const START := Two(Granted, Granted, 0, 0, 0, 1, 2, Outside, Outside, [], [])

  /** A state of two CPUs; cell 2 stays granted. */
  function Two(r0: ReqState, r1: ReqState, w0: nat, w1: nat, m0: nat, m1: nat, tail: nat, p0: Pc, p1: Pc,
               enqueued: seq<nat>, entered: seq<nat>): Lock
  {
    Lock([r0, r1, Granted], [w0, w1], [m0, m1], tail, [p0, p1], enqueued, entered)
  }

  /** The states while CPU 0 goes through acquire and into the first store of its release. */
  function Early(k: nat): Lock
    requires k < 5
  {
    if k == 0 then START
    else if k == 1 then Two(Pending, Granted, 0, 0, 0, 1, 2, Marked, Outside, [], [])
    else if k == 2 then Two(Pending, Granted, 0, 0, 0, 1, 0, Exchanged(2), Outside, [0], [])
    else if k == 3 then Two(Pending, Granted, 2, 0, 0, 1, 0, Spinning, Outside, [0], [])
    else Two(Pending, Granted, 2, 0, 0, 1, 0, Inside, Outside, [0], [0])
  }

  /** The states while CPU 1 then goes through acquire and release and into a second acquire. */
  function Late(k: nat): Lock
    requires k < 8
  {
    if k == 0 then Two(Granted, Granted, 2, 0, 0, 1, 0, Releasing, Outside, [0], [0])
    else if k == 1 then Two(Granted, Pending, 2, 0, 0, 1, 0, Releasing, Marked, [0], [0])
    else if k == 2 then Two(Granted, Pending, 2, 0, 0, 1, 1, Releasing, Exchanged(0), [0, 1], [0])
    else if k == 3 then Two(Granted, Pending, 2, 0, 0, 1, 1, Releasing, Spinning, [0, 1], [0])
    else if k == 4 then Two(Granted, Pending, 2, 0, 0, 1, 1, Releasing, Inside, [0, 1], [0, 1])
    else if k == 5 then Two(Granted, Granted, 2, 0, 0, 1, 1, Releasing, Releasing, [0, 1], [0, 1])
    else if k == 6 then Two(Granted, Granted, 2, 0, 0, 0, 1, Releasing, Outside, [0, 1], [0, 1])
    else Two(Pending, Granted, 2, 0, 0, 0, 1, Releasing, Marked, [0, 1], [0, 1])
  }

  /** One step of CPU 0 while its own cell is cell 0. */
  lemma FirstSteps(r0: ReqState, r1: ReqState, w0: nat, m1: nat, tail: nat, p0: Pc, p1: Pc, xs: seq<nat>, es: seq<nat>)
    requires w0 <= 2 && m1 <= 2 && tail <= 2 && (p0.Exchanged? ==> p0.prev <= 2) && (p1.Exchanged? ==> p1.prev <= 2)
    ensures var s := Two(r0, r1, w0, 0, 0, m1, tail, p0, p1, xs, es);
      Shaped(s) &&
      match p0
      case Outside => Step(s, 0) == Two(Pending, r1, w0, 0, 0, m1, tail, Marked, p1, xs, es)
      case Marked => Step(s, 0) == Two(r0, r1, w0, 0, 0, m1, 0, Exchanged(tail), p1, xs + [0], es)
      case Exchanged(prev) => Step(s, 0) == Two(r0, r1, prev, 0, 0, m1, tail, Spinning, p1, xs, es)
      case Spinning => w0 == 2 ==> Step(s, 0) == Two(r0, r1, w0, 0, 0, m1, tail, Inside, p1, xs, es + [0])
      case Inside => Step(s, 0) == Two(Granted, r1, w0, 0, 0, m1, tail, Releasing, p1, xs, es)
      case Releasing => true
  {
  }

  /** One step of CPU 1 while its own cell is cell 1, or cell 0 at the start. */
  lemma SecondSteps(r0: ReqState, r1: ReqState, w0: nat, w1: nat, m1: nat, tail: nat, p0: Pc, p1: Pc,
                    xs: seq<nat>, es: seq<nat>)
    requires w0 <= 2 && w1 <= 2 && m1 <= 1 && tail <= 2
    requires (p0.Exchanged? ==> p0.prev <= 2) && (p1.Exchanged? ==> p1.prev <= 2)
    ensures var s := Two(r0, r1, w0, w1, 0, m1, tail, p0, p1, xs, es);
      Shaped(s) &&
      match p1
      case Outside =>
        Step(s, 1) == if m1 == 0 then Two(Pending, r1, w0, w1, 0, m1, tail, p0, Marked, xs, es)
                      else Two(r0, Pending, w0, w1, 0, m1, tail, p0, Marked, xs, es)
      case Marked => Step(s, 1) == Two(r0, r1, w0, w1, 0, m1, m1, p0, Exchanged(tail), xs + [1], es)
      case Exchanged(prev) => Step(s, 1) == Two(r0, r1, w0, prev, 0, m1, tail, p0, Spinning, xs, es)
      case Spinning =>
        w1 == 0 && r0 == Granted ==> Step(s, 1) == Two(r0, r1, w0, w1, 0, m1, tail, p0, Inside, xs, es + [1])
      case Inside => m1 == 1 ==> Step(s, 1) == Two(r0, Granted, w0, w1, 0, m1, tail, p0, Releasing, xs, es)
      case Releasing => Step(s, 1) == Two(r0, r1, w0, w1, 0, w1, tail, p0, Outside, xs, es)
  {
  }

  lemma EarlyStep(k: nat)
    requires k < 5
    ensures Shaped(Early(k)) && Step(Early(k), 0) == if k == 4 then Late(0) else Early(k + 1)
  {
    hide Step, Shaped, Two;
    FirstSteps(Granted, Granted, 0, 1, 2, Outside, Outside, [], []);
    FirstSteps(Pending, Granted, 0, 1, 2, Marked, Outside, [], []);
    FirstSteps(Pending, Granted, 0, 1, 0, Exchanged(2), Outside, [0], []);
    FirstSteps(Pending, Granted, 2, 1, 0, Spinning, Outside, [0], []);
    FirstSteps(Pending, Granted, 2, 1, 0, Inside, Outside, [0], [0]);
    assert [] + [0] == [0];
  }

  lemma LateStep(k: nat)
    requires k < 7
    ensures Shaped(Late(k)) && Step(Late(k), 1) == Late(k + 1)
  {
    hide Step, Shaped, Two;
    SecondSteps(Granted, Granted, 2, 0, 1, 0, Releasing, Outside, [0], [0]);
    SecondSteps(Granted, Pending, 2, 0, 1, 0, Releasing, Marked, [0], [0]);
    SecondSteps(Granted, Pending, 2, 0, 1, 1, Releasing, Exchanged(0), [0, 1], [0]);
    SecondSteps(Granted, Pending, 2, 0, 1, 1, Releasing, Spinning, [0, 1], [0]);
    SecondSteps(Granted, Pending, 2, 0, 1, 1, Releasing, Inside, [0, 1], [0, 1]);
    SecondSteps(Granted, Granted, 2, 0, 1, 1, Releasing, Releasing, [0, 1], [0, 1]);
    SecondSteps(Granted, Granted, 2, 0, 0, 1, Releasing, Outside, [0, 1], [0, 1]);
    assert [0] + [1] == [0, 1];
  }

  /**
    A state between the two release stores in which CPU 0 finds itself in the queue: CPU 1 has taken
    over the cell that the pointer of CPU 0 still names, and marked it again. No CPU asks then,
    because a CPU asks only about itself and never between its own two stores.
   */
  lemma OvertakenRelease() returns (schedule: seq<nat>)
    ensures Initial(START, 2) && Schedule(schedule, 2)
    ensures var t := Run(START, schedule); t.pc[0].Releasing? && IsSelfInQueue(t, 0)
  {
    hide Step, Run;
    schedule := [];
    RunNone(START);
    for k := 0 to 5
      invariant |schedule| == k && Schedule(schedule, 2)
      invariant k < 5 ==> Run(START, schedule) == Early(k)
      invariant k == 5 ==> Run(START, schedule) == Late(0)
    {
      EarlyStep(k);
      RunMore(START, schedule, 0);
      schedule := schedule + [0];
    }
    for k := 0 to 7
      invariant Schedule(schedule, 2) && Run(START, schedule) == Late(k)
    {
      LateStep(k);
      RunMore(START, schedule, 1);
      schedule := schedule + [1];
    }
  }

  lemma RunNone(s: Lock)
    requires Shaped(s)
    ensures Run(s, []) == s
  {
  }

  lemma RunMore(s: Lock, schedule: seq<nat>, c: nat)
    requires Shaped(s) && Schedule(schedule, |s.pc|) && c < |s.pc|
    ensures Run(s, schedule + [c]) == Step(Run(s, schedule), c)
  {
    assert (schedule + [c])[..|schedule|] == schedule;
  }

  /** Every cell but the spare has an owner: n different cells out of n + 1. */
  lemma OwnerOf(t: Lock, spare: nat, cell: nat) returns (d: nat)
    requires Shaped(t) && CellsOneToOne(t, spare) && cell <= |t.pc| && cell != spare
    ensures d < |t.pc| && Owned(t, d) == cell
  {
    var n := |t.pc|;
    OwnedCount(t, spare, n);
    Pigeonhole(OwnedCells(t, n), n, spare, cell);
    d := OwnedBy(t, n, cell);
  }

  /** n numbers up to n that avoid one of them include every other. */
  lemma Pigeonhole(owned: set<nat>, n: nat, missed: nat, r: nat)
    requires |owned| == n && missed !in owned && forall o :: o in owned ==> o <= n
    requires missed <= n && r <= n && r != missed
    ensures r in owned
  {
    if r !in owned {
      var rest := CellsBelow(n + 1) - {missed};
      assert |rest - {r}| == n - 1;
      SubsetCount(owned, rest - {r});
    }
  }

  ghost function OwnedCells(t: Lock, k: nat): set<nat>
    requires Shaped(t) && k <= |t.pc|
  {
    if k == 0 then {} else OwnedCells(t, k - 1) + {Owned(t, k - 1)}
  }

  lemma {:induction false} OwnedBy(t: Lock, k: nat, cell: nat) returns (d: nat)
    requires Shaped(t) && k <= |t.pc| && cell in OwnedCells(t, k)
    ensures d < k && Owned(t, d) == cell
  {
    if Owned(t, k - 1) == cell {
      d := k - 1;
    } else {
      d := OwnedBy(t, k - 1, cell);
    }
  }

  lemma {:induction false} OwnedCount(t: Lock, spare: nat, k: nat)
    requires Shaped(t) && CellsOneToOne(t, spare) && k <= |t.pc|
    ensures |OwnedCells(t, k)| == k && forall r :: r in OwnedCells(t, k) ==> r <= |t.pc| && r != spare
  {
    if k > 0 {
      OwnedCount(t, spare, k - 1);
      if Owned(t, k - 1) in OwnedCells(t, k - 1) {
        var d := OwnedBy(t, k - 1, Owned(t, k - 1));
        assert false;
      }
    }
  }

  ghost function CellsBelow(k: nat): (cells: set<nat>)
    ensures |cells| == k && forall r :: r in cells <==> 0 <= r < k
  {
    if k == 0 then {} else CellsBelow(k - 1) + {k - 1}
  }

  lemma {:induction false} SubsetCount(a: set<nat>, b: set<nat>)
    requires a <= b
    ensures |a| <= |b|
  {
    if x :| x in a {
      SubsetCount(a - {x}, b - {x});
    }
  }
}
