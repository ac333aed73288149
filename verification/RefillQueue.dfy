/**
  The refill queue of a sporadic server as a mathematical sequence (kernel/src/kernel/sporadic.c).

  A refill grants `rAmount` ticks that can be spent, one per unit of time, from time `rTime` on.
  The operations below are what the in-place operations of the circular buffer
  (module SporadicServer) are proved to compute. Times and amounts are unbounded here; module
  SporadicServer shows that the 64-bit arithmetic of the kernel never wraps.
 */
module RefillQueue {

  datatype Refill = Refill(rTime: nat, rAmount: nat)

  /**
    What a scheduling context is configured with, and the two constants of the kernel:
    `minBudget` is MIN_BUDGET and `limit` is MAX_RELEASE_TIME.
   */
  datatype Config = Config(max: nat, period: nat, budget: nat, minBudget: nat, limit: nat) {
    /** What the kernel checks before it configures a server that is not round robin. */
    predicate Valid() {
      2 <= max && 0 < minBudget <= budget <= period
    }
  }

  /** The first moment after the refill when it is spent without a pause from its start. */
  function End(r: Refill): nat {
    r.rTime + r.rAmount
  }

  function Sum(q: seq<Refill>): nat {
    if q == [] then 0 else q[0].rAmount + Sum(q[1..])
  }

  function Last(q: seq<Refill>): Refill
    requires q != []
  {
    q[|q| - 1]
  }

  function Front(q: seq<Refill>): seq<Refill>
    requires q != []
  {
    q[..|q| - 1]
  }

  ghost predicate Ordered(q: seq<Refill>) {
    forall i, j :: 0 <= i < j < |q| ==> End(q[i]) <= q[j].rTime
  }

  ghost predicate Positive(q: seq<Refill>) {
    forall i :: 0 <= i < |q| ==> q[i].rAmount > 0
  }

  /** Ordered and positive, walking from the head. */
  ghost predicate Chain(q: seq<Refill>) {
    q != [] ==>
      && q[0].rAmount > 0
      && (|q| > 1 ==> End(q[0]) <= q[1].rTime)
      && Chain(q[1..])
  }

  /** The tail is at most one period after the head, so a charged refill never lands before it. */
  ghost predicate Windowed(q: seq<Refill>, period: nat) {
    q != [] && Last(q).rTime <= q[0].rTime + period
  }

  /** What holds between any two steps of an operation. */
  ghost predicate WellFormed(q: seq<Refill>, c: Config) {
    && c.Valid()
    && 0 < |q| <= c.max
    && Chain(q)
    && Windowed(q, c.period)
    && Sum(q) == c.budget
  }

  /** What holds between any two operations. */
  ghost predicate Healthy(q: seq<Refill>, c: Config) {
    WellFormed(q, c) && q[0].rAmount >= c.minBudget
  }

  // ---------------------------------------------------------------- operations

  function ScheduleUsed(q: seq<Refill>, max: nat, used: Refill): (r: seq<Refill>)
    requires q != []
    ensures r != []
  {
    var tail := Last(q);
    if End(tail) >= used.rTime then
      Front(q) + [Refill(tail.rTime, tail.rAmount + used.rAmount)]
    else if |q| < max then
      q + [used]
    else
      Front(q) + [Refill(used.rTime - tail.rAmount, tail.rAmount + used.rAmount)]
  }

  function ChargeEntireHead(q: seq<Refill>, c: Config): (r: seq<Refill>)
    requires q != []
    ensures r != []
  {
    var moved := Refill(q[0].rTime + c.period, q[0].rAmount);
    if |q| == 1 then [moved] else ScheduleUsed(q[1..], c.max, moved)
  }

  predicate HeadOverrun(q: seq<Refill>, c: Config, usage: nat)
    requires q != []
  {
    q[0].rAmount <= usage && q[0].rTime < c.limit
  }

  /** Charges whole heads; returns the queue and the usage that is still to be charged. */
  ghost function HandleOverrun(q: seq<Refill>, c: Config, usage: nat): (r: (seq<Refill>, nat))
    requires WellFormed(q, c)
    ensures WellFormed(r.0, c)
    ensures !HeadOverrun(r.0, c, r.1) && r.1 <= usage
    ensures r == (q, usage) || Last(r.0).rTime < c.limit + c.period
    decreases usage
  {
    if HeadOverrun(q, c, usage) then
      ChargeEntireHeadWellFormed(q, c);
      HandleOverrun(ChargeEntireHead(q, c), c, usage - q[0].rAmount)
    else
      (q, usage)
  }

  /** The queue without the part of the head that is charged. */
  function Uncharged(q: seq<Refill>, usage: nat): (r: seq<Refill>)
    requires q != [] && usage < q[0].rAmount
    ensures r != []
  {
    [Refill(q[0].rTime + usage, q[0].rAmount - usage)] + q[1..]
  }

  function ChargePartOfHead(q: seq<Refill>, c: Config, usage: nat): (r: seq<Refill>)
    requires q != [] && usage < q[0].rAmount
    ensures r != []
  {
    ScheduleUsed(Uncharged(q, usage), c.max, Refill(q[0].rTime + c.period, usage))
  }

  /** Delays the head until it ends where the second refill starts, and joins the two. */
  function MergeNonoverlappingHead(q: seq<Refill>): seq<Refill>
    requires |q| >= 2 && q[0].rAmount <= q[1].rTime
  {
    [Refill(q[1].rTime - q[0].rAmount, q[0].rAmount + q[1].rAmount)] + q[2..]
  }

  ghost function MergeInsufficientHeads(q: seq<Refill>, c: Config): (r: seq<Refill>)
    requires WellFormed(q, c)
    ensures Healthy(r, c)
    ensures r == q || r[0].rTime <= Last(q).rTime
    decreases |q|
  {
    if q[0].rAmount < c.minBudget then
      SumOne(q);
      MergeNonoverlappingHeadWellFormed(q, c);
      MergeInsufficientHeads(MergeNonoverlappingHead(q), c)
    else
      q
  }

  ghost function BudgetCheck(q: seq<Refill>, c: Config, usage: nat): (r: seq<Refill>)
    requires WellFormed(q, c)
    ensures Healthy(r, c)
    ensures Healthy(q, c) ==> r[0] == q[0] || r[0].rTime < c.limit + c.period
  {
    var (q1, left) := HandleOverrun(q, c, usage);
    ChainFront(q1);
    if left > 0 && q1[0].rTime < c.limit then
      ChargePartOfHeadWellFormed(q1, c, left);
      MergeInsufficientHeads(ChargePartOfHead(q1, c, left), c)
    else
      MergeInsufficientHeads(q1, c)
  }

  function MergeOverlappingHead(q: seq<Refill>): seq<Refill>
    requires |q| >= 2
  {
    [Refill(q[0].rTime, q[0].rAmount + q[1].rAmount)] + q[2..]
  }

  function MergeOverlappingHeads(q: seq<Refill>): (r: seq<Refill>)
    requires q != []
    ensures r != [] && r[0].rTime == q[0].rTime
    decreases |q|
  {
    if |q| >= 2 && q[1].rTime <= End(q[0]) then MergeOverlappingHeads(MergeOverlappingHead(q)) else q
  }

  function UnblockCheck(q: seq<Refill>, now: nat): (r: seq<Refill>)
    requires q != []
    ensures r != []
  {
    if q[0].rTime <= now then MergeOverlappingHeads([Refill(now, q[0].rAmount)] + q[1..]) else q
  }

  function Update(q: seq<Refill>, period: nat, budget: nat, now: nat): (r: seq<Refill>)
    requires q != []
    ensures r != []
  {
    var start := if q[0].rTime <= now then now else q[0].rTime;
    if q[0].rAmount >= budget then
      [Refill(start, budget)]
    else
      [Refill(start, q[0].rAmount), Refill(start + period, budget - q[0].rAmount)]
  }

  // ---------------------------------------------------------------- preservation

  lemma {:induction false} SumSplit(p: seq<Refill>, q: seq<Refill>)
    ensures Sum(p + q) == Sum(p) + Sum(q)
  {
    if p == [] {
      assert p + q == q;
    } else {
      assert (p + q)[1..] == p[1..] + q;
      SumSplit(p[1..], q);
    }
  }

  lemma SumCons(x: Refill, q: seq<Refill>)
    ensures Sum([x] + q) == x.rAmount + Sum(q)
  {
    assert ([x] + q)[1..] == q;
  }

  lemma SumOne(q: seq<Refill>)
    ensures |q| == 1 ==> Sum(q) == q[0].rAmount
  {
    if |q| == 1 {
      assert Sum(q[1..]) == 0;
    }
  }

  lemma SumTake(q: seq<Refill>, k: nat)
    requires k < |q|
    ensures Sum(q[..k + 1]) == Sum(q[..k]) + q[k].rAmount
  {
    assert q[..k + 1] == q[..k] + ([q[k]] + []);
    SumSplit(q[..k], [q[k]] + []);
    SumCons(q[k], []);
  }

  lemma ScheduleUsedSum(q: seq<Refill>, max: nat, used: Refill)
    requires q != []
    ensures Sum(ScheduleUsed(q, max, used)) == Sum(q) + used.rAmount
  {
    var last := Last(ScheduleUsed(q, max, used));
    SumSplit(q, [used]);
    SumSplit(Front(q), [Last(q)]);
    assert q == Front(q) + [Last(q)];
    SumSplit(Front(q), [last]);
    SumCons(used, []);
    SumCons(Last(q), []);
    SumCons(last, []);
  }

  lemma {:induction false} ChainIsOrdered(q: seq<Refill>)
    ensures Chain(q) <==> Ordered(q) && Positive(q)
  {
    if q != [] {
      ChainIsOrdered(q[1..]);
      assert forall i :: 0 < i < |q| ==> q[i] == q[1..][i - 1];
      assert forall i :: 0 <= i < |q| - 1 ==> q[1..][i] == q[i + 1];
      if Chain(q) {
        forall j | 0 < j < |q| ensures End(q[0]) <= q[j].rTime {
          assert q[j] == q[1..][j - 1];
          if j > 1 {
            assert End(q[1..][0]) <= q[1..][j - 1].rTime;
          }
        }
      }
    }
  }

  lemma {:induction false} ChainFront(q: seq<Refill>)
    requires Chain(q) && q != []
    ensures Chain(Front(q)) && Last(q).rAmount > 0 && q[0].rTime <= Last(q).rTime
    ensures |q| > 1 ==> End(Last(Front(q))) <= Last(q).rTime
  {
    if |q| > 1 {
      ChainFront(q[1..]);
      assert Front(q)[1..] == Front(q[1..]);
    }
  }

  lemma {:induction false} ChainAppend(q: seq<Refill>, x: Refill)
    requires Chain(q) && x.rAmount > 0
    requires q != [] ==> End(Last(q)) <= x.rTime
    ensures Chain(q + [x])
  {
    if q == [] {
      assert q + [x] == [x];
    } else {
      ChainAppend(q[1..], x);
      assert (q + [x])[1..] == q[1..] + [x];
    }
  }

  /** A used refill that does not start before the tail keeps the queue in order. */
  lemma ScheduleUsedOrdered(q: seq<Refill>, max: nat, used: Refill)
    requires 0 < |q| <= max && Chain(q)
    requires used.rAmount > 0 && Last(q).rTime <= used.rTime
    ensures var r := ScheduleUsed(q, max, used);
      |r| <= max && Chain(r) && q[0].rTime <= r[0].rTime && Last(r).rTime <= used.rTime
  {
    var r := ScheduleUsed(q, max, used);
    ChainFront(q);
    if |r| > |q| {
      ChainAppend(q, used);
    } else {
      ChainAppend(Front(q), Last(r));
    }
  }

  lemma ScheduleUsedWellFormed(q: seq<Refill>, c: Config, used: Refill)
    requires c.Valid() && 0 < |q| <= c.max && Chain(q)
    requires used.rAmount > 0 && Sum(q) + used.rAmount == c.budget
    requires Last(q).rTime <= used.rTime <= q[0].rTime + c.period
    ensures WellFormed(ScheduleUsed(q, c.max, used), c)
    ensures Last(ScheduleUsed(q, c.max, used)).rTime <= used.rTime
  {
    ScheduleUsedSum(q, c.max, used);
    ScheduleUsedOrdered(q, c.max, used);
  }

  lemma ChargeEntireHeadWellFormed(q: seq<Refill>, c: Config)
    requires WellFormed(q, c)
    ensures WellFormed(ChargeEntireHead(q, c), c)
    ensures Last(ChargeEntireHead(q, c)).rTime <= q[0].rTime + c.period
  {
    var moved := Refill(q[0].rTime + c.period, q[0].rAmount);
    assert q == [q[0]] + q[1..];
    SumCons(q[0], q[1..]);
    if |q| == 1 {
      SumCons(moved, []);
    } else {
      ScheduleUsedWellFormed(q[1..], c, moved);
    }
  }

  lemma ChargePartOfHeadWellFormed(q: seq<Refill>, c: Config, usage: nat)
    requires WellFormed(q, c)
    requires 0 < usage < q[0].rAmount
    ensures WellFormed(ChargePartOfHead(q, c, usage), c)
    ensures Last(ChargePartOfHead(q, c, usage)).rTime <= q[0].rTime + c.period
  {
    var rest := Uncharged(q, usage);
    assert rest[1..] == q[1..];
    assert q[0].rAmount <= Sum(q);
    ScheduleUsedWellFormed(rest, c, Refill(q[0].rTime + c.period, usage));
  }

  lemma MergeNonoverlappingHeadWellFormed(q: seq<Refill>, c: Config)
    requires WellFormed(q, c) && |q| >= 2
    ensures WellFormed(MergeNonoverlappingHead(q), c)
    ensures var r := MergeNonoverlappingHead(q); r[0].rTime <= Last(r).rTime <= Last(q).rTime
  {
    ChainFront(q[1..]);
    assert Chain(q[1..]) && Sum(q[1..]) == q[1].rAmount + Sum(q[1..][1..]);
    assert q[1..][1..] == q[2..] == MergeNonoverlappingHead(q)[1..];
  }

  /** After the head moved to `now` it may overlap its successors; the merges restore the order. */
  lemma {:induction false} MergeOverlappingHeadsWellFormed(q: seq<Refill>, c: Config)
    requires c.Valid() && 0 < |q| <= c.max && Windowed(q, c.period)
    requires Sum(q) == c.budget && Chain(q[1..]) && q[0].rAmount >= c.minBudget
    ensures Healthy(MergeOverlappingHeads(q), c)
    decreases |q|
  {
    if |q| >= 2 && q[1].rTime <= End(q[0]) {
      assert q[1..][1..] == q[2..] == MergeOverlappingHead(q)[1..];
      MergeOverlappingHeadsWellFormed(MergeOverlappingHead(q), c);
    }
  }

  lemma UnblockCheckHealthy(q: seq<Refill>, c: Config, now: nat)
    requires Healthy(q, c)
    ensures Healthy(UnblockCheck(q, now), c)
    ensures UnblockCheck(q, now)[0].rTime == if q[0].rTime <= now then now else q[0].rTime
  {
    var moved := [Refill(now, q[0].rAmount)] + q[1..];
    assert moved[1..] == q[1..];
    if q[0].rTime <= now {
      MergeOverlappingHeadsWellFormed(moved, c);
    }
  }

  lemma UpdateHealthy(q: seq<Refill>, c: Config, now: nat)
    requires q != [] && q[0].rAmount >= c.minBudget && c.Valid()
    ensures Healthy(Update(q, c.period, c.budget, now), c)
  {
    var r := Update(q, c.period, c.budget, now);
    SumCons(r[0], r[1..]);
    assert r == [r[0]] + r[1..];
    if |r| == 2 {
      SumCons(r[1], []);
      assert r[1..] == [r[1]] + [];
    }
  }
}
