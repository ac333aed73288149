/**
  Exactly when each tick becomes available after an operation on the refill queue
  (kernel/src/kernel/sporadic.c). Module RefillSupply bounds the ticks from below by those of the
  ideal server; here every difference from it is accounted for.
 */
module RefillTimes {
  import opened RefillQueue
  import opened RefillSupply

  /** The refill that comes back when `usage` ticks of the head are charged. */
  function UsedRefill(q: seq<Refill>, c: Config, usage: nat): Refill
    requires q != []
  {
    Refill(q[0].rTime + c.period, usage)
  }

  /** How long charging part of the head delays tick i: the tail of a full queue moves up to the used ticks. */
  function TailDelay(q: seq<Refill>, c: Config, usage: nat, i: nat): nat
    requires q != []
  {
    var used := UsedRefill(q, c, usage);
    if TailDelayed(q, c.max, used) && Sum(q) <= i + usage + Last(q).rAmount && i + usage < Sum(q)
    then used.rTime - End(Last(q))
    else 0
  }

  /** The ticks of a queue without the first ones of its head. */
  lemma UnchargedTimes(q: seq<Refill>, usage: nat, i: nat)
    requires Chain(q) && q != [] && usage < q[0].rAmount && i + usage < Sum(q)
    ensures var rest := Uncharged(q, usage);
      && Sum(rest) == Sum(q) - usage && TickTime(rest, i) == TickTime(q, i + usage)
      && End(Last(rest)) == End(Last(q)) && Last(rest).rAmount > 0
      && (|q| > 1 ==> Sum(Front(rest)) == Sum(q) - usage - Last(q).rAmount)
  {
    var rest := Uncharged(q, usage);
    ChainFront(q);
    assert q == [q[0]] + q[1..] && rest[1..] == q[1..];
    SumCons(q[0], q[1..]);
    SumCons(rest[0], q[1..]);
    LastTick(rest);
  }

  lemma ChargePartOfHeadTimes(q: seq<Refill>, c: Config, usage: nat, i: nat)
    requires WellFormed(q, c) && usage < q[0].rAmount && i < c.budget
    ensures var r := ChargePartOfHead(q, c, usage);
      && Sum(r) == c.budget
      && TickTime(r, i) == Unrolled(q, c.period, i + usage) + TailDelay(q, c, usage, i)
  {
    hide Chain, TickTime, ScheduleUsed, Sum, Uncharged;
    var rest, used := Uncharged(q, usage), UsedRefill(q, c, usage);
    ChainFront(q);
    UnchargedLength(q, usage);
    UnchargedTimes(q, usage, if i + usage < Sum(q) then i else 0);
    ScheduleUsedTimes(rest, c.max, used, i);
    if i >= Sum(rest) {
      HeadComesBack(q, c.period, i - Sum(rest));
    }
  }

  lemma UnchargedLength(q: seq<Refill>, usage: nat)
    requires Chain(q) && q != [] && usage < q[0].rAmount
    ensures |Uncharged(q, usage)| == |q| && usage < Sum(q)
  {
    SumCons(q[0], q[1..]);
    assert q == [q[0]] + q[1..];
  }

  /** Merging small heads moves only ticks of the head; all behind the first minBudget - 1 ticks stay. */
  lemma {:induction false} MergeInsufficientHeadsTimes(q: seq<Refill>, c: Config, i: nat)
    requires WellFormed(q, c) && i < c.budget
    ensures var r := MergeInsufficientHeads(q, c);
      && Sum(r) == c.budget
      && (c.minBudget - 1 <= i ==> TickTime(r, i) == TickTime(q, i))
    decreases |q|
  {
    if q[0].rAmount < c.minBudget {
      SumOne(q);
      var next := MergeNonoverlappingHead(q);
      assert WellFormed(next, c) by { MergeNonoverlappingHeadWellFormed(q, c); }
      MergeInsufficientHeadsTimes(next, c, i);
      assert next[1..] == q[1..][1..];
    }
  }

  /** The first ticks of a queue whose head is sufficient follow each other without a gap. */
  lemma HeadContiguous(q: seq<Refill>, c: Config, i: nat)
    requires Healthy(q, c) && i < c.minBudget
    ensures TickTime(q, i) + (c.minBudget - 1 - i) == TickTime(q, c.minBudget - 1)
  {
  }

  /** When tick i comes once the usage has been charged, before small heads are merged. */
  ghost function ChargedTime(q: seq<Refill>, c: Config, usage: nat, i: nat): nat
    requires WellFormed(q, c)
  {
    var (q1, left) := HandleOverrun(q, c, usage);
    Unrolled(q, c.period, i + Charged(q, c, usage))
    + if left > 0 && q1[0].rTime < c.limit then TailDelay(q1, c, left, i) else 0
  }

  /**
    Main result about charging: exactly when each tick comes after refill_budget_check. Tick i is tick
    i + n of the ideal server, where n ticks have been charged; the tail of a full queue is delayed up
    to the used ticks; and the first ticks, as many as the minimum budget, are made to follow each
    other without a gap, up to the last of them, which stays.
   */
  lemma BudgetCheckTimes(q: seq<Refill>, c: Config, usage: nat, i: nat)
    requires WellFormed(q, c) && i < c.budget
    ensures var r, m := BudgetCheck(q, c, usage), c.minBudget - 1;
      && Sum(r) == c.budget
      && TickTime(r, i) == if i >= m then ChargedTime(q, c, usage, i) else ChargedTime(q, c, usage, m) - (m - i)
  {
    var r, m := BudgetCheck(q, c, usage), c.minBudget - 1;
    if i >= m {
      LateTickTimes(q, c, usage, i);
    } else {
      LateTickTimes(q, c, usage, m);
      HeadContiguous(r, c, i);
    }
  }

  lemma LateTickTimes(q: seq<Refill>, c: Config, usage: nat, i: nat)
    requires WellFormed(q, c) && c.minBudget - 1 <= i < c.budget
    ensures TickTime(BudgetCheck(q, c, usage), i) == ChargedTime(q, c, usage, i)
  {
    hide Chain, TickTime, HandleOverrun, MergeInsufficientHeads, ScheduleUsed, TailDelay, ChargePartOfHead;
    hide Healthy, Windowed;
    var (q1, left) := HandleOverrun(q, c, usage);
    HandleOverrunShifts(q, c, usage);
    if left > 0 && q1[0].rTime < c.limit {
      var q2 := ChargePartOfHead(q1, c, left);
      assert WellFormed(q2, c) by { ChargePartOfHeadWellFormed(q1, c, left); }
      MergeInsufficientHeadsTimes(q2, c, i);
      ChargePartOfHeadTimes(q1, c, left, i);
      assert At(i + left) && i + left + (usage - left) == i + usage;
    } else {
      MergeInsufficientHeadsTimes(q1, c, i);
      assert At(i);
    }
  }

  /**
    When the queue has a slot to spare and no refill is below the minimum, a charge is exactly what
    the ideal server does.
   */
  lemma BudgetCheckIdeal(q: seq<Refill>, c: Config, usage: nat, i: nat)
    requires WellFormed(q, c) && c.minBudget == 1 && i < c.budget
    requires |HandleOverrun(q, c, usage).0| < c.max
    ensures var r := BudgetCheck(q, c, usage);
      Sum(r) == c.budget && TickTime(r, i) == Unrolled(q, c.period, i + Charged(q, c, usage))
  {
    BudgetCheckTimes(q, c, usage, i);
  }

  // ---------------------------------------------------------------- unblocking

  /** Ticks are at least one unit of time apart. */
  lemma {:induction false} TicksApart(q: seq<Refill>, i: nat)
    requires Chain(q) && i < Sum(q)
    ensures TickTime(q, i) >= q[0].rTime + i
  {
    if i >= q[0].rAmount {
      TicksApart(q[1..], i - q[0].rAmount);
    }
  }

  lemma {:induction false} MergeOverlappingHeadsTimes(q: seq<Refill>, i: nat)
    requires q != [] && Chain(q[1..]) && i < Sum(q)
    ensures var r := MergeOverlappingHeads(q);
      Sum(r) == Sum(q) && TickTime(r, i) == Max(TickTime(q, i), q[0].rTime + i)
    decreases |q|
  {
    if |q| >= 2 && q[1].rTime <= End(q[0]) {
      var next := MergeOverlappingHead(q);
      assert q[1..][1..] == q[2..] == next[1..];
      SumCons(next[0], q[2..]);
      MergeOverlappingHeadsTimes(next, i);
    } else if i >= q[0].rAmount {
      TicksApart(q[1..], i - q[0].rAmount);
    }
  }

  /**
    Main result about unblocking: exactly the ticks that the present has overtaken move, each to the
    first moment that is left for it.
   */
  lemma UnblockCheckTimes(q: seq<Refill>, now: nat, i: nat)
    requires Chain(q) && i < Sum(q)
    ensures var r := UnblockCheck(q, now); Sum(r) == Sum(q) && TickTime(r, i) == Max(TickTime(q, i), now + i)
  {
    if q[0].rTime <= now {
      var moved := [Refill(now, q[0].rAmount)] + q[1..];
      assert moved[1..] == q[1..];
      SumCons(moved[0], q[1..]);
      MergeOverlappingHeadsTimes(moved, i);
    } else {
      TicksApart(q, i);
    }
  }

  // ---------------------------------------------------------------- a new configuration

  /** The head keeps its ticks, as far as the new budget reaches; the rest comes one new period after its start. */
  lemma UpdateTimes(q: seq<Refill>, period: nat, budget: nat, now: nat, i: nat)
    requires q != [] && i < budget
    ensures var r, start := Update(q, period, budget, now), Max(q[0].rTime, now);
      && Sum(r) == budget
      && TickTime(r, i) == if i < q[0].rAmount then start + i else start + period + (i - q[0].rAmount)
  {
    var r := Update(q, period, budget, now);
    SumCons(r[0], r[1..]);
    assert r == [r[0]] + r[1..];
    SumOne(r[1..]);
  }
}
