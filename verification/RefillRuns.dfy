/**
  Whole runs of a sporadic server: it is charged, unblocked and given new configurations.

  The log of a run holds, for every tick ever charged, the time from which the server had made
  that tick available. The headline is the sliding window property: in no window as long as one
  period are more ticks charged than the budget, whatever merging, delaying and splitting the
  queue has been through (kernel/include/kernel/sporadic.h:13-24), and even across changes of
  period and budget (kernel/src/kernel/sporadic.c:179-180).
 */
module RefillRuns {
  import opened RefillQueue
  import opened RefillSupply
  import opened RefillTimes

  datatype Event =
    | Charge(usage: nat)                    // refill_budget_check
    | Unblock(now: nat)                     // refill_unblock_check
    | Reconfigure(conf: Config, now: nat)   // refill_update

  datatype Run = Run(queue: seq<Refill>, conf: Config, log: seq<nat>)

  /** A new configuration is checked by the kernel; the minimum budget is a constant. */
  predicate Allowed(c: Config, e: Event) {
    e.Reconfigure? ==> e.conf.Valid() && e.conf.minBudget == c.minBudget
  }

  predicate AllAllowed(c: Config, events: seq<Event>) {
    forall k :: 0 <= k < |events| ==> Allowed(c, events[k])
  }

  ghost function Step(q: seq<Refill>, c: Config, e: Event): (r: seq<Refill>)
    requires Healthy(q, c) && Allowed(c, e)
    ensures Healthy(r, NextConf(c, e))
  {
    match e
    case Charge(usage) => BudgetCheck(q, c, usage)
    case Unblock(now) => UnblockCheckHealthy(q, c, now); UnblockCheck(q, now)
    case Reconfigure(conf, now) => UpdateHealthy(q, conf, now); Update(q, conf.period, conf.budget, now)
  }

  function NextConf(c: Config, e: Event): Config {
    if e.Reconfigure? then e.conf else c
  }

  /** The ticks charged by one event. */
  ghost function ChargedBy(q: seq<Refill>, c: Config, e: Event): nat
    requires Healthy(q, c)
  {
    if e.Charge? then Charged(q, c, e.usage) else 0
  }

  /** The times from which the next `n` ticks are available. */
  ghost function NextTicks(q: seq<Refill>, c: Config, n: nat): (r: seq<nat>)
    requires Healthy(q, c)
    ensures |r| == n && forall i :: 0 <= i < n ==> r[i] == Unrolled(q, c.period, i)
  {
    seq(n, i requires 0 <= i < n => Unrolled(q, c.period, i))
  }

  ghost function Execute(q: seq<Refill>, c: Config, events: seq<Event>): (r: Run)
    requires Healthy(q, c) && AllAllowed(c, events)
    ensures Healthy(r.queue, r.conf) && r.conf.minBudget == c.minBudget
    decreases |events|
  {
    if events == [] then Run(q, c, [])
    else
      var before := Execute(q, c, events[..|events| - 1]);
      var e := events[|events| - 1];
      Run(Step(before.queue, before.conf, e), NextConf(before.conf, e),
          before.log + NextTicks(before.queue, before.conf, ChargedBy(before.queue, before.conf, e)))
  }

  lemma StepDelays(q: seq<Refill>, c: Config, e: Event)
    requires Healthy(q, c) && !e.Reconfigure?
    ensures Delays(Step(q, c, e), q, c.period, ChargedBy(q, c, e))
  {
    match e
    case Charge(usage) => BudgetCheckDelays(q, c, usage);
    case Unblock(now) => UnblockCheckDelays(q, now, c.period);
  }

  // ---------------------------------------------------------------- one budget later, one period later

  /** No two ticks of the endless numbering are available at the same moment, and the later is the later. */
  lemma {:induction false} UnrolledIncreases(q: seq<Refill>, period: nat, i: nat, j: nat)
    requires Chain(q) && Sum(q) > 0 && i <= j
    ensures Unrolled(q, period, i) + (j - i) <= Unrolled(q, period, j)
    decreases j
  {
    if j >= Sum(q) && i < j {
      UnrolledIncreases(q, period, i, j - 1);
    } else if i < j {
      TicksIncrease(q, i, j);
    }
  }

  lemma {:induction false} TicksIncrease(q: seq<Refill>, i: nat, j: nat)
    requires Chain(q) && i <= j < Sum(q)
    ensures TickTime(q, i) + (j - i) <= TickTime(q, j)
  {
    if i >= q[0].rAmount {
      TicksIncrease(q[1..], i - q[0].rAmount, j - q[0].rAmount);
    } else if j >= q[0].rAmount {
      TicksApart(q[1..], j - q[0].rAmount);
    }
  }

  /** Tick m of a run: charged, or still to come from the queue. */
  ghost function Tick(run: Run, m: nat): nat
    requires Sum(run.queue) > 0
  {
    if m < |run.log| then run.log[m] else Unrolled(run.queue, run.conf.period, m - |run.log|)
  }

  /** A charged tick comes before the queue and the next charged one, and `period` before the tick `budget` later. */
  ghost predicate SpacedAt(run: Run, budget: nat, period: nat, m: nat)
    requires Sum(run.queue) > 0
  {
    m < |run.log| ==>
      && run.log[m] < run.queue[0].rTime
      && (m + 1 < |run.log| ==> run.log[m] < run.log[m + 1])
      && run.log[m] + period <= Tick(run, m + budget)
  }

  ghost predicate Spaced(run: Run, budget: nat, period: nat)
    requires Sum(run.queue) > 0
  {
    forall m: nat :: SpacedAt(run, budget, period, m)
  }

  /** The configuration has at most this budget, and at least this period. */
  predicate Fits(c: Config, budget: nat, period: nat) {
    c.budget <= budget && period <= c.period
  }

  predicate AllFit(events: seq<Event>, budget: nat, period: nat) {
    forall k :: 0 <= k < |events| ==> events[k].Reconfigure? ==> Fits(events[k].conf, budget, period)
  }

  lemma {:induction false} RunSpaced(q: seq<Refill>, c: Config, events: seq<Event>, budget: nat, period: nat)
    requires Healthy(q, c) && AllAllowed(c, events)
    requires Fits(c, budget, period) && AllFit(events, budget, period)
    ensures var run := Execute(q, c, events); Fits(run.conf, budget, period) && Spaced(run, budget, period)
    decreases |events|
  {
    if events != [] {
      var before := Execute(q, c, events[..|events| - 1]);
      var e := events[|events| - 1];
      RunSpaced(q, c, events[..|events| - 1], budget, period);
      var after := Execute(q, c, events);
      if e.Reconfigure? {
        assert after.log == before.log;
        UpdateSpaced(before, e.conf, e.now, budget, period);
      } else {
        StepDelays(before.queue, before.conf, e);
        StepSpaced(before, after.queue, NextTicks(before.queue, before.conf, ChargedBy(before.queue, before.conf, e)),
                   budget, period);
      }
    }
  }

  /** One step keeps the spacing: the charged ticks move to the log, the others are only delayed. */
  lemma StepSpaced(before: Run, queue: seq<Refill>, added: seq<nat>, budget: nat, period: nat)
    requires WellFormed(before.queue, before.conf) && WellFormed(queue, before.conf)
    requires Fits(before.conf, budget, period) && Spaced(before, budget, period)
    requires forall i :: 0 <= i < |added| ==> added[i] == Unrolled(before.queue, before.conf.period, i)
    requires Delays(queue, before.queue, before.conf.period, |added|)
    ensures Spaced(before.(queue := queue, log := before.log + added), budget, period)
  {
    var after := before.(queue := queue, log := before.log + added);
    forall m: nat | m < |after.log| ensures SpacedAt(after, budget, period, m) {
      StepSpacedAt(before, after, |added|, budget, period, m);
    }
  }

  lemma StepSpacedAt(before: Run, after: Run, n: nat, budget: nat, period: nat, m: nat)
    requires WellFormed(before.queue, before.conf) && WellFormed(after.queue, before.conf)
    requires Fits(before.conf, budget, period) && Spaced(before, budget, period)
    requires after.conf == before.conf && |after.log| == |before.log| + n && m < |after.log|
    requires forall i :: 0 <= i < |before.log| ==> after.log[i] == before.log[i]
    requires forall i :: 0 <= i < n ==> after.log[|before.log| + i] == Unrolled(before.queue, before.conf.period, i)
    requires Delays(after.queue, before.queue, before.conf.period, n)
    ensures SpacedAt(after, budget, period, m)
  {
    hide Spaced, Chain, TickTime, Delays;
    FirstTick(before.queue, before.conf);
    FirstTick(after.queue, before.conf);
    hide Sum, Unrolled;
    TickSpaced(before, budget, period, m);
    TickDelayed(before, after, n, m + budget);
    TickDelayed(before, after, n, |after.log|);
    var i := if m < |before.log| then 0 else m - |before.log|;
    UnrolledIncreases(before.queue, before.conf.period, i, n);
    UnrolledIncreases(before.queue, before.conf.period, i, i + 1);
    assert m + 1 >= |before.log| && m + 1 < |after.log| ==>
      after.log[|before.log| + (m + 1 - |before.log|)] == Tick(before, m + 1);
    assert m >= |before.log| ==> after.log[|before.log| + (m - |before.log|)] == Tick(before, m);
  }

  lemma FirstTick(q: seq<Refill>, c: Config)
    requires WellFormed(q, c)
    ensures Unrolled(q, c.period, 0) == q[0].rTime
  {
  }

  /** A step moves no tick to an earlier time. */
  lemma TickDelayed(before: Run, after: Run, n: nat, m: nat)
    requires Sum(before.queue) > 0 && after.conf == before.conf && |after.log| == |before.log| + n
    requires forall i :: 0 <= i < |before.log| ==> after.log[i] == before.log[i]
    requires forall i :: 0 <= i < n ==> after.log[|before.log| + i] == Unrolled(before.queue, before.conf.period, i)
    requires Delays(after.queue, before.queue, before.conf.period, n)
    ensures Tick(after, m) >= Tick(before, m)
  {
    if m >= |after.log| {
      assert At(m - |after.log|);
    } else if m >= |before.log| {
      assert after.log[|before.log| + (m - |before.log|)] == Tick(before, m);
    }
  }

  /** Charged or not, a tick and the tick one budget later are a period apart, and the queue is later than the log. */
  lemma TickSpaced(run: Run, budget: nat, period: nat, m: nat)
    requires WellFormed(run.queue, run.conf) && Fits(run.conf, budget, period) && Spaced(run, budget, period)
    ensures Tick(run, m + budget) >= Tick(run, m) + period
    ensures m < |run.log| ==> Tick(run, m) < run.queue[0].rTime
    ensures m + 1 < |run.log| ==> run.log[m] < run.log[m + 1]
  {
    if m < |run.log| {
      assert SpacedAt(run, budget, period, m);
    } else {
      var i := m - |run.log|;
      UnrolledIncreases(run.queue, run.conf.period, i + run.conf.budget, i + budget);
    }
  }

  /** A new configuration keeps the spacing for any budget and period that both configurations fit. */
  lemma UpdateSpaced(before: Run, conf: Config, now: nat, budget: nat, period: nat)
    requires Healthy(before.queue, before.conf) && conf.Valid() && conf.minBudget == before.conf.minBudget
    requires Fits(before.conf, budget, period) && Fits(conf, budget, period) && Spaced(before, budget, period)
    ensures var after := Run(Update(before.queue, conf.period, conf.budget, now), conf, before.log);
      Healthy(after.queue, conf) && Spaced(after, budget, period)
  {
    var q, r := before.queue, Update(before.queue, conf.period, conf.budget, now);
    var after := Run(r, conf, before.log);
    UpdateHealthy(q, conf, now);
    forall m: nat ensures SpacedAt(after, budget, period, m) {
      if m < |before.log| {
        assert SpacedAt(before, budget, period, m);
        if m + budget >= |before.log| {
          UpdatedTick(q, before.conf, conf, now, m + budget - |before.log|);
        }
      }
    }
  }

  /** After an update a tick is no earlier than before, or a whole new period behind the start. */
  lemma UpdatedTick(q: seq<Refill>, c: Config, conf: Config, now: nat, i: nat)
    requires Healthy(q, c) && conf.Valid() && conf.minBudget == c.minBudget
    ensures var r := Update(q, conf.period, conf.budget, now);
      && Healthy(r, conf)
      && (Unrolled(r, conf.period, i) >= Unrolled(q, c.period, i)
          || Unrolled(r, conf.period, i) >= q[0].rTime + conf.period)
  {
    var r := Update(q, conf.period, conf.budget, now);
    UpdateHealthy(q, conf, now);
    if i < conf.budget {
      UpdateTimes(q, conf.period, conf.budget, now, i);
    } else {
      UpdateTimes(q, conf.period, conf.budget, now, 0);
      UnrolledIncreases(r, conf.period, 0, i - conf.budget);
    }
  }

  // ---------------------------------------------------------------- the sliding window

  /** The charged ticks that were made available in the window [from, from + period). */
  ghost function InWindow(log: seq<nat>, from: nat, period: nat): set<nat> {
    set m: nat | m < |log| && from <= log[m] < from + period
  }

  lemma {:induction false} LogIncreases(run: Run, budget: nat, period: nat, m: nat, n: nat)
    requires Sum(run.queue) > 0 && Spaced(run, budget, period) && m <= n < |run.log|
    ensures run.log[m] <= run.log[n]
    decreases n
  {
    if m < n {
      LogIncreases(run, budget, period, m, n - 1);
      assert SpacedAt(run, budget, period, n - 1);
    }
  }

  /** A tick one budget behind another is outside every window that the other is in. */
  lemma OutOfWindow(run: Run, budget: nat, period: nat, m: nat, n: nat)
    requires Sum(run.queue) > 0 && Spaced(run, budget, period) && m + budget <= n < |run.log|
    ensures run.log[m] + period <= run.log[n]
  {
    assert SpacedAt(run, budget, period, m);
    LogIncreases(run, budget, period, m + budget, n);
  }

  lemma {:induction false} InRange(s: set<nat>, lo: nat, n: nat)
    requires forall m :: m in s ==> lo <= m < lo + n
    ensures |s| <= n
    decreases n
  {
    if n == 0 {
      assert s == {};
    } else {
      InRange(s - {lo + n - 1}, lo, n - 1);
    }
  }

  function Smallest(s: set<nat>, lo: nat, hi: nat): (r: nat)
    requires lo <= hi && hi in s && forall m :: m in s ==> lo <= m
    ensures r in s && forall m :: m in s ==> r <= m
    decreases hi - lo
  {
    if lo in s then lo else Smallest(s, lo + 1, hi)
  }

  /**
    Main result: whatever is charged, unblocked and configured anew, no window as long as the shortest
    period that was in force ever sees more ticks charged than the largest budget. With a single
    configuration these are its own period and budget.
   */
  lemma SlidingWindow(q: seq<Refill>, c: Config, events: seq<Event>, budget: nat, period: nat, from: nat)
    requires Healthy(q, c) && AllAllowed(c, events)
    requires Fits(c, budget, period) && AllFit(events, budget, period)
    ensures |InWindow(Execute(q, c, events).log, from, period)| <= budget
  {
    var run := Execute(q, c, events);
    RunSpaced(q, c, events, budget, period);
    var s := InWindow(run.log, from, period);
    if some :| some in s {
      var first := Smallest(s, 0, some);
      forall m | m in s ensures first <= m < first + budget {
        if m >= first + budget {
          OutOfWindow(run, budget, period, first, m);
        }
      }
      InRange(s, first, budget);
    }
  }

  // ---------------------------------------------------------------- supply as a function of time

  /** How many ticks of `q` can have been spent by time `x`, spending each refill as soon as possible. */
  function Released(q: seq<Refill>, x: nat): nat {
    if q == [] then 0
    else (if x <= q[0].rTime then 0 else if x - q[0].rTime < q[0].rAmount then x - q[0].rTime else q[0].rAmount)
         + Released(q[1..], x)
  }

  /** How many of the first `n` ticks of `q` are available before time `x`. */
  function TicksBefore(q: seq<Refill>, x: nat, n: nat): nat
    requires n <= Sum(q)
  {
    if n == 0 then 0 else TicksBefore(q, x, n - 1) + (if TickTime(q, n - 1) < x then 1 else 0)
  }

  lemma {:induction false} TicksBeforeSplit(q: seq<Refill>, x: nat, n: nat)
    requires q != [] && q[0].rAmount <= n <= Sum(q)
    ensures TicksBefore(q, x, n) == TicksBefore(q, x, q[0].rAmount) + TicksBefore(q[1..], x, n - q[0].rAmount)
  {
    if n > q[0].rAmount {
      TicksBeforeSplit(q, x, n - 1);
    }
  }

  lemma {:induction false} TicksBeforeOfHead(q: seq<Refill>, x: nat, n: nat)
    requires q != [] && n <= q[0].rAmount
    ensures TicksBefore(q, x, n) == if x <= q[0].rTime then 0 else if x - q[0].rTime < n then x - q[0].rTime else n
  {
    if n > 0 {
      TicksBeforeOfHead(q, x, n - 1);
    }
  }

  lemma {:induction false} ReleasedCountsTicks(q: seq<Refill>, x: nat)
    ensures Released(q, x) == TicksBefore(q, x, Sum(q))
  {
    if q != [] {
      TicksBeforeSplit(q, x, Sum(q));
      TicksBeforeOfHead(q, x, q[0].rAmount);
      ReleasedCountsTicks(q[1..], x);
    }
  }

  lemma {:induction false} LaterTicksReleaseLess(r: seq<Refill>, q: seq<Refill>, x: nat, n: nat)
    requires NoEarlier(r, q) && n <= Sum(q)
    ensures TicksBefore(r, x, n) <= TicksBefore(q, x, n)
  {
    if n > 0 {
      LaterTicksReleaseLess(r, q, x, n - 1);
    }
  }

  /** The ideal server: an unbounded queue in which charged ticks move one period later. */
  ghost function IdealCharge(q: seq<Refill>, period: nat, usage: nat): (r: seq<Refill>)
    requires q != [] && Positive(q)
    ensures r != [] && Positive(r)
    decreases usage
  {
    if usage == 0 then q
    else if q[0].rAmount <= usage then
      IdealCharge(MoveHeadTicks(q, period, q[0].rAmount), period, usage - q[0].rAmount)
    else MoveHeadTicks(q, period, usage)
  }

  lemma SumPositive(q: seq<Refill>)
    requires q != [] && Positive(q)
    ensures Sum(q) > 0
  {
  }

  lemma {:induction false} IdealChargeShifts(q: seq<Refill>, period: nat, usage: nat, i: nat)
    requires q != [] && Positive(q)
    ensures Sum(IdealCharge(q, period, usage)) == Sum(q) > 0
    ensures Unrolled(IdealCharge(q, period, usage), period, i) == Unrolled(q, period, i + usage)
    decreases usage
  {
    hide Unrolled, Sum;
    SumPositive(q);
    if usage > 0 {
      var n := if q[0].rAmount <= usage then q[0].rAmount else usage;
      var next := MoveHeadTicks(q, period, n);
      if n == q[0].rAmount {
        IdealChargeShifts(next, period, usage - n, i);
        assert i + (usage - n) + n == i + usage;
        MoveHeadTicksShifts(q, period, n, i + (usage - n));
      } else {
        MoveHeadTicksShifts(q, period, usage, i);
      }
    }
  }

  /** Supply never runs ahead of the ideal server: at no time has the kernel released more ticks. */
  lemma ChargedSupplyNeverAhead(q: seq<Refill>, c: Config, usage: nat, x: nat)
    requires WellFormed(q, c)
    ensures Positive(q)
    ensures Released(BudgetCheck(q, c, usage), x)
            <= Released(IdealCharge(q, c.period, Charged(q, c, usage)), x)
  {
    hide TickTime, Sum, IdealCharge, BudgetCheck, Chain, Charged, Positive, Released;
    ChainIsOrdered(q);
    var r, ideal := BudgetCheck(q, c, usage), IdealCharge(q, c.period, Charged(q, c, usage));
    forall i | 0 <= i < c.budget
      ensures Sum(r) == Sum(ideal) == c.budget && TickTime(r, i) >= TickTime(ideal, i)
    {
      ChargedTick(q, c, usage, i);
    }
    ChargedTick(q, c, usage, 0);
    ReleasedNeverAhead(r, ideal, x);
  }

  lemma ChargedTick(q: seq<Refill>, c: Config, usage: nat, i: nat)
    requires WellFormed(q, c) && Positive(q) && i < c.budget
    ensures var r, ideal := BudgetCheck(q, c, usage), IdealCharge(q, c.period, Charged(q, c, usage));
      Sum(r) == Sum(ideal) == c.budget && TickTime(r, i) >= TickTime(ideal, i)
  {
    hide TickTime, Sum, IdealCharge, BudgetCheck, Chain, Charged, Positive;
    BudgetCheckDelays(q, c, usage);
    IdealChargeShifts(q, c.period, Charged(q, c, usage), i);
    assert At(i);
  }

  lemma ReleasedNeverAhead(r: seq<Refill>, q: seq<Refill>, x: nat)
    requires NoEarlier(r, q)
    ensures Released(r, x) <= Released(q, x)
  {
    ReleasedCountsTicks(r, x);
    ReleasedCountsTicks(q, x);
    LaterTicksReleaseLess(r, q, x, Sum(q));
  }

  lemma UnblockedSupplyNeverAhead(q: seq<Refill>, now: nat, x: nat)
    requires q != [] && Sum(q) > 0
    ensures Released(UnblockCheck(q, now), x) <= Released(q, x)
  {
    UnblockCheckDelays(q, now, 0);
    ReleasedNeverAhead(UnblockCheck(q, now), q, x);
  }
}
