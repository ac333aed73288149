/**
  The scheduling context with its circular buffer of refills, updated in place
  (kernel/src/kernel/sporadic.c, kernel/include/kernel/sporadic.h).

  Every addition and subtraction of ticks is written as the kernel computes it, modulo 2^64. The
  contracts equate the buffer with the operations of module RefillQueue, which do not wrap: so no
  operation of the kernel wraps either.
 */
module SporadicServer {
  import opened RefillQueue
  import Q = RefillQueue

  const TWO64 := 0x1_0000_0000_0000_0000
  const MIN_REFILLS := 2

  /** The value of a 64-bit computation whose exact result is `x`. */
  function Wrap(x: int): (r: nat)
    ensures r < TWO64 && (r - x) % TWO64 == 0
  {
    if 0 <= x < TWO64 then x else x % TWO64
  }

  /** The array index of the k-th refill of a buffer whose head is at `head`. */
  function Slot(head: nat, max: nat, k: nat): nat
    requires head < max
  {
    if head + k < max then head + k else head + k - max
  }

  /** The number of slots from the head to the tail of a circular buffer. */
  function RefillSizeOf(head: nat, tail: nat, max: nat): (size: nat)
    requires head < max && tail < max
    ensures 0 < size <= max && Slot(head, max, size - 1) == tail
  {
    if head <= tail then tail - head + 1 else tail + 1 + (max - head)
  }

  /** The queue after a change of configuration: that of Q.Update, and for round robin always a tail. */
  function Reconfigured(q: seq<Refill>, period: nat, budget: nat, now: nat): (r: seq<Refill>)
    requires q != []
    ensures r != []
  {
    var r := Update(q, period, budget, now);
    if period == 0 && |r| == 1 then r + [Refill(r[0].rTime, 0)] else r
  }

  lemma HeadOnly(q: seq<Refill>, period: nat, budget: nat, now: nat)
    requires q != []
    ensures Reconfigured([q[0]], period, budget, now) == Reconfigured(q, period, budget, now)
  {
  }

  lemma PairSum(q: seq<Refill>)
    requires |q| == 2
    ensures Sum(q) == q[0].rAmount + q[1].rAmount
  {
    SumCons(q[0], q[1..]);
    SumOne(q[1..]);
    assert q == [q[0]] + q[1..];
  }

  /** Reconfigured for round robin, both refills start together, and head and tail hold the new budget. */
  lemma ReconfiguredRoundRobin(q: seq<Refill>, budget: nat, now: nat)
    requires q != []
    ensures var r := Reconfigured(q, 0, budget, now);
      && |r| == MIN_REFILLS && r[0].rTime == r[1].rTime && now <= r[0].rTime
      && Sum(r) == budget && r[0].rAmount == (if q[0].rAmount < budget then q[0].rAmount else budget)
  {
    PairSum(Reconfigured(q, 0, budget, now));
  }

  /** Each refill ends no later than its successor starts. */
  ghost predicate Neighbours(q: seq<Refill>) {
    |q| > 1 ==> End(q[0]) <= q[1].rTime && Neighbours(q[1..])
  }

  lemma {:induction false} NeighboursOrdered(q: seq<Refill>)
    ensures Neighbours(q) <==> Ordered(q)
  {
    if |q| > 1 {
      NeighboursOrdered(q[1..]);
      assert forall i :: 0 < i < |q| ==> q[i] == q[1..][i - 1];
      assert forall i :: 0 <= i < |q| - 1 ==> q[1..][i] == q[i + 1];
      if Neighbours(q) {
        forall j | 0 < j < |q| ensures End(q[0]) <= q[j].rTime {
          assert q[j] == q[1..][j - 1];
          if j > 1 {
            assert End(q[1..][0]) <= q[1..][j - 1].rTime;
          }
        }
      }
    }
  }

  class SchedContext {
    var scPeriod: nat
    var scRefillMax: nat
    var scRefillHead: nat
    var scRefillTail: nat
    const refills: array<Refill>
    ghost var contents: seq<Refill>  // the queue from head to tail
    const minBudget: nat
    const maxPeriod: nat

    /** MAX_RELEASE_TIME; the maximum period is small enough for it to exist. */
    function MaxReleaseTime(): int {
      TWO64 - 1 - 5 * maxPeriod
    }

    predicate IsRoundRobin()
      reads this`scPeriod
    {
      scPeriod == 0
    }

    // -------------------------------------------------------------- the abstract queue

    ghost predicate Buffer()
      reads this, refills
    {
      && scRefillMax <= refills.Length
      && scRefillHead < scRefillMax
      && scRefillTail < scRefillMax
      && |contents| == RefillSizeOf(scRefillHead, scRefillTail, scRefillMax)
      && forall k :: 0 <= k < |contents| ==> contents[k] == refills[Slot(scRefillHead, scRefillMax, k)]
    }

    ghost function Conf(): Config
      reads this
      requires MaxReleaseTime() >= 0
    {
      Config(scRefillMax, scPeriod, Sum(contents), minBudget, MaxReleaseTime())
    }

    /** A configured server that is not round robin, between two operations. */
    ghost predicate Valid()
      reads this, refills
    {
      && Buffer()
      && MaxReleaseTime() >= 0
      && Healthy(contents, Conf())
      && scPeriod <= maxPeriod
      && contents[0].rTime < MaxReleaseTime() + maxPeriod
    }

    /** A round-robin server: the head is left to spend, the tail has been spent. */
    ghost predicate ValidRoundRobin()
      reads this, refills
    {
      && Buffer()
      && MaxReleaseTime() >= 0
      && scPeriod == 0
      && |contents| == MIN_REFILLS
      && contents[0].rTime == contents[1].rTime < MaxReleaseTime() + maxPeriod
      && 0 < minBudget <= contents[0].rAmount
      && Sum(contents) <= maxPeriod
    }

    constructor (capacity: nat, minBudget: nat, maxPeriod: nat)
      ensures refills.Length == capacity && this.minBudget == minBudget && this.maxPeriod == maxPeriod
      ensures scRefillMax == 0 && fresh(refills)
    {
      refills := new Refill[capacity](_ => Refill(0, 0));
      this.minBudget, this.maxPeriod := minBudget, maxPeriod;
      scPeriod, scRefillMax, scRefillHead, scRefillTail := 0, 0, 0, 0;
      contents := [];
    }

    // -------------------------------------------------------------- accessors

    function RefillNext(index: nat): (r: nat)
      reads this`scRefillMax
      requires index < scRefillMax
      ensures r < scRefillMax
    {
      if index == scRefillMax - 1 then 0 else index + 1
    }

    function RefillSize(): (size: nat)
      reads this, refills
      requires Buffer()
      ensures size == |contents|
    {
      RefillSizeOf(scRefillHead, scRefillTail, scRefillMax)
    }

    predicate RefillFull()
      reads this, refills
      requires Buffer()
      ensures RefillFull() <==> |contents| == scRefillMax
    {
      RefillSize() == scRefillMax
    }

    predicate RefillSingle()
      reads this, refills
      requires Buffer()
      ensures RefillSingle() <==> |contents| == 1
    {
      scRefillHead == scRefillTail
    }

    function RefillCapacity(usage: nat): (r: nat)
      reads this, refills
      requires Buffer()
      ensures usage + r == contents[0].rAmount || (r == 0 && usage > contents[0].rAmount)
    {
      var amount := refills[scRefillHead].rAmount;
      if usage > amount then 0 else amount - usage
    }

    predicate RefillSufficient(usage: nat)
      reads this, refills
      requires Buffer()
    {
      RefillCapacity(usage) >= minBudget
    }

    predicate RefillReady(now: nat)
      reads this, refills
      requires Buffer()
    {
      refills[scRefillHead].rTime <= now
    }

    /** The sum of the queue, as refill_sum walks it. */
    method RefillSum() returns (sum: nat)
      requires Buffer()
      ensures sum == Sum(contents)
    {
      ghost var q, k := contents, 0;
      forall k | 0 <= k < |q| ensures Sum(q[..k + 1]) == Sum(q[..k]) + q[k].rAmount {
        SumTake(q, k);
      }
      var current: nat := scRefillHead;
      sum := refills[current].rAmount;
      while current != scRefillTail
        invariant 0 <= k < |q| && current == Slot(scRefillHead, scRefillMax, k)
        invariant sum == Sum(q[..k + 1])
        decreases |q| - k
      {
        current := RefillNext(current);
        k := k + 1;
        sum := sum + refills[current].rAmount;
      }
      assert q[..k + 1] == q;
    }

    /** The order check of refill_ordered, which compares neighbours only, decides the order of the whole queue. */
    method RefillOrdered() returns (ordered: bool)
      requires Buffer()
      requires forall i :: 0 <= i < |contents| ==> End(contents[i]) < TWO64
      ensures ordered <==> IsRoundRobin() || Ordered(contents)
    {
      if IsRoundRobin() {
        return true;
      }
      ghost var k := 0;
      var current: nat := scRefillHead;
      var next: nat := RefillNext(current);
      NeighboursOrdered(contents);
      while current != scRefillTail
        invariant 0 <= k < |contents| && current == Slot(scRefillHead, scRefillMax, k)
        invariant current < scRefillMax && next == RefillNext(current)
        invariant Neighbours(contents) == Neighbours(contents[k..])
        decreases |contents| - k
      {
        assert contents[k] == refills[current] && contents[k + 1] == refills[next];
        assert contents[k..][1..] == contents[k + 1..];
        if !(Wrap(refills[current].rTime + refills[current].rAmount) <= refills[next].rTime) {
          return false;
        }
        current := next;
        next := RefillNext(current);
        k := k + 1;
      }
      return true;
    }

    // -------------------------------------------------------------- single updates

    method SetHead(refill: Refill)
      requires Buffer()
      modifies this`contents, refills
      ensures Buffer() && contents == [refill] + old(contents)[1..]
    {
      refills[scRefillHead] := refill;
      contents := [refill] + contents[1..];
    }

    method SetTail(refill: Refill)
      requires Buffer()
      modifies this`contents, refills
      ensures Buffer() && contents == Front(old(contents)) + [refill]
    {
      refills[scRefillTail] := refill;
      contents := Front(contents) + [refill];
    }

    method RefillPopHead() returns (refill: Refill)
      requires Buffer() && |contents| >= 2
      modifies this`scRefillHead, this`contents
      ensures Buffer() && refill == old(contents)[0] && contents == old(contents)[1..]
    {
      refill := refills[scRefillHead];
      scRefillHead := RefillNext(scRefillHead);
      contents := contents[1..];
    }

    method RefillAddTail(refill: Refill)
      requires Buffer() && |contents| < scRefillMax
      modifies this`scRefillTail, this`contents, refills
      ensures Buffer() && contents == old(contents) + [refill]
    {
      scRefillTail := RefillNext(scRefillTail);
      refills[scRefillTail] := refill;
      contents := contents + [refill];
    }

    method MaybeAddEmptyTail()
      requires Buffer() && |contents| == 1 && scRefillMax >= MIN_REFILLS
      modifies this`scRefillTail, this`contents, refills
      ensures Buffer()
      ensures contents == old(contents) + (if IsRoundRobin() then [Refill(old(contents)[0].rTime, 0)] else [])
    {
      if IsRoundRobin() {
        RefillAddTail(Refill(refills[scRefillHead].rTime, 0));
      }
    }

    // -------------------------------------------------------------- configuration

    method RefillNew(maxRefills: nat, budget: nat, period: nat, now: nat)
      requires MIN_REFILLS <= maxRefills <= refills.Length && budget >= minBudget
      modifies this, refills
      ensures Buffer() && scPeriod == period && scRefillMax == maxRefills
      ensures contents == [Refill(now, budget)] + (if period == 0 then [Refill(now, 0)] else [])
      ensures Sum(contents) == budget
      ensures 0 < minBudget && now < MaxReleaseTime() ==>
        && (budget <= period <= maxPeriod ==> Valid())
        && (period == 0 && budget <= maxPeriod ==> ValidRoundRobin())
    {
      scPeriod := period;
      scRefillHead := 0;
      scRefillTail := 0;
      scRefillMax := maxRefills;
      refills[scRefillHead] := Refill(now, budget);
      contents := [Refill(now, budget)];
      MaybeAddEmptyTail();
      SumCons(Refill(now, budget), contents[1..]);
      assert contents[1..] == if period == 0 then [Refill(now, 0)] else [];
      SumOne([Refill(now, 0)]);
      assert period != 0 ==> Chain(contents[1..]);
    }

    /** Moves the head to the start of the buffer and forgets all others. */
    method KeepHead(newPeriod: nat, newMaxRefills: nat)
      requires Buffer() && 0 < newMaxRefills <= refills.Length
      modifies this, refills
      ensures Buffer() && contents == [old(contents)[0]]
      ensures scPeriod == newPeriod && scRefillMax == newMaxRefills
    {
      refills[0] := refills[scRefillHead];
      scRefillHead := 0;
      scRefillTail := scRefillHead;
      scRefillMax := newMaxRefills;
      scPeriod := newPeriod;
      contents := [contents[0]];
    }

    /**
      Changes period and budget of a server of either kind. The result is round robin exactly if the
      new period is 0.
     */
    method RefillUpdate(newPeriod: nat, newBudget: nat, newMaxRefills: nat, now: nat)
      requires Valid() || ValidRoundRobin()
      requires MIN_REFILLS <= newMaxRefills <= refills.Length
      requires minBudget <= newBudget <= maxPeriod
      requires newPeriod == 0 || newBudget <= newPeriod <= maxPeriod
      requires now < MaxReleaseTime()
      modifies this, refills
      ensures if newPeriod == 0 then ValidRoundRobin() else Valid()
      ensures scPeriod == newPeriod && scRefillMax == newMaxRefills && Sum(contents) == newBudget
      ensures contents == Reconfigured(old(contents), newPeriod, newBudget, now)
    {
      ghost var q := contents;
      ReconfiguredValid(newMaxRefills, newPeriod, newBudget, now);
      HeadOnly(q, newPeriod, newBudget, now);
      hide Reconfigured, Healthy, Sum;
      KeepHead(newPeriod, newMaxRefills);
      TrimOrFill(newBudget, now);
    }

    /** The reconfigured queue is what a valid context of the new kind holds. */
    lemma ReconfiguredValid(newMaxRefills: nat, newPeriod: nat, newBudget: nat, now: nat)
      requires Valid() || ValidRoundRobin()
      requires MIN_REFILLS <= newMaxRefills && minBudget <= newBudget <= maxPeriod
      requires (newPeriod == 0 || newBudget <= newPeriod <= maxPeriod) && now < MaxReleaseTime()
      ensures var r := Reconfigured(contents, newPeriod, newBudget, now);
        && Sum(r) == newBudget && r[0].rTime < MaxReleaseTime() + maxPeriod
        && (newPeriod > 0 ==>
              Healthy(r, Config(newMaxRefills, newPeriod, newBudget, minBudget, MaxReleaseTime())))
        && (newPeriod == 0 ==> |r| == MIN_REFILLS && r[0].rTime == r[1].rTime && 0 < minBudget <= r[0].rAmount)
      ensures contents[0].rTime < MaxReleaseTime() + maxPeriod
    {
      if newPeriod > 0 {
        UpdateHealthy(contents, Config(newMaxRefills, newPeriod, newBudget, minBudget, MaxReleaseTime()), now);
      } else {
        ReconfiguredRoundRobin(contents, newBudget, now);
      }
    }

    /** Starts the head no earlier than now, and trims it to the new budget or schedules the rest of that. */
    method TrimOrFill(newBudget: nat, now: nat)
      requires Buffer() && |contents| == 1 && MIN_REFILLS <= scRefillMax && newBudget < TWO64
      requires contents[0].rTime + scPeriod < TWO64 && now + scPeriod < TWO64
      modifies this`scRefillTail, this`contents, refills
      ensures Buffer() && contents == Reconfigured(old(contents), scPeriod, newBudget, now)
    {
      ghost var q := contents;
      if RefillReady(now) {
        SetHead(Refill(now, refills[scRefillHead].rAmount));
      }
      if refills[scRefillHead].rAmount >= newBudget {
        SetHead(Refill(refills[scRefillHead].rTime, newBudget));
        MaybeAddEmptyTail();
      } else {
        var rest := Refill(Wrap(refills[scRefillHead].rTime + scPeriod),
                           Wrap(newBudget - refills[scRefillHead].rAmount));
        RefillAddTail(rest);
      }
      assert contents == Reconfigured(q, scPeriod, newBudget, now);
    }

    // -------------------------------------------------------------- round robin

    /** Moves what has been consumed from the head to the tail, as commitTime does for round robin. */
    method CommitRoundRobin(consumed: nat)
      requires ValidRoundRobin() && RefillSufficient(consumed)
      modifies this`contents, refills
      ensures ValidRoundRobin() && Sum(contents) == old(Sum(contents))
      ensures contents[0] == Refill(old(contents)[0].rTime, old(contents)[0].rAmount - consumed)
    {
      ghost var q := contents;
      PairSum(q);
      var head, tail := refills[scRefillHead], refills[scRefillTail];
      SetHead(Refill(head.rTime, Wrap(head.rAmount - consumed)));
      SetTail(Refill(tail.rTime, Wrap(tail.rAmount + consumed)));
      PairSum(contents);
    }

    /** Gives a round-robin server its whole budget again at the end of a timeslice, as chargeBudget does. */
    method ChargeRoundRobin()
      requires ValidRoundRobin()
      modifies this`contents, refills
      ensures ValidRoundRobin() && Sum(contents) == old(Sum(contents))
      ensures contents[0] == Refill(old(contents)[0].rTime, Sum(contents))
    {
      ghost var q := contents;
      PairSum(q);
      var head, tail := refills[scRefillHead], refills[scRefillTail];
      SetHead(Refill(head.rTime, Wrap(head.rAmount + tail.rAmount)));
      SetTail(Refill(tail.rTime, 0));
      PairSum(contents);
    }

    // -------------------------------------------------------------- charging

    method ScheduleUsed(used: Refill)
      requires Buffer()
      requires End(Last(contents)) < TWO64 && used.rTime < TWO64
      requires Last(contents).rAmount + used.rAmount < TWO64
      modifies this`scRefillTail, this`contents, refills
      ensures Buffer() && contents == Q.ScheduleUsed(old(contents), scRefillMax, used)
    {
      var tail := refills[scRefillTail];
      if Wrap(tail.rTime + tail.rAmount) >= used.rTime {
        SetTail(Refill(tail.rTime, Wrap(tail.rAmount + used.rAmount)));
      } else if !RefillFull() {
        RefillAddTail(used);
      } else {
        SetTail(Refill(Wrap(used.rTime - tail.rAmount), Wrap(tail.rAmount + used.rAmount)));
      }
    }

    /** The buffer belongs to a server configured as `c`, in the middle of an operation. */
    ghost predicate Serves(c: Config)
      reads this, refills
    {
      && Buffer()
      && c == Config(scRefillMax, scPeriod, c.budget, minBudget, c.limit)
      && Chargeable(contents, c, maxPeriod)
    }

    predicate HeadRefillOverrun(usage: nat)
      reads this, refills
      requires Buffer()
    {
      refills[scRefillHead].rAmount <= usage && refills[scRefillHead].rTime < MaxReleaseTime()
    }

    method ChargeEntireHeadRefill(usage: nat, ghost c: Config) returns (left: nat)
      requires Buffer() && c.max == scRefillMax && c.period == scPeriod
      requires contents[0].rAmount <= usage < TWO64 && WholeHeadFits(contents, c.period)
      modifies this`scRefillHead, this`scRefillTail, this`contents, refills
      ensures Buffer() && contents == ChargeEntireHead(old(contents), c)
      ensures left == usage - old(contents)[0].rAmount
    {
      var head := refills[scRefillHead];
      if RefillSingle() {
        SetHead(Refill(Wrap(head.rTime + scPeriod), head.rAmount));
      } else {
        var oldHead := RefillPopHead();
        oldHead := Refill(Wrap(oldHead.rTime + scPeriod), oldHead.rAmount);
        ScheduleUsed(oldHead);
      }
      left := Wrap(usage - head.rAmount);
    }

    method HandleOverrun(usage: nat, ghost c: Config) returns (left: nat)
      requires Serves(c) && usage < TWO64
      modifies this`scRefillHead, this`scRefillTail, this`contents, refills
      ensures Serves(c) && (contents, left) == Q.HandleOverrun(old(contents), c, usage)
    {
      left := usage;
      while HeadRefillOverrun(left)
        invariant Serves(c) && left <= usage
        invariant Q.HandleOverrun(contents, c, left) == Q.HandleOverrun(old(contents), c, usage)
        decreases left
      {
        ChargeEntireHeadFits(contents, c, maxPeriod);
        left := ChargeEntireHeadRefill(left, c);
      }
    }

    /** Charges less than the head refill: splits it and schedules the used part. */
    method ChargePartOfHeadRefill(usage: nat, ghost c: Config)
      requires Buffer() && c.max == scRefillMax && c.period == scPeriod
      requires 0 < usage < contents[0].rAmount && PartOfHeadFits(contents, c.period, usage)
      modifies this`scRefillTail, this`contents, refills
      ensures Buffer() && contents == ChargePartOfHead(old(contents), c, usage)
    {
      var head := refills[scRefillHead];
      var used := Refill(Wrap(head.rTime + scPeriod), usage);
      SetHead(Refill(Wrap(head.rTime + usage), Wrap(head.rAmount - usage)));
      ScheduleUsed(used);
    }

    method MergeNonoverlappingHeadRefill()
      requires Buffer() && |contents| >= 2
      requires contents[0].rAmount <= contents[1].rTime < TWO64
      requires contents[0].rAmount + contents[1].rAmount < TWO64
      modifies this`scRefillHead, this`contents, refills
      ensures Buffer() && contents == MergeNonoverlappingHead(old(contents))
    {
      var head := RefillPopHead();
      var next := refills[scRefillHead];
      SetHead(Refill(Wrap(next.rTime - head.rAmount), Wrap(next.rAmount + head.rAmount)));
    }

    method MergeInsufficientHeadRefills(ghost c: Config)
      requires Serves(c)
      modifies this`scRefillHead, this`contents, refills
      ensures Serves(c) && contents == MergeInsufficientHeads(old(contents), c)
    {
      while refills[scRefillHead].rAmount < minBudget
        invariant Serves(c)
        invariant MergeInsufficientHeads(contents, c) == MergeInsufficientHeads(old(contents), c)
        decreases |contents|
      {
        SumOne(contents);
        MergeNonoverlappingHeadFits(contents, c, maxPeriod);
        MergeNonoverlappingHeadRefill();
      }
    }

    /** Charges `usage` to the queue; this is the operation of refill_budget_check. */
    method RefillBudgetCheck(usage: nat)
      requires Valid() && usage < TWO64
      modifies this`scRefillHead, this`scRefillTail, this`contents, refills
      ensures Valid() && Conf() == old(Conf())
      ensures contents == BudgetCheck(old(contents), old(Conf()), usage)
    {
      ghost var q, c := contents, Conf();
      var left := HandleOverrun(usage, c);
      if left > 0 && refills[scRefillHead].rTime < MaxReleaseTime() {
        ChargePartOfHeadFits(contents, c, maxPeriod, left);
        ChargePartOfHeadRefill(left, c);
      }
      MergeInsufficientHeadRefills(c);
      assert contents == BudgetCheck(q, c, usage);
    }

    // -------------------------------------------------------------- unblocking

    predicate RefillHeadOverlapping()
      reads this, refills
      requires Buffer()
    {
      if !RefillSingle() then
        var head := refills[scRefillHead];
        refills[RefillNext(scRefillHead)].rTime <= Wrap(head.rTime + head.rAmount)
      else
        false
    }

    method MergeOverlappingHeadRefill()
      requires Buffer() && |contents| >= 2
      requires contents[0].rAmount + contents[1].rAmount < TWO64
      modifies this`scRefillHead, this`contents, refills
      ensures Buffer() && contents == MergeOverlappingHead(old(contents))
    {
      var oldHead := RefillPopHead();
      var next := refills[scRefillHead];
      SetHead(Refill(oldHead.rTime, Wrap(next.rAmount + oldHead.rAmount)));
    }

    method MergeOverlappingHeadRefills()
      requires Buffer() && Sum(contents) + contents[0].rTime < TWO64
      modifies this`scRefillHead, this`contents, refills
      ensures Buffer() && contents == MergeOverlappingHeads(old(contents))
    {
      while RefillHeadOverlapping()
        invariant Buffer() && Sum(contents) + contents[0].rTime < TWO64
        invariant MergeOverlappingHeads(contents) == MergeOverlappingHeads(old(contents))
        decreases |contents|
      {
        HeadsFit(contents);
        MergeOverlappingHeadRefill();
      }
      HeadsFit(contents);
    }

    /** Moves an expired head to the present; this is the operation of refill_unblock_check. */
    method RefillUnblockCheck(now: nat)
      requires Valid() || ValidRoundRobin()
      requires now < MaxReleaseTime()
      modifies this`scRefillHead, this`contents, refills
      ensures Buffer()
      ensures old(IsRoundRobin()) ==> contents == old(contents)
      ensures !old(IsRoundRobin()) ==>
        Valid() && Conf() == old(Conf()) && contents == UnblockCheck(old(contents), now)
    {
      if IsRoundRobin() {
        return;
      }
      UnblockCheckHealthy(contents, Conf(), now);
      if RefillReady(now) {
        HeadMoved(contents, now);
        SetHead(Refill(now, refills[scRefillHead].rAmount));
        MergeOverlappingHeadRefills();
      }
    }
  }

  // ---------------------------------------------------------------- why nothing wraps

  /** Well formed, and so far below 2^64 that a charge cannot wrap. */
  ghost predicate Chargeable(q: seq<Refill>, c: Config, maxPeriod: nat) {
    && WellFormed(q, c)
    && c.period <= maxPeriod
    && c.limit == TWO64 - 1 - 5 * maxPeriod
    && Last(q).rTime < c.limit + 2 * maxPeriod
  }

  lemma AmountsFit(q: seq<Refill>)
    requires q != []
    ensures q[0].rAmount <= Sum(q) && Last(q).rAmount <= Sum(q)
    ensures |q| > 1 ==> q[0].rAmount + Last(q).rAmount <= Sum(q)
  {
    SumSplit(Front(q), [Last(q)]);
    assert q == Front(q) + [Last(q)];
    SumCons(Last(q), []);
  }

  ghost predicate WholeHeadFits(q: seq<Refill>, period: nat)
    requires q != []
  {
    && q[0].rTime + period < TWO64
    && End(Last(q)) < TWO64
    && (|q| > 1 ==> Last(q).rAmount + q[0].rAmount < TWO64)
  }

  ghost predicate PartOfHeadFits(q: seq<Refill>, period: nat, usage: nat)
    requires q != []
  {
    && q[0].rTime + period < TWO64
    && q[0].rTime + usage < TWO64
    && q[0].rAmount < TWO64
    && End(Last(q)) < TWO64
    && Last(q).rAmount + usage < TWO64
  }

  lemma ChargeEntireHeadFits(q: seq<Refill>, c: Config, maxPeriod: nat)
    requires Chargeable(q, c, maxPeriod) && q[0].rTime < c.limit
    ensures Chargeable(ChargeEntireHead(q, c), c, maxPeriod)
    ensures WholeHeadFits(q, c.period)
  {
    ChargeEntireHeadWellFormed(q, c);
    AmountsFit(q);
  }

  lemma ChargePartOfHeadFits(q: seq<Refill>, c: Config, maxPeriod: nat, usage: nat)
    requires Chargeable(q, c, maxPeriod) && q[0].rTime < c.limit && 0 < usage < q[0].rAmount
    ensures Chargeable(ChargePartOfHead(q, c, usage), c, maxPeriod)
    ensures PartOfHeadFits(q, c.period, usage)
  {
    ChargePartOfHeadWellFormed(q, c, usage);
    AmountsFit(q);
  }

  lemma MergeNonoverlappingHeadFits(q: seq<Refill>, c: Config, maxPeriod: nat)
    requires Chargeable(q, c, maxPeriod) && |q| >= 2
    ensures q[0].rAmount <= q[1].rTime < TWO64 && q[0].rAmount + q[1].rAmount < TWO64
    ensures Chargeable(MergeNonoverlappingHead(q), c, maxPeriod)
  {
    MergeNonoverlappingHeadWellFormed(q, c);
    AmountsFit(MergeNonoverlappingHead(q));
    ChainFront(q[1..]);
  }

  lemma HeadsFit(q: seq<Refill>)
    requires q != []
    ensures q[0].rAmount <= Sum(q)
    ensures |q| >= 2 ==> q[0].rAmount + q[1].rAmount <= Sum(q) && Sum(MergeOverlappingHead(q)) == Sum(q)
  {
    if |q| >= 2 {
      SumCons(MergeOverlappingHead(q)[0], q[2..]);
      assert q[1..][1..] == q[2..];
    }
  }

  lemma HeadMoved(q: seq<Refill>, now: nat)
    requires q != []
    ensures Sum([Refill(now, q[0].rAmount)] + q[1..]) == Sum(q)
  {
    SumCons(Refill(now, q[0].rAmount), q[1..]);
  }
}
