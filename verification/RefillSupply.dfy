/**
  When the ticks of a refill queue become available.

  `TickTime(q, i)` is the time from which the i-th tick of `q` may be spent. `Unrolled` continues
  the numbering past the budget: a tick comes back one period later, but not before the tick ahead
  of it has been spent. In these terms an ideal server that is charged `n` ticks just forgets its
  first `n` ticks, and every operation of the kernel is compared with that: `Delays(r, q, c, n)`
  says that no tick of `r` is available earlier than the ideal server, started as `q` and charged
  `n` ticks, would allow, and `Shifts` that none is available later either.
 */
module RefillSupply {
  import opened RefillQueue

  function TickTime(q: seq<Refill>, i: nat): nat
    requires i < Sum(q)
  {
    if i < q[0].rAmount then q[0].rTime + i else TickTime(q[1..], i - q[0].rAmount)
  }

  function Unrolled(q: seq<Refill>, period: nat, i: nat): nat
    requires Sum(q) > 0
    decreases i
  {
    if i < Sum(q) then TickTime(q, i)
    else Max(Unrolled(q, period, i - Sum(q)) + period, Unrolled(q, period, i - 1) + 1)
  }

  function Max(a: nat, b: nat): nat { if a >= b then a else b }

  ghost predicate Delays(r: seq<Refill>, q: seq<Refill>, period: nat, charged: nat) {
    && Sum(r) == Sum(q) > 0
    && forall i: nat {:trigger At(i)} :: At(i) ==> Unrolled(r, period, i) >= Unrolled(q, period, i + charged)
  }

  /** After `charged` ticks `r` is exactly the ideal server. */
  ghost predicate Shifts(r: seq<Refill>, q: seq<Refill>, period: nat, charged: nat) {
    && Sum(r) == Sum(q) > 0
    && forall i: nat {:trigger At(i)} :: At(i) ==> Unrolled(r, period, i) == Unrolled(q, period, i + charged)
  }

  /** Always true; it names the ticks at which `Delays` is to be used, so that the verifier uses it only there. */
  ghost predicate At(i: nat) {
    true
  }

  /** `r` has the ticks of `q`, none of them earlier. */
  ghost predicate NoEarlier(r: seq<Refill>, q: seq<Refill>) {
    Sum(r) == Sum(q) && forall i :: 0 <= i < Sum(q) ==> TickTime(r, i) >= TickTime(q, i)
  }

  ghost predicate SameTicks(r: seq<Refill>, q: seq<Refill>) {
    Sum(r) == Sum(q) && forall i :: 0 <= i < Sum(q) ==> TickTime(r, i) == TickTime(q, i)
  }

  // ---------------------------------------------------------------- ticks of a concatenation

  lemma {:induction false} TickTimeSplit(p: seq<Refill>, q: seq<Refill>, i: nat)
    requires i < Sum(p) + Sum(q)
    ensures Sum(p + q) == Sum(p) + Sum(q)
    ensures TickTime(p + q, i) == if i < Sum(p) then TickTime(p, i) else TickTime(q, i - Sum(p))
  {
    SumSplit(p, q);
    if p == [] {
      assert p + q == q;
    } else {
      assert (p + q)[1..] == p[1..] + q;
      if i >= p[0].rAmount {
        TickTimeSplit(p[1..], q, i - p[0].rAmount);
      }
    }
  }

  lemma NoEarlierInContext(p: seq<Refill>, r: seq<Refill>, q: seq<Refill>, s: seq<Refill>)
    requires NoEarlier(r, q)
    ensures NoEarlier(p + r + s, p + q + s)
  {
    SumSplit(p + r, s);
    SumSplit(p, r);
    SumSplit(p + q, s);
    SumSplit(p, q);
    forall i | 0 <= i < Sum(p + q + s) ensures TickTime(p + r + s, i) >= TickTime(p + q + s, i) {
      TickTimeSplit(p + r, s, i);
      TickTimeSplit(p + q, s, i);
      if i < Sum(p + q) {
        TickTimeSplit(p, r, i);
        TickTimeSplit(p, q, i);
      }
    }
  }

  lemma NoEarlierTrans(r: seq<Refill>, q: seq<Refill>, p: seq<Refill>)
    requires NoEarlier(r, q) && NoEarlier(q, p)
    ensures NoEarlier(r, p)
  {
  }

  /** Two refills may be joined into one that starts no earlier than the ticks of either allow. */
  lemma JoinNoEarlier(x: Refill, y: Refill, z: Refill)
    requires z.rAmount == x.rAmount + y.rAmount
    requires z.rTime >= x.rTime && z.rTime + x.rAmount >= y.rTime
    ensures NoEarlier([z], [x, y])
  {
    SumCons(x, [y]);
    SumCons(y, []);
    SumCons(z, []);
    assert [x] + [y] == [x, y] && [y] + [] == [y] && [z] + [] == [z];
    assert [x, y][1..] == [y];
  }

  lemma LastTick(q: seq<Refill>)
    requires q != [] && Last(q).rAmount > 0
    ensures Sum(q) == Sum(Front(q)) + Last(q).rAmount
    ensures TickTime(q, Sum(q) - 1) + 1 == End(Last(q))
  {
    assert q == Front(q) + [Last(q)];
    SumSplit(Front(q), [Last(q)]);
    SumOne([Last(q)]);
    TickTimeSplit(Front(q), [Last(q)], Sum(q) - 1);
  }

  // ---------------------------------------------------------------- the steps of the kernel

  /** The queue is full and the used refill leaves a gap behind the tail. */
  predicate TailDelayed(q: seq<Refill>, max: nat, used: Refill)
    requires q != []
  {
    |q| >= max && End(Last(q)) < used.rTime
  }

  /**
    Scheduling a used refill, tick by tick. The used ticks come at their own time, or right behind the
    queue if that is later. All other ticks stay, but for those of the tail of a full queue, which move
    up to the used ones.
   */
  lemma ScheduleUsedTimes(q: seq<Refill>, max: nat, used: Refill, i: nat)
    requires q != [] && i < Sum(q) + used.rAmount
    ensures var r := ScheduleUsed(q, max, used);
      && Sum(r) == Sum(q) + used.rAmount
      && TickTime(r, i) ==
         if i >= Sum(q) then Max(End(Last(q)), used.rTime) + (i - Sum(q))
         else if TailDelayed(q, max, used) && i >= Sum(Front(q)) then TickTime(q, i) + (used.rTime - End(Last(q)))
         else TickTime(q, i)
  {
    hide Sum, TickTime;
    var r, tail := ScheduleUsed(q, max, used), Last(q);
    ScheduleUsedSum(q, max, used);
    assert q == Front(q) + [tail];
    SplitLast(Front(q), tail, if i < Sum(q) then i else 0);
    if r == q + [used] {
      SplitLast(q, used, i);
    } else {
      assert r == Front(q) + [Last(r)];
      SplitLast(Front(q), Last(r), i);
    }
  }

  lemma SplitLast(front: seq<Refill>, tail: Refill, i: nat)
    ensures Sum(front + [tail]) == Sum(front) + tail.rAmount
    ensures i < Sum(front) + tail.rAmount ==>
      TickTime(front + [tail], i) == if i < Sum(front) then TickTime(front, i) else tail.rTime + (i - Sum(front))
  {
    SumSplit(front, [tail]);
    SumOne([tail]);
    if i < Sum(front) + tail.rAmount {
      TickTimeSplit(front, [tail], i);
    }
  }

  /** The used refill in a queue with a free slot and in order: behind the tail. */
  function Behind(q: seq<Refill>, used: Refill): Refill
    requires q != []
  {
    Refill(Max(End(Last(q)), used.rTime), used.rAmount)
  }

  lemma BehindTimes(q: seq<Refill>, used: Refill, i: nat)
    requires q != [] && i < Sum(q) + used.rAmount
    ensures Sum(q + [Behind(q, used)]) == Sum(q) + used.rAmount
    ensures TickTime(q + [Behind(q, used)], i) ==
            if i < Sum(q) then TickTime(q, i) else Max(End(Last(q)), used.rTime) + (i - Sum(q))
  {
    SumOne([Behind(q, used)]);
    TickTimeSplit(q, [Behind(q, used)], i);
  }

  lemma ScheduleUsedNoEarlier(q: seq<Refill>, max: nat, used: Refill)
    requires q != []
    ensures NoEarlier(ScheduleUsed(q, max, used), q + [Behind(q, used)])
    ensures !TailDelayed(q, max, used) ==> SameTicks(ScheduleUsed(q, max, used), q + [Behind(q, used)])
  {
    var r := ScheduleUsed(q, max, used);
    ScheduleUsedSum(q, max, used);
    SumSplit(q, [Behind(q, used)]);
    SumOne([Behind(q, used)]);
    forall i | 0 <= i < Sum(r)
      ensures TickTime(r, i) >= TickTime(q + [Behind(q, used)], i)
      ensures !TailDelayed(q, max, used) ==> TickTime(r, i) == TickTime(q + [Behind(q, used)], i)
    {
      ScheduleUsedTimes(q, max, used, i);
      BehindTimes(q, used, i);
    }
  }

  /**
    Scheduling a used refill delays nothing unless it must: it keeps every tick in place exactly
    when the refill continues the tail, or leaves a gap and finds a free slot.
   */
  lemma ScheduleUsedExact(q: seq<Refill>, max: nat, used: Refill)
    requires q != [] && Last(q).rAmount > 0 && used.rAmount > 0
    ensures SameTicks(ScheduleUsed(q, max, used), q + [used])
            <==> End(Last(q)) == used.rTime || (End(Last(q)) < used.rTime && |q| < max)
  {
    hide Sum, TickTime, ScheduleUsed;
    var r, whole, n := ScheduleUsed(q, max, used), q + [used], Sum(q);
    LastTick(q);
    ScheduleUsedTimes(q, max, used, n);
    ScheduleUsedTimes(q, max, used, n - 1);
    SplitLast(q, used, n);
    SplitLast(q, used, n - 1);
    assert SameTicks(r, whole) ==>
      TickTime(r, n) == TickTime(whole, n) && TickTime(r, n - 1) == TickTime(whole, n - 1);
    if !TailDelayed(q, max, used) && End(Last(q)) <= used.rTime {
      forall i | 0 <= i < Sum(whole) ensures TickTime(r, i) == TickTime(whole, i) {
        ScheduleUsedTimes(q, max, used, i);
        SplitLast(q, used, i);
      }
    }
  }

  lemma MergeNonoverlappingHeadNoEarlier(q: seq<Refill>)
    requires |q| >= 2 && End(q[0]) <= q[1].rTime
    ensures NoEarlier(MergeNonoverlappingHead(q), q)
  {
    var r := MergeNonoverlappingHead(q);
    JoinNoEarlier(q[0], q[1], r[0]);
    NoEarlierInContext([], [r[0]], [q[0], q[1]], q[2..]);
    assert [] + [r[0]] + q[2..] == r;
    assert [] + [q[0], q[1]] + q[2..] == q;
  }

  lemma MergeOverlappingHeadNoEarlier(q: seq<Refill>)
    requires |q| >= 2 && q[1].rTime <= End(q[0])
    ensures NoEarlier(MergeOverlappingHead(q), q)
  {
    var r := MergeOverlappingHead(q);
    JoinNoEarlier(q[0], q[1], r[0]);
    NoEarlierInContext([], [r[0]], [q[0], q[1]], q[2..]);
    assert [] + [r[0]] + q[2..] == r;
    assert [] + [q[0], q[1]] + q[2..] == q;
  }

  // ---------------------------------------------------------------- from ticks to the unrolled queue

  lemma {:induction false} UnrolledNoEarlier(r: seq<Refill>, q: seq<Refill>, period: nat, i: nat)
    requires NoEarlier(r, q) && Sum(q) > 0
    ensures Unrolled(r, period, i) >= Unrolled(q, period, i)
    decreases i
  {
    if i >= Sum(q) {
      UnrolledNoEarlier(r, q, period, i - Sum(q));
      UnrolledNoEarlier(r, q, period, i - 1);
    }
  }

  lemma NoEarlierDelays(r: seq<Refill>, q: seq<Refill>, period: nat)
    requires NoEarlier(r, q) && Sum(q) > 0
    ensures Delays(r, q, period, 0)
  {
    forall i: nat ensures Unrolled(r, period, i) >= Unrolled(q, period, i + 0) {
      UnrolledNoEarlier(r, q, period, i);
    }
  }

  lemma DelaysTrans(r: seq<Refill>, q: seq<Refill>, p: seq<Refill>, period: nat, m: nat, n: nat)
    requires Delays(r, q, period, m) && Delays(q, p, period, n)
    ensures Delays(r, p, period, m + n)
  {
    forall i: nat ensures Unrolled(r, period, i) >= Unrolled(p, period, i + (m + n)) {
      assert At(i) && At(i + m);
      assert (i + m) + n == i + (m + n);
    }
  }

  lemma SameTicksShifts(r: seq<Refill>, q: seq<Refill>, period: nat)
    requires SameTicks(r, q) && Sum(q) > 0
    ensures Shifts(r, q, period, 0)
  {
    NoEarlierDelays(r, q, period);
    NoEarlierDelays(q, r, period);
    assert forall i: nat {:trigger At(i)} :: At(i) ==> Unrolled(r, period, i) == Unrolled(q, period, i + 0);
  }

  lemma ShiftsTrans(r: seq<Refill>, q: seq<Refill>, p: seq<Refill>, period: nat, m: nat, n: nat)
    requires Shifts(r, q, period, m) && Shifts(q, p, period, n)
    ensures Shifts(r, p, period, m + n)
  {
    forall i: nat ensures Unrolled(r, period, i) == Unrolled(p, period, i + (m + n)) {
      assert At(i) && At(i + m);
      assert (i + m) + n == i + (m + n);
    }
  }

  lemma ShiftsDelays(r: seq<Refill>, q: seq<Refill>, period: nat, n: nat)
    requires Shifts(r, q, period, n)
    ensures Delays(r, q, period, n)
  {
  }

  /** The ticks of the head come back one period later, or right behind the queue if that is later. */
  lemma {:induction false} HeadComesBack(q: seq<Refill>, period: nat, j: nat)
    requires q != [] && Last(q).rAmount > 0 && j < q[0].rAmount
    ensures Unrolled(q, period, Sum(q) + j) == Max(End(Last(q)), q[0].rTime + period) + j
  {
    LastTick(q);
    if j > 0 {
      HeadComesBack(q, period, j - 1);
    }
  }

  /**
    The ideal server: the first `charged` ticks of the head reappear one period later, in a queue
    of any length that stays in order.
   */
  function MoveHeadTicks(q: seq<Refill>, period: nat, charged: nat): seq<Refill>
    requires q != [] && charged <= q[0].rAmount
  {
    (if charged == q[0].rAmount then q[1..]
     else [Refill(q[0].rTime + charged, q[0].rAmount - charged)] + q[1..])
    + [Behind(q, Refill(q[0].rTime + period, charged))]
  }

  /** Moving ticks shifts the unrolled numbering, exactly. */
  lemma {:induction false} MoveHeadTicksShifts(q: seq<Refill>, period: nat, charged: nat, i: nat)
    requires q != [] && charged <= q[0].rAmount && Last(q).rAmount > 0
    ensures var r := MoveHeadTicks(q, period, charged);
      Sum(r) == Sum(q) > 0 && Unrolled(r, period, i) == Unrolled(q, period, i + charged)
    decreases i
  {
    hide MoveHeadTicks, TickTime, Sum, Behind;
    var r := MoveHeadTicks(q, period, charged);
    MoveHeadTicksSum(q, period, charged);
    LastTick(q);
    if i >= Sum(q) {
      MoveHeadTicksShifts(q, period, charged, i - Sum(q));
      MoveHeadTicksShifts(q, period, charged, i - 1);
    } else {
      MoveHeadTicksFirstRound(q, period, charged, i);
    }
  }

  lemma MoveHeadTicksSum(q: seq<Refill>, period: nat, charged: nat)
    requires q != [] && charged <= q[0].rAmount
    ensures Sum(MoveHeadTicks(q, period, charged)) == Sum(q)
  {
    var moved := Last(MoveHeadTicks(q, period, charged));
    var rest := Front(MoveHeadTicks(q, period, charged));
    assert MoveHeadTicks(q, period, charged) == rest + [moved];
    SumSplit(rest, [moved]);
    SumOne([moved]);
    SumCons(q[0], q[1..]);
    assert q == [q[0]] + q[1..];
    SumCons(Refill(q[0].rTime + charged, q[0].rAmount - charged), q[1..]);
  }

  lemma MoveHeadTicksFirstRound(q: seq<Refill>, period: nat, charged: nat, i: nat)
    requires q != [] && charged <= q[0].rAmount && i < Sum(q) && Last(q).rAmount > 0
    ensures Sum(MoveHeadTicks(q, period, charged)) == Sum(q)
    ensures Unrolled(MoveHeadTicks(q, period, charged), period, i) == Unrolled(q, period, i + charged)
  {
    var r := MoveHeadTicks(q, period, charged);
    var moved, rest := Last(r), Front(r);
    assert r == rest + [moved];
    MoveHeadTicksSum(q, period, charged);
    SumSplit(rest, [moved]);
    SumOne([moved]);
    TickTimeSplit(rest, [moved], i);
    if i + charged >= Sum(q) {
      HeadComesBack(q, period, i + charged - Sum(q));
    } else if charged < q[0].rAmount {
      assert rest[1..] == q[1..];
    }
  }

  lemma MoveHeadTicksExactly(q: seq<Refill>, period: nat, charged: nat)
    requires q != [] && charged <= q[0].rAmount && Last(q).rAmount > 0
    ensures Shifts(MoveHeadTicks(q, period, charged), q, period, charged)
  {
    var r := MoveHeadTicks(q, period, charged);
    LastTick(q);
    MoveHeadTicksSum(q, period, charged);
    forall i: nat ensures Unrolled(r, period, i) == Unrolled(q, period, i + charged) {
      MoveHeadTicksShifts(q, period, charged, i);
    }
  }

  /** Charging the whole head is what the ideal server does: a slot is free, as the head has left its own. */
  lemma ChargeEntireHeadShifts(q: seq<Refill>, c: Config)
    requires WellFormed(q, c)
    ensures Shifts(ChargeEntireHead(q, c), q, c.period, q[0].rAmount)
  {
    var r, ideal := ChargeEntireHead(q, c), MoveHeadTicks(q, c.period, q[0].rAmount);
    ChainFront(q);
    LastTick(q);
    MoveHeadTicksExactly(q, c.period, q[0].rAmount);
    MoveHeadTicksSum(q, c.period, q[0].rAmount);
    if |q| == 1 {
      SumOne(q);
      assert ideal == r;
    } else {
      ScheduleUsedNoEarlier(q[1..], c.max, Refill(q[0].rTime + c.period, q[0].rAmount));
      assert SameTicks(r, ideal);
      SameTicksShifts(r, ideal, c.period);
      ShiftsTrans(r, ideal, q, c.period, 0, q[0].rAmount);
    }
  }

  lemma ChargePartOfHeadDelays(q: seq<Refill>, c: Config, usage: nat)
    requires WellFormed(q, c) && usage < q[0].rAmount
    ensures Delays(ChargePartOfHead(q, c, usage), q, c.period, usage)
    ensures !TailDelayed(q, c.max, Refill(q[0].rTime + c.period, usage)) ==>
              Shifts(ChargePartOfHead(q, c, usage), q, c.period, usage)
  {
    var r, ideal := ChargePartOfHead(q, c, usage), MoveHeadTicks(q, c.period, usage);
    var rest, used := Uncharged(q, usage), Refill(q[0].rTime + c.period, usage);
    ChainFront(q);
    LastTick(q);
    MoveHeadTicksExactly(q, c.period, usage);
    MoveHeadTicksSum(q, c.period, usage);
    ScheduleUsedNoEarlier(rest, c.max, used);
    assert End(Last(rest)) == End(Last(q));
    assert ideal == rest + [Behind(rest, used)];
    NoEarlierDelays(r, ideal, c.period);
    ShiftsDelays(ideal, q, c.period, usage);
    DelaysTrans(r, ideal, q, c.period, 0, usage);
    if !TailDelayed(q, c.max, used) {
      SameTicksShifts(r, ideal, c.period);
      ShiftsTrans(r, ideal, q, c.period, 0, usage);
    }
  }

  // ---------------------------------------------------------------- the operations of the kernel

  /** What handle_overrun takes off the usage has been charged, tick by tick and exactly as on the ideal server. */
  lemma {:induction false} HandleOverrunShifts(q: seq<Refill>, c: Config, usage: nat)
    requires WellFormed(q, c)
    ensures Shifts(HandleOverrun(q, c, usage).0, q, c.period, usage - HandleOverrun(q, c, usage).1)
    decreases usage
  {
    hide Sum, Shifts, ChargeEntireHead;
    if HeadOverrun(q, c, usage) {
      var next := ChargeEntireHead(q, c);
      ChargeEntireHeadWellFormed(q, c);
      var unpaid := usage - q[0].rAmount;
      HandleOverrunShifts(next, c, unpaid);
      ChargeEntireHeadShifts(q, c);
      var rest := HandleOverrun(next, c, unpaid);
      ShiftsTrans(rest.0, next, q, c.period, unpaid - rest.1, q[0].rAmount);
    } else {
      SameTicksShifts(q, q, c.period);
    }
  }

  lemma {:induction false} MergeInsufficientHeadsNoEarlier(q: seq<Refill>, c: Config)
    requires WellFormed(q, c)
    ensures NoEarlier(MergeInsufficientHeads(q, c), q)
    decreases |q|
  {
    if q[0].rAmount < c.minBudget {
      SumOne(q);
      var next := MergeNonoverlappingHead(q);
      assert WellFormed(next, c) by { MergeNonoverlappingHeadWellFormed(q, c); }
      assert NoEarlier(next, q) by { MergeNonoverlappingHeadNoEarlier(q); }
      MergeInsufficientHeadsNoEarlier(next, c);
      NoEarlierTrans(MergeInsufficientHeads(next, c), next, q);
    }
  }

  /** The part of the usage that refill_budget_check does charge: all of it, unless it stops at the release limit. */
  ghost function Charged(q: seq<Refill>, c: Config, usage: nat): nat
    requires WellFormed(q, c)
  {
    var (q1, left) := HandleOverrun(q, c, usage);
    if q1[0].rTime < c.limit then usage else usage - left
  }

  /**
    Main result about charging: after refill_budget_check no tick is available earlier than on an
    ideal server with an unbounded queue that moves the charged ticks one period later.
   */
  lemma BudgetCheckDelays(q: seq<Refill>, c: Config, usage: nat)
    requires WellFormed(q, c)
    ensures Charged(q, c, usage) <= usage
    ensures Delays(BudgetCheck(q, c, usage), q, c.period, Charged(q, c, usage))
  {
    hide Delays, Shifts, Chain, Sum, HandleOverrun, MergeInsufficientHeads, ScheduleUsed, Unrolled;
    var (q1, left) := HandleOverrun(q, c, usage);
    HandleOverrunShifts(q, c, usage);
    ShiftsDelays(q1, q, c.period, usage - left);
    if left > 0 && q1[0].rTime < c.limit {
      ChargeRestDelays(q1, q, c, usage - left, left);
    } else {
      MergeInsufficientHeadsDelays(q1, c);
      DelaysTrans(MergeInsufficientHeads(q1, c), q1, q, c.period, 0, usage - left);
    }
  }

  lemma ChargeRestDelays(q1: seq<Refill>, q: seq<Refill>, c: Config, charged: nat, left: nat)
    requires WellFormed(q1, c) && Delays(q1, q, c.period, charged)
    requires 0 < left < q1[0].rAmount
    ensures WellFormed(ChargePartOfHead(q1, c, left), c)
    ensures Delays(MergeInsufficientHeads(ChargePartOfHead(q1, c, left), c), q, c.period, charged + left)
  {
    var q2 := ChargePartOfHead(q1, c, left);
    assert WellFormed(q2, c) by { ChargePartOfHeadWellFormed(q1, c, left); }
    assert Delays(q2, q, c.period, charged + left) by {
      ChargePartOfHeadDelays(q1, c, left);
      DelaysTrans(q2, q1, q, c.period, left, charged);
    }
    MergeInsufficientHeadsDelays(q2, c);
    DelaysTrans(MergeInsufficientHeads(q2, c), q2, q, c.period, 0, charged + left);
  }

  lemma MergeInsufficientHeadsDelays(q: seq<Refill>, c: Config)
    requires WellFormed(q, c)
    ensures Delays(MergeInsufficientHeads(q, c), q, c.period, 0)
  {
    MergeInsufficientHeadsNoEarlier(q, c);
    NoEarlierDelays(MergeInsufficientHeads(q, c), q, c.period);
  }

  lemma {:induction false} MergeOverlappingHeadsNoEarlier(q: seq<Refill>)
    requires q != []
    ensures NoEarlier(MergeOverlappingHeads(q), q)
    decreases |q|
  {
    if |q| >= 2 && q[1].rTime <= End(q[0]) {
      var next := MergeOverlappingHead(q);
      assert NoEarlier(next, q) by { MergeOverlappingHeadNoEarlier(q); }
      MergeOverlappingHeadsNoEarlier(next);
      NoEarlierTrans(MergeOverlappingHeads(next), next, q);
    }
  }

  /** Unblocking gives no tick earlier than before. */
  lemma UnblockCheckDelays(q: seq<Refill>, now: nat, period: nat)
    requires q != [] && Sum(q) > 0
    ensures NoEarlier(UnblockCheck(q, now), q)
    ensures Delays(UnblockCheck(q, now), q, period, 0)
  {
    var r := UnblockCheck(q, now);
    if q[0].rTime <= now {
      var moved := [Refill(now, q[0].rAmount)] + q[1..];
      HeadDelayedNoEarlier(q, now);
      MergeOverlappingHeadsNoEarlier(moved);
      NoEarlierTrans(r, moved, q);
    }
    NoEarlierDelays(r, q, period);
  }

  lemma HeadDelayedNoEarlier(q: seq<Refill>, now: nat)
    requires q != [] && q[0].rTime <= now
    ensures NoEarlier([Refill(now, q[0].rAmount)] + q[1..], q)
  {
    var moved := [Refill(now, q[0].rAmount)] + q[1..];
    SumCons(moved[0], q[1..]);
    assert moved[1..] == q[1..];
  }
}
