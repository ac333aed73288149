/**
  The profiler's table of sampled program counters: double hashing over a table whose size is a
  prime (kernel/src/machine/profiler.c).
 */
module Profiler {
  import opened Words

  ghost predicate Prime(m: nat) {
    m > 1 && forall d :: 1 < d < m ==> m % d != 0
  }

  // ---------------------------------------------------------------- the probe sequence

  /** The slot of the k-th probe. */
  function Probe(hash: nat, step: nat, k: nat, m: nat): (s: nat)
    requires m > 0
    ensures s < m
  {
    DivMod(hash + k * step, m);
    (hash + k * step) % m
  }

  /** A prime does not divide the product of two smaller positive numbers. */
  lemma {:induction false} NotDivided(m: nat, k: nat, h: nat)
    requires Prime(m) && 0 < k < m && 0 < h < m
    ensures k * h % m != 0
  {
    if k == 1 {
      Quotient(h, m, 0, h);
    } else {
      var q, r := m / k, m % k;
      DivMod(m, k);
      NotDivided(m, r, h);
      if k * h % m == 0 {
        DivMod(k * h, m);
        var c := k * h / m;
        Remainder(m, k, h, q, r, c);
        Quotient(r * h, m, h - q * c, 0) by {
          Nonnegative(r * h, m, h - q * c);
        }
        assert false;
      }
    }
  }

  lemma Remainder(m: int, k: int, h: int, q: int, r: int, c: int)
    requires m == q * k + r && k * h == c * m
    ensures r * h == (h - q * c) * m
  {
    assert r * h == m * h - q * k * h;
    assert q * k * h == q * (k * h);
    assert q * (k * h) == q * (c * m);
    assert q * (c * m) == q * c * m;
  }

  lemma Nonnegative(x: nat, m: nat, c: int)
    requires m > 0 && x == c * m
    ensures c >= 0
  {
    if c < 0 {
      Multiple(c, m);
      assert false;
    }
  }

  /** The probes of one round are different slots. */
  lemma ProbesDiffer(hash: nat, step: nat, i: nat, j: nat, m: nat)
    requires Prime(m) && 0 < step < m && i < j < m
    ensures Probe(hash, step, i, m) != Probe(hash, step, j, m)
  {
    if Probe(hash, step, i, m) == Probe(hash, step, j, m) {
      var a, b := hash + i * step, hash + j * step;
      DivMod(a, m);
      DivMod(b, m);
      assert (j - i) * step == (b / m - a / m) * m by {
        assert (j - i) * step == b - a;
      }
      NotMore(1, j - i, step);
      Nonnegative((j - i) * step, m, b / m - a / m);
      Quotient((j - i) * step, m, b / m - a / m, 0);
      NotDivided(m, j - i, step);
    }
  }

  /** One more probe. */
  lemma NextProbe(hash: nat, step: nat, k: nat, m: nat)
    requires m > 0
    ensures (Probe(hash, step, k, m) + step) % m == Probe(hash, step, k + 1, m)
  {
    var a := hash + k * step;
    DivMod(a, m);
    DivMod(a % m + step, m);
    assert a + step == (a / m + (a % m + step) / m) * m + (a % m + step) % m;
    DivNat(a, m);
    DivNat(a % m + step, m);
    Quotient(a + step, m, a / m + (a % m + step) / m, (a % m + step) % m);
    assert hash + (k + 1) * step == a + step;
  }

  // ---------------------------------------------------------------- the table

  ghost function Used(pcs: seq<nat>): (u: set<nat>)
    ensures forall i :: i in u <==> 0 <= i < |pcs| && pcs[i] != 0
  {
    if pcs == [] then {}
    else Used(pcs[..|pcs| - 1]) + (if pcs[|pcs| - 1] != 0 then {|pcs| - 1} else {})
  }

  function Sum(counts: seq<nat>): nat {
    if counts == [] then 0 else Sum(counts[..|counts| - 1]) + counts[|counts| - 1]
  }

  lemma {:induction false} SumUpdate(counts: seq<nat>, i: nat, c: nat)
    requires i < |counts|
    ensures Sum(counts[i := c]) == Sum(counts) - counts[i] + c
  {
    var n := |counts| - 1;
    if i < n {
      SumUpdate(counts[..n], i, c);
      assert counts[i := c][..n] == counts[..n][i := c];
    } else {
      assert counts[i := c][..n] == counts[..n];
    }
  }

  /** The slots visited by the first k probes. */
  ghost function Slots(hash: nat, step: nat, k: nat, m: nat): set<nat>
    requires m > 0
  {
    if k == 0 then {} else Slots(hash, step, k - 1, m) + {Probe(hash, step, k - 1, m)}
  }

  lemma {:induction false} ProbeOf(hash: nat, step: nat, k: nat, m: nat, s: nat) returns (l: nat)
    requires m > 0 && s in Slots(hash, step, k, m)
    ensures l < k && Probe(hash, step, l, m) == s
  {
    hide Probe;
    if Probe(hash, step, k - 1, m) == s {
      l := k - 1;
    } else {
      l := ProbeOf(hash, step, k - 1, m, s);
    }
  }

  lemma {:induction false} SlotsCount(hash: nat, step: nat, k: nat, m: nat)
    requires Prime(m) && 0 < step < m && k <= m
    ensures |Slots(hash, step, k, m)| == k
  {
    hide Probe, Prime;
    if k > 0 {
      SlotsCount(hash, step, k - 1, m);
      if Probe(hash, step, k - 1, m) in Slots(hash, step, k - 1, m) {
        var l := ProbeOf(hash, step, k - 1, m, Probe(hash, step, k - 1, m));
        ProbesDiffer(hash, step, l, k - 1, m);
        assert false;
      }
    }
  }

  lemma SubsetSize(a: set<nat>, b: set<nat>)
    requires a <= b
    ensures |a| <= |b|
  {
    assert b == a + (b - a);
  }

  function Hash(pc: nat, m: nat): (h: nat)
    requires m > 0
    ensures h < m
  {
    pc / 4 % m
  }

  function Step(pc: nat, hashVal: nat): (s: nat)
    requires hashVal > 0
    ensures 0 < s <= hashVal
  {
    pc / 4 % hashVal + 1
  }

  /** A stored program counter is found by its probes: none of the slots before its own is empty. */
  ghost predicate FoundAt(pcs: seq<nat>, hashVal: nat, i: nat, k: nat)
    requires hashVal > 0 && i < |pcs|
  {
    var m := |pcs|;
    && k < m && Probe(Hash(pcs[i], m), Step(pcs[i], hashVal), k, m) == i
    && forall l :: 0 <= l < k ==> pcs[Probe(Hash(pcs[i], m), Step(pcs[i], hashVal), l, m)] != 0
  }

  ghost predicate TableOk(pcs: seq<nat>, hashVal: nat) {
    && Prime(|pcs|) && 0 < hashVal < |pcs|
    && (forall i, j :: 0 <= i < j < |pcs| && pcs[i] != 0 ==> pcs[i] != pcs[j])
    && (forall i :: 0 <= i < |pcs| && pcs[i] != 0 ==> exists k :: FoundAt(pcs, hashVal, i, k))
  }

  /** What is recorded: the number of samples of each program counter that is stored. */
  ghost predicate Records(pcs: seq<nat>, counts: seq<nat>, recorded: map<nat, nat>) {
    && |counts| == |pcs|
    && (forall i :: 0 <= i < |pcs| && pcs[i] != 0 ==> pcs[i] in recorded && recorded[pcs[i]] == counts[i])
    && (forall i :: 0 <= i < |pcs| && pcs[i] == 0 ==> counts[i] == 0)
    && (forall p :: p in recorded ==> p != 0 && p in pcs)
  }

  /** A program counter can be added in the first empty slot of its probes. */
  lemma AddedOk(pcs: seq<nat>, hashVal: nat, pc: nat, k: nat)
    requires TableOk(pcs, hashVal) && pc != 0 && pc !in pcs && k < |pcs|
    requires forall l :: 0 <= l < k ==> pcs[Probe(Hash(pc, |pcs|), Step(pc, hashVal), l, |pcs|)] != 0
    requires pcs[Probe(Hash(pc, |pcs|), Step(pc, hashVal), k, |pcs|)] == 0
    ensures TableOk(pcs[Probe(Hash(pc, |pcs|), Step(pc, hashVal), k, |pcs|) := pc], hashVal)
  {
    var s := Probe(Hash(pc, |pcs|), Step(pc, hashVal), k, |pcs|);
    var more := pcs[s := pc];
    hide Hash, Step, Probe;
    forall i | 0 <= i < |more| && more[i] != 0 ensures exists k' :: FoundAt(more, hashVal, i, k') {
      if i == s {
        assert FoundAt(more, hashVal, s, k);
      } else {
        var k' :| FoundAt(pcs, hashVal, i, k');
        assert FoundAt(more, hashVal, i, k');
      }
    }
  }

  /** The probes of a program counter that is stored meet its slot before any empty slot. */
  lemma NotStored(pcs: seq<nat>, hashVal: nat, pc: nat, k: nat)
    requires TableOk(pcs, hashVal) && pc != 0 && k < |pcs|
    requires forall l :: 0 <= l < k ==> pcs[Probe(Hash(pc, |pcs|), Step(pc, hashVal), l, |pcs|)] != pc
    requires pcs[Probe(Hash(pc, |pcs|), Step(pc, hashVal), k, |pcs|)] == 0
    ensures pc !in pcs
  {
    if pc in pcs {
      assert false;
    }
  }

  lemma UsedUpdate(pcs: seq<nat>, i: nat, pc: nat)
    requires i < |pcs| && pcs[i] == 0 && pc != 0
    ensures |Used(pcs[i := pc])| == |Used(pcs)| + 1
  {
    assert Used(pcs[i := pc]) == Used(pcs) + {i};
  }

  class Table {
    const pc: array<nat>
    const count: array<nat>
    const hashVal: nat
    var enabled: bool
    var numEntries: nat
    var dropped: nat
    ghost var recorded: map<nat, nat>
    ghost var samples: nat

    ghost predicate Valid()
      reads this, pc, count
    {
      && pc != count && TableOk(pc[..], hashVal) && Records(pc[..], count[..], recorded)
      && numEntries == |Used(pc[..])| && numEntries <= pc.Length / 4 * 3
      && Sum(count[..]) + dropped == samples
    }

    method Reset()
      requires pc != count && pc.Length == count.Length && Prime(pc.Length) && 0 < hashVal < pc.Length
      modifies this`numEntries, this`dropped, this`recorded, this`samples, pc, count
      ensures Valid() && recorded == map[] && samples == 0 && dropped == 0
    {
      var i := 0;
      while i < pc.Length
        invariant 0 <= i <= pc.Length
        invariant forall k :: 0 <= k < i ==> pc[k] == 0 && count[k] == 0
      {
        pc[i] := 0;
        count[i] := 0;
        i := i + 1;
      }
      numEntries := 0;
      dropped := 0;
      recorded := map[];
      samples := 0;
      SumZero(count[..]);
      assert Used(pc[..]) == {};
    }

    /** Records one sample: it is counted with its program counter, or as dropped if the table is full. */
    method RecordSample(p: nat)
      requires Valid() && p != 0
      modifies this`numEntries, this`dropped, this`recorded, this`samples, pc, count
      ensures Valid()
      ensures !enabled ==> recorded == old(recorded) && dropped == old(dropped) && samples == old(samples)
      ensures enabled ==> samples == old(samples) + 1
      ensures enabled ==>
        if p in old(recorded) then recorded == old(recorded)[p := old(recorded)[p] + 1] && dropped == old(dropped)
        else if old(numEntries) < pc.Length / 4 * 3 then recorded == old(recorded)[p := 1] && dropped == old(dropped)
        else recorded == old(recorded) && dropped == old(dropped) + 1
    {
      hide TableOk, Records, Sum, Used, Probe, Hash, Step, Prime;
      TableShape(pc[..], hashVal);
      var m := pc.Length;
      var hash, hash2 := Hash(p, m), Step(p, hashVal);
      if !enabled {
        return;
      }
      ghost var k := 0;
      ghost var pcs, counts := pc[..], count[..];
      FirstProbe(hash, hash2, m);
      while true
        invariant unchanged(this) && pc[..] == pcs && count[..] == counts
        invariant k < m && hash == Probe(Hash(p, m), hash2, k, m)
        invariant forall l :: 0 <= l < k ==>
          pcs[Probe(Hash(p, m), hash2, l, m)] != p && pcs[Probe(Hash(p, m), hash2, l, m)] != 0
        decreases m - k
      {
        if pc[hash] == p {
          Count(hash, p);
          break;
        } else if pc[hash] == 0 {
          NotStored(pcs, hashVal, p, k);
          OnlyStored(pcs, counts, recorded, p);
          if numEntries < m / 4 * 3 {
            Add(hash, p, k);
          } else {
            dropped := dropped + 1;
            samples := samples + 1;
          }
          break;
        }
        NotAllUsed(pcs, p, hashVal, k, numEntries);
        NextProbe(Hash(p, m), hash2, k, m);
        hash := hash + hash2;
        hash := hash % m;
        k := k + 1;
      }
    }

    method Count(i: nat, p: nat)
      requires Valid() && i < pc.Length && pc[i] == p && p != 0
      modifies this`recorded, this`samples, count
      ensures Valid() && p in old(recorded) && recorded == old(recorded)[p := old(recorded)[p] + 1]
      ensures samples == old(samples) + 1
    {
      hide TableOk, Sum, Used, Records;
      ghost var pcs, counts := pc[..], count[..];
      Counted(pcs, counts, recorded, i, hashVal);
      ghost var more := counts[i := counts[i] + 1];
      count[i] := count[i] + 1;
      assert count[..] == more;
      assert pc[..] == pcs;
      recorded := recorded[p := counts[i] + 1];
      samples := samples + 1;
    }

    method Add(i: nat, p: nat, ghost k: nat)
      requires Valid() && i < pc.Length && p != 0 && p !in pc[..] && p !in recorded && numEntries < pc.Length / 4 * 3
      requires k < pc.Length && i == Probe(Hash(p, pc.Length), Step(p, hashVal), k, pc.Length) && pc[i] == 0
      requires forall l :: 0 <= l < k ==> pc[..][Probe(Hash(p, pc.Length), Step(p, hashVal), l, pc.Length)] != 0
      modifies this`recorded, this`samples, this`numEntries, pc, count
      ensures Valid() && recorded == old(recorded)[p := 1] && samples == old(samples) + 1 && dropped == old(dropped)
    {
      ghost var pcs, counts := pc[..], count[..];
      assert pcs[i] == 0 && counts[i] == 0;
      AddedOk(pcs, hashVal, p, k);
      UsedUpdate(pcs, i, p);
      SumUpdate(counts, i, 1);
      RecordsAdded(pcs, counts, recorded, i, p);
      hide TableOk, Sum, Used, Records, Probe;
      pc[i] := p;
      count[i] := 1;
      assert pc[..] == pcs[i := p] && count[..] == counts[i := 1];
      numEntries := numEntries + 1;
      recorded := recorded[p := 1];
      samples := samples + 1;
    }
  }

  lemma Counted(pcs: seq<nat>, counts: seq<nat>, recorded: map<nat, nat>, i: nat, hashVal: nat)
    requires TableOk(pcs, hashVal) && Records(pcs, counts, recorded) && i < |pcs| && pcs[i] != 0
    ensures |counts| == |pcs| && pcs[i] in recorded && recorded[pcs[i]] == counts[i]
    ensures Records(pcs, counts[i := counts[i] + 1], recorded[pcs[i] := counts[i] + 1])
    ensures Sum(counts[i := counts[i] + 1]) == Sum(counts) + 1
  {
    SameShape(pcs, counts, recorded);
    hide TableOk, Records, Sum;
    RecordsCounted(pcs, counts, recorded, i, hashVal);
    SumUpdate(counts, i, counts[i] + 1);
  }

  lemma SameShape(pcs: seq<nat>, counts: seq<nat>, recorded: map<nat, nat>)
    requires Records(pcs, counts, recorded)
    ensures |counts| == |pcs|
  {
  }

  lemma TableShape(pcs: seq<nat>, hashVal: nat)
    requires TableOk(pcs, hashVal)
    ensures Prime(|pcs|) && 1 < |pcs| && 0 < hashVal < |pcs|
  {
  }

  lemma OnlyStored(pcs: seq<nat>, counts: seq<nat>, recorded: map<nat, nat>, p: nat)
    requires Records(pcs, counts, recorded) && p !in pcs
    ensures p !in recorded
  {
  }

  lemma FirstProbe(hash: nat, step: nat, m: nat)
    requires hash < m
    ensures Probe(hash, step, 0, m) == hash
  {
    assert 0 * step == 0;
    Quotient(hash, m, 0, hash);
  }

  lemma {:induction false} SumZero(counts: seq<nat>)
    requires forall i :: 0 <= i < |counts| ==> counts[i] == 0
    ensures Sum(counts) == 0
  {
    if counts != [] {
      SumZero(counts[..|counts| - 1]);
    }
  }

  lemma RecordsCounted(pcs: seq<nat>, counts: seq<nat>, recorded: map<nat, nat>, i: nat, hashVal: nat)
    requires TableOk(pcs, hashVal) && Records(pcs, counts, recorded) && i < |pcs| && pcs[i] != 0
    ensures pcs[i] in recorded && recorded[pcs[i]] == counts[i]
    ensures Records(pcs, counts[i := counts[i] + 1], recorded[pcs[i] := counts[i] + 1])
  {
    hide Prime, FoundAt;
    forall j | 0 <= j < |pcs| && j != i ensures pcs[j] != pcs[i] {
      assert if i < j then pcs[i] != pcs[j] else pcs[j] == 0 || pcs[j] != pcs[i];
    }
  }

  lemma RecordsAdded(pcs: seq<nat>, counts: seq<nat>, recorded: map<nat, nat>, i: nat, p: nat)
    requires Records(pcs, counts, recorded) && i < |pcs| && pcs[i] == 0 && p != 0 && p !in pcs && p !in recorded
    ensures Records(pcs[i := p], counts[i := 1], recorded[p := 1])
  {
    var more := pcs[i := p];
    assert more[i] == p;
    forall x | x in recorded ensures x in more {
      var j :| 0 <= j < |pcs| && pcs[j] == x;
      assert more[j] == x;
    }
  }

  /** At most three quarters of the slots are used, so the probes do not all find a used slot. */
  lemma NotAllUsed(pcs: seq<nat>, p: nat, hashVal: nat, k: nat, n: nat)
    requires Prime(|pcs|) && 0 < hashVal < |pcs| && k < |pcs| && |Used(pcs)| == n && n <= |pcs| / 4 * 3
    requires forall l :: 0 <= l <= k ==> pcs[Probe(Hash(p, |pcs|), Step(p, hashVal), l, |pcs|)] != 0
    ensures k + 1 < |pcs|
  {
    hide Probe, Prime, Hash, Step, Slots, Used;
    var m := |pcs|;
    SlotsCount(Hash(p, m), Step(p, hashVal), k + 1, m);
    SlotsUsed(pcs, Hash(p, m), Step(p, hashVal), k + 1);
    SubsetSize(Slots(Hash(p, m), Step(p, hashVal), k + 1, m), Used(pcs));
    ThreeQuarters(m, n);
  }

  lemma SlotsUsed(pcs: seq<nat>, hash: nat, step: nat, k: nat)
    requires pcs != [] && forall l :: 0 <= l < k ==> pcs[Probe(hash, step, l, |pcs|)] != 0
    ensures Slots(hash, step, k, |pcs|) <= Used(pcs)
  {
    hide Probe, Slots;
    forall s | s in Slots(hash, step, k, |pcs|) ensures s in Used(pcs) {
      var l := ProbeOf(hash, step, k, |pcs|, s);
    }
  }

  lemma ThreeQuarters(m: nat, n: nat)
    requires m > 0 && n <= m / 4 * 3
    ensures n < m
  {
  }
}
