/**
  The ready queues and the two-level bitmap that finds the highest priority in them
  (kernel/include/kernel/thread.h, kernel/src/object/tcb.c).
 */
module ReadyQueues {
  import opened Words
  import opened Bitmaps

  /** Words of 2^wordRadix bits, and the number of words of the second level. */
  datatype Layout = Layout(wordRadix: nat, l2Size: nat)

  /** The queue of each domain and priority, and the two bitmap levels of each domain. */
  datatype Ready = Ready(queue: map<(nat, nat), seq<nat>>, l1: map<nat, nat>, l2: map<(nat, nat), nat>)

  function Q(r: Ready, d: nat, p: nat): seq<nat> { if (d, p) in r.queue then r.queue[(d, p)] else [] }
  function L1(r: Ready, d: nat): nat { if d in r.l1 then r.l1[d] else 0 }
  function L2(r: Ready, d: nat, i: nat): nat { if (d, i) in r.l2 then r.l2[(d, i)] else 0 }

  function PrioToL1Index(lay: Layout, p: nat): nat { Shr(p, lay.wordRadix) }
  function L2Bit(lay: Layout, p: nat): nat { Low(p, lay.wordRadix) }

  /** The second level is stored upside down. */
  function InvertL1Index(lay: Layout, i: nat): nat
    requires i < lay.l2Size
  {
    lay.l2Size - 1 - i
  }

  /** Both levels agree with the queues that are not empty. */
  ghost predicate BitsOk(lay: Layout, r: Ready) {
    && (forall d: nat, p: nat :: Q(r, d, p) != [] ==> PrioToL1Index(lay, p) < lay.l2Size)
    && (forall d: nat, p: nat :: PrioToL1Index(lay, p) < lay.l2Size ==>
          (Q(r, d, p) != [] <==> TestBit(L2(r, d, InvertL1Index(lay, PrioToL1Index(lay, p))), L2Bit(lay, p))))
    && (forall d: nat, i: nat :: i < lay.l2Size ==> (TestBit(L1(r, d), i) <==> L2(r, d, InvertL1Index(lay, i)) != 0))
    && (forall d: nat :: L1(r, d) < Pow2(lay.l2Size))
    && (forall d: nat, i: nat :: L2(r, d, i) < Pow2(Pow2(lay.wordRadix)))
  }

  // ---------------------------------------------------------------- finding the highest priority

  /** `clzl` of a word of w bits. */
  function Clzl(x: nat, w: nat): int {
    w - BitLength(x)
  }

  /** No thread of the domain that is queued has a higher priority. */
  ghost predicate IsTop(r: Ready, d: nat, p: nat) {
    forall q: nat :: Q(r, d, q) != [] ==> q <= p
  }

  /** The highest priority of a domain with queued threads. */
  method GetHighestPrio(lay: Layout, r: Ready, d: nat) returns (prio: nat)
    requires BitsOk(lay, r) && L1(r, d) != 0
    ensures Q(r, d, prio) != [] && IsTop(r, d, prio)
  {
    hide BitsOk, TestBit, BitOr, Pow2, Log2, IsTop, Q, L1, L2;
    var wordBits := Pow2(lay.wordRadix);
    var l1index := wordBits - 1 - Clzl(L1(r, d), wordBits);
    TopWord(lay, r, d);
    var l2word := L2(r, d, InvertL1Index(lay, l1index));
    var l2index := wordBits - 1 - Clzl(l2word, wordBits);
    OrOfParts(l1index, lay.wordRadix, l2index);
    prio := BitOr(l1index * Pow2(lay.wordRadix), l2index);
    TopPriority(lay, r, d, l1index, l2index);
  }

  /** The two indices that the search finds are in range. */
  lemma TopWord(lay: Layout, r: Ready, d: nat)
    requires BitsOk(lay, r) && L1(r, d) != 0
    ensures var i := Log2(L1(r, d));
      && i < lay.l2Size && L2(r, d, InvertL1Index(lay, i)) != 0
      && Log2(L2(r, d, InvertL1Index(lay, i))) < Pow2(lay.wordRadix)
  {
    var i := Log2(L1(r, d));
    HighestBit(L1(r, d), i);
    Log2Bound(L1(r, d), lay.l2Size);
    Log2Bound(L2(r, d, InvertL1Index(lay, i)), Pow2(lay.wordRadix));
  }

  lemma Log2Bound(x: nat, n: nat)
    requires x < Pow2(n)
    ensures x > 0 ==> Log2(x) < n
  {
    LengthBound(x, n);
  }

  lemma TopPriority(lay: Layout, r: Ready, d: nat, i: nat, j: nat)
    requires BitsOk(lay, r) && L1(r, d) != 0 && i == Log2(L1(r, d)) && i < lay.l2Size
    requires L2(r, d, InvertL1Index(lay, i)) != 0 && j == Log2(L2(r, d, InvertL1Index(lay, i)))
    requires j < Pow2(lay.wordRadix)
    ensures var p := i * Pow2(lay.wordRadix) + j; Q(r, d, p) != [] && IsTop(r, d, p)
  {
    var p := i * Pow2(lay.wordRadix) + j;
    Quotient(p, Pow2(lay.wordRadix), i, j);
    HighestBit(L2(r, d, InvertL1Index(lay, i)), j);
    assert Q(r, d, p) != [];
    hide TestBit, Pow2, Log2, InvertL1Index, Q, L1, L2, BitsOk, PrioToL1Index, L2Bit;
    forall q: nat | Q(r, d, q) != [] ensures q <= p {
      BelowTop(lay, r, d, q);
      OrderByWord(lay, q, i, j);
    }
  }

  lemma OrderByWord(lay: Layout, q: nat, i: nat, j: nat)
    requires PrioToL1Index(lay, q) < i || (PrioToL1Index(lay, q) == i && L2Bit(lay, q) <= j)
    ensures q <= i * Pow2(lay.wordRadix) + j
  {
    var k := PrioToL1Index(lay, q);
    DivMod(q, Pow2(lay.wordRadix));
    if k < i {
      NotMore(k + 1, i, Pow2(lay.wordRadix));
      assert (k + 1) * Pow2(lay.wordRadix) == k * Pow2(lay.wordRadix) + Pow2(lay.wordRadix);
    }
  }

  lemma BelowTop(lay: Layout, r: Ready, d: nat, q: nat)
    requires BitsOk(lay, r) && Q(r, d, q) != []
    ensures PrioToL1Index(lay, q) < lay.l2Size && L1(r, d) != 0 && PrioToL1Index(lay, q) <= Log2(L1(r, d))
    ensures PrioToL1Index(lay, q) == Log2(L1(r, d)) ==>
      L2(r, d, InvertL1Index(lay, Log2(L1(r, d)))) != 0
      && L2Bit(lay, q) <= Log2(L2(r, d, InvertL1Index(lay, Log2(L1(r, d)))))
  {
    var k := PrioToL1Index(lay, q);
    var word := L2(r, d, InvertL1Index(lay, k));
    assert TestBit(word, L2Bit(lay, q));
    if word == 0 {
      NoBits(L2Bit(lay, q));
      assert false;
    }
    HighestBit(word, L2Bit(lay, q));
    assert TestBit(L1(r, d), k);
    if L1(r, d) == 0 {
      NoBits(k);
      assert false;
    }
    HighestBit(L1(r, d), k);
  }

  /** Whether no queued thread of the domain has a higher priority. */
  method IsHighestPrio(lay: Layout, r: Ready, d: nat, prio: nat) returns (b: bool)
    requires BitsOk(lay, r)
    ensures b <==> IsTop(r, d, prio)
  {
    if L1(r, d) == 0 {
      NothingQueued(lay, r, d);
      return true;
    }
    var highest := GetHighestPrio(lay, r, d);
    return prio >= highest;
  }

  lemma NothingQueued(lay: Layout, r: Ready, d: nat)
    requires BitsOk(lay, r)
    ensures L1(r, d) == 0 <==> forall q: nat :: Q(r, d, q) == []
  {
    forall q: nat | Q(r, d, q) != [] ensures L1(r, d) != 0 {
      BelowTop(lay, r, d, q);
    }
    if L1(r, d) != 0 {
      TopWord(lay, r, d);
      var i := Log2(L1(r, d));
      TopPriority(lay, r, d, i, Log2(L2(r, d, InvertL1Index(lay, i))));
    }
  }

  // ---------------------------------------------------------------- changing a queue

  /** A queue gets its new contents, and the bitmaps follow when it becomes empty or stops being empty. */
  function WithQueue(lay: Layout, r: Ready, d: nat, p: nat, q: seq<nat>): Ready
    requires PrioToL1Index(lay, p) < lay.l2Size
  {
    var i, j := PrioToL1Index(lay, p), L2Bit(lay, p);
    var at := (d, InvertL1Index(lay, i));
    var word := L2(r, d, at.1);
    if q != [] then
      r.(queue := r.queue[(d, p) := q], l1 := r.l1[d := SetBit(L1(r, d), i)], l2 := r.l2[at := SetBit(word, j)])
    else
      var cleared := ClearBit(word, j);
      r.(queue := r.queue[(d, p) := q],
         l2 := r.l2[at := cleared],
         l1 := if cleared == 0 then r.l1[d := ClearBit(L1(r, d), i)] else r.l1)
  }

  lemma WithQueueFields(lay: Layout, r: Ready, d: nat, p: nat, q: seq<nat>)
    requires PrioToL1Index(lay, p) < lay.l2Size
    ensures var i, j := PrioToL1Index(lay, p), L2Bit(lay, p);
      var s := WithQueue(lay, r, d, p, q);
      var word := L2(r, d, InvertL1Index(lay, i));
      && (forall e: nat, x: nat :: Q(s, e, x) == if e == d && x == p then q else Q(r, e, x))
      && (forall e: nat, k: nat :: L2(s, e, k) ==
            if e == d && k == InvertL1Index(lay, i) then if q != [] then SetBit(word, j) else ClearBit(word, j)
            else L2(r, e, k))
      && (forall e: nat :: L1(s, e) ==
            if e != d then L1(r, e)
            else if q != [] then SetBit(L1(r, d), i)
            else if ClearBit(word, j) == 0 then ClearBit(L1(r, d), i)
            else L1(r, d))
  {
  }

  lemma {:induction false} SetBitBound(x: nat, i: nat, n: nat)
    requires x < Pow2(n) && i < n
    ensures 0 < SetBit(x, i) < Pow2(n)
  {
    if i > 0 {
      SetBitBound(x / 2, i - 1, n - 1);
    }
  }

  lemma {:induction false} ClearBitBound(x: nat, i: nat)
    ensures ClearBit(x, i) <= x
  {
    if i > 0 {
      ClearBitBound(x / 2, i - 1);
    }
  }

  lemma Bits(x: nat, i: nat)
    ensures forall j: nat :: TestBit(SetBit(x, i), j) <==> j == i || TestBit(x, j)
    ensures forall j: nat :: TestBit(ClearBit(x, i), j) <==> j != i && TestBit(x, j)
  {
    forall j: nat ensures TestBit(SetBit(x, i), j) <==> j == i || TestBit(x, j) {
      SetBitAt(x, i, j);
    }
    forall j: nat ensures TestBit(ClearBit(x, i), j) <==> j != i && TestBit(x, j) {
      ClearBitAt(x, i, j);
    }
  }

  /** Changing a queue keeps the bitmaps in agreement with the queues. */
  lemma WithQueueOk(lay: Layout, r: Ready, d: nat, p: nat, q: seq<nat>)
    requires BitsOk(lay, r) && PrioToL1Index(lay, p) < lay.l2Size
    ensures BitsOk(lay, WithQueue(lay, r, d, p, q))
  {
    var i, j := PrioToL1Index(lay, p), L2Bit(lay, p);
    var s := WithQueue(lay, r, d, p, q);
    var word, top := L2(r, d, InvertL1Index(lay, i)), L1(r, d);
    WithQueueFields(lay, r, d, p, q);
    SetBitBound(word, j, Pow2(lay.wordRadix));
    SetBitBound(top, i, lay.l2Size);
    ClearBitBound(word, j);
    ClearBitBound(top, i);
    Bits(word, j);
    Bits(top, i);
    forall x: nat | PrioToL1Index(lay, x) == i && L2Bit(lay, x) == j ensures x == p {
      DivMod(x, Pow2(lay.wordRadix));
      DivMod(p, Pow2(lay.wordRadix));
    }
    hide WithQueue, Q, L1, L2, SetBit, ClearBit, TestBit, Pow2, PrioToL1Index, L2Bit;
  }

  /** Where the queue does not become empty or stop being empty, the bitmaps stay as they are. */
  lemma SameBits(lay: Layout, r: Ready, d: nat, p: nat, q: seq<nat>)
    requires BitsOk(lay, r) && PrioToL1Index(lay, p) < lay.l2Size && q != [] && Q(r, d, p) != []
    ensures BitsOk(lay, r.(queue := r.queue[(d, p) := q]))
  {
    var s := r.(queue := r.queue[(d, p) := q]);
    assert forall e: nat, x: nat :: Q(s, e, x) == if e == d && x == p then q else Q(r, e, x);
    assert forall e: nat, k: nat :: L2(s, e, k) == L2(r, e, k);
    assert forall e: nat :: L1(s, e) == L1(r, e);
    hide Q, L1, L2, PrioToL1Index, L2Bit, TestBit, Pow2;
  }
}
