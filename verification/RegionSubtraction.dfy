/**
  Removing one sorted list of regions from another, with one position in each
  (the main loop of init_freemem, kernel/src/kernel/boot.c).
 */
module RegionSubtraction {
  import opened Regions

  /** In order, without overlap; empty regions allowed. */
  predicate Sorted(rs: seq<Region>) {
    && (forall i :: 0 <= i < |rs| ==> rs[i].start <= rs[i].end)
    && (forall i, j :: 0 <= i < j < |rs| ==> rs[i].end <= rs[j].start)
  }

  function Min(a: nat, b: nat): nat {
    if a < b then a else b
  }

  function HeadSize(avail: seq<Region>): nat {
    if avail != [] && avail[0].start < avail[0].end then avail[0].end - avail[0].start else 0
  }

  /** What the loop and the two loops after it hand out, in order. */
  function Subtract(avail: seq<Region>, res: seq<Region>): seq<Region>
    decreases |avail|, |res|, HeadSize(avail)
  {
    if avail == [] then []
    else if res == [] then
      if avail[0].start < avail[0].end then [avail[0]] + Subtract(avail[1..], res) else Subtract(avail[1..], res)
    else if res[0].start == res[0].end then Subtract(avail, res[1..])
    else if avail[0].start >= avail[0].end then Subtract(avail[1..], res)
    else if res[0].end <= avail[0].start then Subtract(avail, res[1..])
    else if res[0].start >= avail[0].end then [avail[0]] + Subtract(avail[1..], res)
    else if res[0].start <= avail[0].start then
      Subtract(avail[0 := Region(Min(avail[0].end, res[0].end), avail[0].end)], res)
    else if avail[0].end > res[0].end then
      [Region(avail[0].start, res[0].start)] + Subtract(avail[0 := Region(res[0].end, avail[0].end)], res)
    else
      [Region(avail[0].start, res[0].start)] + Subtract(avail[1..], res)
  }

  lemma HeadOrTail(rs: seq<Region>, x: int)
    requires rs != []
    ensures Covers(rs, x) <==> Within(rs[0], x) || Covers(rs[1..], x)
  {
    assert rs == [rs[0]] + rs[1..];
    CoversAppend([rs[0]], rs[1..]);
    CoversOne(rs[0]);
  }

  lemma SortedTail(rs: seq<Region>, x: int)
    requires rs != [] && Sorted(rs)
    ensures Sorted(rs[1..])
    ensures Covers(rs[1..], x) ==> rs[0].end <= x
  {
  }

  lemma SortedHead(rs: seq<Region>, h: Region)
    requires rs != [] && Sorted(rs) && rs[0].start <= h.start <= h.end == rs[0].end
    ensures Sorted(rs[0 := h]) && rs[0 := h][1..] == rs[1..]
  {
  }

  /** Exactly the available addresses that are not reserved. */
  lemma {:induction false} SubtractCovers(avail: seq<Region>, res: seq<Region>, x: int)
    requires Sorted(avail) && Sorted(res)
    ensures Covers(Subtract(avail, res), x) <==> Covers(avail, x) && !Covers(res, x)
    decreases |avail|, |res|, HeadSize(avail)
  {
    if avail != [] {
      var a, s := avail[0], Subtract(avail, res);
      HeadOrTail(avail, x);
      SortedTail(avail, x);
      if s != [] {
        HeadOrTail(s, x);
      }
      if res == [] {
        SubtractCovers(avail[1..], res, x);
      } else {
        var r := res[0];
        HeadOrTail(res, x);
        SortedTail(res, x);
        if r.start == r.end || (a.start < a.end && r.end <= a.start) {
          SubtractCovers(avail, res[1..], x);
        } else if a.start >= a.end || r.start >= a.end {
          SubtractCovers(avail[1..], res, x);
        } else if r.start <= a.start || a.end > r.end {
          var h := Region(Min(a.end, r.end), a.end);
          SortedHead(avail, h);
          HeadOrTail(avail[0 := h], x);
          SubtractCovers(avail[0 := h], res, x);
        } else {
          SubtractCovers(avail[1..], res, x);
        }
      }
    }
  }

  ghost predicate OrderedFrom(lo: nat, rs: seq<Region>) {
    Ordered(rs) && forall i :: 0 <= i < |rs| ==> lo <= rs[i].start
  }

  lemma OrderedCons(lo: nat, h: Region, rs: seq<Region>)
    requires lo <= h.start < h.end && OrderedFrom(h.end, rs)
    ensures OrderedFrom(lo, [h] + rs)
  {
  }

  lemma OrderedLess(lo: nat, hi: nat, rs: seq<Region>)
    requires lo <= hi && OrderedFrom(hi, rs)
    ensures OrderedFrom(lo, rs)
  {
  }

  /** Handed out in order, without overlap, none empty. */
  lemma {:induction false} SubtractOrdered(avail: seq<Region>, res: seq<Region>, lo: nat)
    requires Sorted(avail) && Sorted(res) && (avail != [] ==> lo <= avail[0].start)
    ensures OrderedFrom(lo, Subtract(avail, res))
    decreases |avail|, |res|, HeadSize(avail)
  {
    if avail != [] {
      var a := avail[0];
      SortedTail(avail, 0);
      assert avail[1..] != [] ==> a.end <= avail[1..][0].start;
      if res == [] || a.start >= a.end {
        if res != [] && res[0].start == res[0].end {
          SortedTail(res, 0);
          SubtractOrdered(avail, res[1..], lo);
        } else {
          hide OrderedFrom;
          SubtractOrdered(avail[1..], res, a.end);
          OrderedLess(lo, a.end, Subtract(avail[1..], res));
          if a.start < a.end {
            OrderedCons(lo, a, Subtract(avail[1..], res));
          }
        }
      } else {
        var r := res[0];
        SortedTail(res, 0);
        var h := Region(Min(a.end, r.end), a.end);
        if r.start == r.end || r.end <= a.start {
          SubtractOrdered(avail, res[1..], lo);
        } else if r.start >= a.end {
          SubtractOrdered(avail[1..], res, a.end);
          OrderedCons(lo, a, Subtract(avail[1..], res));
        } else if r.start <= a.start {
          SortedHead(avail, h);
          SubtractOrdered(avail[0 := h], res, lo);
        } else if a.end > r.end {
          SortedHead(avail, h);
          SubtractOrdered(avail[0 := h], res, r.start);
          OrderedCons(lo, Region(a.start, r.start), Subtract(avail[0 := h], res));
        } else {
          SubtractOrdered(avail[1..], res, r.start);
          OrderedCons(lo, Region(a.start, r.start), Subtract(avail[1..], res));
        }
      }
    }
  }
}
