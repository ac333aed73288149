/** Address regions [start, end) and lists of them (kernel/src/kernel/boot.c, kernel/include/machine.h). */
module Regions {

  datatype Region = Region(start: nat, end: nat)

  const REG_EMPTY := Region(0, 0)

  predicate IsRegEmpty(r: Region) {
    r.start == r.end
  }

  predicate Within(r: Region, x: int) {
    r.start <= x < r.end
  }

  ghost predicate Covers(rs: seq<Region>, x: int) {
    exists i :: 0 <= i < |rs| && Within(rs[i], x)
  }

  /** Non-empty regions in order that do not overlap; neighbours may touch. */
  predicate Ordered(rs: seq<Region>) {
    && (forall i :: 0 <= i < |rs| ==> rs[i].start < rs[i].end)
    && (forall i, j :: 0 <= i < j < |rs| ==> rs[i].end <= rs[j].start)
  }

  /** Non-empty regions in order with a gap between any two. */
  predicate Separated(rs: seq<Region>) {
    && (forall i :: 0 <= i < |rs| ==> rs[i].start < rs[i].end)
    && (forall i, j :: 0 <= i < j < |rs| ==> rs[i].end < rs[j].start)
  }

  ghost predicate Apart(r: Region, rs: seq<Region>) {
    forall i :: 0 <= i < |rs| ==> r.end <= rs[i].start || rs[i].end <= r.start
  }

  /** Two lists cover the same addresses. */
  ghost predicate SameCover(a: seq<Region>, b: seq<Region>) {
    forall x: int :: Covers(a, x) <==> Covers(b, x)
  }

  lemma CoversAppend(a: seq<Region>, b: seq<Region>)
    ensures forall x: int :: Covers(a + b, x) <==> Covers(a, x) || Covers(b, x)
  {
    forall x: int ensures Covers(a + b, x) <==> Covers(a, x) || Covers(b, x) {
      if i :| 0 <= i < |a| && Within(a[i], x) {
        assert Within((a + b)[i], x);
      }
      if i :| 0 <= i < |b| && Within(b[i], x) {
        assert Within((a + b)[|a| + i], x);
      }
    }
  }

  lemma CoversOne(r: Region)
    ensures forall x: int :: Covers([r], x) <==> Within(r, x)
  {
    forall x: int ensures Covers([r], x) <==> Within(r, x) {
      if Within(r, x) {
        assert Within([r][0], x);
      }
    }
  }

  /** Joining two regions that touch changes nothing. */
  function Joined(rs: seq<Region>, i: nat): seq<Region>
    requires 0 < i < |rs|
  {
    rs[..i - 1] + [Region(rs[i - 1].start, rs[i].end)] + rs[i + 1..]
  }

  lemma JoinedCovers(rs: seq<Region>, i: nat)
    requires 0 < i < |rs| && Ordered(rs) && rs[i - 1].end == rs[i].start
    ensures SameCover(Joined(rs, i), rs)
  {
    var joined := Region(rs[i - 1].start, rs[i].end);
    assert rs == rs[..i - 1] + [rs[i - 1], rs[i]] + rs[i + 1..];
    CoversAppend(rs[..i - 1] + [rs[i - 1], rs[i]], rs[i + 1..]);
    CoversAppend(rs[..i - 1], [rs[i - 1], rs[i]]);
    CoversAppend(rs[..i - 1] + [joined], rs[i + 1..]);
    CoversAppend(rs[..i - 1], [joined]);
    CoversOne(joined);
    assert [rs[i - 1], rs[i]] == [rs[i - 1]] + [rs[i]];
    CoversAppend([rs[i - 1]], [rs[i]]);
    CoversOne(rs[i - 1]);
    CoversOne(rs[i]);
  }

  lemma JoinedOrdered(rs: seq<Region>, i: nat)
    requires 0 < i < |rs| && Ordered(rs) && rs[i - 1].end == rs[i].start
    ensures Ordered(Joined(rs, i))
    ensures Separated(rs[..i]) ==> Separated(Joined(rs, i)[..i])
  {
    JoinedAt(rs, i);
    hide Joined;
  }

  lemma JoinedAt(rs: seq<Region>, i: nat)
    requires 0 < i < |rs|
    ensures var js := Joined(rs, i);
      && |js| == |rs| - 1 && js[i - 1] == Region(rs[i - 1].start, rs[i].end)
      && forall k :: 0 <= k < |js| && k != i - 1 ==> js[k] == rs[if k < i then k else k + 1]
  {
  }

  function Inserted(rs: seq<Region>, i: nat, r: Region): seq<Region>
    requires i <= |rs|
  {
    rs[..i] + [r] + rs[i..]
  }

  /** A list with one more region covers that region besides. */
  lemma InsertedCovers(rs: seq<Region>, i: nat, r: Region)
    requires i <= |rs|
    ensures forall x: int :: Covers(Inserted(rs, i, r), x) <==> Covers(rs, x) || Within(r, x)
  {
    assert rs == rs[..i] + rs[i..];
    CoversAppend(rs[..i], rs[i..]);
    CoversAppend(rs[..i] + [r], rs[i..]);
    CoversAppend(rs[..i], [r]);
    CoversOne(r);
  }

  /** Replacing a region by a wider one that takes in `r` adds `r`. */
  lemma WidenedCovers(rs: seq<Region>, i: nat, wide: Region, r: Region)
    requires i < |rs| && forall x: int :: Within(wide, x) <==> Within(rs[i], x) || Within(r, x)
    ensures forall x: int :: Covers(rs[i := wide], x) <==> Covers(rs, x) || Within(r, x)
  {
    assert rs == rs[..i] + [rs[i]] + rs[i + 1..];
    assert rs[i := wide] == rs[..i] + [wide] + rs[i + 1..];
    CoversAppend(rs[..i] + [rs[i]], rs[i + 1..]);
    CoversAppend(rs[..i], [rs[i]]);
    CoversAppend(rs[..i] + [wide], rs[i + 1..]);
    CoversAppend(rs[..i], [wide]);
    CoversOne(wide);
    CoversOne(rs[i]);
  }

  lemma BothEmpty(a: seq<Region>, b: seq<Region>)
    requires Separated(a) && SameCover(a, b)
    ensures a != [] ==> b != []
  {
    if a != [] {
      assert Within(a[0], a[0].start);
      assert Covers(b, a[0].start);
    }
  }

  /** A separated list is the only one that covers what it covers. */
  lemma {:induction false} SeparatedUnique(a: seq<Region>, b: seq<Region>)
    requires Separated(a) && Separated(b) && SameCover(a, b)
    ensures a == b
  {
    if a == [] || b == [] {
      BothEmpty(a, b);
      BothEmpty(b, a);
    } else {
      FirstStart(a, b);
      FirstStart(b, a);
      FirstEnd(a, b);
      FirstEnd(b, a);
      forall x: int ensures Covers(a[1..], x) <==> Covers(b[1..], x) {
        assert a == [a[0]] + a[1..] && b == [b[0]] + b[1..];
        CoversAppend([a[0]], a[1..]);
        CoversAppend([b[0]], b[1..]);
        CoversOne(a[0]);
      }
      SeparatedUnique(a[1..], b[1..]);
    }
  }

  lemma FirstStart(a: seq<Region>, b: seq<Region>)
    requires a != [] && b != [] && Separated(a) && Separated(b) && SameCover(a, b)
    ensures b[0].start <= a[0].start
  {
    assert Within(a[0], a[0].start);
    assert Covers(a, a[0].start);
    assert Covers(b, a[0].start);
  }

  lemma FirstEnd(a: seq<Region>, b: seq<Region>)
    requires a != [] && b != [] && Separated(a) && Separated(b) && SameCover(a, b) && a[0].start == b[0].start
    ensures b[0].end <= a[0].end
  {
    if a[0].end < b[0].end {
      EndNotCovered(a);
      FirstCovers(b, a[0].end);
      assert false;
    }
  }

  lemma EndNotCovered(a: seq<Region>)
    requires a != [] && Separated(a)
    ensures !Covers(a, a[0].end)
  {
  }

  lemma FirstCovers(b: seq<Region>, x: int)
    requires b != [] && Within(b[0], x)
    ensures Covers(b, x)
  {
  }
}
