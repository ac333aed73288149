/** The list of reserved physical regions that the boot code keeps (kernel/src/kernel/boot.c). */
module ReservedMemory {
  import opened Regions

  /** The boot state: a table of reserved regions, in use up to `resvCount`, and one of free regions. */
  class NdksBoot {
    const reserved: array<Region>
    var resvCount: nat
    const freemem: array<Region>

    constructor (maxResv: nat, maxFree: nat)
      ensures fresh(reserved) && fresh(freemem) && reserved.Length == maxResv && freemem.Length == maxFree
      ensures resvCount == 0
    {
      reserved := new Region[maxResv](_ => REG_EMPTY);
      freemem := new Region[maxFree](_ => REG_EMPTY);
      resvCount := 0;
    }

    ghost predicate InBounds()
      reads this
    {
      resvCount <= reserved.Length
    }

    ghost function Resv(): seq<Region>
      reads this, reserved
      requires InBounds()
    {
      reserved[..resvCount]
    }

    ghost predicate Valid()
      reads this, reserved
    {
      InBounds() && Separated(Resv())
    }

    /** Moves the regions above position `i` down by one, over position `i`. */
    method MoveDown(i: nat)
      requires InBounds() && i < resvCount
      modifies reserved, this`resvCount
      ensures InBounds() && resvCount == old(resvCount) - 1
      ensures Resv() == old(Resv()[..i] + Resv()[i + 1..])
    {
      ghost var before := Resv();
      var j := i + 1;
      while j < resvCount
        invariant i + 1 <= j <= resvCount == old(resvCount)
        invariant forall k :: 0 <= k < i ==> reserved[k] == before[k]
        invariant forall k :: i <= k < j - 1 ==> reserved[k] == before[k + 1]
        invariant forall k :: j <= k < resvCount ==> reserved[k] == before[k]
      {
        reserved[j - 1] := reserved[j];
        j := j + 1;
      }
      resvCount := resvCount - 1;
      assert reserved[..i] == before[..i];
      assert reserved[i..resvCount] == before[i + 1..];
      assert Resv() == reserved[..i] + reserved[i..resvCount];
    }

    /** Moves the regions from position `i` up by one. */
    method MoveUp(i: nat)
      requires InBounds() && i <= resvCount < reserved.Length
      modifies reserved
      ensures forall k :: 0 <= k < i ==> reserved[k] == old(reserved[k])
      ensures forall k :: i < k <= resvCount ==> reserved[k] == old(reserved[k - 1])
    {
      var j := resvCount;
      while j > i
        invariant i <= j <= resvCount
        invariant forall k :: 0 <= k <= j && k < resvCount ==> reserved[k] == old(reserved[k])
        invariant forall k :: j < k <= resvCount ==> reserved[k] == old(reserved[k - 1])
      {
        reserved[j] := reserved[j - 1];
        j := j - 1;
      }
    }

    method InsertAt(i: nat, reg: Region)
      requires InBounds() && i <= resvCount < reserved.Length
      modifies reserved, this`resvCount
      ensures InBounds() && resvCount == old(resvCount) + 1 && Resv() == Inserted(old(Resv()), i, reg)
    {
      ghost var before := Resv();
      MoveUp(i);
      reserved[i] := reg;
      resvCount := resvCount + 1;
      assert Resv() == Inserted(before, i, reg);
    }

    /** Joins regions that touch. */
    method MergeRegions()
      requires InBounds() && Ordered(Resv())
      modifies reserved, this`resvCount
      ensures Valid() && SameCover(Resv(), old(Resv())) && resvCount <= old(resvCount)
    {
      hide Covers, Joined, Ordered, Separated;
      NoneSeparated();
      if resvCount > 0 {
        FirstSeparated(Resv());
      }
      var i := 1;
      while i < resvCount
        invariant 1 <= i && InBounds() && resvCount <= old(resvCount)
        invariant i <= resvCount || resvCount == 0 || i == 1
        invariant Ordered(Resv()) && SameCover(Resv(), old(Resv()))
        invariant i <= resvCount ==> Separated(Resv()[..i])
        decreases resvCount - i
      {
        ghost var before := Resv();
        if reserved[i - 1].end == reserved[i].start {
          JoinedCovers(before, i);
          JoinedOrdered(before, i);
          JoinedAt(before, i);
          reserved[i - 1] := reserved[i - 1].(end := reserved[i].end);
          MoveDown(i);
          assert Resv() == Joined(before, i);
        } else {
          Extended(before, i);
          i := i + 1;
        }
      }
      assert resvCount > 0 ==> Resv()[..resvCount] == Resv();
      assert resvCount == 0 ==> Resv() == [];
    }

    /** Whether a new region fits: it is empty, it touches a region that is there, or there is room for one more. */
    ghost predicate Fits(reg: Region)
      reads this, reserved
      requires InBounds()
    {
      IsRegEmpty(reg) || Touches(reg, Resv()) || resvCount + 1 < reserved.Length
    }

    method ReserveRegion(reg: Region) returns (ok: bool)
      requires Valid() && resvCount < reserved.Length && reg.start <= reg.end && Apart(reg, Resv())
      modifies reserved, this`resvCount
      ensures Valid() && ok == old(Fits(reg))
      ensures resvCount <= old(resvCount) + 1 && resvCount < reserved.Length
      ensures ok ==> forall x: int :: Covers(Resv(), x) <==> old(Covers(Resv(), x)) || Within(reg, x)
      ensures !ok ==> Resv() == old(Resv())
    {
      hide Covers, Ordered, Separated, Touches, Inserted;
      if reg.start == reg.end {
        return true;
      }
      ghost var before := Resv();
      var i := 0;
      while i < resvCount
        invariant 0 <= i <= resvCount
        invariant forall k :: 0 <= k < i ==> before[k].end < reg.start
      {
        if reserved[i].start == reg.end {
          ghost var wide := Region(reg.start, before[i].end);
          WidenedBelow(before, i, reg);
          reserved[i] := reserved[i].(start := reg.start);
          assert Resv() == before[i := wide];
          MergeRegions();
          return true;
        }
        if reserved[i].end == reg.start {
          ghost var wide := Region(before[i].start, reg.end);
          WidenedAbove(before, i, reg);
          reserved[i] := reserved[i].(end := reg.end);
          assert Resv() == before[i := wide];
          MergeRegions();
          return true;
        }
        if reserved[i].start > reg.end {
          NotTouched(before, i, reg);
          if resvCount + 1 >= reserved.Length {
            return false;
          }
          InsertAt(i, reg);
          InsertedCovers(before, i, reg);
          InsertedSeparated(before, i, reg);
          return true;
        }
        i := i + 1;
      }
      NotTouched(before, i, reg);
      if i + 1 == reserved.Length {
        return false;
      }
      AppendedInserted(before, reg);
      reserved[i] := reg;
      resvCount := resvCount + 1;
      assert Resv() == before + [reg];
      InsertedCovers(before, i, reg);
      InsertedSeparated(before, i, reg);
      return true;
    }
  }

  /** Exactly the regions that touch none are refused when one entry of the table is left. */
  lemma LastEntryRefused(boot: NdksBoot, reg: Region)
    requires boot.InBounds() && boot.resvCount < boot.reserved.Length
    ensures !boot.Fits(reg)
       <==> !IsRegEmpty(reg) && !Touches(reg, boot.Resv()) && boot.resvCount + 1 == boot.reserved.Length
  {
  }

  /** A table of two entries takes one region; the other entry stays unused. */
  method UnusedEntry() returns (boot: NdksBoot, first: bool, second: bool)
    ensures fresh(boot) && boot.reserved.Length == 2 && boot.Valid()
    ensures boot.Resv() == [Region(0, 1)] && first && !second
  {
    boot := new NdksBoot(2, 1);
    assert boot.Resv() == [];
    first := boot.ReserveRegion(Region(0, 1));
    OnlyOne(boot.Resv(), Region(0, 1));
    second := boot.ReserveRegion(Region(5, 6));
  }

  lemma OnlyOne(rs: seq<Region>, r: Region)
    requires Separated(rs) && r.start < r.end && forall x: int :: Covers(rs, x) <==> Within(r, x)
    ensures rs == [r]
  {
    CoversOne(r);
    SeparatedUnique(rs, [r]);
  }

  ghost predicate Touches(reg: Region, rs: seq<Region>) {
    exists i :: 0 <= i < |rs| && (rs[i].start == reg.end || rs[i].end == reg.start)
  }

  lemma NoneSeparated()
    ensures Separated([])
  {
  }

  lemma FirstSeparated(rs: seq<Region>)
    requires rs != [] && Ordered(rs)
    ensures Separated(rs[..1])
  {
  }

  lemma Extended(rs: seq<Region>, i: nat)
    requires 0 < i < |rs| && Ordered(rs) && Separated(rs[..i]) && rs[i - 1].end != rs[i].start
    ensures Separated(rs[..i + 1])
  {
    forall a, b | 0 <= a < b < i + 1 ensures rs[a].end < rs[b].start {
      if b == i && a < i - 1 {
        assert rs[..i][a].end < rs[..i][i - 1].start;
        assert rs[i - 1].start < rs[i - 1].end <= rs[i].start;
      } else if b < i {
        assert rs[..i][a].end < rs[..i][b].start;
      } else {
        assert rs[i - 1].end <= rs[i].start;
      }
    }
    assert forall a :: 0 <= a < i + 1 ==> rs[..i + 1][a] == rs[a];
  }

  lemma WidenedBelow(rs: seq<Region>, i: nat, reg: Region)
    requires i < |rs| && Separated(rs) && reg.start < reg.end == rs[i].start
    requires forall k :: 0 <= k < i ==> rs[k].end < reg.start
    ensures var widened := rs[i := Region(reg.start, rs[i].end)];
      Ordered(widened) && forall x: int :: Covers(widened, x) <==> Covers(rs, x) || Within(reg, x)
    ensures Touches(reg, rs)
  {
    WidenedCovers(rs, i, Region(reg.start, rs[i].end), reg);
  }

  lemma WidenedAbove(rs: seq<Region>, i: nat, reg: Region)
    requires i < |rs| && Separated(rs) && rs[i].end == reg.start < reg.end && Apart(reg, rs)
    ensures var widened := rs[i := Region(rs[i].start, reg.end)];
      Ordered(widened) && forall x: int :: Covers(widened, x) <==> Covers(rs, x) || Within(reg, x)
    ensures Touches(reg, rs)
  {
    hide Covers;
    WidenedCovers(rs, i, Region(rs[i].start, reg.end), reg);
    forall k | i < k < |rs| ensures reg.end <= rs[k].start {
      assert rs[i].end < rs[k].start < rs[k].end;
    }
  }

  lemma NotTouched(rs: seq<Region>, i: nat, reg: Region)
    requires i <= |rs| && Separated(rs) && reg.start < reg.end
    requires forall k :: 0 <= k < i ==> rs[k].end < reg.start
    requires i < |rs| ==> reg.end < rs[i].start
    ensures !Touches(reg, rs)
  {
    forall k | 0 <= k < |rs| ensures rs[k].start != reg.end && rs[k].end != reg.start {
      assert rs[k].start < rs[k].end;
      if k > i {
        assert rs[i].start < rs[i].end < rs[k].start;
      }
    }
  }

  lemma AppendedInserted(rs: seq<Region>, reg: Region)
    ensures Inserted(rs, |rs|, reg) == rs + [reg]
  {
  }

  lemma InsertedSeparated(rs: seq<Region>, i: nat, reg: Region)
    requires i <= |rs| && Separated(rs) && reg.start < reg.end
    requires forall k :: 0 <= k < i ==> rs[k].end < reg.start
    requires i < |rs| ==> reg.end < rs[i].start
    ensures Separated(Inserted(rs, i, reg))
  {
    var longer := Inserted(rs, i, reg);
    assert forall k :: 0 <= k < |longer| ==> longer[k] == if k < i then rs[k] else if k == i then reg else rs[k - 1];
    forall k | i < k < |rs| ensures reg.end < rs[k].start {
      assert rs[i].start < rs[i].end < rs[k].start;
    }
  }
}
