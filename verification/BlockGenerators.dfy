/**
  The generated constructor of a block, which packs values for all fields at once
  (kernel/tools/bitfield_gen.py, Block.generate).
 */
module BlockGenerators {
  import opened Words
  import opened Bitmaps
  import opened Bitfields

  /** Where the bits of a field stand in a value. */
  function ValueMask(fmt: Format, f: Field): nat
    requires f.size >= 0 && ValueBit(fmt, f) >= 0
  {
    Up(Ones(f.size), ValueBit(fmt, f))
  }

  /** The contribution of one field to its word; a field that fills a word is not masked. */
  function Placed(fmt: Format, f: Field, v: nat): nat
    requires Fits(fmt, f)
  {
    ShiftedDown(if f.size < fmt.base then BitAnd(v, ValueMask(fmt, f)) else v, WriteShift(fmt, f), fmt.base)
  }

  ghost predicate AllFit(fmt: Format, fs: seq<Field>) {
    forall i :: 0 <= i < |fs| ==> Fits(fmt, fs[i])
  }

  /** The k-th word: the contributions of its fields, put together with or. */
  function NewWord(fmt: Format, fs: seq<Field>, vs: seq<nat>, k: int): nat
    requires AllFit(fmt, fs) && |vs| == |fs|
    decreases |fs|
  {
    if fs == [] then 0
    else
      BitOr(if fs[0].offset / fmt.base == k then Placed(fmt, fs[0], vs[0]) else 0, NewWord(fmt, fs[1..], vs[1..], k))
  }

  function NewBlock(fmt: Format, fs: seq<Field>, vs: seq<nat>, n: nat): (words: seq<nat>)
    requires AllFit(fmt, fs) && |vs| == |fs|
    ensures |words| == n
  {
    seq(n, k requires 0 <= k < n => NewWord(fmt, fs, vs, k))
  }

  predicate InField(fmt: Format, f: Field, j: nat)
    requires fmt.Valid()
  {
    WordBit(fmt, f) <= j < WordBit(fmt, f) + f.size
  }

  lemma ValueMaskAt(fmt: Format, f: Field, i: nat)
    requires Fits(fmt, f)
    ensures TestBit(ValueMask(fmt, f), i) <==> ValueBit(fmt, f) <= i < ValueBit(fmt, f) + f.size
  {
    TimesPow2At(Ones(f.size), ValueBit(fmt, f), i);
    if i >= ValueBit(fmt, f) {
      OnesAt(f.size, i - ValueBit(fmt, f));
    }
  }

  /** A masked contribution stays inside the field. */
  lemma PlacedAt(fmt: Format, f: Field, v: nat, j: nat)
    requires Fits(fmt, f) && (f.size < fmt.base || Representable(fmt, f, v))
    ensures InField(fmt, f, j) ==> j + WriteShift(fmt, f) >= 0
    ensures TestBit(Placed(fmt, f, v), j) <==> InField(fmt, f, j) && TestBit(v, j + WriteShift(fmt, f))
  {
    var i := j + WriteShift(fmt, f);
    var masked := if f.size < fmt.base then BitAnd(v, ValueMask(fmt, f)) else v;
    ShiftedDownAt(masked, WriteShift(fmt, f), fmt.base, j);
    if i >= 0 && f.size < fmt.base {
      AndAt(v, ValueMask(fmt, f), i);
      ValueMaskAt(fmt, f, i);
    }
  }

  /** Fields of one word that do not overlap have no bit of the word in common. */
  lemma ApartInWord(fmt: Format, f: Field, g: Field, j: nat)
    requires Fits(fmt, f) && Fits(fmt, g) && Disjoint(f, g) && f.offset / fmt.base == g.offset / fmt.base
    requires InField(fmt, f, j)
    ensures !InField(fmt, g, j) && g.size < fmt.base
  {
    DivMod(f.offset, fmt.base);
    DivMod(g.offset, fmt.base);
  }

  /** Fields that do not overlap `f` leave its bits clear. */
  lemma {:induction false} OthersClear(fmt: Format, fs: seq<Field>, vs: seq<nat>, f: Field, j: nat)
    requires AllFit(fmt, fs) && |vs| == |fs| && Fits(fmt, f) && InField(fmt, f, j)
    requires forall i :: 0 <= i < |fs| ==> Disjoint(f, fs[i])
    ensures !TestBit(NewWord(fmt, fs, vs, f.offset / fmt.base), j)
    decreases |fs|
  {
    var k := f.offset / fmt.base;
    if fs == [] {
      NoBits(j);
    } else {
      OthersClear(fmt, fs[1..], vs[1..], f, j);
      var here := if fs[0].offset / fmt.base == k then Placed(fmt, fs[0], vs[0]) else 0;
      OrAt(here, NewWord(fmt, fs[1..], vs[1..], k), j);
      if fs[0].offset / fmt.base == k {
        ApartInWord(fmt, f, fs[0], j);
        PlacedAt(fmt, fs[0], vs[0], j);
      } else {
        NoBits(j);
      }
    }
  }

  ghost predicate AllDisjoint(fs: seq<Field>) {
    forall i, j :: 0 <= i < |fs| && 0 <= j < |fs| && i != j ==> Disjoint(fs[i], fs[j])
  }

  /** In its field's bits the word holds the field's value. */
  lemma {:induction false} NewWordAt(fmt: Format, fs: seq<Field>, vs: seq<nat>, i: nat, j: nat)
    requires AllFit(fmt, fs) && AllDisjoint(fs) && |vs| == |fs| && i < |fs|
    requires Representable(fmt, fs[i], vs[i]) && InField(fmt, fs[i], j)
    ensures j + WriteShift(fmt, fs[i]) >= 0
    ensures TestBit(NewWord(fmt, fs, vs, fs[i].offset / fmt.base), j) <==> TestBit(vs[i], j + WriteShift(fmt, fs[i]))
    decreases |fs|
  {
    hide Representable, Disjoint, Placed;
    var k := fs[i].offset / fmt.base;
    var here := if fs[0].offset / fmt.base == k then Placed(fmt, fs[0], vs[0]) else 0;
    OrAt(here, NewWord(fmt, fs[1..], vs[1..], k), j);
    if i == 0 {
      PlacedAt(fmt, fs[0], vs[0], j);
      OthersClear(fmt, fs[1..], vs[1..], fs[0], j);
    } else {
      NewWordAt(fmt, fs[1..], vs[1..], i - 1, j);
      NoBits(j);
      if fs[0].offset / fmt.base == k {
        ApartInWord(fmt, fs[i], fs[0], j);
        PlacedAt(fmt, fs[0], vs[0], j);
      }
    }
  }

  lemma NewWordGet(fmt: Format, fs: seq<Field>, vs: seq<nat>, i: nat)
    requires AllFit(fmt, fs) && AllDisjoint(fs) && |vs| == |fs| && i < |fs| && Representable(fmt, fs[i], vs[i])
    ensures Get(fmt, fs[i], NewWord(fmt, fs, vs, fs[i].offset / fmt.base)) == vs[i]
  {
    var f, v := fs[i], vs[i];
    var word := NewWord(fmt, fs, vs, f.offset / fmt.base);
    forall b: nat | ValueBit(fmt, f) <= b < ValueBit(fmt, f) + f.size
      ensures FieldBit(fmt, f, word, b) <==> TestBit(v, b)
    {
      NewWordAt(fmt, fs, vs, i, b - WriteShift(fmt, f));
    }
    forall b: nat ensures TestBit(Get(fmt, f, word), b) <==> TestBit(v, b) {
      GetAt(fmt, f, word, b);
    }
    hide Get, NewWord;
    SameBits(Get(fmt, f, word), v);
  }

  /** The assertion of the generated constructor for one field; there is none for a field that fills a word. */
  predicate NewAccepts(fmt: Format, f: Field, v: nat)
    requires Fits(fmt, f)
  {
    var signed := f.high && fmt.signExtend && TestBit(v, fmt.baseBits - 1);
    f.size == fmt.base || AndNot(v, ValueMask(fmt, f)) == if signed then HighBits(fmt) else 0
  }

  /** Unlike the writer, the constructor accepts exactly the values that the field can hold. */
  lemma NewAcceptsIff(fmt: Format, f: Field, v: nat)
    requires Fits(fmt, f) && v < Pow2(fmt.base)
    ensures NewAccepts(fmt, f, v) <==> Representable(fmt, f, v)
  {
    var lhs := AndNot(v, ValueMask(fmt, f));
    var rhs := if f.high && fmt.signExtend && TestBit(v, fmt.baseBits - 1) then HighBits(fmt) else 0;
    forall i: nat
      ensures TestBit(lhs, i) <==> TestBit(v, i) && !InValue(fmt, f, i)
      ensures TestBit(rhs, i) <==> Extension(fmt, f, v, i)
      ensures i >= fmt.base ==> !TestBit(v, i)
    {
      AndNotAt(v, ValueMask(fmt, f), i);
      ValueMaskAt(fmt, f, i);
      HighBitsAt(fmt, i);
      NoBits(i);
      if i >= fmt.base {
        BeyondWord(v, fmt.base, i);
      }
    }
    hide ValueMask, HighBits;
    if Representable(fmt, f, v) {
      SameBits(lhs, rhs);
    }
  }

  /**
    Main result: in an accepted block every field is read back as the value given to the
    constructor, whatever the other fields are given, if its assertion lets the value through.
   */
  lemma NewThenGet(fmt: Format, ds: seq<Decl>, vs: seq<nat>, i: nat)
    requires fmt.Valid() && WellFormed(ds, fmt.base) && |vs| == |FieldsOf(ds)| && i < |FieldsOf(ds)|
    requires forall k :: 0 <= k < |FieldsOf(ds)| && FieldsOf(ds)[k].high ==> FieldsOf(ds)[k].size <= fmt.baseBits
    requires vs[i] < Pow2(fmt.base)
    ensures var fs, n := FieldsOf(ds), TotalSize(ds) / fmt.base;
      && AllFit(fmt, fs) && n >= 0 && fs[i].size > 0 && 0 <= fs[i].offset / fmt.base < n
      && (NewAccepts(fmt, fs[i], vs[i]) ==> GetField(fmt, fs[i], NewBlock(fmt, fs, vs, n)) == vs[i])
  {
    var fs := FieldsOf(ds);
    FieldsLaidOut(ds);
    forall k | 0 <= k < |fs| ensures Fits(fmt, fs[k]) {
      AcceptedBlock(ds, fmt.base, k, i);
    }
    forall k, l | 0 <= k < |fs| && 0 <= l < |fs| && k != l ensures Disjoint(fs[k], fs[l]) {
      AcceptedBlock(ds, fmt.base, k, l);
    }
    AcceptedBlock(ds, fmt.base, i, i);
    hide WellFormed, FieldsOf, Representable, Get, NewWord, NewAccepts;
    NewAcceptsIff(fmt, fs[i], vs[i]);
    if Representable(fmt, fs[i], vs[i]) {
      NewWordGet(fmt, fs, vs, i);
    }
  }
}
