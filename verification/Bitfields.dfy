/**
  Fields packed into words, as the bitfield generator lays them out and as the code it generates
  reads and writes them (kernel/tools/bitfield_gen.py).
 */
module Bitfields {
  import opened Words
  import opened Bitmaps

  // ---------------------------------------------------------------- words as bits

  function BitAnd(x: nat, y: nat): nat {
    if x == 0 || y == 0 then 0
    else 2 * BitAnd(x / 2, y / 2) + (if x % 2 == 1 && y % 2 == 1 then 1 else 0)
  }

  /** `x & ~y`. */
  function AndNot(x: nat, y: nat): nat {
    if x == 0 then 0 else 2 * AndNot(x / 2, y / 2) + (if x % 2 == 1 && y % 2 == 0 then 1 else 0)
  }

  lemma {:induction false} AndAt(x: nat, y: nat, i: nat)
    ensures TestBit(BitAnd(x, y), i) <==> TestBit(x, i) && TestBit(y, i)
  {
    NoBits(i);
    if x > 0 && y > 0 {
      assert BitAnd(x, y) / 2 == BitAnd(x / 2, y / 2);
      if i > 0 {
        AndAt(x / 2, y / 2, i - 1);
      }
    }
  }

  lemma {:induction false} AndNotAt(x: nat, y: nat, i: nat)
    ensures TestBit(AndNot(x, y), i) <==> TestBit(x, i) && !TestBit(y, i)
  {
    NoBits(i);
    if x > 0 {
      assert AndNot(x, y) / 2 == AndNot(x / 2, y / 2);
      if i > 0 {
        AndNotAt(x / 2, y / 2, i - 1);
      }
    }
  }

  lemma {:induction false} OrAt(x: nat, y: nat, i: nat)
    ensures TestBit(BitOr(x, y), i) <==> TestBit(x, i) || TestBit(y, i)
  {
    NoBits(i);
    if x > 0 && y > 0 {
      assert BitOr(x, y) / 2 == BitOr(x / 2, y / 2);
      if i > 0 {
        OrAt(x / 2, y / 2, i - 1);
      }
    }
  }

  lemma {:induction false} ShrAt(x: nat, k: nat, i: nat)
    ensures TestBit(Shr(x, k), i) <==> TestBit(x, i + k)
  {
    if k > 0 {
      Split(x, 2, Pow2(k - 1));
      assert Shr(x, k) == Shr(x / 2, k - 1);
      ShrAt(x / 2, k - 1, i);
    }
  }

  lemma {:induction false} TimesPow2At(x: nat, k: nat, i: nat)
    ensures TestBit(x * Pow2(k), i) <==> i >= k && TestBit(x, i - k)
  {
    if k > 0 {
      var y := x * Pow2(k - 1);
      assert x * Pow2(k) == 2 * y;
      if i > 0 {
        TimesPow2At(x, k - 1, i - 1);
      }
    }
  }

  lemma {:induction false} LowAt(x: nat, n: nat, i: nat)
    ensures TestBit(Low(x, n), i) <==> i < n && TestBit(x, i)
  {
    if n == 0 {
      NoBits(i);
    } else {
      LowStep(x, n);
      if i > 0 {
        LowAt(x / 2, n - 1, i - 1);
      }
    }
  }

  lemma LowStep(x: nat, n: nat)
    requires n > 0
    ensures Low(x, n) % 2 == x % 2 && Low(x, n) / 2 == Low(x / 2, n - 1)
  {
    Split(x, 2, Pow2(n - 1));
  }

  /** A number is its bits. */
  lemma {:induction false} SameBits(x: nat, y: nat)
    requires forall i: nat :: TestBit(x, i) <==> TestBit(y, i)
    ensures x == y
    decreases x + y
  {
    assert TestBit(x, 0) <==> TestBit(y, 0);
    if x > 0 || y > 0 {
      forall i: nat ensures TestBit(x / 2, i) <==> TestBit(y / 2, i) {
        assert TestBit(x, i + 1) <==> TestBit(y, i + 1);
      }
      SameBits(x / 2, y / 2);
    }
  }

  // ---------------------------------------------------------------- reading and writing a field

  /** Words of `base` bits, of which addresses use `baseBits`, sign-extended or not. */
  datatype Format = Format(base: nat, baseBits: nat, signExtend: bool) {
    predicate Valid() {
      0 < baseBits <= base
    }
  }

  /** A field: its offset from the least significant bit of the block, its size, and whether it holds high bits. */
  datatype Field = Field(offset: int, size: int, high: bool)

  /** `x` shifted by the generated shift: to the right if it is positive. */
  function ShiftedDown(x: nat, shift: int, base: nat): nat {
    if shift >= 0 then Shr(x, shift) else Shl(x, -shift, base)
  }

  lemma ShiftedDownAt(x: nat, shift: int, base: nat, i: nat)
    ensures TestBit(ShiftedDown(x, shift, base), i) <==>
            if shift >= 0 then TestBit(x, i + shift) else i < base && i >= -shift && TestBit(x, i + shift)
  {
    if shift >= 0 {
      ShrAt(x, shift, i);
    } else {
      LowAt(x * Pow2(-shift), base, i);
      TimesPow2At(x, -shift, i);
    }
  }

  /** How far up in a value the bits of the field start: at 0, or, for high fields, below `baseBits`. */
  function ValueBit(fmt: Format, f: Field): int {
    if f.high then fmt.baseBits - f.size else 0
  }

  function WordBit(fmt: Format, f: Field): nat
    requires fmt.base > 0
  {
    f.offset % fmt.base
  }

  /** How far the field's bits move down from the value to the word. */
  function WriteShift(fmt: Format, f: Field): int
    requires fmt.base > 0
  {
    ValueBit(fmt, f) - WordBit(fmt, f)
  }

  function Ones(n: nat): nat {
    Pow2(n) - 1
  }

  function Up(x: nat, k: nat): nat {
    NotMore(0, x, Pow2(k));
    x * Pow2(k)
  }

  function Mask(fmt: Format, f: Field): nat
    requires fmt.base > 0 && f.size >= 0
  {
    Up(Ones(f.size), WordBit(fmt, f))
  }

  function HighBits(fmt: Format): nat
    requires fmt.Valid()
  {
    Up(Ones(fmt.base - fmt.baseBits), fmt.baseBits)
  }

  /** The generated reader of a field. */
  function Get(fmt: Format, f: Field, word: nat): nat
    requires fmt.Valid() && f.size >= 0
  {
    var ret := ShiftedDown(BitAnd(word, Mask(fmt, f)), -WriteShift(fmt, f), fmt.base);
    if f.high && fmt.signExtend && TestBit(ret, fmt.baseBits - 1) then BitOr(ret, HighBits(fmt)) else ret
  }

  /** The generated writer of a field. */
  function Set(fmt: Format, f: Field, word: nat, v: nat): nat
    requires fmt.Valid() && f.size >= 0
  {
    BitOr(AndNot(word, Mask(fmt, f)), BitAnd(ShiftedDown(v, WriteShift(fmt, f), fmt.base), Mask(fmt, f)))
  }

  /** What the generator demands: the field lies within a word, and a high field within the address bits. */
  predicate Fits(fmt: Format, f: Field) {
    && fmt.Valid() && f.size > 0 && f.offset >= 0
    && WordBit(fmt, f) + f.size <= fmt.base
    && (f.high ==> f.size <= fmt.baseBits)
  }

  lemma OnesAt(n: nat, i: nat)
    ensures TestBit(Pow2(n) - 1, i) <==> i < n
  {
    if n == 0 {
      NoBits(i);
    } else if i > 0 {
      assert (Pow2(n) - 1) / 2 == Pow2(n - 1) - 1;
      OnesAt(n - 1, i - 1);
    }
  }

  lemma MaskAt(fmt: Format, f: Field, i: nat)
    requires fmt.base > 0 && f.size >= 0
    ensures TestBit(Mask(fmt, f), i) <==> WordBit(fmt, f) <= i < WordBit(fmt, f) + f.size
  {
    TimesPow2At(Ones(f.size), WordBit(fmt, f), i);
    if i >= WordBit(fmt, f) {
      OnesAt(f.size, i - WordBit(fmt, f));
    }
  }

  lemma HighBitsAt(fmt: Format, i: nat)
    requires fmt.Valid()
    ensures TestBit(HighBits(fmt), i) <==> fmt.baseBits <= i < fmt.base
  {
    TimesPow2At(Ones(fmt.base - fmt.baseBits), fmt.baseBits, i);
    if i >= fmt.baseBits {
      OnesAt(fmt.base - fmt.baseBits, i - fmt.baseBits);
    }
  }

  /** What has been written: the field's bits of the value, all other bits of the word as before. */
  lemma SetAt(fmt: Format, f: Field, word: nat, v: nat, j: nat)
    requires Fits(fmt, f)
    ensures var b := WordBit(fmt, f);
      TestBit(Set(fmt, f, word, v), j) <==>
        if b <= j < b + f.size then TestBit(v, j + WriteShift(fmt, f)) else TestBit(word, j)
  {
    var moved := ShiftedDown(v, WriteShift(fmt, f), fmt.base);
    OrAt(AndNot(word, Mask(fmt, f)), BitAnd(moved, Mask(fmt, f)), j);
    AndNotAt(word, Mask(fmt, f), j);
    AndAt(moved, Mask(fmt, f), j);
    MaskAt(fmt, f, j);
    ShiftedDownAt(v, WriteShift(fmt, f), fmt.base, j);
  }

  /** The bits of a field, without the sign extension. */
  predicate FieldBit(fmt: Format, f: Field, word: nat, i: nat)
    requires fmt.base > 0
  {
    && ValueBit(fmt, f) <= i < ValueBit(fmt, f) + f.size
    && i - WriteShift(fmt, f) >= 0 && TestBit(word, i - WriteShift(fmt, f))
  }

  /** What is read: the field's bits, and above the address bits copies of the highest of them. */
  lemma GetAt(fmt: Format, f: Field, word: nat, i: nat)
    requires Fits(fmt, f)
    ensures TestBit(Get(fmt, f, word), i) <==>
      || FieldBit(fmt, f, word, i)
      || (f.high && fmt.signExtend && fmt.baseBits <= i < fmt.base && FieldBit(fmt, f, word, fmt.baseBits - 1))
  {
    var ret := ShiftedDown(BitAnd(word, Mask(fmt, f)), -WriteShift(fmt, f), fmt.base);
    RetAt(fmt, f, word, i);
    RetAt(fmt, f, word, fmt.baseBits - 1);
    OrAt(ret, HighBits(fmt), i);
    HighBitsAt(fmt, i);
  }

  lemma RetAt(fmt: Format, f: Field, word: nat, i: nat)
    requires Fits(fmt, f)
    ensures TestBit(ShiftedDown(BitAnd(word, Mask(fmt, f)), -WriteShift(fmt, f), fmt.base), i)
        <==> FieldBit(fmt, f, word, i)
  {
    var masked := BitAnd(word, Mask(fmt, f));
    ShiftedDownAt(masked, -WriteShift(fmt, f), fmt.base, i);
    var j := i - WriteShift(fmt, f);
    if j >= 0 {
      AndAt(word, Mask(fmt, f), j);
      MaskAt(fmt, f, j);
    }
  }

  /** Reading back what was written gives the value's bits in the field, sign-extended if it is a high field. */
  lemma GetSetAt(fmt: Format, f: Field, word: nat, v: nat, i: nat)
    requires Fits(fmt, f)
    ensures TestBit(Get(fmt, f, Set(fmt, f, word, v)), i) <==>
      || (ValueBit(fmt, f) <= i < ValueBit(fmt, f) + f.size && TestBit(v, i))
      || (f.high && fmt.signExtend && fmt.baseBits <= i < fmt.base && TestBit(v, fmt.baseBits - 1))
  {
    GetAt(fmt, f, Set(fmt, f, word, v), i);
    var j, k := i - WriteShift(fmt, f), fmt.baseBits - 1 - WriteShift(fmt, f);
    if j >= 0 {
      SetAt(fmt, f, word, v, j);
    }
    if k >= 0 {
      SetAt(fmt, f, word, v, k);
    }
  }

  /** A bit above the address bits that a sign-extended high field copies from its highest bit. */
  predicate Extension(fmt: Format, f: Field, v: nat, i: int)
    requires fmt.Valid()
  {
    f.high && fmt.signExtend && fmt.baseBits <= i < fmt.base && TestBit(v, fmt.baseBits - 1)
  }

  predicate InValue(fmt: Format, f: Field, i: int) {
    ValueBit(fmt, f) <= i < ValueBit(fmt, f) + f.size
  }

  /** The field can hold the value: no bits outside the field but a sign extension. */
  ghost predicate Representable(fmt: Format, f: Field, v: nat)
    requires fmt.Valid()
  {
    forall i: nat :: !InValue(fmt, f, i) ==> (TestBit(v, i) <==> Extension(fmt, f, v, i))
  }

  /** A value is read back unchanged exactly if the field can hold it. */
  lemma RoundTrip(fmt: Format, f: Field, word: nat, v: nat)
    requires Fits(fmt, f)
    ensures Get(fmt, f, Set(fmt, f, word, v)) == v <==> Representable(fmt, f, v)
  {
    var back := Get(fmt, f, Set(fmt, f, word, v));
    forall i: nat
      ensures TestBit(back, i) <==> (InValue(fmt, f, i) && TestBit(v, i)) || Extension(fmt, f, v, i)
    {
      GetSetAt(fmt, f, word, v, i);
    }
    hide Get, Set;
    if Representable(fmt, f, v) {
      SameBits(back, v);
    }
  }

  // ---------------------------------------------------------------- what the writer asserts

  function Complement(fmt: Format, f: Field): nat
    requires fmt.base > 0 && f.size >= 0
  {
    AndNot(Ones(fmt.base), Mask(fmt, f))
  }

  /** The bits of a value at which the generated assertion looks. */
  function CheckedMask(fmt: Format, f: Field): nat
    requires fmt.Valid() && f.size >= 0
  {
    BitOr(ShiftedDown(Complement(fmt, f), -WriteShift(fmt, f), fmt.base), ExtensionBits(fmt, f))
  }

  function ExtensionBits(fmt: Format, f: Field): nat
    requires fmt.Valid()
  {
    if f.high && fmt.signExtend then HighBits(fmt) else 0
  }

  /** The assertion of the generated writer, as it is generated. */
  predicate WriterAccepts(fmt: Format, f: Field, v: nat)
    requires fmt.Valid() && f.size >= 0
  {
    BitAnd(CheckedMask(fmt, f), v)
    == if f.high && fmt.signExtend && TestBit(v, fmt.baseBits - 1) then HighBits(fmt) else 0
  }

  /** The shift moves the other bits of the word past the ends of the value; what falls off is not looked at. */
  predicate Checked(fmt: Format, f: Field, i: int)
    requires fmt.Valid()
  {
    && 0 <= i < fmt.base && !InValue(fmt, f, i)
    && (0 <= i - WriteShift(fmt, f) < fmt.base || (f.high && fmt.signExtend && i >= fmt.baseBits))
  }

  lemma ComplementAt(fmt: Format, f: Field, j: nat)
    requires Fits(fmt, f)
    ensures TestBit(Complement(fmt, f), j) <==> j < fmt.base && !(WordBit(fmt, f) <= j < WordBit(fmt, f) + f.size)
  {
    AndNotAt(Ones(fmt.base), Mask(fmt, f), j);
    OnesAt(fmt.base, j);
    MaskAt(fmt, f, j);
  }

  lemma CheckedMaskAt(fmt: Format, f: Field, i: nat)
    requires Fits(fmt, f) && i < fmt.base
    ensures TestBit(CheckedMask(fmt, f), i) <==> Checked(fmt, f, i)
  {
    var shift := -WriteShift(fmt, f);
    var shifted := ShiftedDown(Complement(fmt, f), shift, fmt.base);
    OrAt(shifted, ExtensionBits(fmt, f), i);
    HighBitsAt(fmt, i);
    NoBits(i);
    ShiftedDownAt(Complement(fmt, f), shift, fmt.base, i);
    if i + shift >= 0 {
      ComplementAt(fmt, f, i + shift);
    }
  }

  /** The assertion holds exactly if the bits it looks at are those of the sign extension. */
  lemma WriterAcceptsIff(fmt: Format, f: Field, v: nat)
    requires Fits(fmt, f) && v < Pow2(fmt.base)
    ensures WriterAccepts(fmt, f, v)
       <==> forall i: nat :: Checked(fmt, f, i) ==> (TestBit(v, i) <==> Extension(fmt, f, v, i))
  {
    var lhs := BitAnd(CheckedMask(fmt, f), v);
    var rhs := if f.high && fmt.signExtend && TestBit(v, fmt.baseBits - 1) then HighBits(fmt) else 0;
    forall i: nat
      ensures TestBit(lhs, i) <==> Checked(fmt, f, i) && TestBit(v, i)
      ensures TestBit(rhs, i) <==> Extension(fmt, f, v, i)
      ensures Extension(fmt, f, v, i) ==> Checked(fmt, f, i)
    {
      AndAt(CheckedMask(fmt, f), v, i);
      if i < fmt.base {
        CheckedMaskAt(fmt, f, i);
      } else {
        BeyondWord(v, fmt.base, i);
      }
      HighBitsAt(fmt, i);
      NoBits(i);
    }
    hide CheckedMask, HighBits;
    if forall i: nat :: Checked(fmt, f, i) ==> (TestBit(v, i) <==> Extension(fmt, f, v, i)) {
      SameBits(lhs, rhs);
    }
  }

  lemma BeyondWord(v: nat, n: nat, i: nat)
    requires v < Pow2(n) && i >= n
    ensures !TestBit(v, i)
  {
    LowSmall(v, n);
    LowAt(v, n, i);
  }

  /**
    Main result: of the values that the writer's assertion lets through, exactly those are read back
    unchanged that have no bit where the assertion does not look.
   */
  lemma AcceptedRoundTrip(fmt: Format, f: Field, word: nat, v: nat)
    requires Fits(fmt, f) && v < Pow2(fmt.base) && WriterAccepts(fmt, f, v)
    ensures Get(fmt, f, Set(fmt, f, word, v)) == v
       <==> forall i: nat :: !InValue(fmt, f, i) && !Checked(fmt, f, i) ==> !TestBit(v, i)
  {
    RoundTrip(fmt, f, word, v);
    WriterAcceptsIff(fmt, f, v);
    hide Get, Set, WriterAccepts;
    forall i: nat | !InValue(fmt, f, i) && !Checked(fmt, f, i)
      ensures !Extension(fmt, f, v, i)
    {
    }
  }

  /** Where nothing is shifted the assertion looks at every other bit and lets exactly the right values through. */
  lemma BottomField(fmt: Format, f: Field, word: nat, v: nat)
    requires Fits(fmt, f) && v < Pow2(fmt.base) && WriteShift(fmt, f) == 0
    ensures WriterAccepts(fmt, f, v) <==> Get(fmt, f, Set(fmt, f, word, v)) == v
  {
    RoundTrip(fmt, f, word, v);
    WriterAcceptsIff(fmt, f, v);
    hide Get, Set, WriterAccepts;
    forall i: nat | i >= fmt.base ensures !TestBit(v, i) {
      BeyondWord(v, fmt.base, i);
    }
  }

  /** A field of four bits at the top of a word: the writer accepts 16, and 0 is read back. */
  lemma TopFieldLoses(word: nat)
    ensures var fmt, f := Format(64, 64, false), Field(60, 4, false);
      && Fits(fmt, f) && 16 < Pow2(64) && WriterAccepts(fmt, f, 16)
      && Get(fmt, f, Set(fmt, f, word, 16)) == 0
  {
    var fmt, f := Format(64, 64, false), Field(60, 4, false);
    BelowPow2(64);
    assert Fits(fmt, f);
    WriterAcceptsIff(fmt, f, 16);
    forall i: nat ensures !TestBit(Get(fmt, f, Set(fmt, f, word, 16)), i) && !TestBit(0, i) {
      GetSetAt(fmt, f, word, 16, i);
      SixteenAt(i);
      NoBits(i);
    }
    SameBits(Get(fmt, f, Set(fmt, f, word, 16)), 0);
  }

  lemma SixteenAt(i: nat)
    ensures i < 4 ==> !TestBit(16, i)
  {
    assert !TestBit(16, 0) && !TestBit(8, 0) && !TestBit(4, 0) && !TestBit(2, 0);
  }

  /** Fields of a block that do not overlap. */
  predicate Disjoint(f: Field, g: Field) {
    f.offset + f.size <= g.offset || g.offset + g.size <= f.offset
  }

  /** Writing a field leaves every other field of the word as it is. */
  lemma OtherField(fmt: Format, f: Field, g: Field, word: nat, v: nat)
    requires Fits(fmt, f) && Fits(fmt, g) && Disjoint(f, g) && f.offset / fmt.base == g.offset / fmt.base
    ensures Get(fmt, g, Set(fmt, f, word, v)) == Get(fmt, g, word)
  {
    DivMod(f.offset, fmt.base);
    DivMod(g.offset, fmt.base);
    var m := Mask(fmt, g);
    forall i: nat ensures TestBit(BitAnd(Set(fmt, f, word, v), m), i) <==> TestBit(BitAnd(word, m), i) {
      AndAt(Set(fmt, f, word, v), m, i);
      AndAt(word, m, i);
      MaskAt(fmt, g, i);
      SetAt(fmt, f, word, v, i);
    }
    SameBits(BitAnd(Set(fmt, f, word, v), m), BitAnd(word, m));
  }

  // ---------------------------------------------------------------- blocks

  function GetField(fmt: Format, f: Field, words: seq<nat>): nat
    requires fmt.Valid() && f.size >= 0 && 0 <= f.offset / fmt.base < |words|
  {
    Get(fmt, f, words[f.offset / fmt.base])
  }

  function SetField(fmt: Format, f: Field, words: seq<nat>, v: nat): (r: seq<nat>)
    requires fmt.Valid() && f.size >= 0 && 0 <= f.offset / fmt.base < |words|
    ensures |r| == |words|
  {
    var index := f.offset / fmt.base;
    words[index := Set(fmt, f, words[index], v)]
  }

  /** A declared field or, without a name, padding. */
  datatype Decl = Decl(named: bool, size: int, high: bool)

  datatype Layout = Rejected | Accepted(fields: seq<Field>, words: int)

  function TotalSize(ds: seq<Decl>): int {
    if ds == [] then 0 else ds[0].size + TotalSize(ds[1..])
  }

  /** Each field lies above everything that is declared after it. */
  function FieldsOf(ds: seq<Decl>): seq<Field> {
    if ds == [] then []
    else
      (if ds[0].named then [Field(TotalSize(ds[1..]), ds[0].size, ds[0].high)] else []) + FieldsOf(ds[1..])
  }

  /** What is demanded of a block: fields of positive size within a word, padding, whole words. */
  predicate WellFormed(ds: seq<Decl>, base: nat)
    requires base > 0
  {
    && (forall i :: 0 <= i < |ds| ==> if ds[i].named then ds[i].size > 0 else ds[i].size >= 0)
    && TotalSize(ds) % base == 0
    && (forall i :: 0 <= i < |FieldsOf(ds)| ==> InOneWord(FieldsOf(ds)[i], base))
  }

  predicate InOneWord(f: Field, base: nat)
    requires base > 0
  {
    f.offset / base == (f.offset + f.size - 1) / base
  }

  /** The fields of a block from the most significant, laid out from `offset` downwards. */
  ghost predicate LaidOut(fs: seq<Field>, offset: int) {
    if fs == [] then true
    else fs[0].size >= 0 && fs[0].offset + fs[0].size <= offset && LaidOut(fs[1..], fs[0].offset)
  }

  /** The fields of a well-formed block are laid out one below the other, inside the block. */
  lemma {:induction false} FieldsLaidOut(ds: seq<Decl>)
    requires forall i :: 0 <= i < |ds| ==> if ds[i].named then ds[i].size > 0 else ds[i].size >= 0
    ensures LaidOut(FieldsOf(ds), TotalSize(ds)) && TotalSize(ds) >= 0
    ensures forall i :: 0 <= i < |FieldsOf(ds)| ==> FieldsOf(ds)[i].size > 0 && FieldsOf(ds)[i].offset >= 0
  {
    if ds != [] {
      FieldsLaidOut(ds[1..]);
      var rest := FieldsOf(ds[1..]);
      if ds[0].named {
        assert FieldsOf(ds)[1..] == rest;
      } else {
        assert FieldsOf(ds) == rest;
        LaidOutHigher(rest, TotalSize(ds[1..]), TotalSize(ds));
      }
    }
  }

  lemma LaidOutHigher(fs: seq<Field>, offset: int, higher: int)
    requires LaidOut(fs, offset) && offset <= higher
    ensures LaidOut(fs, higher)
  {
  }

  lemma {:induction false} LaidOutBelow(fs: seq<Field>, offset: int, i: nat)
    requires LaidOut(fs, offset) && i < |fs|
    ensures fs[i].offset + fs[i].size <= offset
  {
    if i > 0 {
      LaidOutBelow(fs[1..], fs[0].offset, i - 1);
    }
  }

  /** Fields that are laid out one below the other do not overlap. */
  lemma {:induction false} LaidOutDisjoint(fs: seq<Field>, offset: int, i: nat, j: nat)
    requires LaidOut(fs, offset) && i < j < |fs|
    ensures Disjoint(fs[i], fs[j])
  {
    if i > 0 {
      LaidOutDisjoint(fs[1..], fs[0].offset, i - 1, j - 1);
    } else {
      LaidOutBelow(fs[1..], fs[0].offset, j - 1);
    }
  }

  /**
    Lays the fields of a block out and rejects exactly the ill-formed blocks: sizes that are not
    positive, a total that is not a whole number of words, fields that cross a word boundary.
   */
  method Checks(ds: seq<Decl>, base: nat) returns (r: Layout)
    requires base > 0
    ensures r == if WellFormed(ds, base) then Accepted(FieldsOf(ds), TotalSize(ds) / base) else Rejected
  {
    var size, k := 0, 0;
    while k < |ds|
      invariant 0 <= k <= |ds| && size + TotalSize(ds[k..]) == TotalSize(ds)
    {
      assert ds[k..][1..] == ds[k + 1..];
      size := size + ds[k].size;
      k := k + 1;
    }
    assert size == TotalSize(ds);
    var fields: seq<Field> := [];
    var offset := size;
    k := 0;
    while k < |ds|
      invariant 0 <= k <= |ds| && offset == TotalSize(ds[k..]) && fields + FieldsOf(ds[k..]) == FieldsOf(ds)
      invariant forall i :: 0 <= i < k ==> if ds[i].named then ds[i].size > 0 else ds[i].size >= 0
    {
      assert ds[k..][1..] == ds[k + 1..];
      if ds[k].named {
        if ds[k].size <= 0 {
          return Rejected;
        }
      } else if ds[k].size < 0 {
        return Rejected;
      }
      offset := offset - ds[k].size;
      if ds[k].named {
        fields := fields + [Field(offset, ds[k].size, ds[k].high)];
      }
      k := k + 1;
    }
    assert fields == FieldsOf(ds);
    if size % base != 0 {
      return Rejected;
    }
    k := 0;
    while k < |fields|
      invariant 0 <= k <= |fields| && forall i :: 0 <= i < k ==> InOneWord(fields[i], base)
    {
      if fields[k].offset / base != (fields[k].offset + fields[k].size - 1) / base {
        assert !InOneWord(fields[k], base);
        return Rejected;
      }
      k := k + 1;
    }
    return Accepted(fields, size / base);
  }

  /** The order in which a block shows its fields, given by name. */
  datatype Visible = Declared | Listed(order: seq<string>)

  datatype Shown = Shown(order: seq<string>) | BadOrder

  ghost predicate NoRepeats(names: seq<string>) {
    forall i, j :: 0 <= i < j < |names| ==> names[i] != names[j]
  }

  /** A list of fields is accepted exactly if it names every field of the block once and nothing else. */
  method VisibleOrder(names: seq<string>, visible: Visible) returns (r: Shown)
    ensures visible.Declared? ==> r == Shown(names)
    ensures visible.Listed? ==>
      r == if NoRepeats(visible.order) && forall x :: x in visible.order <==> x in names then Shown(visible.order)
           else BadOrder
  {
    if visible.Declared? {
      return Shown(names);
    }
    var order, k := visible.order, 0;
    var missed := set x | x in names;
    while k < |order|
      invariant 0 <= k <= |order| && NoRepeats(order[..k])
      invariant forall x :: x in order[..k] ==> x in names
      invariant forall x :: x in missed <==> x in names && x !in order[..k]
    {
      if order[k] !in names {
        return BadOrder;
      }
      if order[k] !in missed {
        assert order[k] in order[..k];
        return BadOrder;
      }
      missed := missed - {order[k]};
      k := k + 1;
    }
    assert order[..k] == order;
    if |missed| > 0 {
      ghost var x :| x in missed;
      return BadOrder;
    }
    return Shown(order);
  }

  /** In an accepted block every field lies within one of its words, and no two fields overlap. */
  lemma AcceptedBlock(ds: seq<Decl>, base: nat, i: nat, j: nat)
    requires base > 0 && WellFormed(ds, base) && i < |FieldsOf(ds)| && j < |FieldsOf(ds)|
    ensures var f := FieldsOf(ds)[i];
      && f.size > 0 && 0 <= f.offset / base < TotalSize(ds) / base && f.offset % base + f.size <= base
    ensures i != j ==> Disjoint(FieldsOf(ds)[i], FieldsOf(ds)[j])
  {
    var fs := FieldsOf(ds);
    FieldsLaidOut(ds);
    LaidOutBelow(fs, TotalSize(ds), i);
    assert InOneWord(fs[i], base);
    DivMod(TotalSize(ds), base);
    DivNat(TotalSize(ds), base);
    InWord(fs[i].offset, fs[i].size, base, TotalSize(ds) / base);
    if i < j {
      LaidOutDisjoint(fs, TotalSize(ds), i, j);
    } else if j < i {
      LaidOutDisjoint(fs, TotalSize(ds), j, i);
    }
  }

  lemma InWord(offset: nat, size: nat, base: nat, words: nat)
    requires base > 0 && size > 0 && offset / base == (offset + size - 1) / base && offset + size <= words * base
    ensures 0 <= offset / base < words && offset % base + size <= base
  {
    DivMod(offset, base);
    DivMod(offset + size - 1, base);
    DivNat(offset, base);
    if offset / base >= words {
      NotMore(words, offset / base, base);
    }
  }

  /**
    In an accepted block a value is read back from a field exactly if the field can hold it, and
    writing a field leaves every other field as it is.
   */
  lemma BlockFields(fmt: Format, ds: seq<Decl>, i: nat, j: nat, words: seq<nat>, v: nat)
    requires fmt.Valid() && WellFormed(ds, fmt.base) && |words| == TotalSize(ds) / fmt.base
    requires i < |FieldsOf(ds)| && j < |FieldsOf(ds)|
    requires forall k :: 0 <= k < |FieldsOf(ds)| && FieldsOf(ds)[k].high ==> FieldsOf(ds)[k].size <= fmt.baseBits
    ensures var f, g := FieldsOf(ds)[i], FieldsOf(ds)[j];
      && f.size > 0 && g.size > 0
      && 0 <= f.offset / fmt.base < |words| && 0 <= g.offset / fmt.base < |words|
      && (GetField(fmt, f, SetField(fmt, f, words, v)) == v <==> Representable(fmt, f, v))
      && (i != j ==> GetField(fmt, g, SetField(fmt, f, words, v)) == GetField(fmt, g, words))
  {
    var f, g := FieldsOf(ds)[i], FieldsOf(ds)[j];
    FieldsLaidOut(ds);
    AcceptedBlock(ds, fmt.base, i, j);
    AcceptedBlock(ds, fmt.base, j, i);
    hide WellFormed, Get, Set, Representable, FieldsOf;
    RoundTrip(fmt, f, words[f.offset / fmt.base], v);
    if i != j && f.offset / fmt.base == g.offset / fmt.base {
      OtherField(fmt, f, g, words[f.offset / fmt.base], v);
    }
  }
}
