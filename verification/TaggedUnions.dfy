/**
  Variable-width tags of tagged unions: the class masks that the bitfield generator accepts, and
  the reader it generates for the tag (kernel/tools/bitfield_gen.py).
 */
module TaggedUnions {
  import opened Words
  import opened Bitmaps
  import opened Bitfields

  /** A width of the tag: the place of the field, and the mask that marks values of a wider tag. */
  datatype Class = Class(width: nat, offset: nat, mask: nat)

  /** `x & mask == mask`. */
  predicate Matches(x: nat, mask: nat) {
    BitAnd(x, mask) == mask
  }

  lemma MatchesBit(x: nat, mask: nat, i: nat)
    requires Matches(x, mask) && TestBit(mask, i)
    ensures TestBit(x, i)
  {
    AndAt(x, mask, i);
  }

  lemma MatchesFrom(x: nat, mask: nat)
    requires forall i: nat :: TestBit(mask, i) ==> TestBit(x, i)
    ensures Matches(x, mask)
  {
    forall i: nat ensures TestBit(BitAnd(x, mask), i) <==> TestBit(mask, i) {
      AndAt(x, mask, i);
    }
    SameBits(BitAnd(x, mask), mask);
  }

  /** The offset that masks are relative to. */
  function ClassOffset(cs: seq<Class>): nat
    requires cs != []
  {
    if |cs| == 1 then cs[0].offset
    else
      var rest := ClassOffset(cs[1..]);
      if cs[0].offset < rest then cs[0].offset else rest
  }

  lemma {:induction false} ClassOffsetLeast(cs: seq<Class>, i: nat)
    requires i < |cs|
    ensures ClassOffset(cs) <= cs[i].offset
  {
    if |cs| > 1 && i > 0 {
      ClassOffsetLeast(cs[1..], i - 1);
    } else if |cs| > 1 {
      ClassOffsetLeast(cs[1..], 0);
    }
  }

  function FieldMask(c: Class): nat {
    Up(Ones(c.width), c.offset)
  }

  /**
    The checks on masks, given in order of increasing width and relative to the class offset: each
    lies in its field, the first is not zero, no two but the last are equal, each includes the one before.
   */
  predicate MasksOk(cs: seq<Class>) {
    && cs != []
    && (forall i :: 0 <= i < |cs| ==>
          BitOr(Up(cs[i].mask, ClassOffset(cs)), FieldMask(cs[i])) == FieldMask(cs[i]))
    && (|cs| > 1 ==> cs[0].mask != 0)
    && (forall i :: 1 <= i < |cs| - 1 ==> cs[i - 1].mask != cs[i].mask)
    && (forall i :: 1 <= i < |cs| ==> Matches(cs[i].mask, cs[i - 1].mask))
  }

  /** The checks on the value of an element whose tag has the width of class `w`. */
  predicate ValueOk(cs: seq<Class>, w: nat, value: nat)
    requires w < |cs| && ClassOffset(cs) <= cs[w].offset
  {
    var cvalue := Up(value, cs[w].offset - ClassOffset(cs));
    && BitOr(Up(value, cs[w].offset), FieldMask(cs[w])) == FieldMask(cs[w])
    && (forall i :: 0 <= i < w ==> Matches(cvalue, cs[i].mask))
    && (w + 1 < |cs| ==> !Matches(cvalue, cs[w].mask))
  }

  /** The generated tag reader: the first mask that does not match decides the width. */
  function ReadTag(cs: seq<Class>, word: nat, i: nat): nat
    requires i < |cs|
    decreases |cs| - i
  {
    if i == |cs| - 1 || BitAnd(word, Up(cs[i].mask, ClassOffset(cs))) != Up(cs[i].mask, ClassOffset(cs)) then
      BitAnd(Shr(word, cs[i].offset), Ones(cs[i].width))
    else ReadTag(cs, word, i + 1)
  }

  /** A word whose tag field of this width holds the value; all other bits are free. */
  ghost predicate Holds(c: Class, word: nat, value: nat) {
    forall i: nat :: i < c.width ==> (TestBit(word, c.offset + i) <==> TestBit(value, i))
  }

  lemma UpAt(x: nat, k: nat, i: nat)
    ensures TestBit(Up(x, k), i) <==> i >= k && TestBit(x, i - k)
  {
    TimesPow2At(x, k, i);
  }

  lemma FieldMaskAt(c: Class, i: nat)
    ensures TestBit(FieldMask(c), i) <==> c.offset <= i < c.offset + c.width
  {
    UpAt(Ones(c.width), c.offset, i);
    if i >= c.offset {
      OnesAt(c.width, i - c.offset);
    }
  }

  /** What is inside a field has its bits there. */
  lemma InsideField(x: nat, c: Class, i: nat)
    requires BitOr(x, FieldMask(c)) == FieldMask(c) && TestBit(x, i)
    ensures c.offset <= i < c.offset + c.width
  {
    OrAt(x, FieldMask(c), i);
    FieldMaskAt(c, i);
  }

  /** On the bits of its own field the word agrees with the element's value. */
  lemma WordBits(cs: seq<Class>, w: nat, word: nat, value: nat, i: nat)
    requires w < |cs| && ClassOffset(cs) <= cs[w].offset && Holds(cs[w], word, value)
    requires cs[w].offset <= ClassOffset(cs) + i < cs[w].offset + cs[w].width
    ensures TestBit(Up(value, cs[w].offset - ClassOffset(cs)), i) <==> TestBit(word, ClassOffset(cs) + i)
  {
    UpAt(value, cs[w].offset - ClassOffset(cs), i);
    assert TestBit(word, cs[w].offset + (ClassOffset(cs) + i - cs[w].offset))
       <==> TestBit(value, ClassOffset(cs) + i - cs[w].offset);
  }

  /** A word matches an earlier mask. */
  lemma MatchesEarlier(cs: seq<Class>, w: nat, word: nat, value: nat, k: nat)
    requires w < |cs| && ClassOffset(cs) <= cs[w].offset && Holds(cs[w], word, value)
    requires ValueOk(cs, w, value) && k < w
    ensures Matches(word, Up(cs[k].mask, ClassOffset(cs)))
  {
    var off := ClassOffset(cs);
    var cvalue := Up(value, cs[w].offset - off);
    forall i: nat | TestBit(Up(cs[k].mask, off), i) ensures TestBit(word, i) {
      UpAt(cs[k].mask, off, i);
      var j := i - off;
      MatchesBit(cvalue, cs[k].mask, j);
      UpAt(value, cs[w].offset - off, j);
      UpAt(value, cs[w].offset, i);
      InsideField(Up(value, cs[w].offset), cs[w], i);
      WordBits(cs, w, word, value, j);
    }
    MatchesFrom(word, Up(cs[k].mask, off));
  }

  /** A word does not match the mask of its own width, unless that is the last. */
  lemma MissesOwn(cs: seq<Class>, w: nat, word: nat, value: nat)
    requires MasksOk(cs) && w + 1 < |cs| && ClassOffset(cs) <= cs[w].offset && Holds(cs[w], word, value)
    requires ValueOk(cs, w, value)
    ensures !Matches(word, Up(cs[w].mask, ClassOffset(cs)))
  {
    var off := ClassOffset(cs);
    var cvalue := Up(value, cs[w].offset - off);
    if forall i: nat :: TestBit(cs[w].mask, i) ==> TestBit(cvalue, i) {
      MatchesFrom(cvalue, cs[w].mask);
    } else {
      var i: nat :| TestBit(cs[w].mask, i) && !TestBit(cvalue, i);
      UpAt(cs[w].mask, off, off + i);
      InsideField(Up(cs[w].mask, off), cs[w], off + i);
      WordBits(cs, w, word, value, i);
      if Matches(word, Up(cs[w].mask, off)) {
        MatchesBit(word, Up(cs[w].mask, off), off + i);
      }
    }
  }

  /** The value of a field, masked out of the word. */
  lemma FieldValue(c: Class, word: nat, value: nat)
    requires Holds(c, word, value) && BitOr(Up(value, c.offset), FieldMask(c)) == FieldMask(c)
    ensures BitAnd(Shr(word, c.offset), Ones(c.width)) == value
  {
    forall i: nat ensures TestBit(BitAnd(Shr(word, c.offset), Ones(c.width)), i) <==> TestBit(value, i) {
      AndAt(Shr(word, c.offset), Ones(c.width), i);
      ShrAt(word, c.offset, i);
      OnesAt(c.width, i);
      if TestBit(value, i) {
        UpAt(value, c.offset, c.offset + i);
        InsideField(Up(value, c.offset), c, c.offset + i);
      }
    }
    SameBits(BitAnd(Shr(word, c.offset), Ones(c.width)), value);
  }

  lemma {:induction false} ReadFrom(cs: seq<Class>, w: nat, word: nat, value: nat, i: nat)
    requires MasksOk(cs) && i <= w < |cs| && ClassOffset(cs) <= cs[w].offset
    requires Holds(cs[w], word, value) && ValueOk(cs, w, value)
    ensures ReadTag(cs, word, i) == value
    decreases w - i
  {
    if i < w {
      MatchesEarlier(cs, w, word, value, i);
      ReadFrom(cs, w, word, value, i + 1);
    } else {
      if w + 1 < |cs| {
        MissesOwn(cs, w, word, value);
      }
      FieldValue(cs[w], word, value);
    }
  }

  /**
    Tags are decoded without ambiguity: for every element that is accepted and whatever the rest of
    the word holds, the generated reader returns the element's own tag value.
   */
  lemma TagsDecode(cs: seq<Class>, w: nat, word: nat, value: nat)
    requires MasksOk(cs) && w < |cs| && Holds(cs[w], word, value)
    requires ClassOffset(cs) <= cs[w].offset ==> ValueOk(cs, w, value)
    ensures ReadTag(cs, word, 0) == value
  {
    ClassOffsetLeast(cs, w);
    ReadFrom(cs, w, word, value, 0);
  }

  /** So no word can hold two accepted elements with different tags. */
  lemma TagsUnambiguous(cs: seq<Class>, v: nat, w: nat, word: nat, a: nat, b: nat)
    requires MasksOk(cs) && v < |cs| && w < |cs| && Holds(cs[v], word, a) && Holds(cs[w], word, b)
    requires ClassOffset(cs) <= cs[v].offset ==> ValueOk(cs, v, a)
    requires ClassOffset(cs) <= cs[w].offset ==> ValueOk(cs, w, b)
    ensures a == b
  {
    TagsDecode(cs, v, word, a);
    TagsDecode(cs, w, word, b);
  }

  // ---------------------------------------------------------------- accepting the masks

  datatype Classes = Refused | Granted(cs: seq<Class>)

  /** The widths and offsets in use, in order of width, with masks still relative to their own fields. */
  function Unshifted(used: seq<(nat, nat)>, masks: map<nat, nat>): (cs: seq<Class>)
    ensures |cs| == |used|
  {
    seq(|used|, i requires 0 <= i < |used| =>
      Class(used[i].0, used[i].1, if used[i].0 in masks then masks[used[i].0] else 0))
  }

  function Relative(cs: seq<Class>, off: nat): (r: seq<Class>)
    requires forall i :: 0 <= i < |cs| ==> off <= cs[i].offset
    ensures |r| == |cs|
  {
    seq(|cs|, i requires 0 <= i < |cs| => cs[i].(mask := Up(cs[i].mask, cs[i].offset - off)))
  }

  lemma {:induction false} SameOffset(cs: seq<Class>, ds: seq<Class>)
    requires cs != [] && |cs| == |ds| && forall i :: 0 <= i < |cs| ==> cs[i].offset == ds[i].offset
    ensures ClassOffset(cs) == ClassOffset(ds)
  {
    if |cs| > 1 {
      SameOffset(cs[1..], ds[1..]);
    }
  }

  /** The masks given: none means a single width without a mask. */
  function Given(used: seq<(nat, nat)>, masks: map<nat, nat>): map<nat, nat>
    requires used != []
  {
    if masks == map[] then map[used[0].0 := 0] else masks
  }

  /** Every width in use has a mask, and every mask a width in use. */
  ghost predicate Covered(used: seq<(nat, nat)>, given: map<nat, nat>) {
    && (forall i :: 0 <= i < |used| ==> used[i].0 in given)
    && (forall w :: w in given ==> exists i :: 0 <= i < |used| && used[i].0 == w)
  }

  /** Makes the masks relative to the class offset and refuses exactly those that fail a check. */
  method MakeClasses(used: seq<(nat, nat)>, masks: map<nat, nat>) returns (r: Classes)
    requires used != []
    ensures var raw := Unshifted(used, Given(used, masks));
      && (forall i :: 0 <= i < |raw| ==> ClassOffset(raw) <= raw[i].offset)
      && var cs := Relative(raw, ClassOffset(raw));
      r == if Covered(used, Given(used, masks)) && MasksOk(cs) then Granted(cs) else Refused
  {
    hide MasksOk, ClassOffset, Up;
    var given := Given(used, masks);
    var raw := Unshifted(used, given);
    forall i | 0 <= i < |raw| ensures ClassOffset(raw) <= raw[i].offset {
      ClassOffsetLeast(raw, i);
    }
    var off := ClassOffset(raw);
    var cs := Relative(raw, off);
    SameOffset(raw, cs);
    var i := 0;
    while i < |used|
      invariant 0 <= i <= |used| && forall k :: 0 <= k < i ==> used[k].0 in given
    {
      if used[i].0 !in given {
        return Refused;
      }
      i := i + 1;
    }
    var widths := set k | 0 <= k < |used| :: used[k].0;
    if exists w :: w in given && w !in widths {
      return Refused;
    }
    var ok := CheckMasks(cs);
    return if ok then Granted(cs) else Refused;
  }

  method CheckMasks(cs: seq<Class>) returns (ok: bool)
    requires cs != []
    ensures ok <==> MasksOk(cs)
  {
    hide BitOr, BitAnd, Up, FieldMask, ClassOffset;
    var off := ClassOffset(cs);
    var i := 0;
    while i < |cs|
      invariant 0 <= i <= |cs|
      invariant forall k :: 0 <= k < i ==> BitOr(Up(cs[k].mask, off), FieldMask(cs[k])) == FieldMask(cs[k])
    {
      if BitOr(Up(cs[i].mask, off), FieldMask(cs[i])) != FieldMask(cs[i]) {
        return false;
      }
      i := i + 1;
    }
    if |cs| > 1 && cs[0].mask == 0 {
      return false;
    }
    i := 1;
    while i < |cs| - 1
      invariant 1 <= i && forall k :: 1 <= k < i && k < |cs| - 1 ==> cs[k - 1].mask != cs[k].mask
    {
      if cs[i - 1].mask == cs[i].mask {
        return false;
      }
      i := i + 1;
    }
    i := 1;
    while i < |cs|
      invariant 1 <= i && forall k :: 1 <= k < i && k < |cs| ==> Matches(cs[k].mask, cs[k - 1].mask)
    {
      if BitAnd(cs[i].mask, cs[i - 1].mask) != cs[i - 1].mask {
        return false;
      }
      i := i + 1;
    }
    return true;
  }
}
