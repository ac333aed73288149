/** Printing and reading numbers (kernel/src/machine/io.c, kernel/src/util.c). */
module Numbers {
  import opened Words

  const TWO64 := 0x1_0000_0000_0000_0000

  // ---------------------------------------------------------------- division by ten with shifts

  lemma SharpTenth(x: nat, q0: nat, q1: nat, q2: nat, q3: nat, q4: nat, q: nat)
    requires x < TWO64
    requires q0 == x / 2 + x / 4 && q1 == q0 + q0 / 16 && q2 == q1 + q1 / 256
    requires q3 == q2 + q2 / 65536 && q4 == q3 + q3 / 4294967296 && q == q4 / 8
    ensures q0 <= q1 <= q2 <= q3 <= q4 < TWO64
    ensures 10 * q <= x <= 10 * q + 19
  {
    assert 4 * q0 <= 3 * x <= 4 * q0 + 5;
    assert 16 * q1 <= 17 * q0 <= 16 * q1 + 15;
    assert 256 * q2 <= 257 * q1 <= 256 * q2 + 255;
    assert 65536 * q3 <= 65537 * q2 <= 65536 * q3 + 65535;
    assert 4294967296 * q4 <= 4294967297 * q3 <= 4294967296 * q4 + 4294967295;
    assert 8 * q <= q4 <= 8 * q + 7;
  }

  /** Quotient and remainder by ten from shifts and additions, with at most one correction. */
  method DivMod10(x: nat) returns (q: nat, rem: nat)
    requires x < TWO64
    ensures q == x / 10 && rem == x % 10
  {
    var q0 := x / 2 + x / 4;
    var q1 := q0 + q0 / 16;
    var q2 := q1 + q1 / 256;
    var q3 := q2 + q2 / 65536;
    var q4 := q3 + q3 / 4294967296;
    q := q4 / 8;
    SharpTenth(x, q0, q1, q2, q3, q4, q);
    rem := x - (q * 4 + q) * 2;
    if rem > 9 {
      q := q + 1;
      rem := x - (q * 4 + q) * 2;
      assert rem <= 9;
    }
  }

  // ---------------------------------------------------------------- digits

  /** The digits of x from the first, none for 0. */
  function Digits(x: nat, base: nat): seq<nat>
    requires base > 1
  {
    if x == 0 then []
    else
      Smaller(x, base);
      Digits(x / base, base) + [x % base]
  }

  lemma Smaller(x: nat, base: nat)
    requires base > 1 && x > 0
    ensures 0 <= x / base < x && 0 <= x % base < base && x == x / base * base + x % base
  {
    DivMod(x, base);
    DivNat(x, base);
    NotMore(2, base, x / base);
  }

  function Value(ds: seq<nat>, base: nat): nat {
    if ds == [] then 0 else Value(ds[..|ds| - 1], base) * base + ds[|ds| - 1]
  }

  predicate DigitsOf(ds: seq<nat>, base: nat) {
    forall i :: 0 <= i < |ds| ==> ds[i] < base
  }

  /** Digits are what they say, and the first is not zero. */
  lemma {:induction false} DigitsValue(x: nat, base: nat)
    requires base > 1
    ensures Value(Digits(x, base), base) == x && DigitsOf(Digits(x, base), base)
    ensures x > 0 ==> Digits(x, base) != [] && Digits(x, base)[0] != 0
  {
    if x > 0 {
      Smaller(x, base);
      DigitsValue(x / base, base);
      var ds := Digits(x, base);
      assert ds[..|ds| - 1] == Digits(x / base, base);
    }
  }

  // ---------------------------------------------------------------- printing

  /** The character for a digit: '0' to '9', then letters of either case. */
  function DigitChar(d: nat, lower: bool): char
    requires d < 16
  {
    if d < 10 then '0' + d as char else if lower then 'a' + (d - 10) as char else 'A' + (d - 10) as char
  }

  function Printed(ds: seq<nat>, lower: bool): (s: string)
    requires DigitsOf(ds, 16)
    ensures |s| == |ds|
  {
    seq(|ds|, i requires 0 <= i < |ds| => DigitChar(ds[i], lower))
  }

  /** Digits written backwards into the end of a buffer; `s` is what has been written. */
  method FmtU(x0: nat) returns (s: string)
    requires x0 < TWO64
    ensures DigitsOf(Digits(x0, 10), 16) && s == Printed(Digits(x0, 10), false)
  {
    var x := x0;
    s := "";
    ghost var done: seq<nat> := [];
    while x != 0
      invariant 0 <= x < TWO64 && Digits(x0, 10) == Digits(x, 10) + done
      invariant DigitsOf(done, 16) && s == Printed(done, false)
    {
      var q, rem := DivMod10(x);
      done := [rem] + done;
      s := ['0' + rem as char] + s;
      x := q;
    }
  }

  method FmtX(x0: nat, lower: bool) returns (s: string)
    ensures DigitsOf(Digits(x0, 16), 16) && s == Printed(Digits(x0, 16), lower)
  {
    var x := x0;
    s := "";
    ghost var done: seq<nat> := [];
    while x != 0
      invariant 0 <= x && Digits(x0, 16) == Digits(x, 16) + done
      invariant DigitsOf(done, 16) && s == Printed(done, lower)
    {
      Smaller(x, 16);
      done := [x % 16] + done;
      s := [DigitChar(x % 16, lower)] + s;
      x := x / 16;
    }
  }

  // ---------------------------------------------------------------- reading

  function CharToLong(c: char): int {
    if '0' <= c <= '9' then c as int - '0' as int
    else if 'A' <= c <= 'F' then c as int - 'A' as int + 10
    else if 'a' <= c <= 'f' then c as int - 'a' as int + 10
    else -1
  }

  /** The value of a string of digits that continues one of value `val`; -1 if a character is not a digit. */
  function Read(s: string, base: int, val: int): int {
    if s == [] then val
    else
      var res := CharToLong(s[0]);
      if res == -1 || res >= base then -1 else Read(s[1..], base, val * base + res)
  }

  /** What a string stands for: decimal, or hexadecimal after "0x"; -1 if it is malformed. */
  function Meaning(s: string): int {
    if s == [] then -1
    else if |s| > 1 && s[0] == '0' && (s[1] == 'x' || s[1] == 'X') then
      if |s| == 2 then -1 else Read(s[2..], 16, 0)
    else Read(s, 10, 0)
  }

  /** Reads a number; the string ends where the terminating zero byte would be. */
  method StrToLong(str: string) returns (val: int)
    ensures val == Meaning(str)
  {
    if |str| == 0 {
      return -1;
    }
    var base, i := 10, 0;
    if str[0] == '0' && |str| > 1 && (str[1] == 'x' || str[1] == 'X') {
      base := 16;
      i := 2;
      if i == |str| {
        return -1;
      }
    }
    ghost var start := i;
    val := 0;
    while i < |str|
      invariant start <= i <= |str|
      invariant Read(str[start..], base, 0) == Read(str[i..], base, val)
    {
      var res := CharToLong(str[i]);
      assert str[i..][0] == str[i] && str[i..][1..] == str[i + 1..];
      if res == -1 || res >= base {
        return -1;
      }
      val := val * base + res;
      i := i + 1;
    }
  }

  lemma {:induction false} ReadSplit(a: string, c: char, base: int, val: int)
    requires Read(a, base, val) != -1 && CharToLong(c) != -1 && CharToLong(c) < base
    requires base > 1 && val >= 0
    ensures Read(a + [c], base, val) == Read(a, base, val) * base + CharToLong(c)
  {
    if a == [] {
      assert Read([c], base, val) == Read([], base, val * base + CharToLong(c));
      assert [c][1..] == [];
    } else {
      assert (a + [c])[1..] == a[1..] + [c];
      ReadSplit(a[1..], c, base, val * base + CharToLong(a[0]));
    }
  }

  /** Reading printed digits gives their value, and every value on the way is at most the result. */
  lemma {:induction false} ReadPrinted(ds: seq<nat>, base: nat, lower: bool)
    requires 1 < base <= 16 && DigitsOf(ds, base)
    ensures DigitsOf(ds, 16) && Read(Printed(ds, lower), base, 0) == Value(ds, base)
  {
    if ds != [] {
      var k := |ds| - 1;
      ReadPrinted(ds[..k], base, lower);
      assert Printed(ds, lower) == Printed(ds[..k], lower) + [DigitChar(ds[k], lower)];
      ReadSplit(Printed(ds[..k], lower), DigitChar(ds[k], lower), base, 0);
    }
  }

  /** The values on the way to a number never exceed it, so they fit where it fits. */
  lemma {:induction false} PrefixFits(s: string, base: int, val: int, k: nat)
    requires base > 1 && val >= 0 && k <= |s| && Read(s, base, val) != -1
    ensures val <= Read(s[..k], base, val) <= Read(s, base, val)
  {
    if k == 0 {
      if s != [] {
        var next := val * base + CharToLong(s[0]);
        Grows(val, base);
        PrefixFits(s[1..], base, next, 0);
        assert s[1..][..0] == [];
      }
    } else {
      var next := val * base + CharToLong(s[0]);
      Grows(val, base);
      PrefixFits(s[1..], base, next, k - 1);
      assert s[..k][1..] == s[1..][..k - 1];
    }
  }

  lemma Grows(val: nat, base: nat)
    requires base > 1
    ensures val * base >= val
  {
    NotMore(1, base, val);
  }

  /** Reading undoes printing, in decimal and in hexadecimal. */
  lemma RoundTrip(x: nat, lower: bool)
    requires x > 0
    ensures DigitsOf(Digits(x, 10), 16) && Meaning(Printed(Digits(x, 10), false)) == x
    ensures DigitsOf(Digits(x, 16), 16) && Meaning("0x" + Printed(Digits(x, 16), lower)) == x
  {
    hide Digits, Value, Read, Meaning;
    DigitsValue(x, 10);
    DigitsValue(x, 16);
    var ds, xs := Digits(x, 10), Digits(x, 16);
    ReadPrinted(ds, 10, false);
    ReadPrinted(xs, 16, lower);
    DecimalMeaning(ds);
    HexMeaning(Printed(xs, lower));
  }

  /** A decimal number without a leading zero is not taken for a hexadecimal one. */
  lemma DecimalMeaning(ds: seq<nat>)
    requires ds != [] && DigitsOf(ds, 10) && ds[0] != 0
    ensures DigitsOf(ds, 16) && Meaning(Printed(ds, false)) == Read(Printed(ds, false), 10, 0)
  {
    hide Read;
    assert Printed(ds, false)[0] == DigitChar(ds[0], false);
  }

  lemma HexMeaning(s: string)
    requires s != []
    ensures Meaning("0x" + s) == Read(s, 16, 0)
  {
    hide Read;
    assert ("0x" + s)[2..] == s;
  }
}
