/** The few String and Array behaviours of Ruby that the modelled programs rely on:
    `String#to_i` on a leading run of digits, integer interpolation, `String#downcase`
    on ASCII letters, `Array#join`, `String#*` and, as a reference for `join`, a splitter. */
module RubyText {

  predicate IsDigit(c: char) { '0' <= c <= '9' }

  predicate AllDigits(s: string) { forall i :: 0 <= i < |s| ==> IsDigit(s[i]) }

  function DigitValue(c: char): (d: nat)
    requires IsDigit(c)
    ensures d < 10
  {
    (c as int) - ('0' as int)
  }

  function DigitChar(d: nat): (c: char)
    requires d < 10
    ensures IsDigit(c) && DigitValue(c) == d
  {
    (('0' as int) + d) as char
  }

  /** The longest prefix of `s` made of decimal digits. */
  function LeadingDigits(s: string): (p: string)
    ensures p <= s && AllDigits(p)
    ensures |p| < |s| ==> !IsDigit(s[|p|])
  {
    if s != [] && IsDigit(s[0]) then [s[0]] + LeadingDigits(s[1..]) else []
  }

  /** The number a string of digits denotes in base ten. */
  function DigitsValue(ds: string): nat
    requires AllDigits(ds)
  {
    if ds == [] then 0 else DigitsValue(ds[..|ds| - 1]) * 10 + DigitValue(ds[|ds| - 1])
  }

  /** Ruby's `String#to_i` on the strings these programs pass it: the number spelled by
      the leading digits, and 0 when the string does not start with a digit. */
  function ParseLeadingNat(s: string): nat
  {
    DigitsValue(LeadingDigits(s))
  }

  /** Decimal spelling of a natural number, as `"#{n}"` produces it. */
  function NatToString(n: nat): (s: string)
    ensures |s| > 0 && AllDigits(s)
    ensures s[0] != '0' || n == 0
  {
    if n < 10 then [DigitChar(n)] else NatToString(n / 10) + [DigitChar(n % 10)]
  }

  /** Decimal spelling of an integer, with a leading '-' for negative numbers. */
  function IntToString(i: int): (s: string)
    ensures i >= 0 ==> s == NatToString(i)
    ensures i < 0 ==> s == "-" + NatToString(-i)
  {
    if i < 0 then "-" + NatToString(-i) else NatToString(i)
  }

  lemma {:induction false} LeadingDigitsOfDigits(s: string, rest: string)
    requires AllDigits(s)
    requires rest == [] || !IsDigit(rest[0])
    ensures LeadingDigits(s + rest) == s
  {
    if s != [] {
      assert (s + rest)[1..] == s[1..] + rest;
      LeadingDigitsOfDigits(s[1..], rest);
    } else {
      assert s + rest == rest;
    }
  }

  /** `to_i` reads back every number that integer interpolation writes, whatever follows
      it as long as that does not start with a digit. */
  lemma {:induction false} ParseNatToString(n: nat, rest: string)
    requires rest == [] || !IsDigit(rest[0])
    ensures ParseLeadingNat(NatToString(n) + rest) == n
  {
    LeadingDigitsOfDigits(NatToString(n), rest);
    DigitsOfNatToString(n);
  }

  lemma {:induction false} DigitsOfNatToString(n: nat)
    ensures DigitsValue(NatToString(n)) == n
  {
    if n >= 10 {
      var s := NatToString(n / 10) + [DigitChar(n % 10)];
      assert s[..|s| - 1] == NatToString(n / 10);
      DigitsOfNatToString(n / 10);
    }
  }

  /** `"#{a}#{sep}#{b}"` can be cut back into `a` and `b` when `a` has no blank and the
      separator starts with one. */
  lemma SeparatedParts(a1: string, b1: string, a2: string, b2: string, sep: string)
    requires ' ' !in a1 && ' ' !in a2
    requires |sep| > 0 && sep[0] == ' '
    requires a1 + sep + b1 == a2 + sep + b2
    ensures a1 == a2 && b1 == b2
  {
    var w1, w2 := a1 + sep + b1, a2 + sep + b2;
    assert forall i :: 0 <= i < |a1| ==> w1[i] == a1[i] != ' ';
    assert forall i :: 0 <= i < |a2| ==> w2[i] == a2[i] != ' ';
    assert w1[|a1|] == ' ' && w2[|a2|] == ' ';
    assert a1 == w1[..|a1|] && a2 == w2[..|a2|];
    assert b1 == w1[|a1| + |sep|..] && b2 == w2[|a2| + |sep|..];
  }

  function DowncaseChar(c: char): char
  {
    if 'A' <= c <= 'Z' then ((c as int) + 32) as char else c
  }

  /** `String#downcase` on ASCII letters. */
  function Downcase(s: string): (r: string)
    ensures |r| == |s|
    ensures forall i :: 0 <= i < |s| ==> r[i] == DowncaseChar(s[i])
  {
    if s == [] then [] else [DowncaseChar(s[0])] + Downcase(s[1..])
  }

  /** `Array#join(sep)` on an array of strings. */
  function Join(parts: seq<string>, sep: string): string
  {
    if |parts| == 0 then ""
    else if |parts| == 1 then parts[0]
    else parts[0] + sep + Join(parts[1..], sep)
  }

  /** `c * n` for a one-character string `c`. */
  function Repeat(c: char, n: nat): (r: string)
    ensures |r| == n && forall i :: 0 <= i < n ==> r[i] == c
  {
    seq(n, _ => c)
  }

  /** Cuts `s` at every occurrence of `sep`, keeping empty pieces; the reference
      against which joins are read back. */
  function SplitOn(s: string, sep: char): (parts: seq<string>)
    ensures |parts| >= 1
  {
    if s == [] then [[]]
    else
      var rest := SplitOn(s[1..], sep);
      if s[0] == sep then [[]] + rest else [[s[0]] + rest[0]] + rest[1..]
  }

  lemma {:induction false} SplitOnPiece(a: string, sep: char, b: string)
    requires sep !in a
    ensures SplitOn(a + b, sep) == [a + SplitOn(b, sep)[0]] + SplitOn(b, sep)[1..]
  {
    if a != [] {
      assert (a + b)[1..] == a[1..] + b;
      SplitOnPiece(a[1..], sep, b);
      assert [a[0]] + (a[1..] + SplitOn(b, sep)[0]) == a + SplitOn(b, sep)[0];
    } else {
      var r := SplitOn(b, sep);
      assert a + b == b && a + r[0] == r[0];
      assert r == [r[0]] + r[1..];
    }
  }

  /** Joining lines that contain no separator and splitting the result gives the lines back. */
  lemma {:induction false} SplitJoin(lines: seq<string>, sep: char)
    requires |lines| >= 1
    requires forall i :: 0 <= i < |lines| ==> sep !in lines[i]
    ensures SplitOn(Join(lines, [sep]), sep) == lines
  {
    if |lines| == 1 {
      SplitOnPiece(lines[0], sep, []);
      assert SplitOn([], sep) == [[]];
      assert lines[0] + [] == lines[0];
    } else {
      var tail := Join(lines[1..], [sep]);
      SplitJoin(lines[1..], sep);
      assert Join(lines, [sep]) == lines[0] + ([sep] + tail);
      SplitOnPiece(lines[0], sep, [sep] + tail);
      assert ([sep] + tail)[1..] == tail;
      assert SplitOn([sep] + tail, sep) == [[]] + lines[1..];
      assert lines[0] + [] == lines[0];
      assert lines == [lines[0]] + lines[1..];
    }
  }
}
