/**
  Integers as text: `"{0}".format(n)` on the way out (the `nodes=<n>:ppn=<p>` directive)
  and Python 2's `int(text)` on the way back.
*/
module Decimal {
  import opened Optional
  import opened Text

  predicate IsDigit(c: char) {
    '0' <= c <= '9'
  }

  predicate AllDigits(s: string) {
    forall i :: 0 <= i < |s| ==> IsDigit(s[i])
  }

  function DigitChar(d: nat): (c: char)
    requires d < 10
    ensures IsDigit(c) && c as int - '0' as int == d
  {
    ('0' as int + d) as char
  }

  /** The decimal digits of a natural number, most significant first, without leading zeros. */
  function ShowNat(n: nat): (s: string)
    ensures |s| >= 1 && AllDigits(s)
  {
    if n < 10 then [DigitChar(n)] else ShowNat(n / 10) + [DigitChar(n % 10)]
  }

  /** `"{0}".format(n)` for an integer: a minus sign before the digits of a negative number. */
  function ShowInt(n: int): (s: string)
    ensures |s| >= 1
    ensures forall i :: 0 <= i < |s| ==> IsDigit(s[i]) || (i == 0 && s[i] == '-')
  {
    if n < 0 then "-" + ShowNat(-n) else ShowNat(n)
  }

  /** The value of a string of digits. */
  function DigitsValue(s: string): nat
    requires AllDigits(s)
  {
    if s == [] then 0 else DigitsValue(s[..|s| - 1]) * 10 + (s[|s| - 1] as int - '0' as int)
  }

  function StripLeft(s: string): (r: string)
    ensures r == [] || !IsSpace(r[0])
    ensures |r| <= |s| && r == s[|s| - |r|..]
  {
    if s != [] && IsSpace(s[0]) then StripLeft(s[1..]) else s
  }

  function StripRight(s: string): (r: string)
    ensures r == [] || !IsSpace(r[|r| - 1])
    ensures |r| <= |s| && r == s[..|r|]
  {
    if s != [] && IsSpace(s[|s| - 1]) then StripRight(s[..|s| - 1]) else s
  }

  /** `int()` of text with no whitespace at either end: one optional sign, whitespace after the
      sign (skipped again by the conversion of the digits), then one or more digits. */
  function ParseStripped(t: string): (r: Option<int>)
    ensures r.Some? ==> exists i :: 0 <= i < |t| && IsDigit(t[i])
  {
    var signed := t != [] && (t[0] == '-' || t[0] == '+');
    var digits := if signed then StripLeft(t[1..]) else t;
    if digits != [] && AllDigits(digits) then
      assert IsDigit(t[|t| - |digits|]);
      var v: int := DigitsValue(digits);
      Some(if signed && t[0] == '-' then -v else v)
    else
      None
  }

  /** Python 2's `int(s)` in base 10: surrounding whitespace is ignored, one optional sign,
      possibly followed by whitespace, then one or more digits. None stands for the ValueError
      `int` raises otherwise. */
  function ParseInt(s: string): Option<int> {
    ParseStripped(StripRight(StripLeft(s)))
  }

  lemma {:induction false} DigitsOfShowNat(n: nat)
    ensures DigitsValue(ShowNat(n)) == n
  {
    var s := ShowNat(n);
    if n >= 10 {
      DigitsOfShowNat(n / 10);
      assert s[..|s| - 1] == ShowNat(n / 10);
    }
  }

  /** `int()` of a bare run of digits is its value. */
  lemma ParseUnsigned(s: string)
    requires s != [] && IsDigit(s[0]) && AllDigits(s)
    ensures ParseStripped(s) == Some(DigitsValue(s))
  {
  }

  /** A minus sign, then text that `StripLeft` reduces to digits: the negated value of the digits. */
  lemma ParseSignedDigits(t: string, d: string)
    requires t != [] && t[0] == '-' && StripLeft(t[1..]) == d
    requires d != [] && AllDigits(d)
    ensures ParseStripped(t) == Some(-(DigitsValue(d) as int))
  {
  }

  /** `int()` of a minus sign followed by digits is the negated value of the digits. */
  lemma ParseNegative(d: string)
    requires d != [] && AllDigits(d)
    ensures ParseStripped("-" + d) == Some(-(DigitsValue(d) as int))
  {
    var s := "-" + d;
    assert s[1..] == d;
    assert !IsSpace(d[0]);
    assert StripLeft(d) == d;
    ParseSignedDigits(s, d);
  }

  /** Whitespace in front of text that does not begin with whitespace is all `StripLeft` removes. */
  lemma {:induction false} StripLeftSpaces(ws: string, d: string)
    requires forall i :: 0 <= i < |ws| ==> IsSpace(ws[i])
    requires d != [] && !IsSpace(d[0])
    ensures StripLeft(ws + d) == d
    decreases |ws|
  {
    if ws == [] {
      assert ws + d == d;
    } else {
      assert (ws + d)[1..] == ws[1..] + d;
      StripLeftSpaces(ws[1..], d);
    }
  }

  /** `int()` of a minus sign, then whitespace, then digits, is the negated value of the digits. */
  lemma ParseSignedSpaced(ws: string, d: string)
    requires forall i :: 0 <= i < |ws| ==> IsSpace(ws[i])
    requires d != [] && AllDigits(d)
    ensures ParseStripped("-" + ws + d) == Some(-(DigitsValue(d) as int))
  {
    var t := "-" + ws + d;
    assert t[1..] == ws + d;
    StripLeftSpaces(ws, d);
    ParseSignedDigits(t, d);
  }

  /** Whitespace between the sign and the digits is skipped: `int("- 2")` is -2. */
  lemma ParseSpacedSign(ws: string, d: string)
    requires forall i :: 0 <= i < |ws| ==> IsSpace(ws[i])
    requires d != [] && AllDigits(d)
    ensures ParseInt("-" + ws + d) == Some(-(DigitsValue(d) as int))
  {
    var t := "-" + ws + d;
    assert StripRight(StripLeft(t)) == t by {
      assert t[0] == '-' && t[|t| - 1] == d[|d| - 1];
      Stripped(t);
    }
    ParseUnstripped(t);
    ParseSignedSpaced(ws, d);
  }

  /** A sign with nothing but whitespace after it is rejected. */
  lemma ParseBareSign(c: char, ws: string)
    requires c == '-' || c == '+'
    requires forall i :: 0 <= i < |ws| ==> IsSpace(ws[i])
    ensures ParseInt([c] + ws) == None
  {
  }

  /** Text `int()` has nothing to strip from is parsed as it is. */
  lemma ParseUnstripped(s: string)
    requires StripRight(StripLeft(s)) == s
    ensures ParseInt(s) == ParseStripped(s)
  {
  }

  /** Text with no whitespace at either end is left alone by the stripping `int()` does. */
  lemma Stripped(s: string)
    requires s != [] && !IsSpace(s[0]) && !IsSpace(s[|s| - 1])
    ensures StripRight(StripLeft(s)) == s
  {
  }

  /** The text of an integer has no whitespace at either end. */
  lemma ShowIntStripped(n: int)
    ensures StripRight(StripLeft(ShowInt(n))) == ShowInt(n)
  {
    var s := ShowInt(n);
    assert !IsSpace(s[0]) && !IsSpace(s[|s| - 1]);
    Stripped(s);
  }

  /** `int()` strips nothing from the text of an integer. */
  lemma ParseShown(n: int)
    ensures ParseInt(ShowInt(n)) == ParseStripped(ShowInt(n))
  {
    ShowIntStripped(n);
    ParseUnstripped(ShowInt(n));
  }

  /** A natural number written and read back. */
  lemma ParseShowNat(n: nat)
    ensures ParseInt(ShowInt(n)) == Some(n)
  {
    var s := ShowNat(n);
    assert ShowInt(n) == s;
    ParseShown(n);
    DigitsOfShowNat(n);
    ParseUnsigned(s);
  }

  /** A negative number written and read back. */
  lemma ParseShowNegative(n: int)
    requires n < 0
    ensures ParseInt(ShowInt(n)) == Some(n)
  {
    var m: nat := -n;
    var d := ShowNat(m);
    DigitsOfShowNat(m);
    assert ShowInt(n) == "-" + d;
    ParseShown(n);
    ParseNegative(d);
  }

  /** Writing an integer in decimal and reading it back with `int()` gives the integer back. */
  lemma ParseShowInt(n: int)
    ensures ParseInt(ShowInt(n)) == Some(n)
  {
    if n < 0 {
      ParseShowNegative(n);
    } else {
      ParseShowNat(n);
    }
  }
}
