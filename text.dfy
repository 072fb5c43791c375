/** The string conversions the bot relies on: `str.lower()`, `str(int)` and
    `int(str)`, restricted to ASCII. */
module Text {
  import opened Types

  predicate IsDigit(c: char) { '0' <= c <= '9' }

  predicate IsUpper(c: char) { 'A' <= c <= 'Z' }

  predicate AllDigits(s: string) { forall i :: 0 <= i < |s| ==> IsDigit(s[i]) }

  function LowerChar(c: char): char
  {
    if IsUpper(c) then (c as int + 32) as char else c
  }

  /** `s.lower()` on ASCII: every upper-case letter is replaced by its
      lower-case form, every other character is kept, and the length is kept. */
  function Lower(s: string): (r: string)
    ensures |r| == |s|
    ensures forall i :: 0 <= i < |r| ==> !IsUpper(r[i])
    ensures forall i :: 0 <= i < |s| && !IsUpper(s[i]) ==> r[i] == s[i]
    ensures forall i :: 0 <= i < |s| && IsUpper(s[i]) ==> r[i] as int == s[i] as int + 32
  {
    seq(|s|, i requires 0 <= i < |s| => LowerChar(s[i]))
  }

  lemma LowerConcat(a: string, b: string)
    ensures Lower(a + b) == Lower(a) + Lower(b)
  {
  }

  /** A string without upper-case letters (digits, for one) is its own lower-case form. */
  lemma LowerOfLower(s: string)
    requires forall i :: 0 <= i < |s| ==> !IsUpper(s[i])
    ensures Lower(s) == s
  {
  }

  function DigitChar(d: nat): (c: char)
    requires d < 10
    ensures IsDigit(c)
  {
    ('0' as int + d) as char
  }

  function DigitValue(c: char): (d: nat)
    requires IsDigit(c)
    ensures d < 10 && DigitChar(d) == c
  {
    c as int - '0' as int
  }

  /** `str(n)` for a natural number: a non-empty run of decimal digits. */
  function Decimal(n: nat): (r: string)
    ensures |r| >= 1
    ensures AllDigits(r)
    ensures n >= 10 ==> |r| >= 2
    decreases n
  {
    if n < 10 then [DigitChar(n)] else Decimal(n / 10) + [DigitChar(n % 10)]
  }

  /** `str(i)` for any integer: a minus sign before negative values. */
  function IntToString(i: int): (r: string)
    ensures |r| >= 1
    ensures r[0] == '-' <==> i < 0
    ensures i < 0 ==> AllDigits(r[1..]) && |r| >= 2
    ensures i >= 0 ==> AllDigits(r)
  {
    if i < 0 then "-" + Decimal(-i) else Decimal(i)
  }

  /** The value of a run of decimal digits, most significant first. */
  function DigitsValue(s: string): nat
    requires AllDigits(s)
    decreases |s|
  {
    if s == [] then 0 else DigitsValue(s[..|s| - 1]) * 10 + DigitValue(s[|s| - 1])
  }

  lemma {:induction false} DecimalValue(n: nat)
    ensures DigitsValue(Decimal(n)) == n
    decreases n
  {
    if n >= 10 {
      var s := Decimal(n);
      assert s[..|s| - 1] == Decimal(n / 10);
      DecimalValue(n / 10);
    }
  }

  /** The digit body Python's `int()` accepts: ASCII digits, with single
      underscores allowed between two digits. */
  predicate IsNumeral(s: string)
  {
    && |s| > 0
    && IsDigit(s[0])
    && forall i :: 0 <= i < |s| ==> DigitOrJoiner(s, i)
  }

  /** Position `i` holds a digit, or an underscore followed by a digit. */
  predicate DigitOrJoiner(s: string, i: int)
    requires 0 <= i < |s|
  {
    IsDigit(s[i]) || (s[i] == '_' && i + 1 < |s| && IsDigit(s[i + 1]))
  }

  /** The digits of a numeral, underscores dropped. */
  function DropUnderscores(s: string): (r: string)
    ensures AllDigits(r)
    ensures |r| <= |s|
  {
    if s == [] then []
    else (if IsDigit(s[0]) then [s[0]] else []) + DropUnderscores(s[1..])
  }

  lemma {:induction false} DropUnderscoresOfDigits(s: string)
    requires AllDigits(s)
    ensures DropUnderscores(s) == s
  {
    if s != [] {
      DropUnderscoresOfDigits(s[1..]);
    }
  }

  /** A numeral ends in a digit: an underscore must be followed by one. */
  lemma NumeralEndsInDigit(s: string)
    requires IsNumeral(s)
    ensures IsDigit(s[|s| - 1])
  {
    assert DigitOrJoiner(s, |s| - 1);
  }

  /** `int(s)` on ASCII input without surrounding blanks: an optional sign,
      then a numeral; anything else is a `ValueError`, modelled as `None`. */
  function ParseInt(s: string): (r: Option<int>)
    ensures s == [] ==> r == None
    ensures r.Some? <==> (IsNumeral(s) || (|s| > 0 && (s[0] == '-' || s[0] == '+') && IsNumeral(s[1..])))
    ensures r.Some? && |s| > 0 && s[0] == '-' ==> r.value <= 0
    ensures r.Some? && (|s| == 0 || s[0] != '-') ==> r.value >= 0
  {
    if |s| > 0 && s[0] == '-' && IsNumeral(s[1..]) then
      Some(-(DigitsValue(DropUnderscores(s[1..])) as int))
    else if |s| > 0 && s[0] == '+' && IsNumeral(s[1..]) then
      Some(DigitsValue(DropUnderscores(s[1..])) as int)
    else if IsNumeral(s) then
      Some(DigitsValue(DropUnderscores(s)) as int)
    else
      None
  }

  /** Every integer, written the way `str()` writes it, is read back by `int()`. */
  lemma ParseIntToString(i: int)
    ensures ParseInt(IntToString(i)) == Some(i)
  {
    var n: nat := if i < 0 then -i else i;
    var d := Decimal(n);
    DecimalValue(n);
    DropUnderscoresOfDigits(d);
    assert IsNumeral(d);
    if i < 0 {
      assert IntToString(i)[1..] == d;
    }
  }

  /** `int()` rejects a trailing underscore, signed or not ("Invalid amount"). */
  lemma TrailingUnderscoreRejected(s: string)
    ensures ParseInt(s + "_") == None
  {
    var t := s + "_";
    assert t[|t| - 1] == '_';
    if IsNumeral(t) {
      NumeralEndsInDigit(t);
    }
    if |t| > 1 && IsNumeral(t[1..]) {
      NumeralEndsInDigit(t[1..]);
    }
  }
}
