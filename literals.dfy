/** The literal decoder for option arguments (TypeParser.parseLiteral): a quoted
    string, a floating-point number or a 32-bit integer. */
module Literals {
  import opened Errors

  /** A decoded literal. The value of a float is not modelled, only that the
      float branch accepted the text. */
  datatype Literal = StringLiteral(s: string) | IntLiteral(i: int) | FloatLiteral(text: string)

  const MinInt: int := -0x8000_0000
  const MaxInt: int := 0x7fff_ffff

  predicate IsDigit(c: char) { '0' <= c <= '9' }

  predicate AllDigits(s: string) { forall k :: 0 <= k < |s| ==> IsDigit(s[k]) }

  function DigitValue(c: char): nat
    requires IsDigit(c)
  {
    c as int - '0' as int
  }

  /** The value of a decimal digit string, read most significant digit first. */
  function DigitsValue(s: string): nat
    requires AllDigits(s)
  {
    if s == [] then 0 else DigitsValue(s[..|s| - 1]) * 10 + DigitValue(s[|s| - 1])
  }

  /** Integer.parseInt with radix 10: an optional sign, at least one digit, and
      a value within the 32-bit signed range. */
  function ParseInt(s: string): (r: Option<int>)
    ensures r.Some? ==> MinInt <= r.value <= MaxInt
    ensures r.Some? ==> s != [] && '.' !in s
  {
    var start := if |s| > 0 && (s[0] == '-' || s[0] == '+') then 1 else 0;
    var ds := s[start..];
    if |ds| == 0 || !AllDigits(ds) then None
    else
      var v: int := if start == 1 && s[0] == '-' then -(DigitsValue(ds) as int) else DigitsValue(ds);
      if MinInt <= v <= MaxInt then
        assert forall k :: 0 <= k < |s| ==> s[k] != '.' by {
          forall k | 0 <= k < |s| ensures s[k] != '.' {
            if k >= start { assert s[k] == ds[k - start]; }
          }
        }
        Some(v)
      else None
  }

  /** A character String.trim removes from either end. */
  predicate IsBlank(c: char) { c <= ' ' }

  /** Blanks removed from the end: a prefix that does not end in a blank,
      followed in `s` by blanks only. */
  function TrimEnd(s: string): (r: string)
    ensures r <= s
    ensures r != [] ==> !IsBlank(r[|r| - 1])
    ensures forall k :: |r| <= k < |s| ==> IsBlank(s[k])
  {
    if s != [] && IsBlank(s[|s| - 1]) then TrimEnd(s[..|s| - 1]) else s
  }

  /** The number of blanks `s` starts with. */
  function LeadingBlanks(s: string): (i: nat)
    ensures i <= |s|
    ensures forall k :: 0 <= k < i ==> IsBlank(s[k])
    ensures i < |s| ==> !IsBlank(s[i])
  {
    if s != [] && IsBlank(s[0]) then
      var i := 1 + LeadingBlanks(s[1..]);
      assert forall k :: 1 <= k < i ==> s[k] == s[1..][k - 1];
      i
    else 0
  }

  /** String.trim: blanks removed from both ends. What is left starts right
      after the leading blanks, has no blank at either end, and only blanks
      follow it in `s`. */
  function Trim(s: string): (r: string)
    ensures r <= s[LeadingBlanks(s)..]
    ensures r != [] ==> !IsBlank(r[0]) && !IsBlank(r[|r| - 1])
    ensures forall k :: LeadingBlanks(s) + |r| <= k < |s| ==> IsBlank(s[k])
  {
    if s != [] && IsBlank(s[0]) then
      var r := Trim(s[1..]);
      assert s[1..][LeadingBlanks(s[1..])..] == s[LeadingBlanks(s)..];
      assert forall k :: LeadingBlanks(s) + |r| <= k < |s| ==> s[k] == s[1..][k - 1];
      r
    else TrimEnd(s)
  }

  /** The first index at or after `i` that does not hold a digit. */
  function DigitRunEnd(s: string, i: nat): (j: nat)
    requires i <= |s|
    ensures i <= j <= |s|
    ensures forall k :: i <= k < j ==> IsDigit(s[k])
    ensures j < |s| ==> !IsDigit(s[j])
    decreases |s| - i
  {
    if i < |s| && IsDigit(s[i]) then DigitRunEnd(s, i + 1) else i
  }

  /** Where an optional exponent starting at `i` ends; None when an exponent
      letter is not followed by at least one digit. */
  function ExponentEnd(s: string, i: nat): (r: Option<nat>)
    requires i <= |s|
    ensures r.Some? ==> i <= r.value <= |s|
  {
    if i < |s| && (s[i] == 'e' || s[i] == 'E') then
      var d := if i + 1 < |s| && (s[i + 1] == '+' || s[i + 1] == '-') then i + 2 else i + 1;
      var f := DigitRunEnd(s, d);
      if f == d then None else Some(f)
    else Some(i)
  }

  predicate IsTypeSuffix(c: char) { c == 'f' || c == 'F' || c == 'd' || c == 'D' }

  /** The decimal form Float.parseFloat accepts (after trimming): an optional
      sign, digits with an optional decimal point and at least one digit, an
      optional exponent, and an optional one-letter type suffix. */
  predicate DecimalFloat(s: string)
  {
    var a := if |s| > 0 && (s[0] == '+' || s[0] == '-') then 1 else 0;
    var b := DigitRunEnd(s, a);
    var c := if b < |s| && s[b] == '.' then DigitRunEnd(s, b + 1) else b;
    var mantissaDigits := (b - a) + (if c > b then c - b - 1 else 0);
    var e := ExponentEnd(s, c);
    && mantissaDigits > 0
    && e.Some?
    && (e.value == |s| || (e.value == |s| - 1 && IsTypeSuffix(s[e.value])))
  }

  /** Text that starts and ends with a single quote. */
  predicate Quoted(text: string)
  {
    |text| > 0 && text[0] == '\'' && text[|text| - 1] == '\''
  }

  /** parseLiteral. The quote test comes first, then the test for a decimal
      point, then the integer parse; every failure is "Could not parse literal". */
  function ParseLiteral(text: string): (r: Result<Literal>)
    ensures r.Err? ==> r.error == LiteralParseError(text)
    ensures r.Ok? && r.value.StringLiteral? ==> text == "'" + r.value.s + "'"
    ensures r.Ok? && r.value.FloatLiteral? ==> !Quoted(text) && '.' in text && r.value.text == text
    ensures r.Ok? && r.value.IntLiteral? ==>
      !Quoted(text) && '.' !in text && MinInt <= r.value.i <= MaxInt
  {
    if Quoted(text) then
      // a lone quote fails: substring(1, 0) throws
      if |text| >= 2 then
        assert text == "'" + text[1..|text| - 1] + "'";
        Ok(StringLiteral(text[1..|text| - 1]))
      else Err(LiteralParseError(text))
    else if '.' in text then
      if DecimalFloat(Trim(text)) then Ok(FloatLiteral(text)) else Err(LiteralParseError(text))
    else
      match ParseInt(text)
      case Some(v) => Ok(IntLiteral(v))
      case None => Err(LiteralParseError(text))
  }

  // ----- the integer printer, the partner of ParseInt -----

  function DigitChar(d: nat): (c: char)
    requires d < 10
    ensures IsDigit(c) && DigitValue(c) == d
  {
    ('0' as int + d) as char
  }

  /** The decimal digits of a natural number, without leading zeros. */
  function NatDigits(n: nat): (s: string)
    decreases n
  {
    if n < 10 then [DigitChar(n)] else NatDigits(n / 10) + [DigitChar(n % 10)]
  }

  /** Integer.toString: a minus sign for negatives, then the digits. */
  function FormatInt(i: int): string
  {
    if i < 0 then "-" + NatDigits(-i) else NatDigits(i)
  }

  lemma {:induction false} NatDigitsValue(n: nat)
    ensures |NatDigits(n)| > 0 && AllDigits(NatDigits(n))
    ensures DigitsValue(NatDigits(n)) == n
    decreases n
  {
    if n >= 10 {
      NatDigitsValue(n / 10);
      var s := NatDigits(n);
      assert s[..|s| - 1] == NatDigits(n / 10);
    }
  }

  /** Every 32-bit integer, printed in decimal, parses back to itself. */
  lemma IntRoundTrip(i: int)
    requires MinInt <= i <= MaxInt
    ensures ParseInt(FormatInt(i)) == Some(i)
  {
    var n: nat := if i < 0 then -i else i;
    NatDigitsValue(n);
    var s := FormatInt(i);
    if i < 0 {
      assert s[1..] == NatDigits(n);
    } else {
      assert IsDigit(s[0]);
    }
  }

  /** Every 32-bit integer literal decodes to its value. */
  lemma IntLiteralRoundTrip(i: int)
    requires MinInt <= i <= MaxInt
    ensures ParseLiteral(FormatInt(i)) == Ok(IntLiteral(i))
  {
    IntRoundTrip(i);
    var s := FormatInt(i);
    NatDigitsValue(if i < 0 then -i else i);
    assert s[0] == '-' || IsDigit(s[0]);
    assert !Quoted(s);
  }

  /** Any text between single quotes decodes to that text verbatim: there is no
      escape processing, so quotes and dots inside stay as they are. */
  lemma QuotedRoundTrip(s: string)
    ensures ParseLiteral("'" + s + "'") == Ok(StringLiteral(s))
  {
    var t := "'" + s + "'";
    assert Quoted(t);
    assert t[1..|t| - 1] == s;
  }

  /** A lone single quote is not a literal. */
  lemma LoneQuoteFails()
    ensures ParseLiteral("'") == Err(LiteralParseError("'"))
  {
  }

  /** Unquoted text with a decimal point takes the float branch: it is a float
      exactly when it has the decimal float form, and never an integer. */
  lemma DottedTextIsFloat(text: string)
    requires !Quoted(text) && '.' in text
    ensures ParseLiteral(text).Ok? <==> DecimalFloat(Trim(text))
    ensures ParseLiteral(text).Ok? ==> ParseLiteral(text) == Ok(FloatLiteral(text))
  {
  }

  /** The decoder on four sample texts: the quoted string abc, 3, 3.5 and the bare word abc. */
  lemma SampleQuotedLiteral()
    ensures ParseLiteral("'abc'") == Ok(StringLiteral("abc"))
  {
    QuotedRoundTrip("abc");
    assert "'" + "abc" + "'" == "'abc'";
  }

  lemma SampleIntLiteral()
    ensures ParseLiteral("3") == Ok(IntLiteral(3))
  {
    IntLiteralRoundTrip(3);
    assert FormatInt(3) == "3";
  }

  lemma SampleFloatLiteral()
    ensures ParseLiteral("3.5") == Ok(FloatLiteral("3.5"))
  {
    var f := "3.5";
    assert f[0] == '3' && f[1] == '.' && f[2] == '5';
    assert Trim(f) == f;
    assert DigitRunEnd(f, 0) == 1;
    assert DigitRunEnd(f, 2) == 3;
  }

  lemma SampleBadLiteral()
    ensures ParseLiteral("abc").Err?
  {
    var x := "abc";
    assert x[0] == 'a';
    assert '.' !in x;
  }
}
