/** What `Number(text)` of JavaScript makes of a text, as far as a finite value is concerned. */
module NumberText {
  import opened Wrappers
  import opened Strings

  function Pow10(n: nat): int {
    if n == 0 then 1 else 10 * Pow10(n - 1)
  }

  lemma {:induction false} Pow10IsPositive(n: nat)
    ensures Pow10(n) > 0
  {
    if n > 0 {
      Pow10IsPositive(n - 1);
    }
  }

  function Scale(x: real, exponent: int): real {
    if exponent >= 0 then x * Pow10(exponent) as real
    else
      Pow10IsPositive(-exponent);
      x / Pow10(-exponent) as real
  }

  predicate AllDigits(s: string) {
    forall i :: 0 <= i < |s| ==> IsDigit(s[i])
  }

  /** Digits with at most one point among or around them. */
  function ParseMantissa(s: string): Option<real> {
    var point := IndexOf(s, '.');
    var whole := s[..point];
    var fraction := if point == |s| then "" else s[point + 1..];
    if whole + fraction == "" || !AllDigits(whole) || !AllDigits(fraction) then None
    else Some(Scale(Value(whole + fraction) as real, -|fraction|))
  }

  function ParseExponent(s: string): Option<int> {
    if s != "" && s[0] in "+-" then
      if Digits(s[1..]) then Some(if s[0] == '-' then 0 - Value(s[1..]) else Value(s[1..])) else None
    else if Digits(s) then Some(Value(s)) else None
  }

  /** The position of the first `e` or `E`, or the length of the text. */
  function ExponentMark(s: string): nat {
    var (small, capital) := (IndexOf(s, 'e'), IndexOf(s, 'E'));
    if small < capital then small else capital
  }

  lemma MarkIsInside(s: string)
    ensures ExponentMark(s) <= |s|
  {
  }

  function ParseUnsigned(s: string): Option<real> {
    MarkIsInside(s);
    var mark := ExponentMark(s);
    var mantissa := ParseMantissa(s[..mark]);
    var exponent := if mark == |s| then Some(0) else ParseExponent(s[mark + 1..]);
    if mantissa.None? || exponent.None? then None else Some(Scale(mantissa.value, exponent.value))
  }

  /** The value of a digit in some radix, or the radix itself for any other character. */
  function RadixDigit(c: char, radix: nat): nat {
    var n :=
      if '0' <= c <= '9' then c as int - '0' as int
      else if 'a' <= c <= 'f' then c as int - 'a' as int + 10
      else if 'A' <= c <= 'F' then c as int - 'A' as int + 10
      else radix;
    if n < radix then n else radix
  }

  predicate RadixDigits(s: string, radix: nat) {
    s != "" && forall i :: 0 <= i < |s| ==> RadixDigit(s[i], radix) < radix
  }

  function RadixValue(s: string, radix: nat): nat {
    if s == "" then 0 else radix * RadixValue(s[..|s| - 1], radix) + RadixDigit(s[|s| - 1], radix)
  }

  /** The radix a prefix such as `0x` announces; 10 without one. */
  function Radix(s: string): nat {
    if |s| < 2 || s[0] != '0' then 10
    else if s[1] in "xX" then 16
    else if s[1] in "oO" then 8
    else if s[1] in "bB" then 2
    else 10
  }

  /** The number a text stands for. Not a number, and the infinities, are None. */
  function NumberOf(text: string): Option<real> {
    var s := Trim(text);
    if s == "" then Some(0.0)
    else if Radix(s) != 10 then
      if RadixDigits(s[2..], Radix(s)) then Some(RadixValue(s[2..], Radix(s)) as real) else None
    else if s[0] == '+' then ParseUnsigned(s[1..])
    else if s[0] == '-' then
      var x := ParseUnsigned(s[1..]);
      if x.None? then None else Some(-x.value)
    else ParseUnsigned(s)
  }

  /** The integer a text stands for, if it is one that a JavaScript number holds exactly. */
  function SafeIntegerOf(text: string): Option<int> {
    var x := NumberOf(text);
    if x.None? || x.value.Floor as real != x.value then None
    else if x.value.Floor < 0 - MAX_SAFE_INTEGER || x.value.Floor > MAX_SAFE_INTEGER then None
    else Some(x.value.Floor)
  }

  // ---------------------------------------------------------------------------------------
  // Decimal numerals are read as what they say
  // ---------------------------------------------------------------------------------------

  lemma DigitsHaveNoMarks(s: string)
    requires Digits(s)
    ensures IndexOf(s, '.') == |s| && ExponentMark(s) == |s|
    ensures Radix(s) == 10 && s[0] !in "+-"
  {
    assert IsDigit(s[0]);
    assert |s| > 1 ==> IsDigit(s[1]);
    IndexOfIs(s, '.', |s|);
    IndexOfIs(s, 'e', |s|);
    IndexOfIs(s, 'E', |s|);
  }

  lemma UnsignedDigits(s: string)
    requires Digits(s)
    ensures ParseUnsigned(s) == Some(Value(s) as real)
  {
    hide Value;
    DigitsHaveNoMarks(s);
    assert s[..|s|] == s && s + "" == s;
    assert Pow10(0) == 1;
  }

  /** Digits with an exponent. */
  lemma ScientificNumeralsAreRead(n: nat, k: nat, mark: string)
    requires mark == "e" || mark == "E"
    ensures NumberOf(Decimal(n) + mark + Decimal(k)) == Some(Scale(n as real, k))
    ensures Scale(n as real, k) == n as real * Pow10(k) as real
  {
    ScaleUp(n as real, k);
    hide Scale, Pow10;
    var (d, e) := (Decimal(n), Decimal(k));
    ValueOfDecimal(n);
    ValueOfDecimal(k);
    UnsignedExponent(d, mark, e);
    PlainNumber(d, mark, e);
    hide ParseUnsigned, Value, Decimal, NumberOf;
  }

  /** A numeral that starts with digits and has no prefix is read without a sign. */
  lemma PlainNumber(d: string, mark: string, e: string)
    requires Digits(d) && Digits(e) && (mark == "e" || mark == "E")
    ensures NumberOf(d + mark + e) == ParseUnsigned(d + mark + e)
  {
    hide ParseUnsigned, Trim;
    var s := d + mark + e;
    assert s[0] == d[0] && IsDigit(s[0]);
    assert s[|s| - 1] == e[|e| - 1] && IsDigit(s[|s| - 1]);
    assert s[1] == if |d| > 1 then d[1] else mark[0];
    assert IsDigit(s[1]) || s[1] == 'e' || s[1] == 'E';
    TrimKeeps(s);
  }

  lemma ScaleUp(x: real, k: nat)
    ensures Scale(x, k) == x * Pow10(k) as real
  {
  }

  lemma UnsignedExponent(d: string, mark: string, e: string)
    requires Digits(d) && Digits(e) && (mark == "e" || mark == "E")
    ensures ParseUnsigned(d + mark + e) == Some(Scale(Value(d) as real, Value(e)))
  {
    hide Scale;
    var s := d + mark + e;
    MarkedAt(d, mark, e);
    assert s[..|d|] == d && s[|d| + 1..] == e;
    MantissaOfDigits(d);
    DigitsHaveNoMarks(e);
    hide ParseMantissa, Value, ExponentMark;
  }

  lemma MarkedAt(d: string, mark: string, e: string)
    requires Digits(d) && Digits(e) && (mark == "e" || mark == "E")
    ensures ExponentMark(d + mark + e) == |d|
  {
    var s := d + mark + e;
    assert forall j :: 0 <= j < |d| ==> s[j] == d[j] && IsDigit(s[j]);
    if mark == "e" {
      IndexOfIs(s, 'e', |d|);
    } else {
      IndexOfIs(s, 'E', |d|);
    }
  }

  lemma MantissaOfDigits(d: string)
    requires Digits(d)
    ensures ParseMantissa(d) == Some(Value(d) as real)
  {
    hide Value;
    DigitsHaveNoMarks(d);
    assert d[..|d|] == d && d + "" == d;
    assert Pow10(0) == 1;
  }

  /** Digits, with a sign or without, and with white space around them. */
  lemma NumeralsAreRead(left: string, n: nat, right: string)
    requires Blank(left) && Blank(right)
    ensures NumberOf(left + Decimal(n) + right) == Some(n as real)
    ensures NumberOf(left + ("+" + Decimal(n)) + right) == Some(n as real)
    ensures NumberOf(left + ("-" + Decimal(n)) + right) == Some(-(n as real))
  {
    hide ParseUnsigned, Value, Decimal, Trim;
    var d := Decimal(n);
    ValueOfDecimal(n);
    DigitsHaveNoMarks(d);
    UnsignedDigits(d);
    assert IsDigit(d[0]) && IsDigit(d[|d| - 1]);
    TrimPadded(left, d, right);
    TrimPadded(left, "+" + d, right);
    TrimPadded(left, "-" + d, right);
    assert ("+" + d)[1..] == d && ("-" + d)[1..] == d;
  }
}
