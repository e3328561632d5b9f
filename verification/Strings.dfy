/** The string operations the configuration parsers use: trim, split, join and decimal numbers. */
module Strings {
  /** White space as String.prototype.trim removes it. */
  predicate IsSpace(c: char) {
    var n := c as int;
    || 9 <= n <= 13 || n == 0x20 || n == 0xA0 || n == 0x1680 || 0x2000 <= n <= 0x200A
    || n == 0x2028 || n == 0x2029 || n == 0x202F || n == 0x205F || n == 0x3000 || n == 0xFEFF
  }

  function TrimStart(s: string): string {
    if s != "" && IsSpace(s[0]) then TrimStart(s[1..]) else s
  }

  function TrimEnd(s: string): string {
    if s != "" && IsSpace(s[|s| - 1]) then TrimEnd(s[..|s| - 1]) else s
  }

  function Trim(s: string): string {
    TrimEnd(TrimStart(s))
  }

  /** The first position of c, or the length of the text. */
  function IndexOf(s: string, c: char): (i: nat)
    ensures i <= |s|
    ensures i < |s| ==> s[i] == c
    ensures forall j :: 0 <= j < i ==> s[j] != c
  {
    if s == "" || s[0] == c then 0 else 1 + IndexOf(s[1..], c)
  }

  function Split(s: string, separator: char): (parts: seq<string>)
    ensures parts != []
    decreases |s|
  {
    var i := IndexOf(s, separator);
    if i == |s| then [s] else [s[..i]] + Split(s[i + 1..], separator)
  }

  function Join(parts: seq<string>, separator: string): string {
    if parts == [] then ""
    else if |parts| == 1 then parts[0]
    else parts[0] + separator + Join(parts[1..], separator)
  }

  lemma IndexOfIs(s: string, c: char, i: nat)
    requires i <= |s| && (i < |s| ==> s[i] == c) && forall j :: 0 <= j < i ==> s[j] != c
    ensures IndexOf(s, c) == i
  {
  }

  lemma {:induction false} SplitOfJoin(parts: seq<string>, separator: char)
    requires parts != [] && forall p :: p in parts ==> separator !in p
    ensures Split(Join(parts, [separator]), separator) == parts
    decreases |parts|
  {
    var first := parts[0];
    assert first in parts;
    if |parts| == 1 {
      IndexOfIs(first, separator, |first|);
    } else {
      var rest := Join(parts[1..], [separator]);
      var s := first + [separator] + rest;
      assert forall j :: 0 <= j < |first| ==> s[j] == first[j] && s[j] in first;
      IndexOfIs(s, separator, |first|);
      SplitOfJoin(parts[1..], separator);
      assert s[|first| + 1..] == rest && s[..|first|] == first;
    }
  }

  lemma {:induction false} JoinOfSplit(s: string, separator: char)
    ensures Join(Split(s, separator), [separator]) == s
    decreases |s|
  {
    var i := IndexOf(s, separator);
    if i < |s| {
      JoinOfSplit(s[i + 1..], separator);
      var rest := Split(s[i + 1..], separator);
      assert ([s[..i]] + rest)[1..] == rest;
      assert s == s[..i] + [separator] + s[i + 1..];
    }
  }

  /** A text that neither starts nor ends with white space is left alone. */
  lemma TrimKeeps(s: string)
    requires s != "" ==> !IsSpace(s[0]) && !IsSpace(s[|s| - 1])
    ensures Trim(s) == s
  {
  }

  predicate Blank(s: string) {
    forall i :: 0 <= i < |s| ==> IsSpace(s[i])
  }

  /** White space around a text that has none at its ends is removed, and nothing else. */
  lemma TrimPadded(left: string, s: string, right: string)
    requires Blank(left) && Blank(right) && s != "" && !IsSpace(s[0]) && !IsSpace(s[|s| - 1])
    ensures Trim(left + s + right) == s
  {
    TrimLeftPadding(left, s + right);
    assert left + s + right == left + (s + right);
    TrimRightPadding(s, right);
  }

  lemma {:induction false} TrimLeftPadding(left: string, s: string)
    requires Blank(left) && s != "" && !IsSpace(s[0])
    ensures TrimStart(left + s) == s
  {
    if left == "" {
      assert left + s == s;
    } else {
      assert (left + s)[1..] == left[1..] + s;
      TrimLeftPadding(left[1..], s);
    }
  }

  lemma {:induction false} TrimRightPadding(s: string, right: string)
    requires Blank(right) && s != "" && !IsSpace(s[|s| - 1])
    ensures TrimEnd(s + right) == s
  {
    if right == "" {
      assert s + right == s;
    } else {
      assert (s + right)[..|s + right| - 1] == s + right[..|right| - 1];
      TrimRightPadding(s, right[..|right| - 1]);
    }
  }

  lemma {:induction false} BlankIsTrimmed(s: string)
    requires Blank(s)
    ensures Trim(s) == ""
  {
    if s != "" {
      BlankIsTrimmed(s[1..]);
    }
  }

  lemma {:induction false} TrimEndKeepsFirst(s: string)
    requires s != "" && !IsSpace(s[0])
    ensures TrimEnd(s) != "" && TrimEnd(s)[0] == s[0]
  {
    if IsSpace(s[|s| - 1]) {
      TrimEndKeepsFirst(s[..|s| - 1]);
    }
  }

  /** What trimming removes. */
  lemma Padding(s: string) returns (left: string, right: string)
    ensures Blank(left) && Blank(right) && s == left + Trim(s) + right
  {
    left := LeftPadding(s);
    right := RightPadding(TrimStart(s));
    assert s == left + (Trim(s) + right);
  }

  lemma {:induction false} LeftPadding(s: string) returns (left: string)
    ensures Blank(left) && s == left + TrimStart(s)
  {
    left := "";
    if s != "" && IsSpace(s[0]) {
      var more := LeftPadding(s[1..]);
      left := [s[0]] + more;
    }
  }

  lemma {:induction false} RightPadding(s: string) returns (right: string)
    ensures Blank(right) && s == TrimEnd(s) + right
  {
    right := "";
    if s != "" && IsSpace(s[|s| - 1]) {
      var more := RightPadding(s[..|s| - 1]);
      right := more + [s[|s| - 1]];
    }
  }

  /** A text with something visible in it is not blank. */
  lemma VisibleText(s: string, i: nat)
    requires i < |s| && !IsSpace(s[i])
    ensures Trim(s) != ""
  {
    var left, right := Padding(s);
    assert Blank(left + right);
    assert Trim(s) == "" ==> s == left + right;
  }

  // ---------------------------------------------------------------------------------------
  // Decimal numbers
  // ---------------------------------------------------------------------------------------

  const MAX_SAFE_INTEGER: nat := 9007199254740991

  predicate IsDigit(c: char) {
    '0' <= c <= '9'
  }

  predicate Digits(s: string) {
    s != "" && forall i :: 0 <= i < |s| ==> IsDigit(s[i])
  }

  function Value(s: string): nat
    requires forall i :: 0 <= i < |s| ==> IsDigit(s[i])
  {
    if s == "" then 0
    else
      assert IsDigit(s[|s| - 1]);
      10 * Value(s[..|s| - 1]) + (s[|s| - 1] as int - '0' as int)
  }

  function Decimal(n: nat): (s: string)
    ensures Digits(s)
  {
    var last := [((n % 10) + '0' as int) as char];
    if n < 10 then last else Decimal(n / 10) + last
  }

  lemma {:induction false} ValueOfDecimal(n: nat)
    ensures Value(Decimal(n)) == n
  {
    var s := Decimal(n);
    if n >= 10 {
      ValueOfDecimal(n / 10);
      assert s[..|s| - 1] == Decimal(n / 10);
    } else {
      assert s[..|s| - 1] == "";
    }
  }

  /** Leading zeros do not count. */
  lemma {:induction false} ValueOfPadded(zeros: string, s: string)
    requires (forall i :: 0 <= i < |zeros| ==> zeros[i] == '0') && forall i :: 0 <= i < |s| ==> IsDigit(s[i])
    ensures Value(zeros + s) == Value(s)
    decreases |zeros| + |s|
  {
    var all := zeros + s;
    if s != "" {
      assert all[..|all| - 1] == zeros + s[..|s| - 1];
      ValueOfPadded(zeros, s[..|s| - 1]);
    } else if zeros != "" {
      assert all[..|all| - 1] == zeros[..|zeros| - 1] + "";
      ValueOfPadded(zeros[..|zeros| - 1], "");
    }
  }

  lemma DigitsAreTrimmed(s: string)
    requires Digits(s)
    ensures Trim(s) == s && ',' !in s && '-' !in s
  {
    assert IsDigit(s[0]) && IsDigit(s[|s| - 1]);
    TrimKeeps(s);
  }
}
