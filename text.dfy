/**
 * Character classes and string operations of JavaScript and Python that the
 * quiz pipeline relies on: trimming, ASCII lower-casing, splitting, decimal
 * rendering of integers and JavaScript's parseInt.
 */
module Text {
  import opened Wrappers

  /** White space as JavaScript's String.prototype.trim and the regex class \s see it. */
  predicate IsJsSpace(c: char) {
    c == '\t' || c == '\n' || c == '\U{B}' || c == '\U{C}' || c == '\r' || c == ' '
    || c == '\U{A0}' || c == '\U{1680}' || ('\U{2000}' <= c <= '\U{200A}')
    || c == '\U{2028}' || c == '\U{2029}' || c == '\U{202F}' || c == '\U{205F}'
    || c == '\U{3000}' || c == '\U{FEFF}'
  }

  /** JavaScript line terminators: the characters the regex `.` does not match. */
  predicate IsJsLineTerminator(c: char) {
    c == '\n' || c == '\r' || c == '\U{2028}' || c == '\U{2029}'
  }

  /** White space as Python's str.isspace, str.strip and the regex class \s see it. */
  predicate IsPySpace(c: char) {
    ('\t' <= c <= '\r') || ('\U{1C}' <= c <= '\U{1F}') || c == ' '
    || c == '\U{85}' || c == '\U{A0}' || c == '\U{1680}' || ('\U{2000}' <= c <= '\U{200A}')
    || c == '\U{2028}' || c == '\U{2029}' || c == '\U{202F}' || c == '\U{205F}' || c == '\U{3000}'
  }

  predicate IsAsciiUpper(c: char) { 'A' <= c <= 'Z' }
  predicate IsAsciiLetter(c: char) { 'A' <= c <= 'Z' || 'a' <= c <= 'z' }
  predicate IsAsciiDigit(c: char) { '0' <= c <= '9' }
  /** The word characters of a regex \w without Unicode support. */
  predicate IsAsciiWord(c: char) { IsAsciiLetter(c) || IsAsciiDigit(c) || c == '_' }

  function LowerChar(c: char): char {
    if IsAsciiUpper(c) then (c as int + 32) as char else c
  }

  /** Lower-casing, restricted to the ASCII letters. */
  function Lower(s: string): (r: string)
    ensures |r| == |s|
  {
    seq(|s|, i requires 0 <= i < |s| => LowerChar(s[i]))
  }

  /** Lower-casing leaves a string without upper-case letters unchanged. */
  lemma LowerNoUpper(s: string)
    requires forall i :: 0 <= i < |s| ==> !IsAsciiUpper(s[i])
    ensures Lower(s) == s
  {
  }

  /** No ASCII upper-case letter. */
  predicate IsLowerCase(s: string) {
    forall i :: 0 <= i < |s| ==> !IsAsciiUpper(s[i])
  }

  lemma LowerIsLowerCase(s: string)
    ensures IsLowerCase(Lower(s))
  {
  }

  /** Lower-casing twice is lower-casing once. */
  lemma LowerIdempotent(s: string)
    ensures Lower(Lower(s)) == Lower(s)
  {
    LowerNoUpper(Lower(s));
  }

  /** The truthiness of a string in JavaScript and in Python. */
  predicate NonEmpty(s: string) { s != [] }

  /** Removes the leading characters that satisfy `drop`. */
  function DropLeft(s: string, drop: char -> bool): (r: string)
    ensures |r| <= |s|
    ensures r != [] ==> !drop(r[0])
    ensures forall i :: 0 <= i < |s| - |r| ==> drop(s[i])
  {
    if s != [] && drop(s[0]) then DropLeft(s[1..], drop) else s
  }

  /**
   * What DropLeft keeps is a suffix. (A lemma rather than a postcondition: as a
   * postcondition it lets the solver rewrite slices of slices without end.)
   */
  lemma {:induction false} DropLeftSuffix(s: string, drop: char -> bool)
    ensures DropLeft(s, drop) == s[|s| - |DropLeft(s, drop)|..]
  {
    if s != [] && drop(s[0]) {
      DropLeftSuffix(s[1..], drop);
    }
  }

  /** Removes the trailing characters that satisfy `drop`. */
  function DropRight(s: string, drop: char -> bool): (r: string)
    ensures |r| <= |s| && r == s[..|r|]
    ensures r != [] ==> !drop(r[|r| - 1])
    ensures forall i :: |r| <= i < |s| ==> drop(s[i])
  {
    if s != [] && drop(s[|s| - 1]) then DropRight(s[..|s| - 1], drop) else s
  }

  /** Removes the characters that satisfy `drop` at both ends. */
  function StripWith(s: string, drop: char -> bool): (r: string)
    ensures |r| <= |s|
    ensures r != [] ==> !drop(r[0]) && !drop(r[|r| - 1])
  {
    DropRight(DropLeft(s, drop), drop)
  }

  lemma StripWithIdempotent(s: string, drop: char -> bool)
    ensures StripWith(StripWith(s, drop), drop) == StripWith(s, drop)
  {
    var r := StripWith(s, drop);
    assert DropLeft(r, drop) == r;
    assert DropRight(r, drop) == r;
  }

  /** A string none of whose characters satisfies `drop` is left alone. */
  lemma StripWithNone(s: string, drop: char -> bool)
    requires forall i :: 0 <= i < |s| ==> !drop(s[i])
    ensures StripWith(s, drop) == s
  {
    assert DropLeft(s, drop) == s;
  }

  /** A string whose first and last characters are kept is left alone. */
  lemma StripWithKeptEnds(s: string, drop: char -> bool)
    requires s != [] && !drop(s[0]) && !drop(s[|s| - 1])
    ensures StripWith(s, drop) == s
  {
    assert DropLeft(s, drop) == s;
  }

  /** JavaScript's String.prototype.trim. */
  function JsTrim(s: string): string { StripWith(s, IsJsSpace) }

  /** A string that starts and ends with visible characters is its own trim. */
  lemma JsTrimKeeps(s: string)
    requires s != [] && !IsJsSpace(s[0]) && !IsJsSpace(s[|s| - 1])
    ensures JsTrim(s) == s
  {
    StripWithKeptEnds(s, IsJsSpace);
  }

  /** Python's str.strip() without arguments. */
  function PyStrip(s: string): string { StripWith(s, IsPySpace) }

  /** Splits at every character satisfying `sep`, like JavaScript's split with a one-character separator. */
  function Split(s: string, sep: char -> bool): (r: seq<string>)
    ensures |r| >= 1
  {
    if s == [] then [[]]
    else
      var rest := Split(s[1..], sep);
      if sep(s[0]) then [[]] + rest else [[s[0]] + rest[0]] + rest[1..]
  }

  /** Splitting `a + [c] + b` at `c` yields `a` followed by the pieces of `b`, when `a` has no separator. */
  lemma {:induction false} SplitConcat(a: string, c: char, b: string, sep: char -> bool)
    requires sep(c)
    requires forall i :: 0 <= i < |a| ==> !sep(a[i])
    ensures Split(a + [c] + b, sep) == [a] + Split(b, sep)
  {
    if a == [] {
      assert a + [c] + b == [c] + b;
      assert ([c] + b)[1..] == b;
    } else {
      SplitConcat(a[1..], c, b, sep);
      assert (a + [c] + b)[1..] == a[1..] + [c] + b;
      assert [a[0]] + a[1..] == a;
    }
  }

  /** A string without a separator is one piece. */
  lemma {:induction false} SplitNone(a: string, sep: char -> bool)
    requires forall i :: 0 <= i < |a| ==> !sep(a[i])
    ensures Split(a, sep) == [a]
  {
    if a != [] {
      SplitNone(a[1..], sep);
      assert [a[0]] + a[1..] == a;
    }
  }

  /** The first piece of a split is the text up to the first separator. */
  lemma {:induction false} SplitHead(s: string, sep: char -> bool)
    ensures var h := Split(s, sep)[0];
      && |h| <= |s| && h == s[..|h|]
      && (forall i :: 0 <= i < |h| ==> !sep(h[i]))
      && (|h| < |s| ==> sep(s[|h|]))
  {
    if s != [] && !sep(s[0]) {
      SplitHead(s[1..], sep);
    }
  }

  /** No piece of a split holds a separator. */
  lemma {:induction false} SplitPiecesFree(s: string, sep: char -> bool)
    ensures forall k, i :: 0 <= k < |Split(s, sep)| && 0 <= i < |Split(s, sep)[k]| ==> !sep(Split(s, sep)[k][i])
  {
    if s != [] {
      SplitPiecesFree(s[1..], sep);
    }
  }

  /** Concatenation of `parts` with `glue` between consecutive parts (Python's str.join). */
  function Join(glue: string, parts: seq<string>): string {
    if parts == [] then []
    else if |parts| == 1 then parts[0]
    else parts[0] + glue + Join(glue, parts[1..])
  }

  /** Splitting parts joined by a separator character gives the parts back, when no part holds a separator. */
  lemma {:induction false} SplitJoin(parts: seq<string>, c: char, sep: char -> bool)
    requires parts != [] && sep(c)
    requires forall k, i :: 0 <= k < |parts| && 0 <= i < |parts[k]| ==> !sep(parts[k][i])
    ensures Split(Join([c], parts), sep) == parts
  {
    if |parts| == 1 {
      SplitNone(parts[0], sep);
    } else {
      SplitJoin(parts[1..], c, sep);
      SplitConcat(parts[0], c, Join([c], parts[1..]), sep);
      assert [parts[0]] + parts[1..] == parts;
    }
  }

  function DigitChar(d: int): char
    requires 0 <= d < 10
  {
    ('0' as int + d) as char
  }

  /** Decimal digits of a natural number, without leading zeros. */
  function NatToString(n: nat): (r: string)
    ensures |r| >= 1
    ensures forall i :: 0 <= i < |r| ==> IsAsciiDigit(r[i])
  {
    if n < 10 then [DigitChar(n)] else NatToString(n / 10) + [DigitChar(n % 10)]
  }

  /** Decimal rendering of an integer, as JavaScript's String(n) and Python's str(n) give it. */
  function IntToString(n: int): string {
    if n < 0 then "-" + NatToString(-n) else NatToString(n)
  }

  /** The value of a string of decimal digits (leading zeros allowed). */
  function DigitsValue(s: string): (v: int)
    requires forall i :: 0 <= i < |s| ==> IsAsciiDigit(s[i])
    ensures v >= 0
  {
    if s == [] then 0
    else
      assert IsAsciiDigit(s[|s| - 1]);
      DigitsValue(s[..|s| - 1]) * 10 + (s[|s| - 1] as int - '0' as int)
  }

  lemma {:induction false} DigitsValueOfNatToString(n: nat)
    ensures DigitsValue(NatToString(n)) == n
  {
    if n >= 10 {
      var s := NatToString(n);
      assert s[..|s| - 1] == NatToString(n / 10);
      DigitsValueOfNatToString(n / 10);
    }
  }

  /** Length of the longest prefix of `s` made of ASCII digits. */
  function DigitPrefixLength(s: string): (k: nat)
    ensures k <= |s|
    ensures forall i :: 0 <= i < k ==> IsAsciiDigit(s[i])
    ensures k < |s| ==> !IsAsciiDigit(s[k])
  {
    if s != [] && IsAsciiDigit(s[0]) then 1 + DigitPrefixLength(s[1..]) else 0
  }

  lemma {:induction false} DigitPrefixOfDigits(s: string)
    requires forall i :: 0 <= i < |s| ==> IsAsciiDigit(s[i])
    ensures DigitPrefixLength(s) == |s|
  {
    if s != [] {
      DigitPrefixOfDigits(s[1..]);
    }
  }

  /**
   * JavaScript's parseInt(s, 10): leading white space is skipped, an optional
   * sign is read, then the longest run of decimal digits; None stands for NaN.
   */
  function ParseIntJs(s: string): (r: Option<int>)
    ensures r.Some? <==>
      var t := DropLeft(s, IsJsSpace);
      var u := if t != [] && (t[0] == '-' || t[0] == '+') then t[1..] else t;
      u != [] && IsAsciiDigit(u[0])
  {
    var t := DropLeft(s, IsJsSpace);
    var negative := t != [] && t[0] == '-';
    var u := if t != [] && (t[0] == '-' || t[0] == '+') then t[1..] else t;
    var k := DigitPrefixLength(u);
    if k == 0 then None
    else
      var v: int := DigitsValue(u[..k]);
      Some(if negative then -v else v)
  }

  /** parseInt reads back an unsigned digit string unchanged. */
  lemma ParseIntOfDigits(digits: string)
    requires IsDigitString(digits)
    ensures ParseIntJs(digits) == Some(DigitsValue(digits))
  {
    DigitPrefixOfDigits(digits);
    assert DropLeft(digits, IsJsSpace) == digits;
    assert digits[..|digits|] == digits;
  }

  /** parseInt reads back a '-' followed by a digit string as its negation. */
  lemma ParseIntOfNegativeDigits(digits: string)
    requires IsDigitString(digits)
    ensures ParseIntJs("-" + digits) == Some(-DigitsValue(digits))
  {
    var s := "-" + digits;
    DigitPrefixOfDigits(digits);
    assert DropLeft(s, IsJsSpace) == s;
    assert s[1..] == digits;
    assert digits[..|digits|] == digits;
  }

  /** Rendering an integer in decimal and parsing it back with parseInt gives the integer. */
  lemma ParseIntOfIntToString(n: int)
    ensures ParseIntJs(IntToString(n)) == Some(n)
  {
    var m: nat := if n < 0 then -n else n;
    DigitsValueOfNatToString(m);
    if n < 0 {
      ParseIntOfNegativeDigits(NatToString(m));
    } else {
      ParseIntOfDigits(NatToString(m));
    }
  }

  /** Python's str.isdigit, restricted to ASCII digits. */
  predicate IsDigitString(s: string) {
    |s| > 0 && forall i :: 0 <= i < |s| ==> IsAsciiDigit(s[i])
  }

  /** Python's str(n) of a non-negative integer is a digit string whose int() is n. */
  lemma DigitStringOfNat(n: nat)
    ensures IsDigitString(IntToString(n)) && DigitsValue(IntToString(n)) == n
  {
    DigitsValueOfNatToString(n);
  }

  /** Python's str(n) of a negative integer starts with '-' and is not a digit string. */
  lemma NegativeNotDigitString(n: int)
    requires n < 0
    ensures !IsDigitString(IntToString(n))
  {
    assert IntToString(n)[0] == '-';
  }
}
