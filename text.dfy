/**
 * String operations with the semantics of Python's `str` and JavaScript's `String`
 * methods that the program uses, restricted to the ASCII range: case mapping,
 * whitespace stripping, splitting on a separator, substring search, decimal
 * rendering and parsing of integers.
 */
module Text {
  import opened Common

  /** Python's `str.isspace()` on the ASCII range (what `strip()` and `split()` remove). */
  predicate IsSpace(c: char) {
    c == ' ' || c == '\t' || c == '\n' || c == '\r' || c == '\U{0B}' || c == '\U{0C}'
    || c == '\U{1C}' || c == '\U{1D}' || c == '\U{1E}' || c == '\U{1F}'
  }

  predicate IsDigit(c: char) {
    '0' <= c <= '9'
  }

  function LowerChar(c: char): char {
    if 'A' <= c <= 'Z' then (c as int + 32) as char else c
  }

  function UpperChar(c: char): char {
    if 'a' <= c <= 'z' then (c as int - 32) as char else c
  }

  /** `str.lower()` / `String.toLowerCase()`: maps A-Z to a-z, every other character unchanged. */
  function Lower(s: string): (r: string)
    ensures |r| == |s|
    ensures forall i :: 0 <= i < |s| ==> r[i] == LowerChar(s[i])
  {
    if s == [] then [] else [LowerChar(s[0])] + Lower(s[1..])
  }

  /** `str.upper()`: maps a-z to A-Z. */
  function Upper(s: string): (r: string)
    ensures |r| == |s|
    ensures forall i :: 0 <= i < |s| ==> r[i] == UpperChar(s[i])
  {
    if s == [] then [] else [UpperChar(s[0])] + Upper(s[1..])
  }

  /** Lower-casing forgets any earlier case mapping of a character. */
  lemma LowerCharForgetsCase(c: char)
    ensures LowerChar(UpperChar(c)) == LowerChar(c) && LowerChar(LowerChar(c)) == LowerChar(c)
  {
  }

  /** Lower-casing a string forgets any earlier upper- or lower-casing. */
  lemma LowerForgetsCase(s: string)
    ensures Lower(Upper(s)) == Lower(s) && Lower(Lower(s)) == Lower(s)
  {
    forall i | 0 <= i < |s|
      ensures Lower(Upper(s))[i] == Lower(s)[i] && Lower(Lower(s))[i] == Lower(s)[i]
    {
      LowerCharForgetsCase(s[i]);
    }
  }

  /** Drops leading whitespace. */
  function TrimStart(s: string): (r: string)
    ensures |r| <= |s| && r == s[|s| - |r|..]
    ensures r == [] || !IsSpace(r[0])
    ensures forall i :: 0 <= i < |s| - |r| ==> IsSpace(s[i])
  {
    if s != [] && IsSpace(s[0]) then
      var r := TrimStart(s[1..]);
      assert s[1..][|s| - 1 - |r|..] == s[|s| - |r|..];
      r
    else s
  }

  /** Drops trailing whitespace. */
  function TrimEnd(s: string): (r: string)
    ensures |r| <= |s| && r == s[..|r|]
    ensures r == [] || !IsSpace(r[|r| - 1])
    ensures forall i :: |r| <= i < |s| ==> IsSpace(s[i])
  {
    if s != [] && IsSpace(s[|s| - 1]) then TrimEnd(s[..|s| - 1]) else s
  }

  /** Python's `str.strip()`: the longest slice of `s` that neither starts nor ends with whitespace. */
  function Strip(s: string): (r: string)
    ensures var k := LeadingSpaces(s);
      && k + |r| <= |s| && r == s[k..k + |r|]
      && (forall i :: 0 <= i < k ==> IsSpace(s[i]))
      && (forall i :: k + |r| <= i < |s| ==> IsSpace(s[i]))
    ensures r == [] || (!IsSpace(r[0]) && !IsSpace(r[|r| - 1]))
  {
    var t := TrimStart(s);
    var r := TrimEnd(t);
    assert r == s[|s| - |t|..|s| - |t| + |r|];
    r
  }

  /** How many characters `strip()` removes from the front of `s`. */
  function LeadingSpaces(s: string): nat {
    |s| - |TrimStart(s)|
  }

  /** Stripping leaves a string whose ends are not whitespace alone. */
  lemma StripIdempotent(s: string)
    ensures Strip(Strip(s)) == Strip(s)
  {
    var r := Strip(s);
    if r != [] {
      assert TrimStart(r) == r;
      assert TrimEnd(r) == r;
    }
  }

  /** `needle` occurs in `s` starting at index `i`. */
  predicate OccursAt(s: string, needle: string, i: nat) {
    i + |needle| <= |s| && s[i..i + |needle|] == needle
  }

  /** Python's `needle in s` and JavaScript's `s.includes(needle)` for strings. */
  predicate Contains(s: string, needle: string) {
    exists i: nat :: i <= |s| - |needle| && OccursAt(s, needle, i)
  }

  /** Python's `s.startswith(prefix)` and JavaScript's `s.startsWith(prefix)`. */
  predicate StartsWith(s: string, prefix: string) {
    |prefix| <= |s| && s[..|prefix|] == prefix
  }

  /** JavaScript's `s.lastIndexOf(c)` for one character: the last index holding `c`, or -1. */
  function LastIndexOf(s: string, c: char): (k: int)
    ensures -1 <= k < |s|
    ensures k >= 0 ==> s[k] == c
    ensures forall j :: k < j < |s| ==> s[j] != c
  {
    if s == [] then -1
    else if s[|s| - 1] == c then |s| - 1
    else LastIndexOf(s[..|s| - 1], c)
  }

  /** JavaScript's `s.indexOf(c)` for one character: the first index holding `c`, or -1. */
  function IndexOf(s: string, c: char): (k: int)
    ensures -1 <= k < |s|
    ensures k >= 0 ==> s[k] == c
    ensures forall j :: 0 <= j < |s| && (k < 0 || j < k) ==> s[j] != c
  {
    if s == [] then -1
    else if s[0] == c then 0
    else var k := IndexOf(s[1..], c); if k < 0 then -1 else k + 1
  }

  /** Python's `s.split(sep)` for a one-character separator: one part more than there are separators. */
  function Split(s: string, sep: char): (parts: seq<string>)
    ensures |parts| >= 1
    decreases |s|
  {
    var k := LastIndexOf(s, sep);
    if k < 0 then [s] else Split(s[..k], sep) + [s[k + 1..]]
  }

  /** `s.split(sep)` gives one part more than `s` holds separators. */
  lemma {:induction false} SplitCountsSeparators(s: string, sep: char)
    ensures |Split(s, sep)| == 1 + multiset(s)[sep]
    decreases |s|
  {
    var k := LastIndexOf(s, sep);
    if k < 0 {
      assert sep !in s;
    } else {
      var tail := s[k + 1..];
      assert s == s[..k] + [s[k]] + tail;
      assert sep !in tail by {
        assert forall j :: 0 <= j < |tail| ==> tail[j] == s[k + 1 + j];
      }
      SplitCountsSeparators(s[..k], sep);
    }
  }

  /** Python's `sep.join(parts)`. */
  function Join(parts: seq<string>, sep: char): string
    requires |parts| >= 1
  {
    if |parts| == 1 then parts[0] else Join(parts[..|parts| - 1], sep) + [sep] + parts[|parts| - 1]
  }

  /** Joining the parts of a split with the same separator gives back the string. */
  lemma {:induction false} SplitJoin(s: string, sep: char)
    ensures Join(Split(s, sep), sep) == s
    decreases |s|
  {
    var k := LastIndexOf(s, sep);
    if k >= 0 {
      SplitJoin(s[..k], sep);
      var parts := Split(s[..k], sep);
      var whole := parts + [s[k + 1..]];
      assert Split(s, sep) == whole;
      assert whole[..|whole| - 1] == parts;
      assert s == s[..k] + [sep] + s[k + 1..];
    }
  }

  /** No part of a split holds the separator. */
  lemma {:induction false} SplitPartsOmitSeparator(s: string, sep: char)
    ensures forall p :: p in Split(s, sep) ==> sep !in p
    decreases |s|
  {
    var k := LastIndexOf(s, sep);
    if k >= 0 {
      SplitPartsOmitSeparator(s[..k], sep);
      var last := s[k + 1..];
      assert forall j :: 0 <= j < |last| ==> last[j] == s[k + 1 + j];
      assert Split(s, sep) == Split(s[..k], sep) + [last];
    } else {
      assert forall j :: 0 <= j < |s| ==> s[j] != sep;
    }
  }

  /** The last part of `s.split(sep)` is what follows the last separator, or all of `s` without one. */
  lemma SplitLast(s: string, sep: char)
    ensures var parts := Split(s, sep); parts[|parts| - 1] == s[LastIndexOf(s, sep) + 1..]
  {
  }

  /** `IndexOf` is the only index with its contract. */
  lemma IndexOfIs(s: string, c: char, k: int)
    requires -1 <= k < |s|
    requires k >= 0 ==> s[k] == c
    requires forall j :: 0 <= j < |s| && (k < 0 || j < k) ==> s[j] != c
    ensures IndexOf(s, c) == k
  {
  }

  /** The first part of `s.split(sep)` is what precedes the first separator, or all of `s` without one. */
  lemma {:induction false} SplitFirst(s: string, sep: char)
    ensures var k := IndexOf(s, sep); Split(s, sep)[0] == if k < 0 then s else s[..k]
    decreases |s|
  {
    var k := LastIndexOf(s, sep);
    if k >= 0 {
      var t := s[..k];
      SplitFirst(t, sep);
      var i := IndexOf(t, sep);
      assert Split(s, sep) == Split(t, sep) + [s[k + 1..]];
      if i < 0 {
        assert forall j :: 0 <= j < k ==> s[j] == t[j];
        IndexOfIs(s, sep, k);
      } else {
        assert forall j :: 0 <= j < i ==> s[j] == t[j];
        IndexOfIs(s, sep, i);
        assert t[..i] == s[..i];
      }
    } else {
      IndexOfIs(s, sep, -1);
    }
  }

  /** JavaScript's `s.replace(a, b)` with a one-character string pattern: only the first occurrence changes. */
  function ReplaceFirst(s: string, a: char, b: char): (r: string)
    ensures |r| == |s|
    ensures var k := IndexOf(s, a);
      forall i :: 0 <= i < |s| ==> r[i] == if i == k then b else s[i]
  {
    var k := IndexOf(s, a);
    if k < 0 then s else s[..k] + [b] + s[k + 1..]
  }

  function DigitChar(d: nat): char
    requires d < 10
  {
    ('0' as int + d) as char
  }

  function DigitValue(c: char): nat
    requires IsDigit(c)
  {
    c as int - '0' as int
  }

  /** Decimal rendering of a natural number, as Python's `str(n)` and JavaScript's `${n}` give it. */
  function NatToString(n: nat): (s: string)
    ensures |s| >= 1 && forall i :: 0 <= i < |s| ==> IsDigit(s[i])
    ensures |s| > 1 ==> s[0] != '0'
  {
    if n < 10 then [DigitChar(n)] else NatToString(n / 10) + [DigitChar(n % 10)]
  }

  /** Decimal rendering of an integer, with a leading `-` when negative. */
  function IntToString(i: int): string {
    if i < 0 then "-" + NatToString(-i) else NatToString(i)
  }

  /** The value of a non-empty run of decimal digits (leading zeros allowed). */
  function DigitsValue(s: string): nat
    requires forall i :: 0 <= i < |s| ==> IsDigit(s[i])
  {
    if s == [] then 0 else DigitsValue(s[..|s| - 1]) * 10 + DigitValue(s[|s| - 1])
  }

  predicate AllDigits(s: string) {
    |s| >= 1 && forall i :: 0 <= i < |s| ==> IsDigit(s[i])
  }

  /**
   * Python's `int(s)` on ASCII text: surrounding whitespace allowed, an optional sign,
   * then one or more decimal digits. `None` is the `ValueError` case.
   */
  function ParseInt(s: string): (r: Option<int>)
    ensures r.Some? ==> Strip(s) != []
  {
    ParseSigned(Strip(s))
  }

  /** `int()` on text without surrounding whitespace: an optional sign, then digits. */
  function ParseSigned(t: string): (r: Option<int>)
    ensures r.Some? ==> t != []
  {
    if t == [] then None
    else if t[0] == '-' || t[0] == '+' then
      var body := t[1..];
      if AllDigits(body) then
        var v := DigitsValue(body) as int;
        Some(if t[0] == '-' then -v else v)
      else None
    else if AllDigits(t) then Some(DigitsValue(t))
    else None
  }

  /** Reading back a rendered natural number gives the number. */
  lemma {:induction false} NatToStringRoundTrip(n: nat)
    ensures DigitsValue(NatToString(n)) == n
  {
    if n >= 10 {
      NatToStringRoundTrip(n / 10);
      var s := NatToString(n / 10) + [DigitChar(n % 10)];
      assert s[..|s| - 1] == NatToString(n / 10);
    }
  }

  /** A string that neither starts nor ends with whitespace is its own `strip()`. */
  lemma StripUnchanged(s: string)
    requires s != [] && !IsSpace(s[0]) && !IsSpace(s[|s| - 1])
    ensures Strip(s) == s
  {
    assert TrimStart(s) == s;
    assert TrimEnd(s) == s;
  }

  /** `int()` reads a rendered non-negative number back. */
  lemma ParseIntOfNat(n: nat)
    ensures ParseInt(NatToString(n)) == Some(n)
  {
    var s := NatToString(n);
    NatToStringRoundTrip(n);
    StripDigits(s);
    ParseSignedDigits(s);
  }

  /** A run of digits has no whitespace to strip. */
  lemma StripDigits(s: string)
    requires AllDigits(s)
    ensures Strip(s) == s
  {
    assert IsDigit(s[0]) && IsDigit(s[|s| - 1]);
    StripUnchanged(s);
  }

  /** A run of digits with no sign reads as its decimal value. */
  lemma ParseSignedDigits(t: string)
    requires AllDigits(t)
    ensures ParseSigned(t) == Some(DigitsValue(t) as int)
  {
    assert IsDigit(t[0]);
  }

  /** A minus sign followed by digits reads as the negated value of the digits. */
  lemma ParseSignedNegative(t: string)
    requires |t| >= 2 && t[0] == '-' && AllDigits(t[1..])
    ensures ParseSigned(t) == Some(-(DigitsValue(t[1..]) as int))
  {
  }

  /** `int()` reads a rendered negative number back. */
  lemma ParseIntOfNegative(i: int)
    requires i < 0
    ensures ParseInt(IntToString(i)) == Some(i)
  {
    var m: nat := -i;
    var n := NatToString(m);
    var s := IntToString(i);
    assert s == "-" + n && s[1..] == n;
    NatToStringRoundTrip(m);
    assert IsDigit(s[|s| - 1]);
    StripUnchanged(s);
    ParseSignedNegative(s);
  }

  /** Python's `int(str(i))` is `i` for every integer. */
  lemma IntToStringRoundTrip(i: int)
    ensures ParseInt(IntToString(i)) == Some(i)
  {
    if i < 0 {
      ParseIntOfNegative(i);
    } else {
      ParseIntOfNat(i);
    }
  }
}
