/**
 * Text helpers with Python's semantics: `sep.join(xs)`, `s.split(sep)`, `sep in s`,
 * `str(n)` for integers and `int(s)` for decimal text.
 */
module Strings {
  import opened Wrappers

  /** `sep.join(xs)`. */
  function Join(xs: seq<string>, sep: string): string
  {
    if |xs| == 0 then ""
    else if |xs| == 1 then xs[0]
    else xs[0] + sep + Join(xs[1..], sep)
  }

  /** `sep` occurs in `s` starting at index `i`. */
  predicate OccursAt(s: string, sep: string, i: nat)
  {
    i + |sep| <= |s| && s[i..i + |sep|] == sep
  }

  /** The first index at or after `from` where `sep` occurs in `s`, or -1. */
  function FindFrom(s: string, sep: string, from: nat): (r: int)
    requires |sep| > 0
    ensures r == -1 || from <= r <= |s| - |sep|
    ensures r >= 0 ==> OccursAt(s, sep, r)
    ensures r >= 0 ==> forall j :: from <= j < r ==> !OccursAt(s, sep, j)
    ensures r == -1 ==> forall j :: from <= j ==> !OccursAt(s, sep, j)
    decreases |s| - from
  {
    if from + |sep| > |s| then -1
    else if s[from..from + |sep|] == sep then from
    else FindFrom(s, sep, from + 1)
  }

  /** `s.find(sep)`: the first occurrence of a non-empty `sep`, or -1. */
  function Find(s: string, sep: string): (r: int)
    requires |sep| > 0
    ensures r == -1 <==> forall j :: !OccursAt(s, sep, j)
    ensures r >= 0 ==> OccursAt(s, sep, r) && forall j :: 0 <= j < r ==> !OccursAt(s, sep, j)
  {
    FindFrom(s, sep, 0)
  }

  /** `sep in s` for a non-empty `sep`. */
  predicate Contains(s: string, sep: string)
    requires |sep| > 0
  {
    Find(s, sep) >= 0
  }

  /** `s.split(sep)` for a non-empty `sep`: the pieces between non-overlapping occurrences,
      scanning from the left. */
  function Split(s: string, sep: string): (parts: seq<string>)
    requires |sep| > 0
    ensures |parts| >= 1
    ensures |parts| == 1 <==> !Contains(s, sep)
    decreases |s|
  {
    var i := Find(s, sep);
    if i < 0 then [s] else [s[..i]] + Split(s[i + |sep|..], sep)
  }

  /** `s.startswith(prefix)`. */
  predicate StartsWith(s: string, prefix: string)
  {
    |prefix| <= |s| && s[..|prefix|] == prefix
  }

  /** Removes every occurrence of the character `c` (`s.replace(c, '')` for one character). */
  function RemoveChar(s: string, c: char): (r: string)
    ensures c !in r
    ensures |r| <= |s|
    ensures c !in s ==> r == s
    ensures forall x :: x != c ==> (x in r <==> x in s)
  {
    if |s| == 0 then ""
    else (if s[0] == c then "" else [s[0]]) + RemoveChar(s[1..], c)
  }

  /** If some character of `sep` never occurs in `s`, neither does `sep`. */
  lemma MissingCharNoOccurrence(s: string, sep: string, m: nat)
    requires m < |sep| && sep[m] !in s
    ensures !Contains(s, sep)
  {
    forall j: nat ensures !OccursAt(s, sep, j) {
      assert j + |sep| <= |s| ==> s[j..j + |sep|][m] == s[j + m] && s[j + m] in s;
    }
  }

  /** The pieces of a join come back out of a split, when no piece holds the separator's
      first character. */
  lemma {:induction false} SplitJoin(xs: seq<string>, sep: string)
    requires |sep| > 0 && |xs| > 0
    requires forall k :: 0 <= k < |xs| ==> sep[0] !in xs[k]
    ensures Split(Join(xs, sep), sep) == xs
  {
    if |xs| == 1 {
      MissingCharNoOccurrence(xs[0], sep, 0);
    } else {
      var rest := Join(xs[1..], sep);
      SplitAfterFirst(xs[0], sep, rest);
      SplitJoin(xs[1..], sep);
    }
  }

  /** Text that starts with a piece free of the separator's first character, then the
      separator, splits into that piece followed by the split of the remainder. */
  lemma SplitAfterFirst(a: string, sep: string, rest: string)
    requires |sep| > 0 && sep[0] !in a
    ensures Split(a + sep + rest, sep) == [a] + Split(rest, sep)
  {
    var s := a + sep + rest;
    var n := |a|;
    assert s[n..n + |sep|] == sep;
    assert OccursAt(s, sep, n);
    forall j | 0 <= j < n ensures !OccursAt(s, sep, j) {
      assert s[j] == a[j];
      assert j + |sep| <= |s| ==> s[j..j + |sep|][0] == s[j];
    }
    assert Find(s, sep) == n;
    assert s[..n] == a;
    assert s[n + |sep|..] == rest;
  }

  predicate IsDigit(c: char)
  {
    '0' <= c <= '9'
  }

  function DigitChar(d: nat): (c: char)
    requires d < 10
    ensures IsDigit(c)
  {
    "0123456789"[d]
  }

  function DigitValue(c: char): (d: nat)
    requires IsDigit(c)
    ensures d < 10
  {
    (c as int - '0' as int) as nat
  }

  lemma DigitRoundTrip(d: nat)
    requires d < 10
    ensures DigitValue(DigitChar(d)) == d
  {
  }

  /** `str(n)` for a natural number: its decimal digits, most significant first. */
  function NatToString(n: nat): (s: string)
    ensures |s| > 0
    ensures forall k :: 0 <= k < |s| ==> IsDigit(s[k])
  {
    if n < 10 then [DigitChar(n)] else NatToString(n / 10) + [DigitChar(n % 10)]
  }

  /** `str(i)` for any integer: a leading '-' for negative numbers. */
  function IntToString(i: int): (s: string)
    ensures |s| > 0
    ensures forall k :: 0 <= k < |s| ==> IsDigit(s[k]) || s[k] == '-'
    ensures i >= 0 ==> s == NatToString(i)
    ensures i < 0 ==> s == "-" + NatToString(-i)
  {
    if i < 0 then "-" + NatToString(-i) else NatToString(i)
  }

  /** Digits with single underscores between them, as Python's int() accepts. */
  predicate WellFormedDigits(s: string)
  {
    && |s| > 0
    && IsDigit(s[0]) && IsDigit(s[|s| - 1])
    && (forall k :: 0 <= k < |s| ==> IsDigit(s[k]) || s[k] == '_')
    && (forall k :: 0 <= k < |s| - 1 ==> !(s[k] == '_' && s[k + 1] == '_'))
  }

  /** The value of a run of digits and underscores, underscores ignored. */
  function DigitsValue(s: string): nat
    requires forall k :: 0 <= k < |s| ==> IsDigit(s[k]) || s[k] == '_'
  {
    if |s| == 0 then 0
    else if s[|s| - 1] == '_' then DigitsValue(s[..|s| - 1])
    else DigitsValue(s[..|s| - 1]) * 10 + DigitValue(s[|s| - 1])
  }

  /** Whitespace that `int()` strips: the ASCII and Latin-1 characters for which
      `str.isspace()` holds. */
  predicate IsSpace(c: char)
  {
    ('\U{9}' <= c <= '\U{D}') || ('\U{1C}' <= c <= ' ') || c == '\U{85}' || c == '\U{A0}'
  }

  /** `s.strip()`. */
  function Strip(s: string): (r: string)
    ensures |r| <= |s|
    ensures |r| > 0 ==> !IsSpace(r[0]) && !IsSpace(r[|r| - 1])
    decreases |s|
  {
    if |s| > 0 && IsSpace(s[0]) then Strip(s[1..])
    else if |s| > 0 && IsSpace(s[|s| - 1]) then Strip(s[..|s| - 1])
    else s
  }

  /** `int(s)` for base-10 text: surrounding whitespace, an optional sign, then digits that
      may be grouped with single underscores; None where Python raises ValueError. */
  function ParseInt(text: string): Option<int>
  {
    var s := Strip(text);
    if |s| > 0 && (s[0] == '-' || s[0] == '+') then
      var body := s[1..];
      if WellFormedDigits(body) then
        var v: int := DigitsValue(body);
        Some(if s[0] == '-' then -v else v)
      else None
    else if WellFormedDigits(s) then Some(DigitsValue(s))
    else None
  }

  lemma {:induction false} NatToStringValue(n: nat)
    ensures DigitsValue(NatToString(n)) == n
  {
    var s := NatToString(n);
    if n >= 10 {
      NatToStringValue(n / 10);
      assert s[..|s| - 1] == NatToString(n / 10);
      DigitRoundTrip(n % 10);
    } else {
      DigitRoundTrip(n);
      assert s[..|s| - 1] == [];
    }
  }

  lemma NatToStringWellFormed(n: nat)
    ensures WellFormedDigits(NatToString(n))
  {
  }

  lemma StripUnchanged(s: string)
    requires |s| > 0 && !IsSpace(s[0]) && !IsSpace(s[|s| - 1])
    ensures Strip(s) == s
  {
  }

  lemma NatStringRoundTrip(n: nat)
    ensures ParseInt(NatToString(n)) == Some(n)
  {
    var s := NatToString(n);
    StripUnchanged(s);
    NatToStringValue(n);
    NatToStringWellFormed(n);
  }

  lemma NegativeStringRoundTrip(i: int)
    requires i < 0
    ensures ParseInt(IntToString(i)) == Some(i)
  {
    MinusNatRoundTrip(-i);
    assert IntToString(i) == "-" + NatToString(-i);
  }

  /** `int("-" + str(n)) == -n`. */
  lemma MinusNatRoundTrip(n: nat)
    ensures ParseInt("-" + NatToString(n)) == Some(-(n as int))
  {
    NatToStringWellFormed(n);
    NatToStringValue(n);
    ParseMinus(NatToString(n), n);
  }

  /** A minus sign before well-formed digits reads as the negated digits. */
  lemma ParseMinus(body: string, n: nat)
    requires WellFormedDigits(body) && DigitsValue(body) == n
    ensures ParseInt("-" + body) == Some(-(n as int))
  {
    var s := "-" + body;
    assert s[|s| - 1] == body[|body| - 1];
    StripUnchanged(s);
    assert s[1..] == body;
  }

  /** `int(str(i)) == i`. */
  lemma IntStringRoundTrip(i: int)
    ensures ParseInt(IntToString(i)) == Some(i)
  {
    if i < 0 {
      NegativeStringRoundTrip(i);
    } else {
      NatStringRoundTrip(i);
    }
  }

  /** A character other than a digit, '_', '+' or '-' anywhere in text that neither starts
      nor ends with whitespace makes int() raise. */
  lemma ParseIntRejects(s: string, k: nat)
    requires k < |s| && !IsDigit(s[k]) && s[k] != '_' && s[k] != '-' && s[k] != '+'
    requires !IsSpace(s[0]) && !IsSpace(s[|s| - 1])
    ensures ParseInt(s) == None
  {
    StripUnchanged(s);
    if s[0] == '-' || s[0] == '+' {
      assert k > 0;
      assert s[1..][k - 1] == s[k];
    }
  }
}
