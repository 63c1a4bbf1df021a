/**
 * Text primitives shared by every component: the two whitespace classes
 * (Python's `str.strip()` and JavaScript's `String.prototype.trim()`),
 * Clark-notation local names, Python's `str(int)` and `int(str)`, and
 * JavaScript's single-character `split`.
 */
module Text {

  import opened Wrappers

  /** Characters for which Python's `str.isspace()` holds (what `strip()` removes). */
  predicate IsPySpace(c: char) {
    || ('\U{9}' <= c <= '\U{D}')
    || ('\U{1C}' <= c <= ' ')
    || c == '\U{85}' || c == '\U{A0}' || c == '\U{1680}'
    || ('\U{2000}' <= c <= '\U{200A}')
    || c == '\U{2028}' || c == '\U{2029}' || c == '\U{202F}' || c == '\U{205F}' || c == '\U{3000}'
  }

  /** Characters JavaScript's `trim()` removes: WhiteSpace and LineTerminator. */
  predicate IsJsSpace(c: char) {
    || ('\U{9}' <= c <= '\U{D}')
    || c == ' ' || c == '\U{A0}' || c == '\U{1680}'
    || ('\U{2000}' <= c <= '\U{200A}')
    || c == '\U{2028}' || c == '\U{2029}' || c == '\U{202F}' || c == '\U{205F}' || c == '\U{3000}'
    || c == '\U{FEFF}'
  }

  /** The two whitespace classes: Python's `str.strip()` and JavaScript's `trim()`. */
  datatype Charset = Python | JavaScript

  predicate IsSpace(cs: Charset, c: char) {
    if cs == Python then IsPySpace(c) else IsJsSpace(c)
  }

  predicate AllSpace(cs: Charset, s: string) {
    forall i :: 0 <= i < |s| ==> IsSpace(cs, s[i])
  }

  /** How many spaces `s` starts with. */
  function LeadingSpaces(cs: Charset, s: string): (k: nat)
    ensures k <= |s| && AllSpace(cs, s[..k])
    ensures k == |s| || !IsSpace(cs, s[k])
  {
    if s == [] || !IsSpace(cs, s[0]) then 0
    else
      var k := LeadingSpaces(cs, s[1..]);
      assert k == |s[1..]| || s[1..][k] == s[k + 1];
      SpaceCons(cs, s, k + 1);
      k + 1
  }

  /** A leading space followed by `k - 1` more spaces makes a prefix of `k` spaces. */
  lemma SpaceCons(cs: Charset, s: string, k: int)
    requires 1 <= k <= |s| && IsSpace(cs, s[0]) && AllSpace(cs, s[1..][..k - 1])
    ensures AllSpace(cs, s[..k])
  {
    forall i | 0 <= i < k ensures IsSpace(cs, s[..k][i]) {
      if i > 0 { assert s[..k][i] == s[1..][..k - 1][i - 1]; }
    }
  }

  /** Drops the leading spaces of `s`. */
  function TrimStart(cs: Charset, s: string): (r: string)
    ensures |r| <= |s| && r == s[|s| - |r|..]
    ensures AllSpace(cs, s[..|s| - |r|])
    ensures r == [] || !IsSpace(cs, r[0])
  {
    var k := LeadingSpaces(cs, s);
    assert k == |s| || s[k..][0] == s[k];
    s[k..]
  }

  /** `s` read back to front. */
  function Reversed(s: string): (r: string)
    ensures |r| == |s| && forall i :: 0 <= i < |s| ==> r[i] == s[|s| - 1 - i]
  {
    if s == [] then [] else Reversed(s[1..]) + [s[0]]
  }

  /** How many spaces `s` ends with: the leading spaces of `s` reversed. */
  function TrailingSpaces(cs: Charset, s: string): (k: nat)
    ensures k <= |s| && AllSpace(cs, s[|s| - k..])
    ensures k == |s| || !IsSpace(cs, s[|s| - k - 1])
  {
    var r := Reversed(s);
    var k := LeadingSpaces(cs, r);
    var tail := s[|s| - k..];
    assert AllSpace(cs, tail) by {
      forall i | 0 <= i < k ensures IsSpace(cs, tail[i]) {
        assert tail[i] == r[..k][k - 1 - i];
      }
    }
    assert k == |s| || r[k] == s[|s| - k - 1];
    k
  }

  /** Drops the trailing spaces of `s`. */
  function TrimEnd(cs: Charset, s: string): (r: string)
    ensures |r| <= |s| && r == s[..|r|]
    ensures AllSpace(cs, s[|r|..])
    ensures r == [] || !IsSpace(cs, r[|r| - 1])
  {
    var k := TrailingSpaces(cs, s);
    assert k == |s| || s[..|s| - k][|s| - k - 1] == s[|s| - k - 1];
    s[..|s| - k]
  }

  /** Both ends trimmed: `s` without its leading and trailing spaces. */
  function Trim(cs: Charset, s: string): (r: string)
    ensures |r| <= |s|
    ensures r == [] || (!IsSpace(cs, r[0]) && !IsSpace(cs, r[|r| - 1]))
    ensures r == [] <==> AllSpace(cs, s)
  {
    var a := TrimStart(cs, s);
    var r := TrimEnd(cs, a);
    BlankWhenTrimmedEmpty(cs, s, a, r);
    r
  }

  lemma BlankWhenTrimmedEmpty(cs: Charset, s: string, a: string, r: string)
    requires a == TrimStart(cs, s) && r == TrimEnd(cs, a)
    ensures r == [] ==> AllSpace(cs, s)
  {
    if r == [] {
      // `a` is all spaces yet cannot start with one, so it is empty and `s` was all spaces.
      assert AllSpace(cs, a);
      assert a == [];
      assert s[..|s|] == s;
    }
  }

  /** Python `s.strip()`. */
  function PyStrip(s: string): string { Trim(Python, s) }

  /** JavaScript `s.trim()`. */
  function JsTrim(s: string): string { Trim(JavaScript, s) }

  /**
   * The text after the last `}` of a Clark-notation name `{namespace}local`,
   * or the whole name when it holds no `}`.
   */
  function LocalName(s: string): (r: string)
    ensures '}' !in r
    ensures |r| <= |s| && r == s[|s| - |r|..]
    ensures |r| < |s| ==> s[|s| - |r| - 1] == '}'
    ensures '}' !in s ==> r == s
  {
    if s == [] then []
    else if s[|s| - 1] == '}' then []
    else
      var r := LocalName(s[..|s| - 1]);
      assert '}' !in s ==> '}' !in s[..|s| - 1];
      r + [s[|s| - 1]]
  }

  /** The local name is determined by the two facts LocalName promises: no `}` in it, and a `}` (or nothing) before it. */
  lemma {:induction false} LocalNameUnique(s: string, k: nat)
    requires k <= |s| && '}' !in s[k..] && (k == 0 || s[k - 1] == '}')
    ensures LocalName(s) == s[k..]
  {
  }

  // ---- decimal integers -------------------------------------------------

  function DigitChar(d: nat): (c: char)
    requires d < 10
  {
    "0123456789"[d]
  }

  predicate IsDigit(c: char) { '0' <= c <= '9' }

  function DigitValue(c: char): (d: nat)
    requires IsDigit(c)
    ensures d < 10
  {
    (c as int - '0' as int) as nat
  }

  /** Python `str(n)` for a non-negative integer: its shortest decimal text. */
  function NatText(n: nat): (r: string)
    ensures |r| >= 1
    ensures forall i :: 0 <= i < |r| ==> IsDigit(r[i])
    ensures r[0] == '0' ==> n == 0
  {
    if n < 10 then [DigitChar(n)] else NatText(n / 10) + [DigitChar(n % 10)]
  }

  /** Python `str(i)` for any integer. */
  function IntText(i: int): (r: string)
    ensures |r| >= 1
  {
    if i < 0 then "-" + NatText(-i) else NatText(i)
  }

  /** The value of a string of decimal digits. */
  function DigitsValue(s: string): nat
    requires forall i :: 0 <= i < |s| ==> IsDigit(s[i])
  {
    if s == [] then 0 else 10 * DigitsValue(s[..|s| - 1]) + DigitValue(s[|s| - 1])
  }

  predicate AllDigits(s: string) {
    |s| >= 1 && forall i :: 0 <= i < |s| ==> IsDigit(s[i])
  }

  /** An optional sign and one or more decimal digits, with nothing around them. */
  function ReadIntText(t: string): Option<int> {
    if |t| >= 1 && (t[0] == '-' || t[0] == '+') then
      if AllDigits(t[1..]) then
        var v: int := DigitsValue(t[1..]);
        Some(if t[0] == '-' then -v else v)
      else None
    else if AllDigits(t) then Some(DigitsValue(t))
    else None
  }

  /**
   * Python `int(s)` on a string, for plain ASCII decimals: surrounding
   * whitespace, an optional sign, then one or more digits. Anything else is
   * the ValueError Python raises, here `None`.
   */
  function ParseInt(s: string): (r: Option<int>)
    ensures AllSpace(Python, s) ==> r.None?
  {
    ReadIntText(PyStrip(s))
  }

  lemma {:induction false} NatTextRoundTrip(n: nat)
    ensures DigitsValue(NatText(n)) == n
  {
    if n >= 10 {
      NatTextRoundTrip(n / 10);
      var t := NatText(n / 10);
      assert (t + [DigitChar(n % 10)])[..|t|] == t;
    }
  }

  lemma PyStripOfDigits(t: string)
    requires |t| >= 1 && !IsSpace(Python, t[0]) && !IsSpace(Python, t[|t| - 1])
    ensures PyStrip(t) == t
  {
  }

  /** Python's integer text is a sign and digits that read back as the same integer. */
  lemma IntTextReads(i: int)
    ensures ReadIntText(IntText(i)) == Some(i)
  {
    var t := IntText(i);
    var n: nat := if i < 0 then -i else i;
    NatTextRoundTrip(n);
    var d := NatText(n);
    if i < 0 {
      assert t == "-" + d && t[1..] == d;
    } else {
      assert t == d && t[0] != '-' && t[0] != '+';
    }
  }

  /** `int(str(i)) == i`: Python's integer text is read back as the same integer. */
  lemma IntTextRoundTrip(i: int)
    ensures ParseInt(IntText(i)) == Some(i)
  {
    var t := IntText(i);
    var n: nat := if i < 0 then -i else i;
    var d := NatText(n);
    assert !IsSpace(Python, d[|d| - 1]);
    if i < 0 {
      assert t == "-" + d;
    } else {
      assert t == d && !IsSpace(Python, d[0]);
    }
    PyStripOfDigits(t);
    IntTextReads(i);
  }

  // ---- JavaScript split / join on one character -------------------------

  /** JavaScript `s.split(sep)` for a one-character separator. */
  function Split(s: string, sep: char): (r: seq<string>)
    ensures |r| >= 1
    ensures forall i :: 0 <= i < |r| ==> sep !in r[i]
  {
    if s == [] then [[]]
    else
      var rest := Split(s[1..], sep);
      if s[0] == sep then [[]] + rest else [[s[0]] + rest[0]] + rest[1..]
  }

  /** The inverse of Split: the parts joined by `sep`. */
  function Join(parts: seq<string>, sep: char): string
  {
    if parts == [] then [] else if |parts| == 1 then parts[0] else parts[0] + [sep] + Join(parts[1..], sep)
  }

  /** Splitting at a separator splits each side independently. */
  lemma {:induction false} SplitAppend(a: string, b: string, sep: char)
    ensures Split(a + [sep] + b, sep) == Split(a, sep) + Split(b, sep)
  {
    if a == [] {
      assert (a + [sep] + b)[1..] == b;
    } else {
      assert (a + [sep] + b)[1..] == a[1..] + [sep] + b;
      SplitAppend(a[1..], b, sep);
    }
  }

  /** A string without the separator splits into itself. */
  lemma {:induction false} SplitNoSep(s: string, sep: char)
    requires sep !in s
    ensures Split(s, sep) == [s]
  {
    if s != [] {
      assert sep !in s[1..];
      SplitNoSep(s[1..], sep);
      assert [s[0]] + s[1..] == s;
    }
  }

  /**
   * The last part of a split is the text after the last separator: a suffix
   * preceded by the separator, or the whole string when it holds none.
   */
  lemma {:induction false} SplitLastPart(s: string, sep: char)
    ensures var parts := Split(s, sep); var l := parts[|parts| - 1];
      && |l| <= |s| && l == s[|s| - |l|..]
      && (|l| < |s| ==> s[|s| - |l| - 1] == sep)
      && (|parts| == 1 ==> l == s)
      && (|parts| > 1 ==> |l| < |s|)
  {
    if s != [] {
      SplitLastPart(s[1..], sep);
      var rest := Split(s[1..], sep);
      var l := rest[|rest| - 1];
      if s[0] != sep && |rest| == 1 {
        assert [s[0]] + s[1..] == s;
      } else {
        assert Split(s, sep)[|Split(s, sep)| - 1] == l;
        assert s[1..][|s[1..]| - |l|..] == s[|s| - |l|..];
        if |l| < |s| - 1 {
          assert s[1..][|s[1..]| - |l| - 1] == s[|s| - |l| - 1];
        }
      }
    }
  }

  /** `parts.join(sep).split(sep) == parts` when no part holds the separator. */
  lemma {:induction false} SplitJoin(parts: seq<string>, sep: char)
    requires |parts| >= 1
    requires forall i :: 0 <= i < |parts| ==> sep !in parts[i]
    ensures Split(Join(parts, sep), sep) == parts
  {
    if |parts| == 1 {
      SplitNoSep(parts[0], sep);
    } else {
      SplitJoin(parts[1..], sep);
      SplitAppend(parts[0], Join(parts[1..], sep), sep);
      SplitNoSep(parts[0], sep);
    }
  }
}
