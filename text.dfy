/**
 * String helpers shared by the services: the parts of Python's `str` type the
 * source relies on (`lower`, `capitalize`, `in`, `strip`, `join`, and the
 * decimal rendering `f"{n}"` of an integer), over `seq<char>`.
 * Case mapping covers the ASCII letters only.
 */
module Text {

  predicate IsUpper(c: char) { 'A' <= c <= 'Z' }

  predicate IsLower(c: char) { 'a' <= c <= 'z' }

  predicate IsDigit(c: char) { '0' <= c <= '9' }

  function ToLowerChar(c: char): (r: char)
    ensures !IsUpper(r)
    ensures !IsUpper(c) ==> r == c
  {
    if IsUpper(c) then (c as int - 'A' as int + 'a' as int) as char else c
  }

  function ToUpperChar(c: char): (r: char)
    ensures !IsLower(r)
    ensures !IsLower(c) ==> r == c
  {
    if IsLower(c) then (c as int - 'a' as int + 'A' as int) as char else c
  }

  /** Python's `s.lower()`. */
  function Lower(s: string): (r: string)
    ensures |r| == |s|
    ensures forall i :: 0 <= i < |s| ==> r[i] == ToLowerChar(s[i])
  {
    if s == [] then [] else [ToLowerChar(s[0])] + Lower(s[1..])
  }

  /** Python's `s.capitalize()`: first character upper case, all others lower case. */
  function Capitalize(s: string): (r: string)
    ensures |r| == |s|
    ensures |s| > 0 ==> r[0] == ToUpperChar(s[0]) && r[1..] == Lower(s[1..])
  {
    if s == [] then [] else [ToUpperChar(s[0])] + Lower(s[1..])
  }

  /** Python's `needle in hay` for strings; the empty needle occurs everywhere. */
  predicate Contains(hay: string, needle: string)
    decreases |hay|
  {
    |needle| <= |hay| && (hay[..|needle|] == needle || Contains(hay[1..], needle))
  }

  lemma {:induction false} ContainsAt(hay: string, needle: string, i: nat)
    requires i + |needle| <= |hay| && hay[i..i + |needle|] == needle
    ensures Contains(hay, needle)
    decreases i
  {
    if i > 0 {
      assert hay[1..][i - 1..i - 1 + |needle|] == hay[i..i + |needle|];
      ContainsAt(hay[1..], needle, i - 1);
    }
  }

  /** The characters Python's `str.strip()` removes. */
  predicate IsWhitespace(c: char)
  {
    var n := c as int;
    (9 <= n <= 13) || (28 <= n <= 32) || n == 0x85 || n == 0xA0 || n == 0x1680
    || (0x2000 <= n <= 0x200A) || n == 0x2028 || n == 0x2029 || n == 0x202F
    || n == 0x205F || n == 0x3000
  }

  function LStrip(s: string): (r: string)
    ensures |r| <= |s| && r == s[|s| - |r|..]
    ensures r == [] || !IsWhitespace(r[0])
  {
    if s != [] && IsWhitespace(s[0]) then LStrip(s[1..]) else s
  }

  function RStrip(s: string): (r: string)
    ensures |r| <= |s| && r == s[..|r|]
    ensures r == [] || !IsWhitespace(r[|r| - 1])
  {
    if s != [] && IsWhitespace(s[|s| - 1]) then RStrip(s[..|s| - 1]) else s
  }

  /** Python's `s.strip()`. */
  function Strip(s: string): (r: string)
  {
    RStrip(LStrip(s))
  }

  /** What `strip` returns is a slice of its input with no white space at either end. */
  lemma StripIsTrimmedSlice(s: string) returns (i: nat)
    ensures i + |Strip(s)| <= |s| && Strip(s) == s[i..i + |Strip(s)|]
    ensures Strip(s) == [] || (!IsWhitespace(Strip(s)[0]) && !IsWhitespace(Strip(s)[|Strip(s)| - 1]))
  {
    var l := LStrip(s);
    var r := RStrip(l);
    i := |s| - |l|;
    assert l == s[i..];
    assert r == l[..|r|];
    assert s[i..][..|r|] == s[i..i + |r|];
  }

  lemma {:induction false} LStripBefore(x: string, t: string) returns (k: nat)
    requires t != [] && !IsWhitespace(t[0])
    ensures k <= |x| && LStrip(x + t) == x[k..] + t
    decreases |x|
  {
    if x == [] {
      assert x + t == t;
      k := 0;
    } else if IsWhitespace(x[0]) {
      assert (x + t)[1..] == x[1..] + t;
      var k' := LStripBefore(x[1..], t);
      k := k' + 1;
      assert x[1..][k'..] == x[k..];
    } else {
      k := 0;
    }
  }

  lemma {:induction false} RStripAfter(t: string, y: string) returns (k: nat)
    requires t != [] && !IsWhitespace(t[|t| - 1])
    ensures k <= |y| && RStrip(t + y) == t + y[..k]
    decreases |y|
  {
    if y == [] {
      assert t + y == t;
      k := 0;
    } else if IsWhitespace(y[|y| - 1]) {
      assert (t + y)[..|t + y| - 1] == t + y[..|y| - 1];
      var k' := RStripAfter(t, y[..|y| - 1]);
      k := k';
      assert y[..|y| - 1][..k'] == y[..k];
    } else {
      k := |y|;
      assert y[..k] == y;
    }
  }

  /** A piece in the middle of a concatenation is contained in it. */
  lemma ContainsMiddle(a: string, m: string, b: string)
    ensures Contains(a + m + b, m)
  {
    assert (a + m + b)[|a|..|a| + |m|] == m;
    ContainsAt(a + m + b, m, |a|);
  }

  /** Left stripping stops at a piece that starts with a non-white-space character. */
  lemma LStripBeforePiece(x: string, m: string, y: string) returns (a: string)
    requires m != [] && !IsWhitespace(m[0])
    ensures LStrip(x + m + y) == (a + m) + y
  {
    var k := LStripBefore(x, m + y);
    a := x[k..];
    assert x + m + y == x + (m + y);
  }

  /**
   * Stripping never cuts into a piece that starts and ends with a
   * non-white-space character: such a piece survives `strip` whole.
   */
  lemma StripKeepsInner(x: string, m: string, y: string)
    requires m != [] && !IsWhitespace(m[0]) && !IsWhitespace(m[|m| - 1])
    ensures Contains(Strip(x + m + y), m)
  {
    var a := LStripBeforePiece(x, m, y);
    assert LStrip(x + m + y) == (a + m) + y;
    var k := RStripAfter(a + m, y);
    assert RStrip((a + m) + y) == (a + m) + y[..k];
    ContainsMiddle(a, m, y[..k]);
  }

  /** A string is its prefix, a middle slice and its suffix. */
  lemma SplitAround(s: string, i: nat, n: nat, tail: string)
    requires i + n <= |s|
    ensures s + tail == s[..i] + s[i..i + n] + (s[i + n..] + tail)
  {
    assert s == s[..i] + s[i..i + n] + s[i + n..];
  }

  /** Whatever follows a text, stripping the whole keeps the stripped text. */
  lemma StripKeepsStrippedPrefix(s: string, tail: string)
    requires Strip(s) != ""
    ensures Contains(Strip(s + tail), Strip(s))
  {
    var core := Strip(s);
    var i := StripIsTrimmedSlice(s);
    var h := s + tail;
    var x, y := s[..i], s[i + |core|..] + tail;
    SplitAround(s, i, |core|, tail);
    assert h == x + core + y;
    StripKeepsInner(x, core, y);
  }

  /** Python's `sep.join(parts)`. */
  function Join(parts: seq<string>, sep: string): (r: string)
  {
    if parts == [] then ""
    else if |parts| == 1 then parts[0]
    else parts[0] + sep + Join(parts[1..], sep)
  }

  /** Where a contained needle occurs. */
  lemma {:induction false} ContainsIndex(hay: string, needle: string) returns (i: nat)
    requires Contains(hay, needle)
    ensures i + |needle| <= |hay| && hay[i..i + |needle|] == needle
    decreases |hay|
  {
    if hay[..|needle|] == needle {
      i := 0;
    } else {
      var j := ContainsIndex(hay[1..], needle);
      assert hay[1..][j..j + |needle|] == hay[j + 1..j + 1 + |needle|];
      i := j + 1;
    }
  }

  /** The joined string starts with the first part. */
  lemma {:induction false} JoinStartsWithFirst(parts: seq<string>, sep: string)
    requires parts != []
    ensures |parts[0]| <= |Join(parts, sep)| && Join(parts, sep)[..|parts[0]|] == parts[0]
  {
  }

  /** Every part occurs in the joined string. */
  lemma {:induction false} JoinContainsPart(parts: seq<string>, sep: string, k: nat)
    requires k < |parts|
    ensures Contains(Join(parts, sep), parts[k])
  {
    if k == 0 {
      JoinStartsWithFirst(parts, sep);
      ContainsAt(Join(parts, sep), parts[0], 0);
    } else {
      JoinContainsPart(parts[1..], sep, k - 1);
      assert Join(parts, sep) == (parts[0] + sep) + Join(parts[1..], sep);
      ContainsInSuffix(parts[0] + sep, Join(parts[1..], sep), parts[k]);
    }
  }

  /** A needle found in the tail is found in the whole. */
  lemma ContainsInSuffix(head: string, rest: string, needle: string)
    requires Contains(rest, needle)
    ensures Contains(head + rest, needle)
  {
    var j := ContainsIndex(rest, needle);
    assert (head + rest)[|head| + j..|head| + j + |needle|] == rest[j..j + |needle|];
    ContainsAt(head + rest, needle, |head| + j);
  }

  /** Number of occurrences of `c` in `s`. */
  function Count(s: string, c: char): (n: nat)
    ensures n <= |s|
  {
    if s == [] then 0 else (if s[0] == c then 1 else 0) + Count(s[1..], c)
  }

  function DigitChar(d: nat): (c: char)
    requires d < 10
    ensures IsDigit(c)
  {
    ('0' as int + d) as char
  }

  function DigitValue(c: char): (d: nat)
    requires IsDigit(c)
    ensures d < 10
  {
    c as int - '0' as int
  }

  /** `f"{n}"` for a natural number: its decimal digits, without leading zeros. */
  function NatToString(n: nat): (r: string)
    ensures r != [] && forall i :: 0 <= i < |r| ==> IsDigit(r[i])
  {
    if n < 10 then [DigitChar(n)] else NatToString(n / 10) + [DigitChar(n % 10)]
  }

  /** `f"{i}"` for any integer: a minus sign before the digits of a negative one. */
  function IntToString(i: int): (r: string)
    ensures r != []
  {
    if i < 0 then "-" + NatToString(-i) else NatToString(i)
  }

  /** The value of a non-empty string of decimal digits, read from the right. */
  function DigitsValue(ds: string): nat
    requires forall i :: 0 <= i < |ds| ==> IsDigit(ds[i])
  {
    if ds == [] then 0 else 10 * DigitsValue(ds[..|ds| - 1]) + DigitValue(ds[|ds| - 1])
  }

  /** Reading the digits back gives the number: the rendering loses nothing. */
  lemma {:induction false} NatToStringRoundTrip(n: nat)
    ensures DigitsValue(NatToString(n)) == n
  {
    if n >= 10 {
      var r := NatToString(n);
      assert r[..|r| - 1] == NatToString(n / 10);
      NatToStringRoundTrip(n / 10);
    }
  }

  /** Length of the longest prefix of `s` made of digits. */
  function DigitRun(s: string): (k: nat)
    ensures k <= |s|
    ensures forall i :: 0 <= i < k ==> IsDigit(s[i])
    ensures k < |s| ==> !IsDigit(s[k])
  {
    if s != [] && IsDigit(s[0]) then 1 + DigitRun(s[1..]) else 0
  }

  lemma {:induction false} DigitRunOfDigitsThen(ds: string, t: string)
    requires forall i :: 0 <= i < |ds| ==> IsDigit(ds[i])
    requires t == [] || !IsDigit(t[0])
    ensures DigitRun(ds + t) == |ds|
  {
    if ds != [] {
      assert (ds + t)[1..] == ds[1..] + t;
      DigitRunOfDigitsThen(ds[1..], t);
    } else {
      assert ds + t == t;
    }
  }
}
