/** The JavaScript string primitives that the browser scripts rely on:
    the white-space class shared by the regular expression `\s` and
    `String.prototype.trim`, trimming, case mapping, `padStart` with a
    one-character filler, and `length` counted in UTF-16 code units. */
module JsText {

  /** WhiteSpace and LineTerminator code points of ECMAScript (the set that
      `\s` matches and that `trim` removes). */
  predicate IsWhitespace(c: char) {
    c == '\t' || c == '\n' || c == '\U{B}' || c == '\U{C}' || c == '\r' || c == ' '
    || c == '\U{A0}' || c == '\U{1680}' || ('\U{2000}' <= c <= '\U{200A}')
    || c == '\U{2028}' || c == '\U{2029}' || c == '\U{202F}' || c == '\U{205F}'
    || c == '\U{3000}' || c == '\U{FEFF}'
  }

  /** Every character of `s` is white space (the empty string included). */
  predicate IsBlank(s: string) {
    forall i :: 0 <= i < |s| ==> IsWhitespace(s[i])
  }

  /** Some character of `s` is not white space. */
  predicate HasNonWhitespace(s: string) {
    exists i :: 0 <= i < |s| && !IsWhitespace(s[i])
  }

  /** Drops the leading white space. */
  function TrimStart(s: string): (r: string)
    ensures |r| <= |s| && r == s[|s| - |r|..]
    ensures IsBlank(s[..|s| - |r|])
    ensures r == [] || !IsWhitespace(r[0])
  {
    if s != [] && IsWhitespace(s[0]) then
      var t := s[1..];
      var r := TrimStart(t);
      assert t[|t| - |r|..] == s[|s| - |r|..];
      assert s[..|s| - |r|] == [s[0]] + t[..|t| - |r|];
      r
    else s
  }

  /** Drops the trailing white space. */
  function TrimEnd(s: string): (r: string)
    ensures |r| <= |s| && r == s[..|r|]
    ensures IsBlank(s[|r|..])
    ensures r == [] || !IsWhitespace(r[|r| - 1])
  {
    if s != [] && IsWhitespace(s[|s| - 1]) then
      var t := s[..|s| - 1];
      var r := TrimEnd(t);
      assert t[..|r|] == s[..|r|];
      assert s[|r|..] == t[|r|..] + [s[|s| - 1]];
      r
    else s
  }

  /** `String.prototype.trim`. */
  function Trim(s: string): string {
    TrimEnd(TrimStart(s))
  }

  /** Blank pieces make a blank whole. */
  lemma BlankAppend(a: string, b: string)
    requires IsBlank(a) && IsBlank(b)
    ensures IsBlank(a + b)
  {
  }

  /** `trim` keeps the middle of `s`: blank text on either side of it. */
  lemma TrimParts(s: string) returns (lead: string, trail: string)
    ensures IsBlank(lead) && IsBlank(trail)
    ensures s == lead + (Trim(s) + trail)
  {
    var a := TrimStart(s);
    var r := TrimEnd(a);
    lead, trail := s[..|s| - |a|], a[|r|..];
    TakeDrop(s, |s| - |a|);
    TakeDrop(a, |r|);
  }

  /** A string is its prefix followed by the rest. */
  lemma TakeDrop(s: string, k: nat)
    requires k <= |s|
    ensures s == s[..k] + s[k..]
  {
  }

  /** `trim` gives the empty string exactly when `s` is blank. */
  lemma TrimEmptyIffBlank(s: string)
    ensures Trim(s) == [] <==> IsBlank(s)
  {
    var lead, trail := TrimParts(s);
    var r := Trim(s);
    if r == [] {
      assert s == lead + trail;
      BlankAppend(lead, trail);
    } else {
      TrimEnds(s);
      assert s[|lead|] == r[0];
    }
  }

  /** A non-empty trim starts and ends with a non-white-space character. */
  lemma TrimEnds(s: string)
    ensures Trim(s) != [] ==> !IsWhitespace(Trim(s)[0]) && !IsWhitespace(Trim(s)[|Trim(s)| - 1])
  {
    var a := TrimStart(s);
    var r := TrimEnd(a);
    if r != [] {
      assert r[0] == a[0];
    }
  }

  /** Blank means having no character that is not white space. */
  lemma BlankIffNoNonWhitespace(s: string)
    ensures IsBlank(s) <==> !HasNonWhitespace(s)
  {
  }

  /** `trim` gives the empty string exactly when `s` is blank, and otherwise
      a string that starts and ends with a non-white-space character. */
  lemma TrimSpec(s: string)
    ensures Trim(s) == [] <==> IsBlank(s)
    ensures IsBlank(s) <==> !HasNonWhitespace(s)
    ensures Trim(s) != [] ==> !IsWhitespace(Trim(s)[0]) && !IsWhitespace(Trim(s)[|Trim(s)| - 1])
  {
    TrimEmptyIffBlank(s);
    BlankIffNoNonWhitespace(s);
    TrimEnds(s);
  }

  /** The lower-case form of one code point, as `toLowerCase` produces it,
      for ASCII, Latin-1 and the two non-ASCII code points whose lower-case
      form contains an ASCII letter. */
  function LowerChar(c: char): string {
    if 'A' <= c <= 'Z' || ('\U{C0}' <= c <= '\U{DE}' && c != '\U{D7}') then [(c as int + 32) as char]
    else if c == '\U{130}' then ['i', '\U{307}']
    else if c == '\U{212A}' then ['k']
    else [c]
  }

  /** `String.prototype.toLowerCase`, code point by code point. */
  function ToLowerCase(s: string): (r: string)
    ensures |s| <= |r|
  {
    if s == [] then [] else LowerChar(s[0]) + ToLowerCase(s[1..])
  }

  /** The upper-case form of one code point, as `toUpperCase` produces it,
      for ASCII and Latin-1. */
  function UpperChar(c: char): string {
    if 'a' <= c <= 'z' || ('\U{E0}' <= c <= '\U{FE}' && c != '\U{F7}') then [(c as int - 32) as char]
    else if c == '\U{FF}' then ['\U{178}']
    else if c == '\U{DF}' then ['S', 'S']
    else if c == '\U{B5}' then ['\U{39C}']
    else [c]
  }

  /** `String.prototype.toUpperCase`, code point by code point. */
  function ToUpperCase(s: string): (r: string)
    ensures |s| <= |r|
  {
    if s == [] then [] else UpperChar(s[0]) + ToUpperCase(s[1..])
  }

  /** Case mapping works piece by piece. */
  lemma {:induction false} ToLowerCaseAppend(a: string, b: string)
    ensures ToLowerCase(a + b) == ToLowerCase(a) + ToLowerCase(b)
  {
    if a == [] {
      assert a + b == b;
    } else {
      assert (a + b)[0] == a[0];
      assert (a + b)[1..] == a[1..] + b;
      ToLowerCaseAppend(a[1..], b);
    }
  }

  /** Lower-casing changes nothing in a string of lower-case ASCII
      letters. */
  lemma {:induction false} ToLowerCaseKeepsLower(s: string)
    requires forall i :: 0 <= i < |s| ==> 'a' <= s[i] <= 'z'
    ensures ToLowerCase(s) == s
  {
    if s != [] {
      ToLowerCaseKeepsLower(s[1..]);
    }
  }

  /** ASCII letter case, as `toLowerCase` folds it. */
  function AsciiLower(c: char): char {
    if 'A' <= c <= 'Z' then (c as int + 32) as char else c
  }

  /** Two texts that differ at most in the case of ASCII letters. */
  predicate SameUpToAsciiCase(a: string, b: string) {
    |a| == |b| && forall i :: 0 <= i < |a| ==> AsciiLower(a[i]) == AsciiLower(b[i])
  }

  /** Texts that differ only in ASCII letter case lower-case alike. */
  lemma {:induction false} LowerCaseIgnoresAsciiCase(a: string, b: string)
    requires SameUpToAsciiCase(a, b)
    ensures ToLowerCase(a) == ToLowerCase(b)
  {
    if a != [] {
      assert LowerChar(a[0]) == LowerChar(b[0]);
      assert SameUpToAsciiCase(a[1..], b[1..]) by {
        forall i | 0 <= i < |a[1..]| ensures AsciiLower(a[1..][i]) == AsciiLower(b[1..][i]) {
          assert a[1..][i] == a[i + 1] && b[1..][i] == b[i + 1];
        }
      }
      LowerCaseIgnoresAsciiCase(a[1..], b[1..]);
    }
  }

  /** Upper-casing changes nothing in a string of digits and upper-case
      ASCII letters. */
  lemma {:induction false} ToUpperCaseKeepsUpper(s: string)
    requires forall i :: 0 <= i < |s| ==> '0' <= s[i] <= '9' || 'A' <= s[i] <= 'Z'
    ensures ToUpperCase(s) == s
  {
    if s != [] {
      ToUpperCaseKeepsUpper(s[1..]);
    }
  }

  /** `n` copies of `c`. */
  function Repeat(c: char, n: nat): (r: string)
    ensures |r| == n && forall i :: 0 <= i < n ==> r[i] == c
  {
    if n == 0 then [] else [c] + Repeat(c, n - 1)
  }

  /** `s.padStart(width, fill)` for a one-character filler: `s` itself when
      it is already `width` long, otherwise `s` preceded by enough copies of
      `fill` to reach `width`. */
  function PadStart(s: string, width: nat, fill: char): (r: string)
    ensures |r| == if |s| >= width then |s| else width
    ensures r[|r| - |s|..] == s
    ensures forall i :: 0 <= i < |r| - |s| ==> r[i] == fill
  {
    if |s| >= width then s else Repeat(fill, width - |s|) + s
  }

  /** Number of UTF-16 code units of one code point. */
  function CodeUnits(c: char): nat {
    if c as int >= 0x1_0000 then 2 else 1
  }

  /** `s.length`: JavaScript counts UTF-16 code units, so a code point outside
      the Basic Multilingual Plane counts twice. */
  function Utf16Length(s: string): (r: nat)
    ensures |s| <= r <= 2 * |s|
    ensures s == [] <==> r == 0
  {
    if s == [] then 0 else CodeUnits(s[0]) + Utf16Length(s[1..])
  }

  lemma {:induction false} Utf16LengthAppend(a: string, b: string)
    ensures Utf16Length(a + b) == Utf16Length(a) + Utf16Length(b)
  {
    if a == [] {
      assert a + b == b;
    } else {
      assert (a + b)[0] == a[0];
      assert (a + b)[1..] == a[1..] + b;
      Utf16LengthAppend(a[1..], b);
    }
  }
}
