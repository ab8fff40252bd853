/** The palindrome checker: `esPalindromo` lower-cases the text, keeps only
    `a`-`z` and `0`-`9`, rejects an empty result and compares what is left
    with its reverse; `verificar` turns blank input away before asking. */
module Palindrome {
  import opened JsText

  predicate IsAsciiAlnum(c: char) {
    'a' <= c <= 'z' || '0' <= c <= '9'
  }

  /** `s.replace(/[^a-z0-9]/g, '')`. */
  function KeepAlnum(s: string): (r: string)
    ensures |r| <= |s|
    ensures forall i :: 0 <= i < |r| ==> IsAsciiAlnum(r[i])
  {
    if s == [] then []
    else (if IsAsciiAlnum(s[0]) then [s[0]] else []) + KeepAlnum(s[1..])
  }

  /** The cleaned text `esPalindromo` compares. */
  function Clean(texto: string): string {
    KeepAlnum(ToLowerCase(texto))
  }

  /** `split('').reverse().join('')`; the cleaned text is ASCII, so code
      units and code points coincide. */
  function Reverse(s: string): (r: string)
    ensures |r| == |s|
  {
    if s == [] then [] else Reverse(s[1..]) + [s[0]]
  }

  /** `esPalindromo`. */
  function EsPalindromo(texto: string): bool {
    var c := Clean(texto);
    if |c| == 0 then false else c == Reverse(c)
  }

  /** Mirror symmetry, the reference notion of a palindrome. */
  predicate Mirrored(s: string) {
    forall i :: 0 <= i < |s| ==> s[i] == s[|s| - 1 - i]
  }

  lemma {:induction false} ReverseAt(s: string, k: nat)
    requires k < |s|
    ensures Reverse(s)[k] == s[|s| - 1 - k]
  {
    if k < |s| - 1 {
      ReverseAt(s[1..], k);
    }
  }

  /** Reversal is an involution. */
  lemma {:induction false} ReverseReverse(s: string)
    ensures Reverse(Reverse(s)) == s
  {
    forall k | 0 <= k < |s| ensures Reverse(Reverse(s))[k] == s[k] {
      ReverseAt(Reverse(s), k);
      ReverseAt(s, |s| - 1 - k);
    }
  }

  /** A string equals its reverse exactly when it is mirror-symmetric. */
  lemma ReverseFixedIffMirrored(s: string)
    ensures s == Reverse(s) <==> Mirrored(s)
  {
    forall k | 0 <= k < |s| ensures Reverse(s)[k] == s[|s| - 1 - k] {
      ReverseAt(s, k);
    }
  }

  /** `esPalindromo` holds exactly when the cleaned text is non-empty and
      reads the same in both directions. */
  lemma EsPalindromoSpec(texto: string)
    ensures EsPalindromo(texto) <==> Clean(texto) != [] && Mirrored(Clean(texto))
  {
    ReverseFixedIffMirrored(Clean(texto));
  }

  /** Cleaning works piece by piece. */
  lemma {:induction false} KeepAlnumAppend(a: string, b: string)
    ensures KeepAlnum(a + b) == KeepAlnum(a) + KeepAlnum(b)
  {
    if a == [] {
      assert a + b == b;
    } else {
      assert (a + b)[0] == a[0];
      assert (a + b)[1..] == a[1..] + b;
      KeepAlnumAppend(a[1..], b);
    }
  }

  lemma CleanAppend(a: string, b: string)
    ensures Clean(a + b) == Clean(a) + Clean(b)
  {
    ToLowerCaseAppend(a, b);
    KeepAlnumAppend(ToLowerCase(a), ToLowerCase(b));
  }

  /** A character that cleaning drops entirely: white space, punctuation,
      accented letters and the like. */
  predicate Ignored(c: char) {
    Clean([c]) == []
  }

  /** Inserting an ignored character does not change the cleaned text, so
      spaces and punctuation do not matter. */
  lemma IgnoredCharacter(a: string, c: char, b: string)
    requires Ignored(c)
    ensures Clean(a + [c] + b) == Clean(a + b)
    ensures EsPalindromo(a + [c] + b) == EsPalindromo(a + b)
  {
    var ca, cb := Clean(a), Clean(b);
    assert Clean(a + [c]) == ca by {
      CleanAppend(a, [c]);
      assert ca + [] == ca;
    }
    assert Clean(a + [c] + b) == ca + cb by {
      CleanAppend(a + [c], b);
    }
    CleanAppend(a, b);
  }

  /** Case does not matter: texts equal up to ASCII case clean alike and so
      get the same answer. */
  lemma CaseInsensitive(a: string, b: string)
    requires SameUpToAsciiCase(a, b)
    ensures Clean(a) == Clean(b) && EsPalindromo(a) == EsPalindromo(b)
  {
    LowerCaseIgnoresAsciiCase(a, b);
  }

  /** Text already made of lower-case letters and digits is its own
      cleaned form. */
  lemma {:induction false} CleanFixesAlnum(s: string)
    requires forall i :: 0 <= i < |s| ==> IsAsciiAlnum(s[i])
    ensures Clean(s) == s
  {
    if s != [] {
      CleanFixesAlnum(s[1..]);
      assert s == [s[0]] + s[1..];
      CleanAppend([s[0]], s[1..]);
      assert [s[0]][1..] == [];
      assert ToLowerCase([s[0]]) == [s[0]];
    }
  }

  /** Any one letter or digit is a palindrome. */
  lemma SingleCharacter(c: char)
    requires IsAsciiAlnum(c)
    ensures EsPalindromo([c])
  {
    CleanFixesAlnum([c]);
  }

  /** Text that cleans to nothing is not a palindrome; "!!!" is such a text. */
  lemma NothingLeft(texto: string)
    requires Clean(texto) == []
    ensures !EsPalindromo(texto)
  {
  }

  lemma BangsCleanToNothing()
    ensures Clean("!!!") == [] && !EsPalindromo("!!!")
  {
    var s := "!!!";
    assert s == ['!'] + ['!'] + ['!'];
    assert ['!'][1..] == [];
    assert Clean(['!']) == [];
    CleanAppend(['!'] + ['!'], ['!']);
    CleanAppend(['!'], ['!']);
  }

  /** A mirror-symmetric word of lower-case letters is a palindrome. */
  lemma MirroredWord(w: string)
    requires w != [] && forall i :: 0 <= i < |w| ==> IsAsciiAlnum(w[i])
    requires Mirrored(w)
    ensures EsPalindromo(w)
  {
    CleanFixesAlnum(w);
    EsPalindromoSpec(w);
  }

  /** The palindromes the exercise names: 'ana', 'radar', 'reconocer'. */
  lemma AnaIsPalindrome()
    ensures EsPalindromo("ana")
  {
    MirroredWord("ana");
  }

  lemma RadarIsPalindrome()
    ensures EsPalindromo("radar")
  {
    var w := "radar";
    assert Mirrored(w);
    MirroredWord(w);
  }

  lemma ReconocerIsPalindrome()
    ensures EsPalindromo("reconocer")
  {
    var w := "reconocer";
    assert Mirrored(w);
    MirroredWord(w);
  }

  /** What `verificar` reports. */
  datatype Verdict = EmptyInput | IsPalindrome | NotPalindrome

  /** `verificar`: blank input is rejected before `esPalindromo` runs. */
  function Verificar(texto: string): (r: Verdict)
    ensures r == EmptyInput <==> IsBlank(texto)
    ensures r == IsPalindrome <==> !IsBlank(texto) && EsPalindromo(texto)
  {
    TrimSpec(texto);
    if Trim(texto) == [] then EmptyInput
    else if EsPalindromo(texto) then IsPalindrome
    else NotPalindrome
  }
}
