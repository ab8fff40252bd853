/** The text-statistics counters of the text analysis widget. The utility
    module `textAnalyzer.js` and the page script `script.js` carry the same
    five counters word for word, so they are modelled once here; the page's
    own rule for blank text is `DisplayedStatistics`.

    The counters are written as the source writes them (guard, `trim`,
    `split` on a regular expression, `filter`, `length`); each is related to
    a character-by-character reference count (`SegmentStarts`). */
module TextStats {
  import opened JsText
  import opened JsNumber

  /** The argument a counter receives: a string, or any other JavaScript
      value (number, `null`, `undefined`, ...), which the guard
      `!text || typeof text !== 'string'` turns away. */
  datatype JsValue = Str(s: string) | NonString

  /** The two separators the counters split on: `/\s+/` and `/[.!?]+/`. */
  datatype Separator = Blank | Terminator

  predicate IsTerminator(c: char) {
    c == '.' || c == '!' || c == '?'
  }

  predicate IsSeparator(c: char, k: Separator) {
    match k
    case Blank => IsWhitespace(c)
    case Terminator => IsTerminator(c)
  }

  predicate NoSeparator(s: string, k: Separator) {
    forall i :: 0 <= i < |s| ==> !IsSeparator(s[i], k)
  }

  // ---------------------------------------------------------------------
  // `split` on a one-or-more separator run
  // ---------------------------------------------------------------------

  /** Index of the first separator character, `|s|` when there is none. */
  function FirstSeparator(s: string, k: Separator): (r: nat)
    ensures r <= |s| && NoSeparator(s[..r], k)
    ensures r < |s| ==> IsSeparator(s[r], k)
  {
    if s == [] then 0
    else if IsSeparator(s[0], k) then 0
    else
      var r := 1 + FirstSeparator(s[1..], k);
      assert s[1..][..r - 1] == s[1..r];
      r
  }

  /** End of the separator run starting at `i`. */
  function RunEnd(s: string, i: nat, k: Separator): (r: nat)
    requires i <= |s|
    ensures i <= r <= |s|
    ensures forall m :: i <= m < r ==> IsSeparator(s[m], k)
    ensures r < |s| ==> !IsSeparator(s[r], k)
    decreases |s| - i
  {
    if i < |s| && IsSeparator(s[i], k) then RunEnd(s, i + 1, k) else i
  }

  /** `s.split(/\s+/)` or `s.split(/[.!?]+/)`: the pieces between maximal
      separator runs, with an empty first or last piece when `s` starts or
      ends with a separator. */
  function Split(s: string, k: Separator): (r: seq<string>)
    ensures |r| >= 1
    ensures forall m :: 0 <= m < |r| ==> NoSeparator(r[m], k)
    decreases |s|
  {
    var i := FirstSeparator(s, k);
    if i == |s| then [s]
    else
      var j := RunEnd(s, i, k);
      [s[..i]] + Split(s[j..], k)
  }

  /** `pieces.filter(p => p.length > 0).length`. */
  function CountNonEmpty(pieces: seq<string>): nat {
    if pieces == [] then 0
    else (if Utf16Length(pieces[0]) > 0 then 1 else 0) + CountNonEmpty(pieces[1..])
  }

  /** `pieces.filter(p => p.trim().length > 0).length`. */
  function CountNonBlank(pieces: seq<string>): nat {
    if pieces == [] then 0
    else (if Utf16Length(Trim(pieces[0])) > 0 then 1 else 0) + CountNonBlank(pieces[1..])
  }

  // ---------------------------------------------------------------------
  // The five counters
  // ---------------------------------------------------------------------

  /** `text.replace(/\s/g, '')`. */
  function RemoveWhitespace(s: string): (r: string)
    ensures |r| <= |s| && forall i :: 0 <= i < |r| ==> !IsWhitespace(r[i])
  {
    if s == [] then []
    else (if IsWhitespace(s[0]) then [] else [s[0]]) + RemoveWhitespace(s[1..])
  }

  /** `countCharactersWithSpaces`. */
  function CountCharactersWithSpaces(v: JsValue): (r: nat)
    ensures v == NonString || v == Str([]) ==> r == 0
  {
    match v
    case NonString => 0
    case Str(s) => if s == [] then 0 else Utf16Length(s)
  }

  /** `countCharactersWithoutSpaces`. */
  function CountCharactersWithoutSpaces(v: JsValue): (r: nat)
    ensures v == NonString || v == Str([]) ==> r == 0
  {
    match v
    case NonString => 0
    case Str(s) => if s == [] then 0 else Utf16Length(RemoveWhitespace(s))
  }

  /** `countWords`. */
  function CountWords(v: JsValue): (r: nat)
    ensures v == NonString || v == Str([]) ==> r == 0
  {
    match v
    case NonString => 0
    case Str(s) =>
      if s == [] then 0
      else
        var t := Trim(s);
        if Utf16Length(t) == 0 then 0 else CountNonEmpty(Split(t, Blank))
  }

  /** `countSentences`. */
  function CountSentences(v: JsValue): (r: nat)
    ensures v == NonString || v == Str([]) ==> r == 0
  {
    match v
    case NonString => 0
    case Str(s) =>
      if s == [] then 0
      else
        var t := Trim(s);
        if Utf16Length(t) == 0 then 0 else CountNonBlank(Split(t, Terminator))
  }

  /** Reading speed, in words per minute. */
  const ReadingSpeed: nat := 200

  /** Minutes shown for a given word count: at least one. */
  function ReadingMinutes(words: nat): nat {
    if CeilDiv(words, ReadingSpeed) > 1 then CeilDiv(words, ReadingSpeed) else 1
  }

  /** `estimateReadingTime`. */
  function EstimateReadingTime(v: JsValue): (r: nat)
    ensures v == NonString || v == Str([]) ==> r == 0
  {
    match v
    case NonString => 0
    case Str(s) => if s == [] then 0 else ReadingMinutes(CountWords(v))
  }

  // ---------------------------------------------------------------------
  // Reference counts: one left-to-right pass over the characters
  // ---------------------------------------------------------------------

  /** After reading `c`, is the reader at the start of a new piece?
      A separator starts one; white space that is no separator keeps the
      current answer; anything else is inside a piece. */
  function Next(c: char, k: Separator, atStart: bool): bool {
    if IsSeparator(c, k) then true else if IsWhitespace(c) then atStart else false
  }

  /** Does `c` open a new counted piece? */
  function Opens(c: char, k: Separator, atStart: bool): nat {
    if atStart && !IsSeparator(c, k) && !IsWhitespace(c) then 1 else 0
  }

  /** Number of non-white-space characters of `s` that are the first such
      character after the start or after a separator. */
  function SegmentStarts(s: string, k: Separator, atStart: bool): nat {
    if s == [] then 0
    else Opens(s[0], k, atStart) + SegmentStarts(s[1..], k, Next(s[0], k, atStart))
  }

  /** Reader state after the whole of `s`. */
  function AtStartAfter(s: string, k: Separator, atStart: bool): bool {
    if s == [] then atStart else AtStartAfter(s[1..], k, Next(s[0], k, atStart))
  }

  /** Number of maximal runs of non-white-space characters. */
  function WordRuns(s: string): nat {
    SegmentStarts(s, Blank, true)
  }

  /** Number of stretches between runs of `.`, `!` or `?` that hold a
      non-white-space character. */
  function SentenceRuns(s: string): nat {
    SegmentStarts(s, Terminator, true)
  }

  // ---------------------------------------------------------------------
  // Lemmas about the reference counts
  // ---------------------------------------------------------------------

  lemma {:induction false} SegmentStartsAppend(a: string, b: string, k: Separator, atStart: bool)
    ensures SegmentStarts(a + b, k, atStart)
         == SegmentStarts(a, k, atStart) + SegmentStarts(b, k, AtStartAfter(a, k, atStart))
    ensures AtStartAfter(a + b, k, atStart) == AtStartAfter(b, k, AtStartAfter(a, k, atStart))
  {
    if a == [] {
      assert a + b == b;
    } else {
      assert (a + b)[0] == a[0];
      assert (a + b)[1..] == a[1..] + b;
      SegmentStartsAppend(a[1..], b, k, Next(a[0], k, atStart));
    }
  }

  /** Blank text opens nothing and, read from the start state, stays in it. */
  lemma {:induction false} BlankStarts(s: string, k: Separator, atStart: bool)
    requires IsBlank(s)
    ensures SegmentStarts(s, k, atStart) == 0
    ensures atStart ==> AtStartAfter(s, k, atStart)
  {
    if s != [] {
      BlankStarts(s[1..], k, Next(s[0], k, atStart));
    }
  }

  /** Text with no separator opens one piece when read atStart and holding a
      non-white-space character, and none otherwise. */
  lemma {:induction false} NoSeparatorStarts(s: string, k: Separator, atStart: bool)
    requires NoSeparator(s, k)
    ensures SegmentStarts(s, k, atStart) == if atStart && HasNonWhitespace(s) then 1 else 0
  {
    if s != [] {
      NoSeparatorStarts(s[1..], k, Next(s[0], k, atStart));
      if HasNonWhitespace(s[1..]) {
        var i :| 0 <= i < |s[1..]| && !IsWhitespace(s[1..][i]);
        assert !IsWhitespace(s[i + 1]);
      }
      if HasNonWhitespace(s) && IsWhitespace(s[0]) {
        var i :| 0 <= i < |s| && !IsWhitespace(s[i]);
        assert !IsWhitespace(s[1..][i - 1]);
      }
    }
  }

  /** A separator run is read as one break: what follows it is read atStart. */
  lemma {:induction false} SeparatorRunStarts(s: string, i: nat, j: nat, k: Separator, atStart: bool)
    requires i < j <= |s| && forall m :: i <= m < j ==> IsSeparator(s[m], k)
    ensures SegmentStarts(s[i..], k, atStart) == SegmentStarts(s[j..], k, true)
    decreases j - i
  {
    assert s[i..][1..] == s[i + 1..];
    if i + 1 < j {
      SeparatorRunStarts(s, i + 1, j, k, true);
    }
  }

  /** A piece with no separator counts once exactly when the reference
      pass opens it. */
  lemma PieceCount(p: string, k: Separator)
    requires NoSeparator(p, k)
    ensures CountNonBlank([p]) == SegmentStarts(p, k, true)
  {
    assert CountNonBlank([p]) == if Trim(p) != [] then 1 else 0 by {
      CountNonBlankSingle(p);
    }
    assert Trim(p) != [] <==> HasNonWhitespace(p) by {
      TrimEmptyIffBlank(p);
      BlankIffNoNonWhitespace(p);
    }
    NoSeparatorStarts(p, k, true);
  }

  lemma CountNonBlankSingle(p: string)
    ensures CountNonBlank([p]) == if Trim(p) != [] then 1 else 0
  {
    assert [p][0] == p;
    assert [p][1..] == [];
  }

  lemma CountNonBlankCons(p: string, rest: seq<string>)
    ensures CountNonBlank([p] + rest) == CountNonBlank([p]) + CountNonBlank(rest)
  {
    assert ([p] + rest)[0] == p;
    assert ([p] + rest)[1..] == rest;
    assert [p][1..] == [];
  }

  /** The reference pass over a piece, its separator run and the rest. */
  lemma StartsAcrossRun(s: string, i: nat, j: nat, k: Separator)
    requires i < j <= |s| && NoSeparator(s[..i], k)
    requires forall m :: i <= m < j ==> IsSeparator(s[m], k)
    ensures SegmentStarts(s, k, true) == SegmentStarts(s[..i], k, true) + SegmentStarts(s[j..], k, true)
  {
    var head := s[..i];
    assert s == head + s[i..];
    SegmentStartsAppend(head, s[i..], k, true);
    SeparatorRunStarts(s, i, j, k, AtStartAfter(head, k, true));
  }

  /** Counting the non-blank pieces of `split` is the same as counting the
      pieces the reference pass opens. */
  lemma {:induction false} SplitCount(s: string, k: Separator)
    ensures CountNonBlank(Split(s, k)) == SegmentStarts(s, k, true)
    decreases |s|
  {
    var i := FirstSeparator(s, k);
    if i == |s| {
      assert Split(s, k) == [s] by {
        assert s[..i] == s;
      }
      PieceCount(s, k);
    } else {
      var j := RunEnd(s, i, k);
      var head, tail := s[..i], s[j..];
      var rest := Split(tail, k);
      assert CountNonBlank(Split(s, k)) == CountNonBlank([head]) + CountNonBlank(rest) by {
        assert Split(s, k) == [head] + rest;
        CountNonBlankCons(head, rest);
      }
      assert CountNonBlank([head]) == SegmentStarts(head, k, true) by {
        PieceCount(head, k);
      }
      assert CountNonBlank(rest) == SegmentStarts(tail, k, true) by {
        SplitCount(tail, k);
      }
      assert SegmentStarts(s, k, true) == SegmentStarts(head, k, true) + SegmentStarts(tail, k, true) by {
        StartsAcrossRun(s, i, j, k);
      }
    }
  }


  /** For pieces with no white space, "non-empty" and "non-blank" agree. */
  lemma {:induction false} NonEmptyIsNonBlank(pieces: seq<string>)
    requires forall m :: 0 <= m < |pieces| ==> NoSeparator(pieces[m], Blank)
    ensures CountNonEmpty(pieces) == CountNonBlank(pieces)
  {
    if pieces != [] {
      var p := pieces[0];
      assert NoSeparator(p, Blank);
      PieceNonEmptyIsNonBlank(p);
      var rest := pieces[1..];
      assert forall m :: 0 <= m < |rest| ==> rest[m] == pieces[m + 1];
      NonEmptyIsNonBlank(rest);
    }
  }

  lemma PieceNonEmptyIsNonBlank(p: string)
    requires NoSeparator(p, Blank)
    ensures Utf16Length(p) > 0 <==> Utf16Length(Trim(p)) > 0
  {
    TrimSpec(p);
    if p != [] {
      assert !IsSeparator(p[0], Blank);
      assert !IsBlank(p);
    }
  }

  /** Blank text on both sides of `mid` does not change the reference
      count. */
  lemma BlankAround(lead: string, mid: string, trail: string, k: Separator)
    requires IsBlank(lead) && IsBlank(trail)
    ensures SegmentStarts(lead + (mid + trail), k, true) == SegmentStarts(mid, k, true)
  {
    SegmentStartsAppend(lead, mid + trail, k, true);
    BlankStarts(lead, k, true);
    SegmentStartsAppend(mid, trail, k, true);
    BlankStarts(trail, k, AtStartAfter(mid, k, true));
  }

  /** Surrounding white space does not change the reference count. */
  lemma TrimStarts(s: string, k: Separator)
    ensures SegmentStarts(Trim(s), k, true) == SegmentStarts(s, k, true)
  {
    var lead, trail := TrimParts(s);
    BlankAround(lead, Trim(s), trail, k);
  }

  /** Each opened piece starts at its own non-white-space character. */
  lemma {:induction false} StartsAtMostNonWhitespace(s: string, k: Separator, atStart: bool)
    ensures SegmentStarts(s, k, atStart) <= |RemoveWhitespace(s)|
  {
    if s != [] {
      StartsAtMostNonWhitespace(s[1..], k, Next(s[0], k, atStart));
    }
  }

  // ---------------------------------------------------------------------
  // What the counters compute
  // ---------------------------------------------------------------------

  /** `countWords` is the number of maximal non-white-space runs, for every
      string, including the empty and the blank one. */
  lemma CountWordsIsWordRuns(s: string)
    ensures CountWords(Str(s)) == WordRuns(s)
  {
    var t := Trim(s);
    TrimStarts(s, Blank);
    if s == [] {
    } else if Utf16Length(t) == 0 {
      assert t == [];
    } else {
      NonEmptyIsNonBlank(Split(t, Blank));
      SplitCount(t, Blank);
    }
  }

  /** `countSentences` counts the stretches between runs of terminators that
      hold a non-white-space character. */
  lemma CountSentencesIsSentenceRuns(s: string)
    ensures CountSentences(Str(s)) == SentenceRuns(s)
  {
    var t := Trim(s);
    TrimStarts(s, Terminator);
    if s == [] {
    } else if Utf16Length(t) == 0 {
      assert t == [];
    } else {
      SplitCount(t, Terminator);
    }
  }

  /** Blank text has no words and no sentences. */
  lemma BlankHasNoWords(s: string)
    requires IsBlank(s)
    ensures CountWords(Str(s)) == 0 && CountSentences(Str(s)) == 0
  {
    CountWordsIsWordRuns(s);
    CountSentencesIsSentenceRuns(s);
    BlankStarts(s, Blank, true);
    BlankStarts(s, Terminator, true);
  }

  /** A run of white space of any length and kind counts as one word
      separator: replacing one by another does not change the word count. */
  lemma WhitespaceRunsCollapse(a: string, w1: string, w2: string, b: string)
    requires w1 != [] && w2 != [] && IsBlank(w1) && IsBlank(w2)
    ensures CountWords(Str(a + w1 + b)) == CountWords(Str(a + w2 + b))
  {
    CountWordsIsWordRuns(a + w1 + b);
    CountWordsIsWordRuns(a + w2 + b);
    var f := AtStartAfter(a, Blank, true);
    SegmentStartsAppend(a + w1, b, Blank, true);
    SegmentStartsAppend(a, w1, Blank, true);
    SegmentStartsAppend(a + w2, b, Blank, true);
    SegmentStartsAppend(a, w2, Blank, true);
    BlankStarts(w1, Blank, f);
    BlankStarts(w2, Blank, f);
    AfterSeparator(w1, f);
    AfterSeparator(w2, f);
  }

  /** After a non-empty run of white space the word reader is atStart. */
  lemma {:induction false} AfterSeparator(w: string, atStart: bool)
    requires w != [] && IsBlank(w)
    ensures AtStartAfter(w, Blank, atStart)
  {
    BlankStarts(w[1..], Blank, true);
  }

  /** Removing white space never adds characters, and leaves the count
      unchanged exactly when there was no white space. */
  lemma {:induction false} WithoutSpacesAtMostWithSpaces(s: string)
    ensures Utf16Length(RemoveWhitespace(s)) <= Utf16Length(s)
    ensures Utf16Length(RemoveWhitespace(s)) == Utf16Length(s) <==> NoSeparator(s, Blank)
  {
    if s != [] {
      WithoutSpacesAtMostWithSpaces(s[1..]);
      var head := if IsWhitespace(s[0]) then [] else [s[0]];
      Utf16LengthAppend(head, RemoveWhitespace(s[1..]));
      if !IsWhitespace(s[0]) && NoSeparator(s[1..], Blank) {
        assert NoSeparator(s, Blank) by {
          forall i | 0 <= i < |s| ensures !IsSeparator(s[i], Blank) {
            if i > 0 { assert s[i] == s[1..][i - 1]; }
          }
        }
      }
      if NoSeparator(s, Blank) {
        assert !IsSeparator(s[0], Blank);
        assert forall i :: 0 <= i < |s[1..]| ==> s[1..][i] == s[i + 1];
      }
    }
  }

  /** The counter with spaces is never below the one without, and the two
      agree exactly on text with no white space. */
  lemma CharacterCounts(s: string)
    ensures CountCharactersWithoutSpaces(Str(s)) <= CountCharactersWithSpaces(Str(s))
    ensures CountCharactersWithoutSpaces(Str(s)) == CountCharactersWithSpaces(Str(s))
        <==> NoSeparator(s, Blank)
  {
    WithoutSpacesAtMostWithSpaces(s);
  }

  /** Each word and each sentence holds a non-white-space character of its
      own, so neither count exceeds the characters without spaces. */
  lemma WordsAtMostCharacters(s: string)
    ensures CountWords(Str(s)) <= CountCharactersWithoutSpaces(Str(s))
    ensures CountSentences(Str(s)) <= CountCharactersWithoutSpaces(Str(s))
  {
    CountWordsIsWordRuns(s);
    CountSentencesIsSentenceRuns(s);
    StartsAtMostNonWhitespace(s, Blank, true);
    StartsAtMostNonWhitespace(s, Terminator, true);
  }

  /** Reading time is zero only for the empty string or a non-string;
      otherwise it is the word count divided by 200, rounded up, and at
      least one; blank text reads in one minute. */
  lemma ReadingTimeSpec(v: JsValue)
    ensures EstimateReadingTime(v) == 0 <==> v == NonString || v == Str([])
    ensures v.Str? && v.s != [] ==>
      var r := EstimateReadingTime(v);
      var w := CountWords(v);
      r >= 1 && (w > 0 ==> 200 * r >= w && 200 * (r - 1) < w)
    ensures v.Str? && v.s != [] && IsBlank(v.s) ==> EstimateReadingTime(v) == 1
  {
    if v.Str? && IsBlank(v.s) {
      BlankHasNoWords(v.s);
    }
  }

  /** More words never mean less reading time. */
  lemma ReadingMinutesMonotone(w1: nat, w2: nat)
    requires w1 <= w2
    ensures ReadingMinutes(w1) <= ReadingMinutes(w2)
  {
  }

  // ---------------------------------------------------------------------
  // The page's update rule
  // ---------------------------------------------------------------------

  /** The five figures the page shows. */
  datatype Statistics = Statistics(
    withSpaces: nat, withoutSpaces: nat, words: nat, sentences: nat, readingMinutes: nat)

  const Zeros := Statistics(0, 0, 0, 0, 0)

  /** `updateStatistics`: blank text shows zeros everywhere (reading time
      included), otherwise the five counters of the text area's value. */
  function DisplayedStatistics(text: string): Statistics {
    if Utf16Length(Trim(text)) == 0 then Zeros
    else Statistics(
      CountCharactersWithSpaces(Str(text)), CountCharactersWithoutSpaces(Str(text)),
      CountWords(Str(text)), CountSentences(Str(text)), EstimateReadingTime(Str(text)))
  }

  /** Blank text shows all zeros, although `estimateReadingTime` alone would
      give 1 for it. */
  lemma DisplayedStatisticsBlank(text: string)
    requires IsBlank(text)
    ensures DisplayedStatistics(text) == Zeros
    ensures text != [] ==> EstimateReadingTime(Str(text)) == 1
  {
    TrimSpec(text);
    ReadingTimeSpec(Str(text));
  }

  /** Other text shows its length, its word count as the number of
      non-white-space runs, its sentence runs, and at least one character
      without spaces, one word and one minute. */
  lemma DisplayedStatisticsNonBlank(text: string)
    requires !IsBlank(text)
    ensures var st := DisplayedStatistics(text);
      st.withSpaces == Utf16Length(text) && st.words == WordRuns(text)
      && st.sentences == SentenceRuns(text)
      && st.withoutSpaces >= 1 && st.words >= 1 && st.readingMinutes >= 1
  {
    DisplayedCounters(text);
    NonBlankCounters(text);
    ReadingMinutesPositive(CountWords(Str(text)));
  }

  /** On text that is not blank, the word and sentence counters are the
      reference counts, and there is a word and a character without spaces. */
  lemma NonBlankCounters(text: string)
    requires !IsBlank(text)
    ensures CountWords(Str(text)) == WordRuns(text) && WordRuns(text) >= 1
    ensures CountSentences(Str(text)) == SentenceRuns(text)
    ensures Utf16Length(RemoveWhitespace(text)) >= 1
  {
    var i :| 0 <= i < |text| && !IsWhitespace(text[i]);
    CountWordsIsWordRuns(text);
    CountSentencesIsSentenceRuns(text);
    NonWhitespaceKept(text, i);
    FirstWordCounted(text, i);
  }

  lemma ReadingMinutesPositive(words: nat)
    ensures ReadingMinutes(words) >= 1
  {
  }

  /** Outside blank text, the page shows the five counters. */
  lemma DisplayedCounters(text: string)
    requires !IsBlank(text)
    ensures text != []
    ensures var st := DisplayedStatistics(text);
      st.withSpaces == Utf16Length(text) && st.withoutSpaces == Utf16Length(RemoveWhitespace(text))
      && st.words == CountWords(Str(text)) && st.sentences == CountSentences(Str(text))
      && st.readingMinutes == ReadingMinutes(CountWords(Str(text)))
  {
    TrimSpec(text);
    assert Utf16Length(Trim(text)) != 0;
  }

  /** Text with a non-white-space character has a word. */
  lemma FirstWordCounted(text: string, i: nat)
    requires i < |text| && !IsWhitespace(text[i])
    ensures WordRuns(text) >= 1
  {
    var j := FirstNonWhitespace(text, i);
    assert text == text[..j] + text[j..];
    SegmentStartsAppend(text[..j], text[j..], Blank, true);
    assert IsBlank(text[..j]);
    BlankStarts(text[..j], Blank, true);
    assert text[j..][0] == text[j];
  }

  /** Index of the first non-white-space character, given that one exists
      at `i`. */
  function FirstNonWhitespace(text: string, i: nat): (j: nat)
    requires i < |text| && !IsWhitespace(text[i])
    ensures j <= i && !IsWhitespace(text[j])
    ensures forall m :: 0 <= m < j ==> IsWhitespace(text[m])
  {
    if i == 0 || !IsWhitespace(text[0]) then 0
    else
      var j := 1 + FirstNonWhitespace(text[1..], i - 1);
      assert forall m :: 1 <= m < j ==> text[m] == text[1..][m - 1];
      j
  }

  /** Some non-white-space character survives `replace(/\s/g, '')`. */
  lemma {:induction false} NonWhitespaceKept(text: string, i: nat)
    requires i < |text| && !IsWhitespace(text[i])
    ensures RemoveWhitespace(text) != []
  {
    if i > 0 && IsWhitespace(text[0]) {
      NonWhitespaceKept(text[1..], i - 1);
    }
  }

  /** Repeated and trailing terminators make no empty sentences: "Hola!!!"
      is one sentence (with `CountSentencesIsSentenceRuns`, so is its
      `countSentences`). */
  lemma SentenceExample()
    ensures SentenceRuns("Hola!!!") == 1
  {
    var s, word, bangs := "Hola!!!", "Hola", "!!!";
    var after := AtStartAfter(word, Terminator, true);
    assert SentenceRuns(s) == SegmentStarts(word, Terminator, true) + SegmentStarts(bangs, Terminator, after) by {
      assert s == word + bangs;
      SegmentStartsAppend(word, bangs, Terminator, true);
    }
    assert SegmentStarts(word, Terminator, true) == 1 by {
      assert NoSeparator(word, Terminator);
      assert !IsWhitespace(word[0]);
      NoSeparatorStarts(word, Terminator, true);
    }
    assert SegmentStarts(bangs, Terminator, after) == 0 by {
      assert bangs[0..] == bangs && bangs[3..] == [];
      SeparatorRunStarts(bangs, 0, 3, Terminator, after);
    }
  }
}
