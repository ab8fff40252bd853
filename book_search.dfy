/** The Open Library book search: the current page, the current query and
    the result total of the last successful response, twenty results per
    page; and the helpers the result cards and the detail view use: text
    truncation, the star rating and the Spanish language names. */
module BookSearch {
  import opened JsText
  import opened JsNumber

  datatype Option<T> = None | Some(value: T)

  const ResultsPerPage: nat := 20

  /** A call to `searchBooks(query, page)`. */
  datatype Query = Query(query: string, page: int)

  /** What the search endpoint answered: the `numFound` of a successful
      response, or a failure. */
  datatype Response = Found(numFound: nat) | Failed

  /** The `offset` of a request for a page. */
  function Offset(page: int): (offset: int)
    ensures page >= 1 ==> offset >= 0 && offset % ResultsPerPage == 0 && offset / ResultsPerPage + 1 == page
  {
    (page - 1) * ResultsPerPage
  }

  /** `Math.ceil(totalResults / resultsPerPage)`. */
  function MaxPages(totalResults: nat): nat {
    CeilDiv(totalResults, ResultsPerPage)
  }

  /** `prevButton.disabled`. */
  predicate PrevDisabled(page: int) {
    page == 1
  }

  /** `nextButton.disabled`. */
  predicate NextDisabled(page: int, totalResults: nat) {
    page >= MaxPages(totalResults)
  }

  /** On a page from 1 on, the prev button is enabled exactly when its
      handler moves, and the next button exactly when its handler moves. */
  lemma ButtonsMatchHandlers(page: int, totalResults: nat)
    requires page >= 1
    ensures !PrevDisabled(page) <==> page > 1
    ensures !NextDisabled(page, totalResults) <==> page < MaxPages(totalResults)
  {
  }

  /** Every page the next button can reach starts inside the results: its
      offset is below the total. */
  lemma PagesWithinResults(page: int, totalResults: nat)
    requires 1 <= page <= MaxPages(totalResults)
    ensures 0 <= Offset(page) < totalResults
  {
    var m := MaxPages(totalResults);
    assert ResultsPerPage * (m - 1) < totalResults;
    assert (page - 1) * ResultsPerPage <= (m - 1) * ResultsPerPage;
  }

  /** The five topics `loadRecommendations` picks from. */
  const Topics: seq<string> := ["bestseller", "fiction", "science", "history", "fantasy"]

  /** `recommendedTopics[Math.floor(Math.random() * 5)]`, for `random` as
      `Math.random` returns it. */
  function RecommendedTopic(random: real): (topic: string)
    requires 0.0 <= random < 1.0
    ensures topic in Topics
  {
    var i := (random * |Topics| as real).Floor;
    Topics[i]
  }

  class Search {
    var currentPage: int
    var currentQuery: string
    var totalResults: nat

    /** The globals as the page starts. */
    constructor()
      ensures currentPage == 1 && currentQuery == [] && totalResults == 0
    {
      currentPage, currentQuery, totalResults := 1, [], 0;
    }

    /** The prev button: goes back one page only from above page 1. */
    method Prev() returns (r: Option<Query>)
      modifies this
      ensures old(currentPage) > 1 ==> currentPage == old(currentPage) - 1 && r == Some(Query(currentQuery, currentPage))
      ensures old(currentPage) <= 1 ==> currentPage == old(currentPage) && r == None
      ensures currentQuery == old(currentQuery) && totalResults == old(totalResults)
    {
      r := None;
      if currentPage > 1 {
        currentPage := currentPage - 1;
        r := Some(Query(currentQuery, currentPage));
      }
    }

    /** The next button: goes on one page only while below the page count
        of the last response. */
    method Next() returns (r: Option<Query>)
      modifies this
      ensures old(currentPage) < MaxPages(totalResults) ==>
        currentPage == old(currentPage) + 1 && r == Some(Query(currentQuery, currentPage))
      ensures old(currentPage) >= MaxPages(totalResults) ==> currentPage == old(currentPage) && r == None
      ensures currentQuery == old(currentQuery) && totalResults == old(totalResults)
    {
      r := None;
      var maxPages := MaxPages(totalResults);
      if currentPage < maxPages {
        currentPage := currentPage + 1;
        r := Some(Query(currentQuery, currentPage));
      }
    }

    /** `handleSearch` with the text of the search box: an empty trimmed
        query only shows an error; any other becomes the current query at
        page 1. */
    method HandleSearch(input: string) returns (r: Option<Query>)
      modifies this
      ensures Trim(input) == [] ==>
        r == None && currentPage == old(currentPage) && currentQuery == old(currentQuery)
      ensures Trim(input) != [] ==>
        currentQuery == Trim(input) && currentPage == 1 && r == Some(Query(currentQuery, 1))
      ensures totalResults == old(totalResults)
    {
      var query := Trim(input);
      if query == [] {
        return None;
      }
      currentQuery := query;
      currentPage := 1;
      r := Some(Query(query, 1));
    }

    /** A response to `searchBooks`: only a success updates the total. */
    method Receive(response: Response)
      modifies this
      ensures totalResults == if response.Found? then response.numFound else old(totalResults)
      ensures currentPage == old(currentPage) && currentQuery == old(currentQuery)
    {
      if response.Found? {
        totalResults := response.numFound;
      }
    }

    /** `loadRecommendations`: sets the query to a random topic and asks for
        its first page, leaving `currentPage` as it is. */
    method LoadRecommendations(random: real) returns (r: Query)
      requires 0.0 <= random < 1.0
      modifies this
      ensures currentQuery == RecommendedTopic(random) && r == Query(currentQuery, 1)
      ensures currentPage == old(currentPage) && totalResults == old(totalResults)
    {
      currentQuery := RecommendedTopic(random);
      r := Query(currentQuery, 1);
    }
  }

  /** `truncateText(text, maxLength)`. */
  function TruncateText(text: string, maxLength: nat): (r: string)
    ensures |text| <= maxLength ==> r == text
    ensures |text| > maxLength ==> |r| == maxLength + 3 && r[..maxLength] == text[..maxLength] && r[maxLength..] == "..."
  {
    if |text| <= maxLength then text else text[..maxLength] + "..."
  }

  /** Truncating what was already truncated to the same length changes
      nothing. */
  lemma TruncateTwice(text: string, maxLength: nat)
    ensures TruncateText(TruncateText(text, maxLength), maxLength) == TruncateText(text, maxLength)
  {
    if |text| > maxLength {
      var r := TruncateText(text, maxLength);
      assert r[..maxLength] + "..." == r;
    }
  }

  /** The three star characters. */
  const FullStar: char := '\U{2605}'
  const HalfStar: char := '\U{2BE8}'
  const EmptyStar: char := '\U{2606}'

  /** `rating % 1` in JavaScript: the remainder takes the sign of the
      rating. */
  function RemOne(rating: real): (r: real)
    ensures rating >= 0.0 ==> 0.0 <= r < 1.0 && r == rating - rating.Floor as real
    ensures rating < 0.0 ==> -1.0 < r <= 0.0
  {
    if rating >= 0.0 then rating - rating.Floor as real
    else rating + (-rating).Floor as real
  }

  predicate HasHalfStar(rating: real) {
    RemOne(rating) >= 0.5
  }

  /** The number of empty stars `generateStars` computes. */
  function EmptyStars(rating: real): int {
    5 - rating.Floor - (if HasHalfStar(rating) then 1 else 0)
  }

  /** A loop `for (i = 0; i < n; i++)` runs `n` times when `n` is positive
      and not at all otherwise. */
  function Times(n: int): nat {
    if n > 0 then n else 0
  }

  /** The string `generateStars` builds. */
  function Stars(rating: real): string {
    Repeat(FullStar, Times(rating.Floor))
    + (if HasHalfStar(rating) then [HalfStar] else [])
    + Repeat(EmptyStar, Times(EmptyStars(rating)))
  }

  lemma RepeatOneMore(c: char, n: nat)
    ensures Repeat(c, n) + [c] == Repeat(c, n + 1)
  {
    assert (Repeat(c, n) + [c])[n] == c;
  }

  /** `generateStars(rating)`, with its two counting loops. */
  method GenerateStars(rating: real) returns (stars: string)
    ensures stars == Stars(rating)
  {
    var fullStars := rating.Floor;
    var hasHalfStar := RemOne(rating) >= 0.5;
    var emptyStars := 5 - fullStars - (if hasHalfStar then 1 else 0);
    stars := [];
    var i := 0;
    while i < fullStars
      invariant 0 <= i <= Times(fullStars)
      invariant stars == Repeat(FullStar, i)
    {
      RepeatOneMore(FullStar, i);
      stars := stars + [FullStar];
      i := i + 1;
    }
    var prefix := Repeat(FullStar, Times(fullStars)) + (if hasHalfStar then [HalfStar] else []);
    if hasHalfStar {
      stars := stars + [HalfStar];
    }
    i := 0;
    while i < emptyStars
      invariant 0 <= i <= Times(emptyStars)
      invariant stars == prefix + Repeat(EmptyStar, i)
    {
      RepeatOneMore(EmptyStar, i);
      stars := stars + [EmptyStar];
      i := i + 1;
    }
  }

  /** For a rating from 0 to 5 the stars are five: as many full stars as
      the whole part, a half star exactly when the fraction is at least one
      half, and empty stars for the rest. */
  lemma StarsSpec(rating: real)
    requires 0.0 <= rating <= 5.0
    ensures |Stars(rating)| == 5
    ensures forall i :: 0 <= i < 5 ==> (Stars(rating)[i] == FullStar <==> i < rating.Floor)
    ensures forall i :: 0 <= i < 5 ==>
      (Stars(rating)[i] == HalfStar <==> i == rating.Floor && rating - rating.Floor as real >= 0.5)
    ensures forall i :: 0 <= i < 5 ==>
      (Stars(rating)[i] == EmptyStar <==> i >= rating.Floor + (if HasHalfStar(rating) then 1 else 0))
  {
    var f := rating.Floor;
    assert 0 <= f <= 5;
    if f == 5 {
      assert rating == 5.0;
    }
    var s := Stars(rating);
    var full := Repeat(FullStar, f);
    var half: string := if HasHalfStar(rating) then [HalfStar] else [];
    var empty := Repeat(EmptyStar, Times(EmptyStars(rating)));
    assert s == full + half + empty;
    forall i | 0 <= i < 5
      ensures (s[i] == FullStar <==> i < f)
      ensures (s[i] == HalfStar <==> i == f && rating - f as real >= 0.5)
      ensures (s[i] == EmptyStar <==> i >= f + |half|)
    {
      if i < f {
        assert s[i] == full[i];
      } else if i < f + |half| {
        assert s[i] == half[i - f];
      } else {
        assert s[i] == empty[i - f - |half|];
      }
    }
  }

  /** The Spanish names of the five languages the detail view knows. */
  const LanguageNames: map<string, string> := map[
    "eng" := "Ingl\U{E9}s", "spa" := "Espa\U{F1}ol", "fre" := "Franc\U{E9}s",
    "ger" := "Alem\U{E1}n", "ita" := "Italiano"]

  /** `langMap[lang] || lang.toUpperCase()`. */
  function LanguageName(code: string): (name: string)
    ensures code in LanguageNames ==> name == LanguageNames[code]
    ensures code !in LanguageNames ==> name == ToUpperCase(code)
  {
    if code in LanguageNames then LanguageNames[code] else ToUpperCase(code)
  }

  predicate HasAsciiLower(s: string) {
    exists i :: 0 <= i < |s| && 'a' <= s[i] <= 'z'
  }

  /** Upper-casing never leaves an ASCII lower-case letter. */
  lemma {:induction false} UpperHasNoAsciiLower(s: string)
    ensures !HasAsciiLower(ToUpperCase(s))
  {
    if s != [] {
      UpperHasNoAsciiLower(s[1..]);
      var head := UpperChar(s[0]);
      assert !HasAsciiLower(head);
      assert ToUpperCase(s) == head + ToUpperCase(s[1..]);
      forall i | 0 <= i < |ToUpperCase(s)| ensures !('a' <= ToUpperCase(s)[i] <= 'z') {
        if i >= |head| {
          assert ToUpperCase(s)[i] == ToUpperCase(s[1..])[i - |head|];
        } else {
          assert ToUpperCase(s)[i] == head[i];
        }
      }
    }
  }

  /** A known code gets a Spanish name, which has lower-case letters; an
      unknown one comes back upper-cased, which has none. So the shown name
      tells which case applied. */
  lemma KnownNameIffLowerLetters(code: string)
    ensures code in LanguageNames <==> HasAsciiLower(LanguageName(code))
  {
    if code in LanguageNames {
      var name := LanguageName(code);
      assert name[1] == LanguageNames[code][1];
      assert 'a' <= name[1] <= 'z';
    } else {
      UpperHasNoAsciiLower(code);
    }
  }

  /** Codes outside the table come back in capitals, e.g. 'por' as 'POR'. */
  lemma UnknownCodeUpperCased()
    ensures LanguageName("por") == "POR"
  {
    var p := "por";
    assert p !in LanguageNames;
    assert p == ['p'] + ['o'] + ['r'];
    assert ToUpperCase(p) == UpperChar('p') + ToUpperCase("or");
    assert ToUpperCase("or") == UpperChar('o') + ToUpperCase("r");
    assert ToUpperCase("r") == UpperChar('r') + ToUpperCase("");
  }
}
