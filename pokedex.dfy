/** The Pokédex page rules: twenty Pokémon per page, a page counter that
    the prev/next buttons move by one, buttons disabled on the first page
    and from page fifty on (written only when a list load succeeds), ids zero-padded to three digits, a fixed colour
    per type with a grey fallback, and a search term that is trimmed and
    lower-cased. */
module Pokedex {
  import opened JsText
  import opened JsNumber

  const PokemonPerPage: nat := 20

  /** The last page the next button leads to. */
  const LastPage: nat := 50

  /** The `offset` of the list request for a page. */
  function ListOffset(page: int): (offset: int)
    ensures page >= 1 ==> offset >= 0 && offset % PokemonPerPage == 0 && offset / PokemonPerPage + 1 == page
  {
    (page - 1) * PokemonPerPage
  }

  /** Consecutive pages ask for consecutive blocks of twenty, starting at 0. */
  lemma ListOffsetsTile(page: int)
    ensures ListOffset(1) == 0
    ensures ListOffset(page + 1) == ListOffset(page) + PokemonPerPage
  {
  }

  /** The value `updatePaginationButtons` gives `btnPrev.disabled`. */
  predicate PrevDisabled(page: int) {
    page == 1
  }

  /** The value `updatePaginationButtons` gives `btnNext.disabled`. */
  predicate NextDisabled(page: int) {
    page >= LastPage
  }

  /** The pagination state: the page counter and the two `disabled` flags
      as the DOM holds them. The flags are written only when a list load
      succeeds, so between a click and the end of its load they still
      describe an earlier page. */
  datatype Pager = Pager(page: int, prevDisabled: bool, nextDisabled: bool)

  /** A click on prev (-1) or next (+1), or the end of a `loadPokemonList`
      call: the success path (which calls `updatePaginationButtons`) or the
      `catch` branch. */
  datatype PageEvent = Press(direction: int) | LoadSucceeded | LoadFailed

  predicate ValidEvent(e: PageEvent) {
    e.Press? ==> e.direction == -1 || e.direction == 1
  }

  /** The flags agree with the page counter. */
  predicate Settled(p: Pager) {
    p.prevDisabled == PrevDisabled(p.page) && p.nextDisabled == NextDisabled(p.page)
  }

  /** The state before the first load finishes: page 1, and neither button
      disabled yet. */
  const Start: Pager := Pager(1, false, false)

  /** One event. A click on a disabled button does nothing; any other click
      runs `changePage`, which moves the counter with no bound check. A
      successful load sets both flags from the page counter of that moment;
      a failed one leaves them as they were. */
  function PageStep(p: Pager, e: PageEvent): Pager
    requires ValidEvent(e)
  {
    match e
    case Press(d) =>
      if (d == -1 && p.prevDisabled) || (d == 1 && p.nextDisabled) then p
      else p.(page := p.page + d)
    case LoadSucceeded => p.(prevDisabled := PrevDisabled(p.page), nextDisabled := NextDisabled(p.page))
    case LoadFailed => p
  }

  /** The state after a sequence of events. */
  function PageRun(p: Pager, events: seq<PageEvent>): Pager
    requires forall i :: 0 <= i < |events| ==> ValidEvent(events[i])
    decreases |events|
  {
    if events == [] then p else PageRun(PageStep(p, events[0]), events[1..])
  }

  /** A successful load settles the flags and keeps the page. */
  lemma LoadSettles(p: Pager)
    ensures Settled(PageStep(p, LoadSucceeded))
    ensures PageStep(p, LoadSucceeded).page == p.page
  {
  }

  /** From a settled page in 1..50 a click cannot leave 1..50: the flags
      then disable exactly the buttons that would, and every other click
      moves the page by one. */
  lemma SettledClickInRange(p: Pager, d: int)
    requires d == -1 || d == 1
    requires Settled(p) && 1 <= p.page <= LastPage
    ensures 1 <= PageStep(p, Press(d)).page <= LastPage
    ensures PageStep(p, Press(d)).page == p.page <==> (d == -1 && p.page == 1) || (d == 1 && p.page == LastPage)
    ensures PageStep(p, Press(d)).page != p.page ==> PageStep(p, Press(d)).page == p.page + d
  {
  }

  /** The user waits for each load: after a click no further click comes
      before a load has succeeded. `pending` says that a click, or the
      initial load, still waits for a successful load. */
  predicate Paced(events: seq<PageEvent>, pending: bool)
    decreases |events|
  {
    events == [] ||
    match events[0]
    case Press(_) => !pending && Paced(events[1..], true)
    case LoadSucceeded => Paced(events[1..], false)
    case LoadFailed => Paced(events[1..], pending)
  }

  /** The invariant of a paced session: the page is in 1..50, and the flags
      are settled unless a load is pending. */
  predicate PacedInvariant(p: Pager, pending: bool) {
    1 <= p.page <= LastPage && (!pending ==> Settled(p))
  }

  /** When every click waits for a successful load, the page never leaves
      1..50. */
  lemma {:induction false} PacedStaysInRange(p: Pager, events: seq<PageEvent>, pending: bool)
    requires forall i :: 0 <= i < |events| ==> ValidEvent(events[i])
    requires PacedInvariant(p, pending) && Paced(events, pending)
    ensures 1 <= PageRun(p, events).page <= LastPage
    decreases |events|
  {
    if events != [] {
      var e := events[0];
      var q := PageStep(p, e);
      var next := if e.Press? then true else if e.LoadSucceeded? then false else pending;
      match e {
        case Press(d) => SettledClickInRange(p, d);
        case LoadSucceeded => LoadSettles(p);
        case LoadFailed =>
      }
      assert PacedInvariant(q, next);
      PacedStaysInRange(q, events[1..], next);
    }
  }

  /** The page as the user sees it: it starts with its initial load
      pending, which satisfies the invariant. */
  lemma StartPaced()
    ensures PacedInvariant(Start, true)
    ensures !Settled(Start)
  {
  }

  /** The flags are stale while a load is pending or after it failed: two
      clicks on prev from a settled page 2 reach page 0 (whose list request
      has offset -20), and two on next from a settled page 49 reach page
      51. */
  lemma StaleButtonsLeaveRange()
    ensures Settled(Pager(2, false, false)) && Settled(Pager(49, false, false))
    ensures PageRun(Pager(2, false, false), [Press(-1), Press(-1)]).page == 0
    ensures PageRun(Pager(2, false, false), [Press(-1), LoadFailed, Press(-1)]).page == 0
    ensures PageRun(Pager(49, false, false), [Press(1), Press(1)]).page == 51
    ensures ListOffset(0) == -20
  {
    var a := [Press(-1), Press(-1)];
    assert a[1..] == [Press(-1)];
    var b := [Press(-1), LoadFailed, Press(-1)];
    assert b[1..] == [LoadFailed, Press(-1)] && b[1..][1..] == [Press(-1)];
    var c := [Press(1), Press(1)];
    assert c[1..] == [Press(1)];
  }

  /** The pagination part of the Pokédex: `currentPage` and the two
      buttons' `disabled` flags. */
  class Browser {
    var currentPage: int
    var prevDisabled: bool
    var nextDisabled: bool

    function State(): Pager
      reads this
    {
      Pager(currentPage, prevDisabled, nextDisabled)
    }

    constructor()
      ensures State() == Start
    {
      currentPage, prevDisabled, nextDisabled := 1, false, false;
    }

    /** `changePage(direction)`: no bound check of its own; the load it
        starts ends in a separate event. */
    method ChangePage(direction: int)
      modifies this
      ensures currentPage == old(currentPage) + direction
      ensures prevDisabled == old(prevDisabled) && nextDisabled == old(nextDisabled)
    {
      currentPage := currentPage + direction;
    }

    /** A click on prev (-1) or next (+1); a click on a disabled button
        never reaches its handler. */
    method Click(direction: int)
      requires direction == -1 || direction == 1
      modifies this
      ensures State() == PageStep(old(State()), Press(direction))
    {
      if (direction == -1 && prevDisabled) || (direction == 1 && nextDisabled) {
        return;
      }
      ChangePage(direction);
    }

    /** `updatePaginationButtons`, run when a list load succeeds. */
    method UpdatePaginationButtons()
      modifies this
      ensures State() == PageStep(old(State()), LoadSucceeded)
    {
      prevDisabled := currentPage == 1;
      nextDisabled := currentPage >= LastPage;
    }

    /** The offset that `loadPokemonList` requests for the current page. */
    function Offset(): (offset: int)
      reads this
      ensures currentPage >= 1 ==> offset / PokemonPerPage + 1 == currentPage
    {
      ListOffset(currentPage)
    }
  }

  /** `String(id).padStart(3, '0')`. */
  function FormatId(id: nat): string {
    PadStart(Decimal(id), 3, '0')
  }

  predicate IsDecimalDigit(c: char) {
    '0' <= c <= '9'
  }

  /** The displayed id is at least three digits long, exactly as long as the
      decimal form when that is longer, made of decimal digits, and denotes
      the id itself. */
  lemma FormatIdSpec(id: nat)
    ensures |FormatId(id)| == if |Decimal(id)| >= 3 then |Decimal(id)| else 3
    ensures forall i :: 0 <= i < |FormatId(id)| ==> IsDecimalDigit(FormatId(id)[i])
    ensures DigitsValue(FormatId(id), 10) == id
  {
    ToRadixStringRoundTrip(id, 10);
    PaddedDigits(Decimal(id), 3, 10);
  }

  /** Ids below 1000 are shown with exactly three digits. */
  lemma SmallIdThreeDigits(id: nat)
    requires id < 1000
    ensures |FormatId(id)| == 3
  {
    assert Pow(10, 3) == 1000;
    ToRadixStringLength(id, 10, 3);
  }

  /** The colour per type name. */
  const TypeColors: map<string, string> := map[
    "normal" := "#A8A878", "fire" := "#F08030", "water" := "#6890F0",
    "electric" := "#F8D030", "grass" := "#78C850", "ice" := "#98D8D8",
    "fighting" := "#C03028", "poison" := "#A040A0", "ground" := "#E0C068",
    "flying" := "#A890F0", "psychic" := "#F85888", "bug" := "#A8B820",
    "rock" := "#B8A038", "ghost" := "#705898", "dragon" := "#7038F8",
    "dark" := "#705848", "steel" := "#B8B8D0", "fairy" := "#EE99AC"]

  const Fallback: string := "#777"

  /** `typeColors[typeName] || '#777'`. */
  function TypeColor(name: string): (color: string)
    ensures name in TypeColors ==> color == TypeColors[name]
    ensures color == Fallback <==> name !in TypeColors
  {
    TableColorsLong(name);
    if name in TypeColors then TypeColors[name] else Fallback
  }

  /** Every colour in the table is a seven-character `#RRGGBB`, so none of
      them is the four-character fallback. */
  lemma TableColorsLong(name: string)
    ensures name in TypeColors ==> |TypeColors[name]| == 7 && TypeColors[name][0] == '#'
  {
  }

  /** What `searchPokemon` does with the input. */
  datatype SearchAction = ReloadList | LookUp(term: string)

  /** The normalised search term: trimmed, then lower-cased. */
  function SearchTerm(input: string): string {
    ToLowerCase(Trim(input))
  }

  /** `searchPokemon`: an empty term reloads the current page, anything else
      is looked up by name or number. */
  function SearchPokemon(input: string): (r: SearchAction)
    ensures r == ReloadList <==> IsBlank(input)
    ensures r.LookUp? ==> r.term == SearchTerm(input) && r.term != []
  {
    TrimSpec(input);
    var term := SearchTerm(input);
    if term == [] then ReloadList else LookUp(term)
  }

  /** Lower-casing one code point yields a non-empty string, and from a
      character that is not white space, only characters that are not. */
  lemma LowerCharNotSpace(c: char)
    ensures |LowerChar(c)| >= 1
    ensures !IsWhitespace(c) ==> forall i :: 0 <= i < |LowerChar(c)| ==> !IsWhitespace(LowerChar(c)[i])
  {
  }

  /** Lower-casing twice is lower-casing once. */
  lemma {:induction false} ToLowerCaseIdempotent(s: string)
    ensures ToLowerCase(ToLowerCase(s)) == ToLowerCase(s)
  {
    if s != [] {
      var l := LowerChar(s[0]);
      assert ToLowerCase(l) == l by {
        if |l| == 2 {
          assert l == ['i', '\U{307}'];
          assert l == [l[0]] + [l[1]];
          ToLowerCaseAppend([l[0]], [l[1]]);
        } else {
          assert l == [l[0]];
        }
      }
      ToLowerCaseAppend(l, ToLowerCase(s[1..]));
      ToLowerCaseIdempotent(s[1..]);
    }
  }

  /** A string with no white space at either end is its own trim. */
  lemma TrimFixed(t: string)
    requires t == [] || (!IsWhitespace(t[0]) && !IsWhitespace(t[|t| - 1]))
    ensures Trim(t) == t
  {
  }

  /** The lower-cased text keeps a non-white-space first and last
      character. */
  lemma LowerEnds(t: string)
    requires t != [] && !IsWhitespace(t[0]) && !IsWhitespace(t[|t| - 1])
    ensures ToLowerCase(t) != []
    ensures !IsWhitespace(ToLowerCase(t)[0]) && !IsWhitespace(ToLowerCase(t)[|ToLowerCase(t)| - 1])
  {
    var init := t[..|t| - 1];
    var last := t[|t| - 1];
    assert t == init + [last];
    ToLowerCaseAppend(init, [last]);
    assert ToLowerCase([last]) == LowerChar(last);
    LowerCharNotSpace(last);
    LowerCharNotSpace(t[0]);
    var l := ToLowerCase(t);
    assert l[|l| - 1] == LowerChar(last)[|LowerChar(last)| - 1];
    assert l[0] == LowerChar(t[0])[0];
  }

  /** Normalising a term that is already normal changes nothing, so a term
      typed in its normal form is sent as typed. */
  lemma SearchTermIdempotent(input: string)
    ensures SearchTerm(SearchTerm(input)) == SearchTerm(input)
  {
    var t := Trim(input);
    TrimSpec(input);
    if t != [] {
      LowerEnds(t);
    }
    TrimFixed(ToLowerCase(t));
    ToLowerCaseIdempotent(t);
  }
}
