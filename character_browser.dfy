/** The Rick and Morty character browser: the page counter, the page count
    the last successful response reported, the active search query and
    whether a search is shown. Navigation and search only produce a request;
    the page state follows the response. The status of a character maps to
    a CSS class and a Spanish label. */
module CharacterBrowser {
  import opened JsText
  import opened JsNumber

  datatype Option<T> = None | Some(value: T)

  const ApiBase: string := "https://rickandmortyapi.com/api"

  /** A call to `fetchCharacters(page, searchQuery)`. */
  datatype Request = Request(page: nat, query: string)

  /** What the API answered: a page of results with the total page count,
      or an HTTP status that is not ok. */
  datatype Response = Success(pages: nat) | Failure(status: nat)

  /** The request URL; the name filter is added only for a non-empty
      query. The query stands for its `encodeURIComponent` form. */
  function Url(r: Request): string {
    ApiBase + "/character/?page=" + Decimal(r.page) + (if r.query != [] then "&name=" + r.query else "")
  }

  /** The URL names a filter exactly when the query is not empty: the fixed
      part and the page number contain no `&`. */
  lemma UrlHasNameIffQuery(r: Request)
    ensures '&' in Url(r) <==> r.query != []
    ensures Url(r)[..|ApiBase + "/character/?page="|] == ApiBase + "/character/?page="
  {
    var prefix := ApiBase + "/character/?page=";
    var digits := Decimal(r.page);
    assert '&' !in prefix;
    assert '&' !in digits by {
      forall i | 0 <= i < |digits| ensures digits[i] != '&' {
        assert IsLowerDigit(digits[i]);
      }
    }
    if r.query != [] {
      assert Url(r) == (prefix + digits) + ("&name=" + r.query);
      assert Url(r)[|prefix + digits|] == '&';
    } else {
      assert Url(r) == prefix + digits;
    }
  }

  /** The error text `fetchCharacters` shows for a failed response. */
  function ErrorMessage(status: nat): (m: string)
    ensures status == 404 ==> m == "No se encontraron personajes con ese nombre"
    ensures status != 404 ==> |m| > 20 && m[..20] == "Error HTTP! estado: " && DigitsValue(m[20..], 10) == status
  {
    ToRadixStringRoundTrip(status, 10);
    if status == 404 then "No se encontraron personajes con ese nombre"
    else
      var m := "Error HTTP! estado: " + Decimal(status);
      assert m[20..] == Decimal(status);
      m
  }

  /** The three status categories the page knows. */
  datatype Status = Alive | Dead | Unknown

  /** The category of a status string, compared after `toLowerCase`. */
  function StatusOf(status: string): Status {
    var s := ToLowerCase(status);
    if s == "alive" then Alive else if s == "dead" then Dead else Unknown
  }

  /** `getStatusClass`. */
  function StatusClass(status: string): string {
    match StatusOf(status)
    case Alive => "status-alive"
    case Dead => "status-dead"
    case Unknown => "status-unknown"
  }

  /** `getStatusText`. */
  function StatusText(status: string): string {
    match StatusOf(status)
    case Alive => "Vivo"
    case Dead => "Muerto"
    case Unknown => "Desconocido"
  }

  /** The class and the label agree: two statuses get the same class
      exactly when they get the same label. */
  lemma ClassAndTextAgree(a: string, b: string)
    ensures StatusClass(a) == StatusClass(b) <==> StatusText(a) == StatusText(b)
    ensures StatusClass(a) == "status-alive" <==> StatusText(a) == "Vivo"
    ensures StatusClass(a) == "status-dead" <==> StatusText(a) == "Muerto"
  {
  }

  /** The mapping ignores ASCII letter case, so 'Alive', 'alive' and
      'ALIVE' all look the same. */
  lemma StatusIgnoresCase(a: string, b: string)
    requires SameUpToAsciiCase(a, b)
    ensures StatusClass(a) == StatusClass(b) && StatusText(a) == StatusText(b)
  {
    LowerCaseIgnoresAsciiCase(a, b);
  }

  /** A capitalised word lower-cases to its lower-case form. */
  lemma LowerCapitalised(first: char, rest: string)
    requires 'A' <= first <= 'Z'
    requires forall i :: 0 <= i < |rest| ==> 'a' <= rest[i] <= 'z'
    ensures ToLowerCase([first] + rest) == [(first as int + 32) as char] + rest
  {
    ToLowerCaseAppend([first], rest);
    ToLowerCaseKeepsLower(rest);
    assert ToLowerCase([first]) == LowerChar(first);
  }

  /** The API's own spellings: 'Alive', 'Dead' and 'unknown'. */
  lemma AliveStatus()
    ensures StatusClass("Alive") == "status-alive" && StatusText("Alive") == "Vivo"
  {
    assert "Alive" == ['A'] + "live";
    LowerCapitalised('A', "live");
  }

  lemma DeadStatus()
    ensures StatusClass("Dead") == "status-dead" && StatusText("Dead") == "Muerto"
  {
    assert "Dead" == ['D'] + "ead";
    LowerCapitalised('D', "ead");
  }

  lemma UnknownStatus()
    ensures StatusClass("unknown") == "status-unknown" && StatusText("unknown") == "Desconocido"
  {
    ToLowerCaseKeepsLower("unknown");
  }

  /** `prevBtn.disabled`. */
  predicate PrevDisabled(page: int) {
    page == 1
  }

  /** `nextBtn.disabled`. */
  predicate NextDisabled(page: int, totalPages: int) {
    page == totalPages
  }

  /** The request `goToPreviousPage` makes, if any. */
  function PreviousRequest(page: nat, query: string): (r: Option<Request>)
    ensures r.Some? <==> page > 1
    ensures r.Some? ==> 1 <= r.value.page < page && r.value.query == query
  {
    if page > 1 then Some(Request(page - 1, query)) else None
  }

  /** The request `goToNextPage` makes, if any. */
  function NextRequest(page: nat, totalPages: nat, query: string): (r: Option<Request>)
    ensures r.Some? <==> page < totalPages
    ensures r.Some? ==> page < r.value.page <= totalPages && r.value.query == query
  {
    if page < totalPages then Some(Request(page + 1, query)) else None
  }

  /** On a page between 1 and the page count, a button is enabled exactly
      when its handler makes a request, and the request stays within the
      page count. */
  lemma ButtonsMatchHandlers(page: nat, totalPages: nat, query: string)
    requires 1 <= page <= totalPages
    ensures !PrevDisabled(page) <==> PreviousRequest(page, query).Some?
    ensures !NextDisabled(page, totalPages) <==> NextRequest(page, totalPages, query).Some?
    ensures NextRequest(page, totalPages, query).Some? ==> 1 <= NextRequest(page, totalPages, query).value.page <= totalPages
  {
  }

  class Browser {
    var currentPage: nat
    var totalPages: nat
    var currentSearchQuery: string
    var isSearching: bool

    /** The initial state, before the first load. */
    constructor()
      ensures currentPage == 1 && totalPages == 1
      ensures currentSearchQuery == [] && !isSearching
    {
      currentPage, totalPages := 1, 1;
      currentSearchQuery, isSearching := [], false;
    }

    /** `goToPreviousPage`: asks for the previous page; the state changes
        only when the response arrives. */
    method GoToPreviousPage() returns (r: Option<Request>)
      ensures r == PreviousRequest(currentPage, currentSearchQuery)
    {
      r := None;
      if currentPage > 1 {
        r := Some(Request(currentPage - 1, currentSearchQuery));
      }
    }

    /** `goToNextPage`. */
    method GoToNextPage() returns (r: Option<Request>)
      ensures r == NextRequest(currentPage, totalPages, currentSearchQuery)
    {
      r := None;
      if currentPage < totalPages {
        r := Some(Request(currentPage + 1, currentSearchQuery));
      }
    }

    /** `performSearch` with the text of the search box: the same trimmed
        query again does nothing; a new one becomes the current query and
        restarts at page 1. */
    method PerformSearch(input: string) returns (r: Option<Request>)
      modifies this
      ensures Trim(input) == old(currentSearchQuery) ==>
        r == None && currentPage == old(currentPage) && currentSearchQuery == old(currentSearchQuery)
        && isSearching == old(isSearching)
      ensures Trim(input) != old(currentSearchQuery) ==>
        r == Some(Request(1, Trim(input))) && currentSearchQuery == Trim(input)
        && isSearching == (Trim(input) != []) && currentPage == 1
      ensures totalPages == old(totalPages)
    {
      var query := Trim(input);
      if query == currentSearchQuery {
        return None;
      }
      currentSearchQuery := query;
      isSearching := |query| > 0;
      currentPage := 1;
      r := Some(Request(1, query));
    }

    /** `clearSearch`: back to the unfiltered first page. */
    method ClearSearch() returns (r: Request)
      modifies this
      ensures currentSearchQuery == [] && !isSearching && currentPage == 1
      ensures r == Request(1, [])
      ensures totalPages == old(totalPages)
    {
      currentSearchQuery, isSearching, currentPage := [], false, 1;
      r := Request(1, []);
    }

    /** The end of `fetchCharacters`: a success moves to the requested page
        and records the page count; a failure leaves both as they were and
        yields the message shown. */
    method Receive(request: Request, response: Response) returns (error: Option<string>)
      modifies this
      ensures response.Success? ==> currentPage == request.page && totalPages == response.pages && error == None
      ensures response.Failure? ==>
        currentPage == old(currentPage) && totalPages == old(totalPages)
        && error == Some(ErrorMessage(response.status))
      ensures currentSearchQuery == old(currentSearchQuery) && isSearching == old(isSearching)
    {
      match response
      case Success(pages) =>
        currentPage, totalPages := request.page, pages;
        error := None;
      case Failure(status) =>
        error := Some(ErrorMessage(status));
    }
  }
}
