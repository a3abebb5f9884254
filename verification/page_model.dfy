/**
 * The search page's controller state and what each handler does to it, as
 * functions from the state before a handler runs (and the responses the
 * network gives it) to the state after the handler has run to completion.
 * The component class in `Component` is proved to follow these functions.
 */
module PageModel {
  import opened Wrappers
  import opened Text
  import opened SearchQuery
  import opened Favorites

  /** A dog record as the `/dogs` details endpoint returns it. */
  datatype Dog = Dog(id: string, img: string, name: string, age: int, zipCode: string, breed: string)

  /**
   * One `fetch` as the handler sees it: either a response with its status and
   * its decoded JSON body, or a thrown error (the request was rejected, or
   * decoding the body failed) with the error's message. The body is read
   * only when the status is ok.
   */
  datatype Response<T> = Http(status: nat, body: T) | Thrown(message: string) {
    /** The first check applied to every response: status 401. */
    predicate Unauthorized() {
      Http? && status == 401
    }

    predicate Succeeded() {
      Http? && IsOk(status)
    }

    /** Everything that ends in the `catch` block. */
    predicate Failed() {
      !Unauthorized() && !Succeeded()
    }
  }

  /** `Response.ok`. */
  predicate IsOk(status: nat) {
    200 <= status <= 299
  }

  /** The `/dogs/search` body; either field may be missing. */
  datatype SearchData = SearchData(resultIds: Option<seq<string>>, total: Option<nat>)

  /** The `/dogs/match` body. */
  datatype MatchResult = MatchResult(matchedId: string)

  /** The requests the page sends, with what they carry. */
  datatype Request =
    | SearchCall(params: seq<Param>)
    | DetailsCall(ids: seq<string>)
    | MatchCall(ids: seq<string>)

  const SortAscending := "breed:asc"
  const SortDescending := "breed:desc"

  const SearchFailedPrefix := "Search failed: "
  const DetailsFailedPrefix := "Details fetch failed: "
  const MatchFailedPrefix := "Match request failed: "
  const MatchDetailsFailedPrefix := "Matched dog details fetch failed: "
  const MatchDetailsMissing := "Matched dog details could not be retrieved."
  const NoFavoritesMessage := "Please select at least one favorite dog first!"

  /**
   * Between two handlers: no request is outstanding, the sort order is one
   * of the two the page offers, and the favorites form a set. This is the
   * one invariant of the page: `PageState.Settled` states it of a model
   * state and `Component.SearchPage.Valid` of the component's fields.
   */
  predicate Idle(isLoadingDogs: bool, isMatching: bool, sortOrder: string, favoriteDogIds: seq<string>) {
    && !isLoadingDogs
    && !isMatching
    && (sortOrder == SortAscending || sortOrder == SortDescending)
    && NoDuplicates(favoriteDogIds)
  }

  /** The hooks the search workflow writes. */
  datatype SearchView = SearchView(
    dogs: seq<Dog>,
    isLoadingDogs: bool,
    dogsError: Option<string>,
    totalResults: nat,
    currentPage: int)

  /** The hooks only the user changes: what to search for, and the favorites. */
  datatype Choices = Choices(sortOrder: string, selectedBreeds: seq<string>, favoriteDogIds: seq<string>)

  /** The hooks the match workflow writes. */
  datatype MatchView = MatchView(
    matchedDog: Option<Dog>,
    isMatching: bool,
    matchError: Option<string>,
    isMatchModalOpen: bool)

  /**
   * The component's state hooks, grouped by who writes them, plus whether
   * the page has navigated to the login route and the requests it has sent.
   */
  datatype PageState = PageState(
    results: SearchView,
    choices: Choices,
    matching: MatchView,
    navigatedToLogin: bool,
    requests: seq<Request>)
  {
    predicate Settled() {
      Idle(results.isLoadingDogs, matching.isMatching, choices.sortOrder, choices.favoriteDogIds)
    }
  }

  /** The `useState` initial values. */
  function Initial(): PageState {
    PageState(
      SearchView([], false, None, 0, 1),
      Choices(SortAscending, [], []),
      MatchView(None, false, None, false),
      false, [])
  }

  /** The text an error carries into the `catch` block. */
  function FailureText<T>(prefix: string, r: Response<T>): string
    requires r.Failed()
  {
    if r.Thrown? then r.message else prefix + NatToString(r.status)
  }

  /** The `catch` filter: an error whose message includes "401" is not shown. */
  function Reported(message: string): (shown: Option<string>)
    ensures shown == None <==> Contains(message, "401")
    ensures shown.Some? ==> shown.value == message
  {
    if Contains(message, "401") then None else Some(message)
  }

  /** `searchData.resultIds || []`. */
  function ResultIds(data: SearchData): seq<string> {
    match data.resultIds
    case Some(ids) => ids
    case None => []
  }

  /** `searchData.total || 0`. */
  function ReportedTotal(data: SearchData): nat {
    match data.total
    case Some(n) => n
    case None => 0
  }

  /** What a `try` block leaves: the state, and the message of the error it threw, if any. */
  datatype Attempt = Attempt(state: PageState, thrown: Option<string>)

  /**
   * The requests `fetchDogs(page)` sends, in order: the search built from
   * the page, the sort order and the breeds, then the details of the
   * returned ids only when the search succeeded with a non-empty id list.
   */
  function SearchRequests(s: PageState, page: int, search: Response<SearchData>): seq<Request> {
    [SearchCall(SearchParams(page, s.choices.sortOrder, s.choices.selectedBreeds))]
    + if search.Succeeded() && ResultIds(search.body) != [] then [DetailsCall(ResultIds(search.body))] else []
  }

  /** The three setters `fetchDogs(page)` runs before its first request. */
  function SearchStarted(s: PageState, page: int): PageState {
    s.(results := s.results.(isLoadingDogs := true, dogsError := None, dogs := if page == 1 then [] else s.results.dogs))
  }

  /**
   * The `try` block of `fetchDogs(page)`: the search request, classified as
   * 401 (navigate and stop), failure (throw) or success; a success records
   * the total and the page, and a non-empty id list goes on to the details
   * request.
   */
  function SearchAttempt(s: PageState, page: int, search: Response<SearchData>, details: Response<seq<Dog>>): Attempt
  {
    var sent := s.(requests := s.requests + [SearchCall(SearchParams(page, s.choices.sortOrder, s.choices.selectedBreeds))]);
    if search.Unauthorized() then
      Attempt(sent.(navigatedToLogin := true), None)
    else if search.Failed() then
      Attempt(sent, Some(FailureText(SearchFailedPrefix, search)))
    else
      ResultsAttempt(sent, page, search.body, details)
  }

  /**
   * The rest of the `try` block once the search response is ok: the total
   * and the page are recorded, and an empty id list ends the search with
   * nothing to show.
   */
  function ResultsAttempt(s: PageState, page: int, data: SearchData, details: Response<seq<Dog>>): Attempt
  {
    var ids := ResultIds(data);
    var counted := s.(results := s.results.(totalResults := ReportedTotal(data), currentPage := page));
    if ids == [] then
      Attempt(counted.(results := counted.results.(dogs := [], totalResults := 0)), None)
    else
      DetailsAttempt(counted, ids, details)
  }

  /** The details request of `fetchDogs` for the returned ids, classified the same way. */
  function DetailsAttempt(s: PageState, ids: seq<string>, details: Response<seq<Dog>>): Attempt
  {
    var sent := s.(requests := s.requests + [DetailsCall(ids)]);
    if details.Unauthorized() then
      Attempt(sent.(navigatedToLogin := true), None)
    else if details.Failed() then
      Attempt(sent, Some(FailureText(DetailsFailedPrefix, details)))
    else
      Attempt(sent.(results := sent.results.(dogs := details.body)), None)
  }

  /** The `catch` block of `fetchDogs`: shows the error unless its message includes "401". */
  function SearchCaught(a: Attempt): PageState {
    if a.thrown.Some? && !Contains(a.thrown.value, "401") then
      a.state.(results := a.state.results.(dogsError := a.thrown))
    else
      a.state
  }

  /**
   * `fetchDogs(page)` run to completion: loading starts, the error is
   * cleared and (for page 1) the list emptied; then the `try`, `catch` and
   * `finally` blocks.
   */
  function AfterFetchDogs(s: PageState, page: int, search: Response<SearchData>, details: Response<seq<Dog>>): PageState
  {
    var caught := SearchCaught(SearchAttempt(SearchStarted(s, page), page, search, details));
    caught.(results := caught.results.(isLoadingDogs := false))
  }

  /**
   * `fetchDogs` ends not loading, leaves the sort order, the breeds, the
   * favorites and the match view alone, and sends first the search built
   * from the current page, sort order and breeds, then at most one more
   * request.
   */
  lemma FetchDogsFrame(s: PageState, page: int, search: Response<SearchData>, details: Response<seq<Dog>>)
    ensures var r := AfterFetchDogs(s, page, search, details);
      && !r.results.isLoadingDogs
      && r.choices == s.choices && r.matching == s.matching
      && r.requests == s.requests + SearchRequests(s, page, search)
  {
    var started := SearchStarted(s, page);
    SearchAttemptFrame(started, page, search, details);
  }

  /** The `try` block of `fetchDogs` touches neither the choices nor the match view. */
  lemma SearchAttemptFrame(s: PageState, page: int, search: Response<SearchData>, details: Response<seq<Dog>>)
    ensures var a := SearchAttempt(s, page, search, details);
      && a.state.results.isLoadingDogs == s.results.isLoadingDogs
      && a.state.choices == s.choices && a.state.matching == s.matching
      && a.state.requests == s.requests + SearchRequests(s, page, search)
  {
    if search.Succeeded() && ResultIds(search.body) != [] {
      var call := SearchCall(SearchParams(page, s.choices.sortOrder, s.choices.selectedBreeds));
      var ids := ResultIds(search.body);
      assert s.requests + [call] + [DetailsCall(ids)] == s.requests + SearchRequests(s, page, search);
    }
  }

  /** `fetchDogs` ends with nothing loading, whatever path it took. */
  lemma FetchDogsKeepsSettled(s: PageState, page: int, search: Response<SearchData>, details: Response<seq<Dog>>)
    requires s.Settled()
    ensures AfterFetchDogs(s, page, search, details).Settled()
  {
    FetchDogsFrame(s, page, search, details);
  }

  /** Whether `fetchDogs` got as far as a successful details response. */
  predicate Hydrated(search: Response<SearchData>, details: Response<seq<Dog>>) {
    search.Succeeded() && ResultIds(search.body) != [] && details.Succeeded()
  }

  /**
   * `fetchDogs(1)` starts from an empty list with no error, so unless new
   * details arrive the list is empty afterwards; a later page keeps the
   * previous list until the details arrive (or the id list is empty). On
   * success the list is the details response as received, not re-ordered.
   */
  lemma FetchDogsDisplayedList(s: PageState, page: int, search: Response<SearchData>, details: Response<seq<Dog>>)
    ensures var r := AfterFetchDogs(s, page, search, details).results;
      && (Hydrated(search, details) ==> r.dogs == details.body && r.dogsError == None)
      && (!Hydrated(search, details) && page == 1 ==> r.dogs == [])
      && ((!Hydrated(search, details) && page != 1 && !(search.Succeeded() && ResultIds(search.body) == []))
            ==> r.dogs == s.results.dogs)
  {
  }

  /** The page goes to the login route exactly when one of its responses is a 401. */
  lemma FetchDogsNavigation(s: PageState, page: int, search: Response<SearchData>, details: Response<seq<Dog>>)
    ensures AfterFetchDogs(s, page, search, details).navigatedToLogin <==> (s.navigatedToLogin
      || search.Unauthorized() || (search.Succeeded() && ResultIds(search.body) != [] && details.Unauthorized()))
  {
  }

  /**
   * A 401 from the search or the details request sends the page to the
   * login route, shows no error and sends nothing more; loading is over.
   */
  lemma FetchDogsUnauthorized(s: PageState, page: int, search: Response<SearchData>, details: Response<seq<Dog>>)
    requires search.Unauthorized() || (search.Succeeded() && ResultIds(search.body) != [] && details.Unauthorized())
    ensures var r := AfterFetchDogs(s, page, search, details);
      && r.navigatedToLogin
      && r.results.dogsError == None
      && !r.results.isLoadingDogs
      && r.requests == s.requests + [SearchCall(SearchParams(page, s.choices.sortOrder, s.choices.selectedBreeds))]
           + (if search.Unauthorized() then [] else [DetailsCall(ResultIds(search.body))])
      && (search.Unauthorized() ==>
            r.results.totalResults == s.results.totalResults && r.results.currentPage == s.results.currentPage)
  {
  }

  /**
   * A successful search records the requested page and the reported total
   * before the details request. An empty id list ends there, with an empty
   * list and a total of 0; otherwise exactly the returned ids are requested.
   */
  lemma FetchDogsSearchSucceeded(s: PageState, page: int, search: Response<SearchData>, details: Response<seq<Dog>>)
    requires search.Succeeded()
    ensures var r := AfterFetchDogs(s, page, search, details);
      var ids := ResultIds(search.body);
      && r.results.currentPage == page
      && r.results.totalResults == (if ids == [] then 0 else ReportedTotal(search.body))
      && (ids == [] ==> r.results.dogs == [] && r.results.dogsError == None && |r.requests| == |s.requests| + 1)
      && (ids != [] ==> (r.requests == s.requests
            + [SearchCall(SearchParams(page, s.choices.sortOrder, s.choices.selectedBreeds)), DetailsCall(ids)]))
  {
  }

  /**
   * A search or details failure with a status code (any status a server
   * sends has at most three digits) shows "Search failed: <status>" or
   * "Details fetch failed: <status>"; a thrown error shows its message
   * unless that message includes "401". Loading is over either way.
   */
  lemma FetchDogsFailureShown(s: PageState, page: int, search: Response<SearchData>, details: Response<seq<Dog>>)
    requires search.Failed() || (search.Succeeded() && ResultIds(search.body) != [] && details.Failed())
    ensures var r := AfterFetchDogs(s, page, search, details);
      && !r.results.isLoadingDogs
      && r.navigatedToLogin == s.navigatedToLogin
      && ((search.Failed() && search.Http? && search.status < 1000)
            ==> r.results.dogsError == Some(SearchFailedPrefix + NatToString(search.status)))
      && (search.Failed() && search.Thrown? ==> r.results.dogsError == Reported(search.message))
      && (search.Failed() ==>
            r.results.totalResults == s.results.totalResults && r.results.currentPage == s.results.currentPage)
      && ((search.Succeeded() && details.Http? && details.status < 1000)
            ==> r.results.dogsError == Some(DetailsFailedPrefix + NatToString(details.status)))
      && (search.Succeeded() && details.Thrown? ==> r.results.dogsError == Reported(details.message))
  {
    if search.Failed() && search.Http? && search.status < 1000 {
      StatusTextContains401(SearchFailedPrefix, search.status);
    }
    if search.Succeeded() && details.Http? && details.status < 1000 {
      StatusTextContains401(DetailsFailedPrefix, details.status);
    }
  }

  /**
   * The code keeps no page bound: after a later page comes back with no ids
   * the total is 0 and yet the current page is the requested one.
   */
  lemma CurrentPageCanExceedPageCount(s: PageState)
    ensures var r := AfterFetchDogs(s, 2, Http(200, SearchData(Some([]), Some(30))), Thrown("")).results;
      r.currentPage == 2 && r.totalResults == 0 && r.currentPage > TotalPages(r.totalResults)
  {
  }

  /** `Math.ceil(totalResults / RESULTS_PER_PAGE)`: the fewest pages of 24 that hold every result. */
  function TotalPages(totalResults: nat): (pages: nat)
    ensures pages * ResultsPerPage >= totalResults
    ensures pages > 0 ==> (pages - 1) * ResultsPerPage < totalResults
  {
    (totalResults + ResultsPerPage - 1) / ResultsPerPage
  }

  lemma FiftyResultsMakeThreePages()
    ensures TotalPages(50) == 3
  {
  }

  /** `handlePageChange`: a new search only for a page other than the current one. */
  function AfterPageChange(s: PageState, newPage: int, search: Response<SearchData>, details: Response<seq<Dog>>): PageState
  {
    if newPage != s.results.currentPage then AfterFetchDogs(s, newPage, search, details) else s
  }

  /**
   * The guard: a page change sends a request exactly when the page differs
   * from the current one, and otherwise changes nothing at all.
   */
  lemma PageChangeGuard(s: PageState, newPage: int, search: Response<SearchData>, details: Response<seq<Dog>>)
    ensures var r := AfterPageChange(s, newPage, search, details);
      && (|r.requests| > |s.requests| <==> newPage != s.results.currentPage)
      && (newPage == s.results.currentPage ==> r == s)
  {
    if newPage != s.results.currentPage {
      FetchDogsFrame(s, newPage, search, details);
    }
  }

  /**
   * Once a search for a page has succeeded, asking for that page again
   * sends nothing and changes nothing, whatever the network would answer.
   */
  lemma PageChangeSettles(s: PageState, page: int, search: Response<SearchData>, details: Response<seq<Dog>>,
                          search2: Response<SearchData>, details2: Response<seq<Dog>>)
    requires search.Succeeded()
    ensures var r := AfterPageChange(s, page, search, details);
      AfterPageChange(r, page, search2, details2) == r
  {
    if page != s.results.currentPage {
      FetchDogsSearchSucceeded(s, page, search, details);
    }
  }

  /** The updater of `handleSortToggle`. */
  function ToggleSort(sortOrder: string): (r: string)
    ensures r == SortAscending || r == SortDescending
    ensures r == SortDescending <==> sortOrder == SortAscending
  {
    if sortOrder == SortAscending then SortDescending else SortAscending
  }

  /** Toggling the sort twice restores it. */
  lemma ToggleSortTwice(sortOrder: string)
    requires sortOrder == SortAscending || sortOrder == SortDescending
    ensures ToggleSort(ToggleSort(sortOrder)) == sortOrder
  {
  }

  /** `handleSortToggle`: only the sort order changes. */
  function AfterSortToggle(s: PageState): PageState {
    s.(choices := s.choices.(sortOrder := ToggleSort(s.choices.sortOrder)))
  }

  /** The value the breed select hands to `handleBreedChange`: autofill text or the picked names. */
  datatype SelectValue = Joined(text: string) | Picked(items: seq<string>)

  function SelectedBreedsOf(value: SelectValue): seq<string> {
    match value
    case Joined(text) => Split(text, ',')
    case Picked(items) => items
  }

  /**
   * A comma-joined value becomes the list of its comma-free pieces, which
   * join back to the text; a picked list is taken as it is.
   */
  lemma BreedSelection(value: SelectValue)
    ensures value.Picked? ==> SelectedBreedsOf(value) == value.items
    ensures value.Joined? ==> var b := SelectedBreedsOf(value);
      |b| >= 1 && Join(b, ',') == value.text && forall k :: 0 <= k < |b| ==> ',' !in b[k]
  {
    if value.Joined? {
      JoinSplit(value.text, ',');
    }
  }

  /** `handleBreedChange`: only the selected breeds change. */
  function AfterBreedChange(s: PageState, value: SelectValue): PageState {
    s.(choices := s.choices.(selectedBreeds := SelectedBreedsOf(value)))
  }

  /** `handleToggleFavorite`: only the favorites change. */
  function AfterToggleFavorite(s: PageState, dogId: string): PageState {
    s.(choices := s.choices.(favoriteDogIds := Toggled(s.choices.favoriteDogIds, dogId)))
  }

  /** `handleCloseMatchModal`: only the dialog closes. */
  function AfterCloseMatchModal(s: PageState): PageState {
    s.(matching := s.matching.(isMatchModalOpen := false))
  }

  /**
   * The handlers that run no request keep a settled page settled; toggling
   * the sort or a favorite twice gives back the same page (a re-added
   * favorite moves to the end of the set, so there the set is the same).
   */
  lemma SimpleHandlersKeepSettled(s: PageState, value: SelectValue, dogId: string)
    requires s.Settled()
    ensures AfterSortToggle(s).Settled() && AfterBreedChange(s, value).Settled()
    ensures AfterToggleFavorite(s, dogId).Settled() && AfterCloseMatchModal(s).Settled()
    ensures AfterSortToggle(AfterSortToggle(s)) == s
    ensures var f := AfterToggleFavorite(AfterToggleFavorite(s, dogId), dogId).choices.favoriteDogIds;
      forall x :: x in f <==> x in s.choices.favoriteDogIds
  {
    ToggleSortTwice(s.choices.sortOrder);
    ToggleTwice(s.choices.favoriteDogIds, dogId);
  }

  /** The three setters `handleFindMatch` runs past its guard, before its first request. */
  function MatchStarted(s: PageState): PageState {
    s.(matching := s.matching.(isMatching := true, matchError := None, matchedDog := None))
  }

  /**
   * The requests `handleFindMatch` sends past its guard, in order: the
   * favorites in insertion order, then the matched id alone only when the
   * match request succeeded.
   */
  function MatchRequests(s: PageState, matchResponse: Response<MatchResult>): seq<Request> {
    [MatchCall(s.choices.favoriteDogIds)]
    + if matchResponse.Succeeded() then [DetailsCall([matchResponse.body.matchedId])] else []
  }

  /**
   * The `try` block of `handleFindMatch`: the match request with the
   * favorites in insertion order, then the details request for the one
   * matched id.
   */
  function MatchAttempt(s: PageState, matchResponse: Response<MatchResult>, details: Response<seq<Dog>>): Attempt
  {
    var sent := s.(requests := s.requests + [MatchCall(s.choices.favoriteDogIds)]);
    if matchResponse.Unauthorized() then
      Attempt(sent.(navigatedToLogin := true), None)
    else if matchResponse.Failed() then
      Attempt(sent, Some(FailureText(MatchFailedPrefix, matchResponse)))
    else
      MatchDetailsAttempt(sent, matchResponse.body.matchedId, details)
  }

  /** The details request for the matched id; an empty details list is thrown as an error. */
  function MatchDetailsAttempt(s: PageState, matchedId: string, details: Response<seq<Dog>>): Attempt
  {
    var sent := s.(requests := s.requests + [DetailsCall([matchedId])]);
    if details.Unauthorized() then
      Attempt(sent.(navigatedToLogin := true), None)
    else if details.Failed() then
      Attempt(sent, Some(FailureText(MatchDetailsFailedPrefix, details)))
    else if details.body == [] then
      Attempt(sent, Some(MatchDetailsMissing))
    else
      Attempt(sent.(matching := sent.matching.(matchedDog := Some(details.body[0]), isMatchModalOpen := true)), None)
  }

  /** The `catch` block of `handleFindMatch`: shows the error and opens the dialog, unless the message includes "401". */
  function MatchCaught(a: Attempt): PageState {
    if a.thrown.Some? && !Contains(a.thrown.value, "401") then
      a.state.(matching := a.state.matching.(matchError := a.thrown, isMatchModalOpen := true))
    else
      a.state
  }

  /**
   * `handleFindMatch` run to completion: the empty-favorites guard, then
   * the `try`, `catch` and `finally` blocks.
   */
  function AfterFindMatch(s: PageState, matchResponse: Response<MatchResult>, details: Response<seq<Dog>>): PageState
  {
    if s.choices.favoriteDogIds == [] then
      s.(matching := s.matching.(matchError := Some(NoFavoritesMessage), isMatchModalOpen := true))
    else
      var caught := MatchCaught(MatchAttempt(MatchStarted(s), matchResponse, details));
      caught.(matching := caught.matching.(isMatching := false))
  }

  /** The page goes to the login route exactly when one of the match workflow's responses is a 401. */
  lemma FindMatchNavigation(s: PageState, matchResponse: Response<MatchResult>, details: Response<seq<Dog>>)
    ensures AfterFindMatch(s, matchResponse, details).navigatedToLogin <==> (s.navigatedToLogin
      || (s.choices.favoriteDogIds != [] && (matchResponse.Unauthorized() || (matchResponse.Succeeded() && details.Unauthorized()))))
  {
  }

  /**
   * `handleFindMatch` leaves the search view, the sort order, the breeds and
   * the favorites alone, only appends to the requests, and ends with no
   * match in progress when it got past the guard.
   */
  lemma FindMatchFrame(s: PageState, matchResponse: Response<MatchResult>, details: Response<seq<Dog>>)
    ensures var r := AfterFindMatch(s, matchResponse, details);
      && r.results == s.results && r.choices == s.choices
      && (s.choices.favoriteDogIds == [] ==> r.matching.isMatching == s.matching.isMatching)
      && (s.choices.favoriteDogIds != [] ==> !r.matching.isMatching)
      && r.requests == s.requests + (if s.choices.favoriteDogIds == [] then [] else MatchRequests(s, matchResponse))
  {
    if s.choices.favoriteDogIds != [] {
      MatchAttemptFrame(MatchStarted(s), matchResponse, details);
    }
  }

  /** The `try` block of `handleFindMatch` touches neither the search view nor the choices. */
  lemma MatchAttemptFrame(s: PageState, matchResponse: Response<MatchResult>, details: Response<seq<Dog>>)
    ensures var a := MatchAttempt(s, matchResponse, details);
      && a.state.matching.isMatching == s.matching.isMatching
      && a.state.results == s.results && a.state.choices == s.choices
      && a.state.requests == s.requests + MatchRequests(s, matchResponse)
  {
    if matchResponse.Succeeded() {
      var call := MatchCall(s.choices.favoriteDogIds);
      var matchedId := matchResponse.body.matchedId;
      assert s.requests + [call] + [DetailsCall([matchedId])] == s.requests + MatchRequests(s, matchResponse);
    }
  }

  /** `handleFindMatch` ends with no match in progress, whatever path it took. */
  lemma FindMatchKeepsSettled(s: PageState, matchResponse: Response<MatchResult>, details: Response<seq<Dog>>)
    requires s.Settled()
    ensures AfterFindMatch(s, matchResponse, details).Settled()
  {
    FindMatchFrame(s, matchResponse, details);
  }

  /** With no favorites nothing is sent: the error is set and the dialog opens. */
  lemma FindMatchWithoutFavorites(s: PageState, matchResponse: Response<MatchResult>, details: Response<seq<Dog>>)
    requires s.choices.favoriteDogIds == []
    ensures var r := AfterFindMatch(s, matchResponse, details);
      && r.requests == s.requests
      && r.matching.matchError == Some(NoFavoritesMessage)
      && r.matching.isMatchModalOpen
      && r.matching.matchedDog == s.matching.matchedDog
  {
  }

  /**
   * A match that resolves to a record shows the first record of the details
   * response, with no error; the requests are the favorites, then the one
   * matched id.
   */
  lemma FindMatchSucceeded(s: PageState, matchResponse: Response<MatchResult>, details: Response<seq<Dog>>)
    requires s.choices.favoriteDogIds != []
    requires matchResponse.Succeeded() && details.Succeeded() && details.body != []
    ensures var r := AfterFindMatch(s, matchResponse, details);
      && r.matching.matchedDog == Some(details.body[0])
      && r.matching.matchError == None
      && r.matching.isMatchModalOpen
      && !r.matching.isMatching
      && r.requests == s.requests + [MatchCall(s.choices.favoriteDogIds), DetailsCall([matchResponse.body.matchedId])]
  {
  }

  /** An empty details list for the matched id is an error, and the dialog opens. */
  lemma FindMatchNoDetails(s: PageState, matchResponse: Response<MatchResult>, details: Response<seq<Dog>>)
    requires s.choices.favoriteDogIds != []
    requires matchResponse.Succeeded() && details.Succeeded() && details.body == []
    ensures var r := AfterFindMatch(s, matchResponse, details).matching;
      && r.matchedDog == None
      && r.matchError == Some(MatchDetailsMissing)
      && r.isMatchModalOpen
      && !r.isMatching
  {
    NoFourNo401(MatchDetailsMissing);
  }

  /** A 401 from either request: login route, no error, no dialog, no match. */
  lemma FindMatchUnauthorized(s: PageState, matchResponse: Response<MatchResult>, details: Response<seq<Dog>>)
    requires s.choices.favoriteDogIds != []
    requires matchResponse.Unauthorized() || (matchResponse.Succeeded() && details.Unauthorized())
    ensures var r := AfterFindMatch(s, matchResponse, details);
      && r.navigatedToLogin
      && r.matching.matchError == None
      && r.matching.matchedDog == None
      && r.matching.isMatchModalOpen == s.matching.isMatchModalOpen
      && !r.matching.isMatching
      && r.requests == s.requests + [MatchCall(s.choices.favoriteDogIds)]
           + (if matchResponse.Unauthorized() then [] else [DetailsCall([matchResponse.body.matchedId])])
  {
  }

  /**
   * A failed match or details request with a status code shows its message
   * and opens the dialog; an error thrown by either request does so unless
   * its message includes "401".
   */
  lemma FindMatchFailureShown(s: PageState, matchResponse: Response<MatchResult>, details: Response<seq<Dog>>)
    requires s.choices.favoriteDogIds != []
    requires matchResponse.Failed() || (matchResponse.Succeeded() && details.Failed())
    ensures var r := AfterFindMatch(s, matchResponse, details);
      && r.matching.matchedDog == None
      && !r.matching.isMatching
      && r.navigatedToLogin == s.navigatedToLogin
      && ((matchResponse.Http? && matchResponse.status < 1000 && matchResponse.Failed())
            ==> r.matching.matchError == Some(MatchFailedPrefix + NatToString(matchResponse.status)) && r.matching.isMatchModalOpen)
      && ((matchResponse.Succeeded() && details.Http? && details.status < 1000)
            ==> r.matching.matchError == Some(MatchDetailsFailedPrefix + NatToString(details.status)) && r.matching.isMatchModalOpen)
      && (matchResponse.Thrown? ==> (r.matching.matchError == Reported(matchResponse.message)
            && (r.matching.isMatchModalOpen <==> r.matching.matchError.Some? || s.matching.isMatchModalOpen)))
      && ((matchResponse.Succeeded() && details.Thrown?) ==> (r.matching.matchError == Reported(details.message)
            && (r.matching.isMatchModalOpen <==> r.matching.matchError.Some? || s.matching.isMatchModalOpen)))
  {
    if matchResponse.Http? && matchResponse.status < 1000 && matchResponse.Failed() {
      StatusTextContains401(MatchFailedPrefix, matchResponse.status);
    }
    if matchResponse.Succeeded() && details.Http? && details.status < 1000 {
      StatusTextContains401(MatchDetailsFailedPrefix, details.status);
    }
  }
}
