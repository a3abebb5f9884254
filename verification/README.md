# Dog matcher search page: a Dafny model of its controller

The search page of the dog matcher lets a signed-in user search the adoptable
dogs of a remote catalog: filter by breed, sort by breed, page through the
results 24 at a time, mark favorites, and ask the service for one match
computed from the favorites. Its controller is a React component whose state
lives in `useState` hooks and whose handlers update that state step by step
around `fetch` calls.

This project models that controller:

- `Component.SearchPage` is a class with one field per state hook (`dogs`,
  `isLoadingDogs`, `dogsError`, `totalResults`, `currentPage`, `sortOrder`,
  `selectedBreeds`, `favoriteDogIds`, `matchedDog`, `isMatching`,
  `matchError`, `isMatchModalOpen`). Two fields are added:
  - `navigatedToLogin` records `navigate('/login')`.
  - `requests` records the requests sent, in order.
- The class has one method per handler. `fetchDogs` and `handleFindMatch` are
  split the way the code is: the setters before the `try`, the query
  building (for `fetchDogs`), the `try` block, the `catch` block, and the
  `finally` setter. Building the query cannot throw and sets no hook, so
  `SearchAndHydrate` builds it and then runs the `try` block.
- Every method is proved to leave exactly the state that a function of
  `PageModel` computes from the state before it (`Snapshot()`). The
  properties of the handlers are proved about those functions.
- Network responses are inputs. Each one is either `Http(status, body)` or
  `Thrown(message)`. `Thrown` covers a rejected `fetch` and a body that fails
  to decode. Each response is classified in the code's order:
  1. status 401: go to the login route and stop;
  2. not ok (outside 200..299): throw `"<wording>: <status>"`;
  3. otherwise: success.
- The `catch` filter is modelled exactly: the message is shown only when it
  does not include the text "401".
- `Text.StatusTextContains401` and `Text.NoFourNo401` show which
  messages that filter hides. A thrown status message is hidden only for
  status 401, given a status of at most three digits. A message without the
  character '4' is never hidden.
- The search query is `SearchQuery.SearchParams`, an ordered list of
  key/value pairs built by `BuildSearchParams` as `URLSearchParams.append`
  does. `GetAll` reads it back.
- The favorites `Set` is a sequence without duplicates, in insertion order.
  That order is what `Array.from` sends to the match request.

Three facts about the code shape the model:

- The code has no stale-response guard and no generation counter. Each
  handler is modelled as one uninterrupted run.
- The details response is stored as received. It is not re-ordered by the
  searched ids (`FetchDogsDisplayedList`).
- The code keeps no page bound. After an empty later page the page is
  recorded and the total is set to 0, so `currentPage` can exceed
  `ceil(totalResults / 24)` (`CurrentPageCanExceedPageCount`).

## Model

| member | source | states |
|---|---|---|
| Text.NatToString | src/pages/SearchPage.tsx:75 | `String(fromOffset)`: a non-empty string of digits with no leading zero, of as many digits as the number needs |
| Text.ParseNatToString | src/pages/SearchPage.tsx:75 | the `from` text reads back as the number it was made from |
| Text.NatToStringInjective | src/pages/SearchPage.tsx:75 | two numbers with the same text are equal |
| Text.NoFourNo401 | src/pages/SearchPage.tsx:187-196 | a message without the character '4' never includes "401", so the catch block shows it |
| Text.StatusTextContains401 | src/pages/SearchPage.tsx:102-105 | "<wording>: <status>" with no '4' in the wording and a status below 1000 includes "401" exactly when the status is 401 |
| Text.Split | src/pages/SearchPage.tsx:129 | `value.split(',')` yields at least one piece and no piece contains a comma |
| Text.JoinSplit | src/pages/SearchPage.tsx:129 | joining the pieces of a split with the separator gives back the text |
| Text.SplitJoin | src/pages/SearchPage.tsx:129 | splitting the join of separator-free pieces gives back the pieces |
| SearchQuery.PageSizeTextIsPageSize | src/pages/SearchPage.tsx:73 | the `size` value "24" is `String(RESULTS_PER_PAGE)` |
| SearchQuery.BuildSearchParams | src/pages/SearchPage.tsx:71-76 | the list built by appending `size`, `sort`, `from` when the offset is positive, and one `breeds` per selected breed in a `forEach` loop equals `SearchParams` |
| SearchQuery.GetAllBreedParams | src/pages/SearchPage.tsx:76 | the `breeds` pairs carry exactly the selected breeds in selection order and no other key |
| SearchQuery.GetAllSearchParams | src/pages/SearchPage.tsx:71-76 | `getAll` on the query is the concatenation of what each part contributes |
| SearchQuery.SearchParamsContents | src/pages/SearchPage.tsx:71-76 | one `size` of "24"; one `sort` equal to the sort order; `breeds` equal to the selection, empty when nothing is selected; a `from` exactly when the offset `(page - 1) * 24` is positive, that is for page > 1, whose text reads back as that offset |
| Favorites.Without | src/pages/SearchPage.tsx:146 | `Set.delete`: removes exactly the id, keeps the set duplicate-free, shrinks it by one, and changes nothing when the id is absent |
| Favorites.WithoutKeepsOrder | src/pages/SearchPage.tsx:146 | deleting a present id removes exactly its position; the others keep their insertion order, which `Array.from` sends at line 163 |
| Favorites.Toggled | src/pages/SearchPage.tsx:143-151 | the id's membership flips, every other id keeps its membership, the result is still a set, and its size changes by one |
| Favorites.ToggleTwice | src/pages/SearchPage.tsx:142-152 | toggling the same id twice gives back the same set; an absent id leaves the exact sequence, a present id returns at the end of the insertion order |
| PageModel.Reported | src/pages/SearchPage.tsx:102-105 | the catch filter shows the message unchanged exactly when it does not include "401"; which messages that hides is stated by `Text.StatusTextContains401` (a status message only for 401) and `Text.NoFourNo401` (never a message without '4') |
| PageModel.SearchAttemptFrame | src/pages/SearchPage.tsx:80-101 | the `try` block of `fetchDogs` leaves the choices, the match view and the loading flag alone and appends the search request, then the details request only after a successful non-empty search |
| PageModel.FetchDogsFrame | src/pages/SearchPage.tsx:66-109 | after `fetchDogs` nothing is loading; sort order, breeds, favorites and match view are unchanged; the requests are the old ones plus that search and at most one details request |
| PageModel.FetchDogsKeepsSettled | src/pages/SearchPage.tsx:106-108 | `fetchDogs` keeps a settled page settled: no loading flag left set, whatever path it took |
| PageModel.FetchDogsDisplayedList | src/pages/SearchPage.tsx:67-100 | the list is the details response as received, with no error, when hydration succeeded; otherwise it is empty for page 1 and the previous list for a later page, except for an empty id list |
| PageModel.FetchDogsNavigation | src/pages/SearchPage.tsx:82-96 | the page goes to the login route exactly when the search, or the details request after a non-empty search, answers 401 |
| PageModel.FetchDogsUnauthorized | src/pages/SearchPage.tsx:80-108 | a 401 sets the login flag, shows no error, ends loading and sends nothing after it; a 401 on the search leaves total and page alone |
| PageModel.FetchDogsSearchSucceeded | src/pages/SearchPage.tsx:85-95 | a successful search records the requested page and the reported total (0 when missing) before any details request; an empty id list gives an empty list, a total of 0 and no details request; otherwise exactly those ids are requested |
| PageModel.FetchDogsFailureShown | src/pages/SearchPage.tsx:83-107 | a failed search or details request shows "Search failed: <status>" or "Details fetch failed: <status>"; a thrown message is shown unless it includes "401"; a failed search leaves total and page alone; loading is over and there is no login navigation |
| PageModel.CurrentPageCanExceedPageCount | src/pages/SearchPage.tsx:86-90 | an empty later page leaves page 2 current with a total of 0, beyond the page count |
| PageModel.TotalPages | src/pages/SearchPage.tsx:207 | `Math.ceil(total / 24)`: the fewest pages of 24 that hold every result |
| PageModel.FiftyResultsMakeThreePages | src/pages/SearchPage.tsx:207 | 50 results make 3 pages |
| PageModel.PageChangeGuard | src/pages/SearchPage.tsx:136-140 | a page change sends a request exactly when the new page differs from the current one, and otherwise changes nothing |
| PageModel.PageChangeSettles | src/pages/SearchPage.tsx:136-140 | after a successful search for a page, asking for that page again changes nothing, whatever the network would answer |
| PageModel.ToggleSort | src/pages/SearchPage.tsx:132-134 | the updater yields one of the two orders, descending exactly when it was ascending |
| PageModel.ToggleSortTwice | src/pages/SearchPage.tsx:132-134 | toggling the sort twice restores it |
| PageModel.BreedSelection | src/pages/SearchPage.tsx:127-130 | a picked list is taken as it is; a comma-joined text becomes comma-free pieces that join back to the text |
| PageModel.SimpleHandlersKeepSettled | src/pages/SearchPage.tsx:127-152 | sort toggle, breed change, favorite toggle and dialog close keep a settled page settled; two sort toggles give back the page; two favorite toggles give back the favorites set |
| PageModel.MatchAttemptFrame | src/pages/SearchPage.tsx:164-189 | the `try` block of `handleFindMatch` leaves the search view and the choices alone and sends the favorites, then the matched id only after a successful match |
| PageModel.FindMatchFrame | src/pages/SearchPage.tsx:154-200 | `handleFindMatch` leaves the search view, sort order, breeds and favorites alone; past the guard it ends with no match in progress and sends the match request, then at most the details request |
| PageModel.FindMatchKeepsSettled | src/pages/SearchPage.tsx:197-199 | `handleFindMatch` keeps a settled page settled, whatever path it took |
| PageModel.FindMatchNavigation | src/pages/SearchPage.tsx:171-181 | the page goes to the login route exactly when, past the guard, the match or its details request answers 401 |
| PageModel.FindMatchWithoutFavorites | src/pages/SearchPage.tsx:155-159 | with no favorites no request is sent, the error "Please select at least one favorite dog first!" is set and the dialog opens |
| PageModel.FindMatchSucceeded | src/pages/SearchPage.tsx:160-189 | a match with details shows the first details record with no error, opens the dialog, ends matching, and sends the favorites then the one matched id |
| PageModel.FindMatchNoDetails | src/pages/SearchPage.tsx:183-196 | an empty details list sets "Matched dog details could not be retrieved.", shows no match and opens the dialog |
| PageModel.FindMatchUnauthorized | src/pages/SearchPage.tsx:171-181 | a 401 sets the login flag, shows no error and no match, leaves the dialog as it was, ends matching, and sends nothing after it |
| PageModel.FindMatchFailureShown | src/pages/SearchPage.tsx:172-196 | a failed match or details request shows "Match request failed: <status>" or "Matched dog details fetch failed: <status>" and opens the dialog; an error thrown by the match request, or by the details request after a successful match, does so unless its message includes "401" |
| Text.Contains | src/pages/SearchPage.tsx:105 | `message.includes('401')` (also line 193): some position where the text occurs; `Text.NoFourNo401` and `Text.StatusTextContains401` state what it decides for the handlers' messages |
| SearchQuery.Offset | src/pages/SearchPage.tsx:71 | `(page - 1) * RESULTS_PER_PAGE`; `SearchQuery.SearchParamsContents` states that it is positive exactly for page > 1 and is what `from` reads back as |
| SearchQuery.SearchParams | src/pages/SearchPage.tsx:72-76 | the query as an ordered pair list; `SearchQuery.BuildSearchParams` builds it and `SearchQuery.SearchParamsContents` states what `getAll` reads from it |
| PageModel.IsOk | src/pages/SearchPage.tsx:83 | `response.ok` (also lines 97, 172, 182): a status in 200..299; the classification of every response (401 first, then not ok, then ok) is stated by the `FetchDogs*` and `FindMatch*` lemmas |
| PageModel.FailureText | src/pages/SearchPage.tsx:83-97 | the `Error` message a failed response carries: the wording and the status, or the thrown message (templates also at lines 172 and 182); `PageModel.FetchDogsFailureShown` and `PageModel.FindMatchFailureShown` state what is shown |
| PageModel.ResultIds | src/pages/SearchPage.tsx:86 | `searchData.resultIds`, or an empty list when it is missing; `PageModel.FetchDogsSearchSucceeded` states which ids are requested |
| PageModel.ReportedTotal | src/pages/SearchPage.tsx:87 | `searchData.total`, or 0 when it is missing or 0; `PageModel.FetchDogsSearchSucceeded` states the recorded total |
| PageModel.SearchStarted | src/pages/SearchPage.tsx:67-69 | the setters before the `try` block; `PageModel.FetchDogsDisplayedList` states the list they leave |
| PageModel.SearchAttempt | src/pages/SearchPage.tsx:71-84 | the search request with the query of lines 71-76, and its classification; `PageModel.SearchAttemptFrame` states what it touches |
| PageModel.ResultsAttempt | src/pages/SearchPage.tsx:85-91 | records total and page and stops on an empty id list; `PageModel.FetchDogsSearchSucceeded` states it |
| PageModel.DetailsAttempt | src/pages/SearchPage.tsx:92-100 | the details request and its classification; `PageModel.FetchDogsDisplayedList` and `PageModel.FetchDogsNavigation` state it |
| PageModel.SearchCaught | src/pages/SearchPage.tsx:102-108 | the catch filter and the `finally` setter; `PageModel.FetchDogsFailureShown` and `PageModel.FetchDogsKeepsSettled` state it |
| PageModel.AfterFetchDogs | src/pages/SearchPage.tsx:66-109 | the state `fetchDogs(page)` leaves; its properties are `PageModel.FetchDogsFrame`, `FetchDogsKeepsSettled`, `FetchDogsDisplayedList`, `FetchDogsNavigation`, `FetchDogsUnauthorized`, `FetchDogsSearchSucceeded` and `FetchDogsFailureShown` |
| PageModel.AfterPageChange | src/pages/SearchPage.tsx:136-140 | `fetchDogs(newPage)` only when the page differs; `PageModel.PageChangeGuard` and `PageModel.PageChangeSettles` state it |
| PageModel.AfterSortToggle | src/pages/SearchPage.tsx:132-134 | only the sort order changes; `PageModel.ToggleSortTwice` and `PageModel.SimpleHandlersKeepSettled` state it |
| PageModel.AfterBreedChange | src/pages/SearchPage.tsx:127-130 | only the breeds change; `PageModel.BreedSelection` and `PageModel.SimpleHandlersKeepSettled` state it |
| PageModel.AfterToggleFavorite | src/pages/SearchPage.tsx:142-152 | only the favorites change, by `Favorites.Toggled`; `PageModel.SimpleHandlersKeepSettled` states it |
| PageModel.AfterCloseMatchModal | src/pages/SearchPage.tsx:202-205 | only the dialog closes; `PageModel.SimpleHandlersKeepSettled` states it |
| PageModel.MatchStarted | src/pages/SearchPage.tsx:160-162 | the setters past the guard; `PageModel.FindMatchFrame` states it |
| PageModel.MatchAttempt | src/pages/SearchPage.tsx:164-174 | the match request, sending the favorites in insertion order, and its classification; `PageModel.MatchAttemptFrame` states what it touches |
| PageModel.MatchDetailsAttempt | src/pages/SearchPage.tsx:175-189 | the details request for the matched id; `PageModel.FindMatchSucceeded` and `PageModel.FindMatchNoDetails` state it |
| PageModel.MatchCaught | src/pages/SearchPage.tsx:190-199 | the catch filter and the `finally` setter; `PageModel.FindMatchFailureShown` and `PageModel.FindMatchKeepsSettled` state it |
| PageModel.AfterFindMatch | src/pages/SearchPage.tsx:154-200 | the state `handleFindMatch` leaves; its properties are `PageModel.FindMatchFrame`, `FindMatchKeepsSettled`, `FindMatchNavigation`, `FindMatchWithoutFavorites`, `FindMatchSucceeded`, `FindMatchNoDetails`, `FindMatchUnauthorized` and `FindMatchFailureShown` |
| PageModel.Initial | src/pages/SearchPage.tsx:29-40 | the `useState` initial values; `Component.SearchPage.constructor` states that the first render has them and is valid |
| PageModel.Response.Unauthorized | src/pages/SearchPage.tsx:82 | `status === 401` (also lines 96, 171, 181), the first check on every response; `PageModel.FetchDogsNavigation` and `PageModel.FindMatchNavigation` state that it, and only it, leads to the login route |
| PageModel.Response.Succeeded | src/pages/SearchPage.tsx:83 | an answer that is `ok` (also lines 97, 172, 182); `PageModel.FetchDogsSearchSucceeded` and `PageModel.FindMatchSucceeded` state what follows it |
| PageModel.Response.Failed | src/pages/SearchPage.tsx:83 | a thrown error or an answer neither 401 nor `ok` (also lines 97, 172, 182): what reaches the `catch` block; `PageModel.FetchDogsFailureShown` and `PageModel.FindMatchFailureShown` state what is shown |
| PageModel.SearchRequests | src/pages/SearchPage.tsx:81-95 | the search request, then the details of the returned ids only after a successful non-empty search; `PageModel.SearchAttemptFrame` and `PageModel.FetchDogsFrame` state that `fetchDogs` sends exactly these |
| PageModel.MatchRequests | src/pages/SearchPage.tsx:165-180 | the match request with the favorites, then the details of the matched id only after a successful match; `PageModel.MatchAttemptFrame` and `PageModel.FindMatchFrame` state that `handleFindMatch` sends exactly these |
| PageModel.SelectedBreedsOf | src/pages/SearchPage.tsx:129 | the updater `typeof value === 'string' ? value.split(',') : value`; `PageModel.BreedSelection` states it |
| SearchQuery.FromParams | src/pages/SearchPage.tsx:75 | the `from` pair, only for a positive offset; `SearchQuery.SearchParamsContents` states what it reads back as |
| SearchQuery.BreedParams | src/pages/SearchPage.tsx:76 | one `breeds` pair per selected breed, as the `forEach` appends them; `SearchQuery.GetAllBreedParams` states it and `SearchQuery.BuildSearchParams` builds it with the loop |
| Component.SearchPage.constructor | src/pages/SearchPage.tsx:29-40 | every hook starts at its `useState` initial value |
| Component.SearchPage.FetchDogs | src/pages/SearchPage.tsx:66-109 | the handler leaves the state `AfterFetchDogs` computes and keeps the page settled |
| Component.SearchPage.StartSearch | src/pages/SearchPage.tsx:67-69 | loading on, error cleared, list emptied for page 1 only |
| Component.SearchPage.SearchAndHydrate | src/pages/SearchPage.tsx:71-101 | builds the query (lines 71-76), then runs the `try` block: sends the search and classifies the response, as `SearchAttempt` |
| Component.SearchPage.ShowResults | src/pages/SearchPage.tsx:85-100 | records total and page, stops on an empty id list, otherwise hydrates, as `ResultsAttempt` |
| Component.SearchPage.Hydrate | src/pages/SearchPage.tsx:92-100 | the details request and its classification, as `DetailsAttempt` |
| Component.SearchPage.ReportSearchError | src/pages/SearchPage.tsx:102-105 | the catch block sets the error unless the message includes "401" |
| Component.SearchPage.HandleSortToggle | src/pages/SearchPage.tsx:132-134 | only the sort order changes, to the other order |
| Component.SearchPage.HandleBreedChange | src/pages/SearchPage.tsx:127-130 | only the selected breeds change, to the split text or the picked list |
| Component.SearchPage.HandlePageChange | src/pages/SearchPage.tsx:136-140 | runs `fetchDogs` exactly when the page differs from the current one |
| Component.SearchPage.HandleToggleFavorite | src/pages/SearchPage.tsx:142-152 | only the favorites change, by `Toggled` |
| Component.SearchPage.HandleFindMatch | src/pages/SearchPage.tsx:154-200 | the handler leaves the state `AfterFindMatch` computes and keeps the page settled |
| Component.SearchPage.StartMatch | src/pages/SearchPage.tsx:160-162 | matching on, error and match cleared |
| Component.SearchPage.MatchAndLookUp | src/pages/SearchPage.tsx:163-174 | the `try` block: sends the favorites in insertion order and classifies the response, as `MatchAttempt` |
| Component.SearchPage.LookUpMatch | src/pages/SearchPage.tsx:175-189 | the details request for the matched id: first record shown, an empty list thrown, as `MatchDetailsAttempt` |
| Component.SearchPage.ReportMatchError | src/pages/SearchPage.tsx:190-196 | the catch block sets the error and opens the dialog unless the message includes "401" |
| Component.SearchPage.HandleCloseMatchModal | src/pages/SearchPage.tsx:202-205 | only the dialog closes |

## Left out

- The network is left out. `fetch`, the URL (`API_BASE_URL`, the query string's percent-encoding, headers, credentials) and JSON decoding are replaced by scripted responses. A decoding failure is one of the `Thrown` responses.
- Errors thrown as something other than an `Error` get a fixed fallback message in the code. These are not modelled separately: every thrown error carries a message string.
- `console.error` logging is left out. It is output only.
- React scheduling is left out, because it is the framework's: the effects (`fetchBreeds` on mount, and `fetchDogs(1)` after a sort or breed change), state-update batching, and the interleaving of overlapping handlers. Each handler runs to completion on the state it starts from.
- `fetchBreeds` (src/pages/SearchPage.tsx:45-64) is left out. It is one request with the same 401 and catch policy, and then a default sort of the breed names.
- `handleLogout` (src/pages/SearchPage.tsx:115-125) is left out. It is a request whose outcome is ignored, then navigation.
- Rendering, focus management (`findMatchButtonRef`, `modalTitleRef`) and the `isLoggingOut`, `breeds`, `isLoadingBreeds` and `breedsError` hooks are left out. These are UI or belong to the two loaders above.
- The login page, the dog card, routing, bootstrap and theme are not part of this model. The `Dog` record's fields are kept as plain data.
- Text.StatusTextContains401: assumes the status code has at most three digits, which every HTTP status has.
- PageModel.FetchDogsFailureShown: its message facts assume the same three-digit status, which every HTTP status has.
- PageModel.FindMatchFailureShown: its status-message facts assume the same three-digit status, which every HTTP status has; the thrown-message cases of both requests are stated without a bound.
- Pages, offsets, totals and statuses are unbounded integers. JavaScript numbers are doubles: `(page - 1) * 24` loses precision above 2^53 and `String(fromOffset)` switches to exponent notation from 1e21 upward. That behaviour is not modelled; the pages come from the pagination control and stay small.
- `totalResults` is a `nat`: the model takes the reported total to be a non-negative integer. `searchData.total || 0` turns a missing total (and a total of 0) into 0.
- Query keys are the enumeration `SearchQuery.Key`. Its text for each key is given by `KeyText`. `getAll` is modelled only for these four keys.
