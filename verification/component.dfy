/**
 * The search page component itself: one field per state hook, and one method
 * per handler that updates the fields step by step as the handler's setters
 * do. Each handler runs to completion on scripted responses; each method is
 * proved to leave the state that the matching function of `PageModel`
 * describes.
 */
module Component {
  import opened Wrappers
  import opened Text
  import opened SearchQuery
  import opened Favorites
  import opened PageModel

  class SearchPage {
    var dogs: seq<Dog>
    var isLoadingDogs: bool
    var dogsError: Option<string>
    var totalResults: nat
    var currentPage: int
    var sortOrder: string
    var selectedBreeds: seq<string>
    var favoriteDogIds: seq<string>
    var matchedDog: Option<Dog>
    var isMatching: bool
    var matchError: Option<string>
    var isMatchModalOpen: bool
    /** Set by `navigate('/login')`. */
    var navigatedToLogin: bool
    /** The requests sent so far, in order. */
    var requests: seq<Request>

    function Snapshot(): PageState
      reads this
    {
      PageState(
        SearchView(dogs, isLoadingDogs, dogsError, totalResults, currentPage),
        Choices(sortOrder, selectedBreeds, favoriteDogIds),
        MatchView(matchedDog, isMatching, matchError, isMatchModalOpen),
        navigatedToLogin, requests)
    }

    predicate Valid()
      reads this
    {
      Idle(isLoadingDogs, isMatching, sortOrder, favoriteDogIds)
    }

    /** The first render, with every hook at its initial value. */
    constructor ()
      ensures Valid()
      ensures Snapshot() == Initial()
    {
      dogs, isLoadingDogs, dogsError := [], false, None;
      totalResults, currentPage := 0, 1;
      sortOrder, selectedBreeds := SortAscending, [];
      favoriteDogIds := [];
      matchedDog, isMatching, matchError, isMatchModalOpen := None, false, None, false;
      navigatedToLogin, requests := false, [];
    }

    /** `fetchDogs(page)`: the search, then the details of the returned ids. */
    method FetchDogs(page: int, search: Response<SearchData>, details: Response<seq<Dog>>)
      requires Valid()
      modifies this
      ensures Valid()
      ensures Snapshot() == AfterFetchDogs(old(Snapshot()), page, search, details)
    {
      StartSearch(page);
      var thrown := SearchAndHydrate(page, search, details);
      ReportSearchError(thrown);
      // finally
      isLoadingDogs := false;
    }

    /** The setters `fetchDogs` runs before its `try` block. */
    method StartSearch(page: int)
      modifies this`isLoadingDogs, this`dogsError, this`dogs
      ensures Snapshot() == SearchStarted(old(Snapshot()), page)
    {
      isLoadingDogs := true;
      dogsError := None;
      if page == 1 {
        dogs := [];
      }
    }

    /** The `catch` block of `fetchDogs`. */
    method ReportSearchError(thrown: Option<string>)
      modifies this`dogsError
      ensures Snapshot() == SearchCaught(Attempt(old(Snapshot()), thrown))
    {
      if thrown.Some? && !Contains(thrown.value, "401") {
        dogsError := thrown;
      }
    }

    /** The `try` block of `fetchDogs`; returns the message of the error it throws. */
    method SearchAndHydrate(page: int, search: Response<SearchData>, details: Response<seq<Dog>>)
      returns (thrown: Option<string>)
      modifies this`dogs, this`totalResults, this`currentPage, this`navigatedToLogin, this`requests
      ensures Attempt(Snapshot(), thrown) == SearchAttempt(old(Snapshot()), page, search, details)
    {
      var params := BuildSearchParams(page, sortOrder, selectedBreeds);
      requests := requests + [SearchCall(params)];
      if search.Unauthorized() {
        navigatedToLogin := true;
        return None;
      }
      if search.Failed() {
        return Some(FailureText(SearchFailedPrefix, search));
      }
      thrown := ShowResults(page, search.body, details);
    }

    /** The rest of the `try` block of `fetchDogs` once the search response is ok. */
    method ShowResults(page: int, searchData: SearchData, details: Response<seq<Dog>>)
      returns (thrown: Option<string>)
      modifies this`dogs, this`totalResults, this`currentPage, this`navigatedToLogin, this`requests
      ensures Attempt(Snapshot(), thrown) == ResultsAttempt(old(Snapshot()), page, searchData, details)
    {
      var dogIds := ResultIds(searchData);
      totalResults := ReportedTotal(searchData);
      currentPage := page;
      if |dogIds| == 0 {
        dogs := [];
        totalResults := 0;
        return None;
      }
      thrown := Hydrate(dogIds, details);
    }

    /** The details request of `fetchDogs`, inside its `try` block. */
    method Hydrate(dogIds: seq<string>, details: Response<seq<Dog>>) returns (thrown: Option<string>)
      modifies this`dogs, this`navigatedToLogin, this`requests
      ensures Attempt(Snapshot(), thrown) == DetailsAttempt(old(Snapshot()), dogIds, details)
    {
      requests := requests + [DetailsCall(dogIds)];
      if details.Unauthorized() {
        navigatedToLogin := true;
        return None;
      }
      if details.Failed() {
        return Some(FailureText(DetailsFailedPrefix, details));
      }
      dogs := details.body;
      return None;
    }

    /** `handleSortToggle`. */
    method HandleSortToggle()
      requires Valid()
      modifies this
      ensures Valid()
      ensures Snapshot() == AfterSortToggle(old(Snapshot()))
    {
      sortOrder := ToggleSort(sortOrder);
    }

    /** `handleBreedChange`. */
    method HandleBreedChange(value: SelectValue)
      requires Valid()
      modifies this
      ensures Valid()
      ensures Snapshot() == AfterBreedChange(old(Snapshot()), value)
    {
      match value
      case Joined(text) => selectedBreeds := Split(text, ',');
      case Picked(items) => selectedBreeds := items;
    }

    /** `handlePageChange`: fetches only a page other than the current one. */
    method HandlePageChange(newPage: int, search: Response<SearchData>, details: Response<seq<Dog>>)
      requires Valid()
      modifies this
      ensures Valid()
      ensures Snapshot() == AfterPageChange(old(Snapshot()), newPage, search, details)
    {
      if newPage != currentPage {
        FetchDogs(newPage, search, details);
      }
    }

    /** `handleToggleFavorite`. */
    method HandleToggleFavorite(dogId: string)
      requires Valid()
      modifies this
      ensures Valid()
      ensures Snapshot() == AfterToggleFavorite(old(Snapshot()), dogId)
    {
      favoriteDogIds := Toggled(favoriteDogIds, dogId);
    }

    /** `handleFindMatch`: the match request, then the details of the matched id. */
    method HandleFindMatch(matchResponse: Response<MatchResult>, details: Response<seq<Dog>>)
      requires Valid()
      modifies this
      ensures Valid()
      ensures Snapshot() == AfterFindMatch(old(Snapshot()), matchResponse, details)
    {
      if |favoriteDogIds| == 0 {
        matchError := Some(NoFavoritesMessage);
        isMatchModalOpen := true;
        return;
      }
      StartMatch();
      var thrown := MatchAndLookUp(matchResponse, details);
      ReportMatchError(thrown);
      // finally
      isMatching := false;
    }

    /** The setters `handleFindMatch` runs past its guard, before its `try` block. */
    method StartMatch()
      modifies this`isMatching, this`matchError, this`matchedDog
      ensures Snapshot() == MatchStarted(old(Snapshot()))
    {
      isMatching := true;
      matchError := None;
      matchedDog := None;
    }

    /** The `catch` block of `handleFindMatch`. */
    method ReportMatchError(thrown: Option<string>)
      modifies this`matchError, this`isMatchModalOpen
      ensures Snapshot() == MatchCaught(Attempt(old(Snapshot()), thrown))
    {
      if thrown.Some? && !Contains(thrown.value, "401") {
        matchError := thrown;
        isMatchModalOpen := true;
      }
    }

    /** The `try` block of `handleFindMatch`; returns the message of the error it throws. */
    method MatchAndLookUp(matchResponse: Response<MatchResult>, details: Response<seq<Dog>>)
      returns (thrown: Option<string>)
      modifies this`matchedDog, this`isMatchModalOpen, this`navigatedToLogin, this`requests
      ensures Attempt(Snapshot(), thrown) == MatchAttempt(old(Snapshot()), matchResponse, details)
    {
      var favoriteIdsArray := favoriteDogIds;
      requests := requests + [MatchCall(favoriteIdsArray)];
      if matchResponse.Unauthorized() {
        navigatedToLogin := true;
        return None;
      }
      if matchResponse.Failed() {
        return Some(FailureText(MatchFailedPrefix, matchResponse));
      }
      var matchedId := matchResponse.body.matchedId;
      thrown := LookUpMatch(matchedId, details);
    }

    /** The details request for the matched id, inside the `try` block of `handleFindMatch`. */
    method LookUpMatch(matchedId: string, details: Response<seq<Dog>>) returns (thrown: Option<string>)
      modifies this`matchedDog, this`isMatchModalOpen, this`navigatedToLogin, this`requests
      ensures Attempt(Snapshot(), thrown) == MatchDetailsAttempt(old(Snapshot()), matchedId, details)
    {
      requests := requests + [DetailsCall([matchedId])];
      if details.Unauthorized() {
        navigatedToLogin := true;
        return None;
      }
      if details.Failed() {
        return Some(FailureText(MatchDetailsFailedPrefix, details));
      }
      var dogDetails := details.body;
      if |dogDetails| > 0 {
        matchedDog := Some(dogDetails[0]);
      } else {
        return Some(MatchDetailsMissing);
      }
      isMatchModalOpen := true;
      return None;
    }

    /** `handleCloseMatchModal` (returning focus to the button is not modelled). */
    method HandleCloseMatchModal()
      requires Valid()
      modifies this
      ensures Valid()
      ensures Snapshot() == AfterCloseMatchModal(old(Snapshot()))
    {
      isMatchModalOpen := false;
    }
  }
}
