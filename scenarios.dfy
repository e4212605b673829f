/** Event traces through the model, each ending in the state it predicts. */
module Scenarios {
  import opened Wrappers
  import opened Json
  import opened Browser
  import opened Movies
  import opened Watchlist
  import opened App

  /** An example message for a fetch rejected by `controller.abort()`; browsers word it differently. */
  const AbortMessage: string := "The user aborted a request."

  /**
   * "abc" then "abcd": the first fetch is aborted, and its rejection, landing
   * after the second fetch started, still writes its message and clears
   * `isLoading` while the second fetch is outstanding.
   */
  method SupersededFetchStillLands() returns (error: string, isLoading: bool, outstanding: Option<nat>)
    ensures error == AbortMessage && !isLoading && outstanding == Some(1)
  {
    var search := new MovieSearch(true);
    var first := search.QueryChanged("abc");
    var second := search.QueryChanged("abcd");
    assert first == Some(0) && 0 in search.aborted;
    search.Settle(0, Rejected(AbortMessage));
    error, isLoading, outstanding := search.error, search.isLoading, search.cleanup;
  }

  /**
   * A query of two characters: the callback runs, nothing is fetched, and the
   * cells keep their initial values.
   */
  method ShortQueryRunsCallbackOnly() returns (callbackRuns: nat, started: nat, cells: View)
    ensures callbackRuns == 1 && started == 0 && cells == InitialView
  {
    var search := new MovieSearch(true);
    var request := search.QueryChanged("ab");
    callbackRuns, started, cells := search.callbackRuns, search.started, search.Cells();
  }

  /** "godfather" with two matches, then "xyx" with none: the error shows, the old list stays. */
  method NotFoundKeepsPreviousMovies(a: SearchResult, b: SearchResult) returns (afterFirst: View, afterSecond: View)
    ensures afterFirst == View([a, b], false, "")
    ensures afterSecond == View([a, b], false, NotFoundMessage)
  {
    var search := new MovieSearch(false);
    var first := search.QueryChanged("godfather");
    search.Settle(first.value, Matches([a, b]));
    afterFirst := search.Cells();
    var second := search.QueryChanged("xyx");
    search.Settle(second.value, NoMatch);
    afterSecond := search.Cells();
  }

  /** Selecting "tt1", "tt1" again, then "tt2" while "tt1" is open. */
  method SelectionToggles(storage: Storage, codec: Codec)
    returns (first: Option<string>, second: Option<string>, third: Option<string>)
    ensures first == Some("tt1") && second == None && third == Some("tt2")
  {
    var app := new AppState(storage, codec, []);
    app.SelectMovie("tt1");
    first := app.selectedId;
    app.SelectMovie("tt1");
    second := app.selectedId;
    app.SelectMovie("tt1");
    app.SelectMovie("tt2");
    third := app.selectedId;
  }

  /** The hook re-rendered with the query it last ran for starts nothing and aborts nothing. */
  method SameQueryRendersNothing() returns (started: nat, aborted: set<nat>, outstanding: Option<nat>)
    ensures started == 1 && aborted == {} && outstanding == Some(0)
  {
    var search := new MovieSearch(false);
    var first := search.Render("godfather");
    var again := search.Render("godfather");
    started, aborted, outstanding := search.started, search.aborted, search.cleanup;
  }

  /**
   * App typed into: "godfather" closes the open details and starts fetch 0;
   * typing the same text again changes nothing; fetch 0 then lands its matches.
   */
  method AppSearchLands(storage: Storage, codec: Codec, a: SearchResult)
    returns (selection: Option<string>, cells: View, outstanding: Option<nat>)
    ensures selection == None && cells == View([a], false, "") && outstanding == Some(0)
  {
    var app := new AppState(storage, codec, []);
    app.SelectMovie("tt1");
    var request := app.SetQuery("godfather");
    var same := app.SetQuery("godfather");
    assert request == Some(0) && same == None;
    app.SearchSettled(0, Matches([a]));
    selection, cells, outstanding := app.selectedId, app.search.Cells(), app.search.cleanup;
  }

  /** Typing the text already in the box keeps the query, fetches nothing more and keeps the cells. */
  method RetypingLeavesSearchAlone(storage: Storage, codec: Codec)
    returns (before: View, after: View, query: string, started: nat, again: Option<nat>)
    ensures after == before && after == View([], true, "")
    ensures query == "godfather" && started == 1 && again == None
  {
    var app := new AppState(storage, codec, []);
    var first := app.SetQuery("godfather");
    before := app.search.Cells();
    again := app.SetQuery("godfather");
    after, query, started := app.search.Cells(), app.query, app.search.started;
  }
}
