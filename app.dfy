/**
 * The App component's state cells and the handlers and effects that
 * overwrite them: selection, the watched list with its write-through to the
 * "watched" storage slot, and App's own copy of the search effect.
 */
module App {
  import opened Wrappers
  import opened Json
  import opened Browser
  import opened LocalStorageState
  import opened Movies
  import opened Watchlist

  const WatchedSlot: string := "watched"

  /** Why mounting App fails: the slot is not JSON, or its value is not shaped as a list of records. */
  datatype MountError = Malformed | NotAWatchedList

  /**
   * The `watched` initialiser: `JSON.parse(localStorage.getItem("watched")) || []`,
   * read as a list of watched records.
   */
  function RestoreWatched(slots: map<string, string>, c: Codec): (r: Result<seq<WatchedMovie>, MountError>)
    ensures r == Failure(Malformed) <==> InitialValue(slots, WatchedSlot, c).Failure?
    ensures r == Failure(NotAWatchedList) <==>
              InitialValue(slots, WatchedSlot, c).Success? &&
              WatchedFromJson(InitialValue(slots, WatchedSlot, c).value).None?
    ensures r.Success? ==>
              WatchedFromJson(InitialValue(slots, WatchedSlot, c).value) == Some(r.value)
  {
    match InitialValue(slots, WatchedSlot, c)
    case Failure(_) => Failure(Malformed)
    case Success(j) =>
      match WatchedFromJson(j)
      case None => Failure(NotAWatchedList)
      case Some(watched) => Success(watched)
  }

  /** With no "watched" slot the list starts empty. */
  lemma RestoreAbsent(slots: map<string, string>, c: Codec)
    requires c.parse("null") == Some(Null) && WatchedSlot !in slots
    ensures RestoreWatched(slots, c) == Success([])
  {
  }

  /** A "watched" slot that is not JSON makes mounting fail; it is not treated as empty. */
  lemma RestoreMalformed(slots: map<string, string>, c: Codec)
    requires WatchedSlot in slots && c.parse(slots[WatchedSlot]).None?
    ensures RestoreWatched(slots, c) == Failure(Malformed)
  {
  }

  /**
   * Reloading after the write-through effect restores the list that was
   * written, each NaN rating now `null`; a list without NaN ratings comes back exactly.
   */
  lemma RestoreAfterWrite(slots: map<string, string>, c: Codec, watched: seq<WatchedMovie>)
    requires ValidCodec(c)
    ensures RestoreWatched(slots[WatchedSlot := c.stringify(WatchedToJson(watched))], c) ==
              Success(ReloadedList(watched))
    ensures (forall i :: 0 <= i < |watched| ==> watched[i].imdbRating != NotANumber) ==>
              RestoreWatched(slots[WatchedSlot := c.stringify(WatchedToJson(watched))], c) == Success(watched)
  {
    WatchedToJsonWellKeyed(watched);
    ReloadAfterWrite(slots, WatchedSlot, WatchedToJson(watched), c);
    WatchedRoundTrip(watched);
    ReloadedListExact(watched);
  }

  class AppState {
    const storage: Storage
    const codec: Codec
    /** App's `movies`, `isLoading` and `error` cells; its effect passes no callback. */
    const search: MovieSearch
    var query: string
    var selectedId: Option<string>
    var watched: seq<WatchedMovie>

    ghost predicate Valid()
      reads this, search
    {
      search.Valid() && !search.hasCallback
    }

    /** Write-through invariant: the "watched" slot holds the serialised list. */
    predicate WatchedSynced()
      reads this, storage
    {
      WatchedSlot in storage.slots && storage.slots[WatchedSlot] == codec.stringify(WatchedToJson(watched))
    }

    /** `{selectedId ? <MovieDetails …/> : …}`: an empty id is falsy and shows no details. */
    predicate DetailsShown()
      reads this
      ensures DetailsShown() ==> selectedId.Some? && |selectedId.value| > 0
      ensures selectedId == Some("") || selectedId == None ==> !DetailsShown()
    {
      selectedId.Some? && selectedId.value != ""
    }

    /** The `useState` cells on first render. */
    constructor (storage: Storage, codec: Codec, watched: seq<WatchedMovie>)
      ensures Valid() && fresh(search)
      ensures this.storage == storage && this.codec == codec && this.watched == watched
      ensures query == "" && selectedId == None
      ensures search.Cells() == InitialView && search.started == 0 && search.cleanup == None
      ensures search.aborted == {} && search.settled == {}
    {
      this.storage := storage;
      this.codec := codec;
      search := new MovieSearch(false);
      query := "";
      selectedId := None;
      this.watched := watched;
    }

    /** The effect on `[watched]`: `localStorage.setItem("watched", JSON.stringify(watched))`. */
    method WriteWatched()
      modifies storage
      ensures storage.slots == old(storage.slots)[WatchedSlot := codec.stringify(WatchedToJson(watched))]
      ensures WatchedSynced()
    {
      storage.SetItem(WatchedSlot, codec.stringify(WatchedToJson(watched)));
    }

    /** `handleSelectMovie(id)`: toggles the selection. */
    method SelectMovie(id: string)
      modifies this`selectedId
      ensures selectedId == ToggleSelection(old(selectedId), id)
    {
      selectedId := if selectedId == Some(id) then None else Some(id);
    }

    /** `handleCloseMovie()`: clears the selection, whatever it was. */
    method CloseMovie()
      modifies this`selectedId
      ensures selectedId == None
    {
      selectedId := None;
    }

    /** `handleAddWatched(movie)`, then the write-through effect. */
    method AddWatched(movie: WatchedMovie)
      modifies this`watched, storage
      ensures watched == AppendWatched(old(watched), movie)
      ensures storage.slots == old(storage.slots)[WatchedSlot := codec.stringify(WatchedToJson(watched))]
      ensures WatchedSynced()
    {
      watched := watched + [movie];
      WriteWatched();
    }

    /** `handleDeleteWatched(id)`, then the write-through effect. */
    method DeleteWatched(id: string)
      modifies this`watched, storage
      ensures watched == RemoveWatched(old(watched), id)
      ensures NoDuplicateIds(old(watched)) ==> NoDuplicateIds(watched)
      ensures storage.slots == old(storage.slots)[WatchedSlot := codec.stringify(WatchedToJson(watched))]
      ensures WatchedSynced()
    {
      watched := RemoveWatched(watched, id);
      if NoDuplicateIds(old(watched)) {
        RemoveKeepsNoDuplicates(old(watched), id);
      }
      WriteWatched();
    }

    /**
     * The details panel's `handleAdd`, reachable only through the add button,
     * which is rendered for an unwatched id once a rating is given.  It builds
     * the record (with the browser's `Number` on text given as `toNumber`),
     * adds it and closes the details; a missing `Runtime` throws before
     * anything changes.
     */
    method HandleAdd(detail: MovieDetail, userRating: nat, toNumber: string -> Option<Number>)
      returns (r: Result<WatchedMovie, TypeError>)
      requires DetailsShown() && CanAdd(watched, selectedId.value, userRating)
      modifies this`watched, this`selectedId, storage
      ensures r == BuildRecord(old(selectedId).value, detail, userRating, toNumber)
      ensures r.Failure? ==>
                watched == old(watched) && selectedId == old(selectedId) && storage.slots == old(storage.slots)
      ensures r.Success? ==>
                && watched == AppendWatched(old(watched), r.value)
                && selectedId == None
                && storage.slots == old(storage.slots)[WatchedSlot := codec.stringify(WatchedToJson(watched))]
                && WatchedSynced()
      ensures NoDuplicateIds(old(watched)) ==> NoDuplicateIds(watched)
    {
      r := BuildRecord(selectedId.value, detail, userRating, toNumber);
      if r.Success? {
        if NoDuplicateIds(watched) {
          AppendFreshKeepsNoDuplicates(watched, r.value);
        }
        AddWatched(r.value);
        CloseMovie();
      }
    }

    /**
     * App's own search effect body for query `q`: unlike the hook it has no
     * callback, and it closes the selection only once the length gate is passed.
     */
    method SearchEffect(q: string) returns (request: Option<nat>)
      requires Valid()
      modifies this`selectedId
      modifies search`movies, search`isLoading, search`error, search`started, search`cleanup, search`aborted
      ensures Valid()
      ensures search.Cells() == AfterQuery(old(search.Cells()), q)
      ensures search.callbackRuns == old(search.callbackRuns) && search.settled == old(search.settled)
      ensures search.aborted ==
                if old(search.cleanup).Some? then old(search.aborted) + {old(search.cleanup).value}
                else old(search.aborted)
      ensures IsShortQuery(q) ==> selectedId == old(selectedId) && request == None &&
                                  search.started == old(search.started) && search.cleanup == None
      ensures !IsShortQuery(q) ==> selectedId == None && request == Some(old(search.started)) &&
                                   search.started == old(search.started) + 1 && search.cleanup == request
    {
      search.AbortPrevious();
      var proceed := search.ApplyGate(q);
      if proceed {
        CloseMovie();
        var id := search.StartFetch();
        request := Some(id);
      } else {
        request := None;
      }
    }

    /**
     * `setQuery(q)` from the search box.  React re-renders and re-runs the
     * `[query]` effect only when the text changed; the same text does nothing.
     */
    method SetQuery(q: string) returns (request: Option<nat>)
      requires Valid()
      modifies this`query, this`selectedId
      modifies search`movies, search`isLoading, search`error, search`started, search`cleanup, search`aborted
      ensures Valid() && query == q
      ensures q == old(query) ==>
                request == None && selectedId == old(selectedId) && search.Cells() == old(search.Cells()) &&
                search.started == old(search.started) && search.cleanup == old(search.cleanup) &&
                search.aborted == old(search.aborted) && search.settled == old(search.settled)
      ensures q != old(query) ==>
                && search.Cells() == AfterQuery(old(search.Cells()), q)
                && search.settled == old(search.settled)
                && search.aborted == (if old(search.cleanup).Some? then old(search.aborted) + {old(search.cleanup).value}
                                      else old(search.aborted))
                && (IsShortQuery(q) ==> selectedId == old(selectedId) && request == None &&
                                        search.started == old(search.started) && search.cleanup == None)
                && (!IsShortQuery(q) ==> selectedId == None && request == Some(old(search.started)) &&
                                         search.started == old(search.started) + 1 && search.cleanup == request)
    {
      if q == query {
        request := None;
      } else {
        query := q;
        request := SearchEffect(q);
      }
    }

    /** A fetch started by App's search effect settles; nothing checks whether it is stale. */
    method SearchSettled(request: nat, outcome: FetchOutcome)
      requires Valid() && request < search.started && request !in search.settled
      modifies search`movies, search`isLoading, search`error, search`settled
      ensures Valid()
      ensures search.Cells() == AfterOutcome(old(search.Cells()), outcome)
      ensures search.settled == old(search.settled) + {request}
      ensures search.started == old(search.started) && search.cleanup == old(search.cleanup)
      ensures search.aborted == old(search.aborted)
    {
      search.Settle(request, outcome);
    }
  }

  /**
   * Mounting App: the `watched` initialiser (which throws on malformed JSON),
   * then the first run of the write-through effect and of the search effect
   * for the empty query, which fetches nothing.
   */
  method MountApp(storage: Storage, codec: Codec) returns (r: Result<AppState, MountError>)
    modifies storage
    ensures RestoreWatched(old(storage.slots), codec).Failure? ==>
              r == Failure(RestoreWatched(old(storage.slots), codec).error) &&
              storage.slots == old(storage.slots)
    ensures RestoreWatched(old(storage.slots), codec).Success? ==>
              && r.Success? && fresh(r.value) && fresh(r.value.search) && r.value.Valid()
              && r.value.storage == storage && r.value.codec == codec
              && r.value.watched == RestoreWatched(old(storage.slots), codec).value
              && r.value.query == "" && r.value.selectedId == None
              && r.value.search.Cells() == InitialView
              && r.value.search.started == 0 && r.value.search.cleanup == None
              && r.value.search.aborted == {} && r.value.search.settled == {}
              && storage.slots == old(storage.slots)[WatchedSlot := codec.stringify(WatchedToJson(r.value.watched))]
              && r.value.WatchedSynced()
  {
    match RestoreWatched(storage.slots, codec)
    case Failure(e) =>
      r := Failure(e);
    case Success(watched) =>
      var app := new AppState(storage, codec, watched);
      app.WriteWatched();
      var _ := app.SearchEffect("");
      r := Success(app);
  }
}
