# usePopcorn: selection, watchlist persistence and search state, in Dafny

usePopcorn is a React movie-search app. A user types a query, the app
searches the OMDb API, the user opens a title, rates it and adds it to a
"watched" list that is kept in the browser's `localStorage`. This project
models the sequential logic behind that:

- the App component's state cells (`selectedId`, `watched`, and its own
  `movies`/`isLoading`/`error` search cells), the handlers that overwrite them
  and the effect that writes `watched` through to the `"watched"` storage slot
  (module `App`, class `App.AppState`);
- the pure updaters App uses — the selection toggle, the append and the
  filter of the watched list, the duplicate guard of the details panel, the
  record `handleAdd` builds and its `runtime` token — and the JSON shape of
  a watched record (module `Watchlist`);
- the `useMovies` hook as a state machine: a query change aborts the previous
  fetch, runs the callback, applies the length gate and starts a fetch; each
  fetch later settles with one outcome event (module `Movies`, class
  `Movies.MovieSearch`);
- the `useLocalStorageState` hook: one state cell initialised from a storage
  slot and written back to it after every change (module `LocalStorageState`,
  class `LocalStorageState.StoredState`);
- `localStorage` as a map from slot names to strings (module `Browser`) and
  `JSON.stringify`/`JSON.parse` as an abstract codec with two laws: parse
  undoes stringify for values whose objects have distinct, non-index keys,
  and `null` prints as "null" (module `Json`). JSON numbers are
  finite decimals in one canonical form. A concrete length-prefixed codec
  meets both laws (module `LengthPrefixed`), so the lemmas that assume them
  hold of at least one codec;
- event traces that end in the state the model predicts (module `Scenarios`).

The model follows the code where the code and the app's intended design
differ:

- The length gate counts `query.length` untrimmed, in UTF-16 code units; nothing trims the query.
- A short query clears `movies` and `error` but leaves `isLoading` as it was.
- The hook's callback runs before the length gate, so short queries run it too.
- An aborted fetch is not discarded silently. Its rejection goes through the
  `catch`, so it writes its message to `error` and sets `isLoading` to false,
  even when a newer fetch is outstanding (`Scenarios.SupersededFetchStillLands`).
- A stored value that is not JSON makes initialisation throw; it is not read as empty.
- A record's `runtime` is the text before the first space of the detail's
  `Runtime` (`"142"`), not a number.
- "Movie not found" leaves the previous `movies` in place
  (`Scenarios.NotFoundKeepsPreviousMovies`).
- A record's `imdbRating` is `Number(imdbRating)`, which is NaN when the
  detail has no number there; `JSON.stringify` writes NaN as `null`, so such
  a record reloads with a `null` rating (`Watchlist.MovieRoundTrip`).

## Model

| member | source | states |
|---|---|---|
| `Json.CanonicalIsUnique` | src/App.js:352 | two canonical decimals that denote the same number are the same value, so comparing `Num` values compares numbers |
| `LengthPrefixed.DecodeEnc` | src/useLocalStorageState.js:8-17 | the length-prefixed code of any JSON value decodes back to that value and leaves the following text alone |
| `LengthPrefixed.LengthPrefixedIsValid` | src/useLocalStorageState.js:8-17 | a stringify/parse pair exists that meets the codec law: parse undoes stringify and `null` prints as "null" |
| `Json.OrEmptyArray` | src/useLocalStorageState.js:8 | `value \|\| []` is never falsy; it is `[]` when the parsed value was falsy and the parsed value itself otherwise |
| `LocalStorageState.SlotText` | src/useLocalStorageState.js:8 | the text `JSON.parse` sees: the slot's text, or "null" for an absent slot (`JSON.parse(null)`) |
| `LocalStorageState.InitialValue` | src/useLocalStorageState.js:6-11 | the initialiser fails exactly when the slot text does not parse, never yields a falsy value, and otherwise yields the parsed value (or `[]`) |
| `Browser.Storage.GetItem` | src/useLocalStorageState.js:8 | `getItem` returns the slot's text, and `null` exactly when the slot is absent |
| `Browser.Storage.SetItem` | src/useLocalStorageState.js:17 | `setItem` overwrites the one slot and no other |
| `LocalStorageState.AbsentSlotGivesEmptyArray` | src/useLocalStorageState.js:8 | an absent slot initialises the state to `[]` |
| `LocalStorageState.FalsySlotGivesEmptyArray` | src/useLocalStorageState.js:8 | a slot parsing to `null`, `false`, `0` or `""` initialises the state to `[]` |
| `LocalStorageState.MalformedSlotThrows` | src/useLocalStorageState.js:8 | a slot that is not JSON makes the initialiser throw; there is no recovery |
| `LocalStorageState.ReloadAfterWrite` | src/useLocalStorageState.js:6-20 | initialising after slot `key` was written with `value` yields `value`, or `[]` for a falsy `value` |
| `LocalStorageState.RemountReadsCurrentValue` | src/useLocalStorageState.js:6-20 | while slot `key` is in sync, remounting reads back the current value |
| `LocalStorageState.StoredState.constructor` | src/useLocalStorageState.js:6-11 | `useState` creates the cell with the given key and value; storage is not yet written |
| `LocalStorageState.StoredState.WriteThrough` | src/useLocalStorageState.js:15-20 | the effect writes slot `key` with the serialised value and no other slot |
| `LocalStorageState.StoredState.SetValue` | src/useLocalStorageState.js:22 | `setValue` replaces the value wholesale; slot `key` then holds its serialisation, no other slot changes |
| `LocalStorageState.StoredState.ChangeKey` | src/useLocalStorageState.js:15-20 | a new key keeps the value and writes it to the new slot only |
| `LocalStorageState.UseLocalStorageState` | src/useLocalStorageState.js:3-22 | mounting throws (storage untouched) on malformed text; otherwise the value is the initialiser's, independent of `initialState`, and the mount effect writes slot `key` |
| `Movies.Utf16Length` | src/useMovies.js:46 | `query.length` lies between the number of characters and twice that, equals it for text within the BMP, and is 1 or 2 for a single character as it lies inside or outside the BMP |
| `Movies.Utf16LengthAppend` | src/useMovies.js:46 | the length of a concatenation is the sum of the lengths |
| `Movies.IsShortQuery` | src/useMovies.js:46 | a short query has fewer than 3 characters; for BMP text it is short exactly when it has fewer than 3 |
| `Movies.ThrownMessage` | src/useMovies.js:31-41 | only a success throws nothing; not-ok throws "Unable to get movies", `Response === "False"` throws "Movie not found", a rejection keeps its own message |
| `Movies.AfterQuery` | src/useMovies.js:22-50 | a short query gives `movies = []`, `error = ""`, `isLoading` unchanged; a long one gives `isLoading = true`, `error = ""`, `movies` unchanged |
| `Movies.AfterOutcome` | src/useMovies.js:21-44 | every outcome ends with `isLoading` false; success sets `movies = data.Search` and `error = ""`; every other outcome keeps `movies` and writes its message |
| `Movies.OutcomeKeepsMoviesUnlessMatched` | src/useMovies.js:36-43 | only a success writes `movies`; every outcome clears `isLoading` |
| `Movies.ShortQueryClears` | src/useMovies.js:46-50 | a short query empties `movies` and `error` and does not touch `isLoading` |
| `Movies.MovieSearch.constructor` | src/useMovies.js:8-10 | initial state: `movies = []`, `isLoading = false`, `error = ""`, no fetch started |
| `Movies.MovieSearch.AbortPrevious` | src/useMovies.js:56-58 | the previous run's cleanup aborts the fetch it started, if any |
| `Movies.MovieSearch.RunCallback` | src/useMovies.js:17 | `callback?.()` runs once when a callback was given |
| `Movies.MovieSearch.ApplyGate` | src/useMovies.js:46-50 | the gate passes exactly the queries of length 3 or more; a short query empties `movies` and `error` |
| `Movies.MovieSearch.StartFetch` | src/useMovies.js:20-28 | starting a fetch sets `isLoading` and clears `error` before any outcome, and installs its abort as the cleanup |
| `Movies.MovieSearch.QueryChanged` | src/useMovies.js:14-61 | a query change aborts the previous fetch, runs the callback for every query, and starts a fetch exactly for a long query |
| `Movies.MovieSearch.Render` | src/useMovies.js:14-61 | a render with the query the effect last ran for changes nothing; any other query runs the effect as `QueryChanged` does |
| `Movies.MovieSearch.Settle` | src/useMovies.js:21-44 | a settling fetch, current or superseded, writes the cells as `AfterOutcome` says |
| `Movies.MovieSearch.Unmount` | src/useMovies.js:56-58 | unmounting aborts the last fetch started |
| `Watchlist.ToggleSelection` | src/App.js:25-27 | selecting the current id clears the selection; any other id becomes the selection |
| `Watchlist.ToggleTwice` | src/App.js:25-27 | two identical selects return to no selection, or to that id if it was selected |
| `Watchlist.Ids` | src/App.js:301 | `watched.map(movie => movie.imdbID)` lists each entry's id in order |
| `Watchlist.IsWatched` | src/App.js:301 | `isWatched` holds exactly when some entry has the selected id |
| `Watchlist.WatchedUserRating` | src/App.js:305-307 | `watchedUserRating` is defined exactly when the id is watched, and is the rating of the first entry with that id |
| `Watchlist.AppendWatched` | src/App.js:33-35 | add keeps every earlier entry in place and order, puts the record last, and grows the list by one |
| `Watchlist.RemoveWatched` | src/App.js:43-46 | delete keeps exactly the entries whose id differs, and the list does not grow |
| `Watchlist.RemoveWatchedAppend` | src/App.js:43-46 | delete works entry by entry over concatenation, so the kept entries keep their relative order |
| `Watchlist.RemoveAbsentIsNoOp` | src/App.js:43-46 | deleting an id that is not in the list leaves it unchanged |
| `Watchlist.RemoveIsIdempotent` | src/App.js:43-46 | after a delete no entry has the id, and deleting again changes nothing |
| `Watchlist.RemoveUndoesAppend` | src/App.js:33-46 | deleting the id of a just-added, previously unwatched record restores the list |
| `Watchlist.RemoveKeepsNoDuplicates` | src/App.js:43-46 | delete keeps a duplicate-free list duplicate-free |
| `Watchlist.AppendFreshKeepsNoDuplicates` | src/App.js:33-35 | adding a record whose id is new keeps the list duplicate-free |
| `Watchlist.AppendWatchedDuplicates` | src/App.js:33-35 | the updater alone does not check ids: adding a watched id creates a duplicate |
| `Watchlist.LeadingToken` | src/App.js:353 | `runtime.split(" ").at(0)` is a prefix without spaces, followed by a space or the end of the text |
| `Watchlist.LeadingTokenUnique` | src/App.js:353 | any prefix with those properties is that token |
| `Watchlist.CanAdd` | src/App.js:445-457 | the add button is shown only for an unwatched id with a rating above 0, and is shown for every such id |
| `Watchlist.ToNumber` | src/App.js:352 | `Number(imdbRating)` is never `null`; it is finite exactly when the text exists and converts, and then is the converted number; otherwise NaN |
| `Watchlist.BuildRecord` | src/App.js:346-355 | the record has the selected id, the given rating, the detail's title, year and poster, `Number(imdbRating)`, and the runtime token; it throws exactly when there is no `Runtime` |
| `Watchlist.GuardedAddKeepsNoDuplicates` | src/App.js:445-457 | an add through the button (id not watched, rating above 0) never creates a duplicate id |
| `Watchlist.WatchedToJson` | src/App.js:52 | the list serialises as an array holding each record's object, in order |
| `Watchlist.Reloaded` | src/App.js:52 | a record as `JSON.stringify` leaves it: a NaN rating becomes `null`, everything else is kept |
| `Watchlist.ReloadedList` | src/App.js:52 | the same, entry by entry, keeping length and order |
| `Watchlist.MovieRoundTrip` | src/App.js:347-355 | a record's JSON object reads back as the same record, undefined fields included, with a NaN rating read back as `null` |
| `Watchlist.WatchedRoundTrip` | src/App.js:18-22 | the watched list's JSON array reads back as the same list, NaN ratings as `null` |
| `Watchlist.ReloadedListExact` | src/App.js:18-55 | a list reads back unchanged exactly when none of its ratings is NaN |
| `Watchlist.MovieToJsonWellKeyed` | src/App.js:347-355 | a record's object has distinct, non-index keys, so it survives stringify and parse |
| `Watchlist.WatchedToJsonWellKeyed` | src/App.js:52 | so does the whole list |
| `App.RestoreWatched` | src/App.js:18-22 | the `watched` initialiser fails as `Malformed` exactly when the slot text does not parse, as `NotAWatchedList` exactly when the parsed value is not a list of records, and otherwise yields that list |
| `App.RestoreAbsent` | src/App.js:18-22 | with no "watched" slot the list starts empty |
| `App.RestoreMalformed` | src/App.js:19 | a "watched" slot that is not JSON makes mounting fail |
| `App.RestoreAfterWrite` | src/App.js:50-55 | reloading after the write-through effect restores the list written, NaN ratings as `null`, and exactly that list when no rating is NaN |
| `App.AppState.DetailsShown` | src/App.js:123 | the details panel shows exactly for a non-empty selected id |
| `App.AppState.constructor` | src/App.js:11-22 | first render: empty query, no selection, the restored list, search cells at their initial values, no fetch started, aborted or settled |
| `App.AppState.WriteWatched` | src/App.js:50-55 | the effect writes the "watched" slot with the serialised list and no other slot |
| `App.AppState.SelectMovie` | src/App.js:25-27 | `handleSelectMovie` applies the toggle |
| `App.AppState.CloseMovie` | src/App.js:29-31 | `handleCloseMovie` leaves no selection, whatever the prior state |
| `App.AppState.AddWatched` | src/App.js:33-35 | `handleAddWatched` appends, then the "watched" slot holds the new list |
| `App.AppState.DeleteWatched` | src/App.js:43-46 | `handleDeleteWatched` filters by id, keeps the list duplicate-free, then the slot holds the new list |
| `App.AppState.HandleAdd` | src/App.js:346-362 | through the add button: the built record (with `Number(imdbRating)`) is appended, the selection closed and the slot written; a missing `Runtime` throws and changes nothing; no duplicate id arises |
| `App.AppState.SearchEffect` | src/App.js:59-103 | the effect aborts the previous fetch; a short query clears `movies` and `error` with no fetch and no selection change; a long one closes the selection, starts the next fetch and installs its abort; settled fetches stay settled |
| `App.AppState.SetQuery` | src/App.js:59-103 | typing the same text changes nothing; a changed query is stored and runs the search effect |
| `App.AppState.SearchSettled` | src/App.js:63-88 | App's fetch outcomes update its cells as the hook's do, mark that fetch settled, and change no other search state |
| `App.MountApp` | src/App.js:18-103 | mounting fails as the initialiser does, storage untouched; otherwise a fresh App holds the restored list, the slot is written, and the empty query fetches nothing: no fetch started, aborted or settled |
| `Scenarios.SupersededFetchStillLands` | src/useMovies.js:39-58 | after "abc" then "abcd", the aborted first fetch writes its message and clears `isLoading` while the second is outstanding |
| `Scenarios.ShortQueryRunsCallbackOnly` | src/useMovies.js:17-50 | a two-character query runs the callback, starts no fetch and leaves the initial cells |
| `Scenarios.NotFoundKeepsPreviousMovies` | src/useMovies.js:34-41 | two matches give `movies` of length 2 and no error; a later not-found writes "Movie not found" and keeps those movies |
| `Scenarios.SelectionToggles` | src/App.js:25-27 | "tt1" selects, "tt1" again clears, "tt2" while "tt1" is open switches directly |
| `Scenarios.SameQueryRendersNothing` | src/useMovies.js:14-61 | a second render with the same query starts and aborts nothing; the first fetch stays outstanding |
| `Scenarios.AppSearchLands` | src/App.js:59-103 | typing "godfather" closes the open details and starts fetch 0, typing it again does nothing, and fetch 0's matches become `movies` |
| `Scenarios.RetypingLeavesSearchAlone` | src/App.js:59-103 | typing the text already in the box keeps the query, starts no second fetch and leaves the search cells as they were |

## Left out

- Network I/O: `fetch`, `res.json()`, the OMDb URLs and the API key. A fetch is a request number, and its outcome is an event the caller supplies.
- Asynchronous interleaving and `AbortController` timing. An abort is a discrete `Rejected(message)` outcome. Any started fetch may settle once, with any outcome, whether or not it was aborted.
- The detail-fetch effect of `MovieDetails` (src/App.js:387-403): it is network-only. The fetched detail is a parameter of `App.AppState.HandleAdd`.
- `average`, `toFixed` and the `WatchedSummary` means (src/App.js:4-5, 196-203): floating-point arithmetic.
- Watchlist.ToNumber: the browser's `Number` on text is a parameter giving a canonical decimal, or `None` for NaN; its parsing and rounding rules are not modelled.
- `console.error(err.message)` in both search effects (src/useMovies.js:40, src/App.js:83): console output only.
- All JSX components and their rendering, including `NumResults` (which shows `movies.length - 1`).
- `document.title`, focusing the search box, the Escape key listener and src/useKey.js: DOM wiring.
- `StarRating` is a foreign component. The rating it reports is a `nat`, and 0 stands for the initial `""`.
- `JSON.stringify`/`JSON.parse` and `localStorage` themselves. The codec is abstract. Its law (parse undoes stringify) is assumed only for values whose objects have distinct keys and no array-index keys, which are the only values the model writes. JSON numbers are finite decimals here. Every finite double is one, but the law lets every finite decimal survive the round trip, while the browser keeps only doubles. Floating-point rounding is not modelled.
- App.MountApp: a stored value that parses but is not shaped like the records the app writes is reported as `NotAWatchedList`. The rejected shapes are: a truthy value that is not an array; an array entry that is not an object; an entry whose `imdbID` or `runtime` is missing or not a string; an entry whose `userRating` is missing or not a non-negative whole number; an entry whose `imdbRating` is missing or neither a number nor `null`; an entry whose `title`, `year` or `poster` is present but not a string. The source keeps any such value, and the model does not follow what the app then does with it.
- App.RestoreWatched: a stored record is read into the model's record type, so keys other than the seven the app writes are dropped and the stored key order is lost. The next write-through (`App.AppState.WriteWatched` on mount) writes the records in the model's key order without those keys, while the source writes the parsed objects back unchanged (src/App.js:52).
- React's batching and its bail-out when a state value is set to the identical object. Updates apply in order, and each effect runs after the updates it depends on. A bail-out on `watched` would only skip a write of the same text. For the `[query]` effects the bail-out is modelled: `App.AppState.SetQuery` and `Movies.MovieSearch.Render` run nothing for an unchanged query.
