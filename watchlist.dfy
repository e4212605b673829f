/**
 * The pure logic of the App component: the selection updater, the watched
 * list's append and filter updaters, the duplicate guard of the details
 * panel, the record `handleAdd` builds, and the JSON shape of that record.
 */
module Watchlist {
  import opened Wrappers
  import opened Json

  /**
   * A record's `imdbRating`: `Number(imdbRating)` is a finite number or NaN;
   * `JSON.stringify` writes NaN as `null`, so a reloaded record may hold `null`.
   */
  datatype Rating = Finite(value: Number) | NotANumber | NullRating

  /** A watched record as `handleAdd` builds it; absent detail fields stay undefined. */
  datatype WatchedMovie = WatchedMovie(
    imdbID: string,
    title: Option<string>,
    year: Option<string>,
    poster: Option<string>,
    imdbRating: Rating,
    runtime: string,
    userRating: nat)

  /** The fields of the fetched detail record that `handleAdd` reads. */
  datatype MovieDetail = MovieDetail(
    title: Option<string>,
    year: Option<string>,
    poster: Option<string>,
    runtime: Option<string>,
    imdbRating: Option<string>)

  /** What `runtime.split(" ")` throws when the detail has no `Runtime`. */
  datatype TypeError = TypeError

  // ---------------------------------------------------------------- selection

  /** The updater `id === selectedId ? null : id`. */
  function ToggleSelection(selected: Option<string>, id: string): (r: Option<string>)
    ensures r.None? <==> selected == Some(id)
    ensures r.Some? ==> r.value == id
  {
    if selected == Some(id) then None else Some(id)
  }

  /** Selecting twice the same id: from no selection, or from that id, the state returns. */
  lemma ToggleTwice(selected: Option<string>, id: string)
    ensures ToggleSelection(ToggleSelection(selected, id), id) ==
            if selected == Some(id) then Some(id) else None
  {
  }

  // ---------------------------------------------------------------- watched list

  /** The ids in list order: `watched.map((movie) => movie.imdbID)`. */
  function Ids(watched: seq<WatchedMovie>): (ids: seq<string>)
    ensures |ids| == |watched|
    ensures forall i :: 0 <= i < |watched| ==> ids[i] == watched[i].imdbID
  {
    seq(|watched|, i requires 0 <= i < |watched| => watched[i].imdbID)
  }

  /** `isWatched`: the id appears in the list. */
  function IsWatched(watched: seq<WatchedMovie>, id: string): (r: bool)
    ensures r <==> exists i :: 0 <= i < |watched| && watched[i].imdbID == id
  {
    id in Ids(watched)
  }

  /** No two entries share an `imdbID`. */
  predicate NoDuplicateIds(watched: seq<WatchedMovie>) {
    forall i, j :: 0 <= i < j < |watched| ==> watched[i].imdbID != watched[j].imdbID
  }

  /** `watchedUserRating`: the rating of the first entry with this id, if any. */
  function WatchedUserRating(watched: seq<WatchedMovie>, id: string): (r: Option<nat>)
    ensures r.Some? <==> IsWatched(watched, id)
    ensures r.Some? ==> exists k :: 0 <= k < |watched| && watched[k].imdbID == id &&
                          r.value == watched[k].userRating &&
                          forall i :: 0 <= i < k ==> watched[i].imdbID != id
  {
    if watched == [] then None
    else if watched[0].imdbID == id then Some(watched[0].userRating)
    else
      var r := WatchedUserRating(watched[1..], id);
      assert forall i :: 0 < i < |watched| ==> watched[i] == watched[1..][i - 1];
      r
  }

  /** The updater `[...watched, movie]`. */
  function AppendWatched(watched: seq<WatchedMovie>, movie: WatchedMovie): (r: seq<WatchedMovie>)
    ensures |r| == |watched| + 1
    ensures r[..|watched|] == watched && r[|watched|] == movie
  {
    watched + [movie]
  }

  /** The updater `watched.filter((movie) => movie.imdbID !== id)`. */
  function RemoveWatched(watched: seq<WatchedMovie>, id: string): (r: seq<WatchedMovie>)
    ensures |r| <= |watched|
    ensures forall m :: m in r <==> m in watched && m.imdbID != id
  {
    if watched == [] then []
    else
      var rest := RemoveWatched(watched[1..], id);
      assert forall m :: m in watched <==> m == watched[0] || m in watched[1..];
      if watched[0].imdbID != id then [watched[0]] + rest else rest
  }

  /** Filtering distributes over concatenation: the kept entries stay in their order. */
  lemma {:induction false} RemoveWatchedAppend(a: seq<WatchedMovie>, b: seq<WatchedMovie>, id: string)
    ensures RemoveWatched(a + b, id) == RemoveWatched(a, id) + RemoveWatched(b, id)
  {
    if a == [] {
      assert a + b == b;
    } else {
      assert (a + b)[0] == a[0] && (a + b)[1..] == a[1..] + b;
      RemoveWatchedAppend(a[1..], b, id);
    }
  }

  /** Deleting an id that is not in the list changes nothing. */
  lemma {:induction false} RemoveAbsentIsNoOp(watched: seq<WatchedMovie>, id: string)
    requires !IsWatched(watched, id)
    ensures RemoveWatched(watched, id) == watched
  {
    if watched != [] {
      assert watched[0].imdbID != id;
      assert !IsWatched(watched[1..], id) by {
        forall i | 0 <= i < |watched[1..]| ensures watched[1..][i].imdbID != id {
          assert watched[1..][i] == watched[i + 1];
        }
      }
      RemoveAbsentIsNoOp(watched[1..], id);
    }
  }

  /** After a delete no entry carries the id, so a second delete is a no-op. */
  lemma RemoveIsIdempotent(watched: seq<WatchedMovie>, id: string)
    ensures !IsWatched(RemoveWatched(watched, id), id)
    ensures RemoveWatched(RemoveWatched(watched, id), id) == RemoveWatched(watched, id)
  {
  }

  /** Delete undoes an add of a record whose id was not yet in the list. */
  lemma RemoveUndoesAppend(watched: seq<WatchedMovie>, movie: WatchedMovie)
    requires !IsWatched(watched, movie.imdbID)
    ensures RemoveWatched(AppendWatched(watched, movie), movie.imdbID) == watched
  {
    RemoveWatchedAppend(watched, [movie], movie.imdbID);
    RemoveAbsentIsNoOp(watched, movie.imdbID);
  }

  /** Filtering keeps a list free of duplicate ids. */
  lemma {:induction false} RemoveKeepsNoDuplicates(watched: seq<WatchedMovie>, id: string)
    requires NoDuplicateIds(watched)
    ensures NoDuplicateIds(RemoveWatched(watched, id))
  {
    if watched != [] {
      var rest := RemoveWatched(watched[1..], id);
      assert NoDuplicateIds(watched[1..]) by {
        forall i, j | 0 <= i < j < |watched[1..]|
          ensures watched[1..][i].imdbID != watched[1..][j].imdbID
        {
          assert watched[1..][i] == watched[i + 1] && watched[1..][j] == watched[j + 1];
        }
      }
      RemoveKeepsNoDuplicates(watched[1..], id);
      if watched[0].imdbID != id {
        forall k | 0 <= k < |rest| ensures rest[k].imdbID != watched[0].imdbID {
          assert rest[k] in rest;
          var j :| 0 <= j < |watched[1..]| && watched[1..][j] == rest[k];
          assert watched[j + 1] == rest[k];
        }
        var r := [watched[0]] + rest;
        forall i, j | 0 <= i < j < |r| ensures r[i].imdbID != r[j].imdbID {
          if i == 0 {
            assert r[j] == rest[j - 1];
          } else {
            assert r[i] == rest[i - 1] && r[j] == rest[j - 1];
          }
        }
      }
    }
  }

  /** Appending a record whose id is new keeps the list free of duplicate ids. */
  lemma AppendFreshKeepsNoDuplicates(watched: seq<WatchedMovie>, movie: WatchedMovie)
    requires NoDuplicateIds(watched) && !IsWatched(watched, movie.imdbID)
    ensures NoDuplicateIds(AppendWatched(watched, movie))
  {
  }

  /** Without the guard, the updater itself would duplicate an id already in the list. */
  lemma AppendWatchedDuplicates(watched: seq<WatchedMovie>, movie: WatchedMovie)
    requires IsWatched(watched, movie.imdbID)
    ensures !NoDuplicateIds(AppendWatched(watched, movie))
  {
  }

  // ---------------------------------------------------------------- adding from the details panel

  /** `runtime.split(" ").at(0)`: the text before the first space, or all of it. */
  function LeadingToken(s: string): (r: string)
    ensures r <= s
    ensures ' ' !in r
    ensures r == s || s[|r|] == ' '
  {
    if s == [] || s[0] == ' ' then []
    else [s[0]] + LeadingToken(s[1..])
  }

  /** Those three facts pin the token down: any prefix that has them is it. */
  lemma LeadingTokenUnique(s: string, t: string)
    requires t <= s && ' ' !in t && (t == s || s[|t|] == ' ')
    ensures t == LeadingToken(s)
  {
  }

  /** The add button is rendered only for an unwatched id with a positive rating. */
  predicate CanAdd(watched: seq<WatchedMovie>, selectedId: string, userRating: nat)
    ensures CanAdd(watched, selectedId, userRating) ==>
              userRating > 0 && forall i :: 0 <= i < |watched| ==> watched[i].imdbID != selectedId
    ensures userRating > 0 && WatchedUserRating(watched, selectedId).None? ==> CanAdd(watched, selectedId, userRating)
  {
    !IsWatched(watched, selectedId) && userRating > 0
  }

  /**
   * `Number(imdbRating)`, with the browser's `Number` on text given as
   * `toNumber` (`None` for NaN); `Number(undefined)` is NaN.
   */
  function ToNumber(text: Option<string>, toNumber: string -> Option<Number>): (r: Rating)
    ensures r != NullRating
    ensures r.Finite? <==> text.Some? && toNumber(text.value).Some?
    ensures r.Finite? ==> r.value == toNumber(text.value).value
  {
    if text.None? then NotANumber
    else match toNumber(text.value)
      case None => NotANumber
      case Some(x) => Finite(x)
  }

  /** The record `handleAdd` builds; it throws when the detail has no `Runtime`. */
  function BuildRecord(selectedId: string, detail: MovieDetail, userRating: nat,
                       toNumber: string -> Option<Number>)
    : (r: Result<WatchedMovie, TypeError>)
    ensures r.Failure? <==> detail.runtime.None?
    ensures r.Success? ==>
      && r.value.imdbID == selectedId
      && r.value.userRating == userRating
      && r.value.runtime <= detail.runtime.value
      && ' ' !in r.value.runtime
      && (r.value.runtime == detail.runtime.value || detail.runtime.value[|r.value.runtime|] == ' ')
      && r.value.title == detail.title && r.value.year == detail.year && r.value.poster == detail.poster
      && r.value.imdbRating == ToNumber(detail.imdbRating, toNumber)
  {
    match detail.runtime
    case None => Failure(TypeError)
    case Some(text) =>
      Success(WatchedMovie(selectedId, detail.title, detail.year, detail.poster,
                           ToNumber(detail.imdbRating, toNumber), LeadingToken(text), userRating))
  }

  /** A guarded add never creates a duplicate id. */
  lemma GuardedAddKeepsNoDuplicates(watched: seq<WatchedMovie>, selectedId: string,
                                    detail: MovieDetail, userRating: nat, toNumber: string -> Option<Number>)
    requires NoDuplicateIds(watched) && CanAdd(watched, selectedId, userRating)
    requires BuildRecord(selectedId, detail, userRating, toNumber).Success?
    ensures NoDuplicateIds(AppendWatched(watched, BuildRecord(selectedId, detail, userRating, toNumber).value))
  {
  }

  // ---------------------------------------------------------------- JSON shape of the list

  /** `{k: v}` when `v` is defined; `JSON.stringify` drops undefined properties. */
  function OptionalField(k: string, v: Option<string>): seq<(string, Json)> {
    if v.Some? then [(k, Str(v.value))] else []
  }

  /** `JSON.stringify` writes NaN as `null`. */
  function RatingToJson(r: Rating): Json {
    match r
    case Finite(x) => Num(x)
    case _ => Null
  }

  function MovieFields(m: WatchedMovie): seq<(string, Json)> {
    [("imdbID", Str(m.imdbID))]
    + OptionalField("title", m.title)
    + OptionalField("year", m.year)
    + OptionalField("poster", m.poster)
    + [("imdbRating", RatingToJson(m.imdbRating)), ("runtime", Str(m.runtime)),
       ("userRating", Num(Whole(m.userRating)))]
  }

  /** The record as the JSON object it is serialised as. */
  function MovieToJson(m: WatchedMovie): Json {
    Obj(MovieFields(m))
  }

  function WatchedToJson(watched: seq<WatchedMovie>): (j: Json)
    ensures j.Arr? && |j.items| == |watched|
    ensures forall i :: 0 <= i < |watched| ==> j.items[i] == MovieToJson(watched[i])
  {
    Arr(seq(|watched|, i requires 0 <= i < |watched| => MovieToJson(watched[i])))
  }

  function StringField(fields: seq<(string, Json)>, k: string): Option<Option<string>> {
    match Lookup(fields, k)
    case None => Some(None)
    case Some(Str(s)) => Some(Some(s))
    case Some(_) => None
  }

  /** A field that must hold a string. */
  function RequiredString(fields: seq<(string, Json)>, k: string): Option<string> {
    match Lookup(fields, k)
    case Some(Str(s)) => Some(s)
    case _ => None
  }

  /** A field that must hold a whole, non-negative number. */
  function RequiredCount(fields: seq<(string, Json)>, k: string): Option<nat> {
    match Lookup(fields, k)
    case Some(Num(x)) => if x.exponent == 0 && x.mantissa >= 0 then Some(x.mantissa) else None
    case _ => None
  }

  /** A field that must hold a number or `null`. */
  function RequiredRating(fields: seq<(string, Json)>, k: string): Option<Rating> {
    match Lookup(fields, k)
    case Some(Num(x)) => Some(Finite(x))
    case Some(Null) => Some(NullRating)
    case _ => None
  }

  /**
   * Reads a parsed object back as a watched record: the shape `handleAdd`
   * writes, `None` for any other.
   */
  function MovieFromJson(j: Json): Option<WatchedMovie> {
    if !j.Obj? then None
    else
      var fs := j.fields;
      var id, runtime := RequiredString(fs, "imdbID"), RequiredString(fs, "runtime");
      var rating, imdb := RequiredCount(fs, "userRating"), RequiredRating(fs, "imdbRating");
      var title, year, poster := StringField(fs, "title"), StringField(fs, "year"), StringField(fs, "poster");
      if id.None? || runtime.None? || rating.None? || imdb.None? || title.None? || year.None? || poster.None?
      then None
      else Some(WatchedMovie(id.value, title.value, year.value, poster.value, imdb.value,
                             runtime.value, rating.value))
  }

  function MoviesFromJson(items: seq<Json>): Option<seq<WatchedMovie>> {
    if items == [] then Some([])
    else
      match (MovieFromJson(items[0]), MoviesFromJson(items[1..]))
      case (Some(m), Some(ms)) => Some([m] + ms)
      case _ => None
  }

  /** Reads a parsed value back as the watched list; `None` when it is not one. */
  function WatchedFromJson(j: Json): Option<seq<WatchedMovie>> {
    if j.Arr? then MoviesFromJson(j.items) else None
  }

  // ---------------------------------------------------------------- round trip of the JSON shape

  /** A record as it comes back from storage: a NaN rating has become `null`. */
  function Reloaded(m: WatchedMovie): (r: WatchedMovie)
    ensures r.imdbRating != NotANumber
    ensures m.imdbRating != NotANumber ==> r == m
    ensures m.imdbRating == NotANumber ==> r == m.(imdbRating := NullRating)
  {
    if m.imdbRating.NotANumber? then m.(imdbRating := NullRating) else m
  }

  function ReloadedList(watched: seq<WatchedMovie>): (r: seq<WatchedMovie>)
    ensures |r| == |watched|
    ensures forall i :: 0 <= i < |watched| ==> r[i] == Reloaded(watched[i])
  {
    seq(|watched|, i requires 0 <= i < |watched| => Reloaded(watched[i]))
  }

  lemma LookupMovieFields(m: WatchedMovie, k: string)
    ensures Lookup(MovieFields(m), k) ==
      if k == "imdbID" then Some(Str(m.imdbID))
      else if k == "title" && m.title.Some? then Some(Str(m.title.value))
      else if k == "year" && m.year.Some? then Some(Str(m.year.value))
      else if k == "poster" && m.poster.Some? then Some(Str(m.poster.value))
      else if k == "imdbRating" then Some(RatingToJson(m.imdbRating))
      else if k == "runtime" then Some(Str(m.runtime))
      else if k == "userRating" then Some(Num(Whole(m.userRating)))
      else None
  {
    var a := [("imdbID", Str(m.imdbID))];
    var t, y := OptionalField("title", m.title), OptionalField("year", m.year);
    var p := OptionalField("poster", m.poster);
    var zr, zt, zu := [("imdbRating", RatingToJson(m.imdbRating))], [("runtime", Str(m.runtime))],
                      [("userRating", Num(Whole(m.userRating)))];
    assert MovieFields(m) == a + t + y + p + zr + zt + zu;
    LookupAppend(a + t + y + p + zr + zt, zu, k);
    LookupAppend(a + t + y + p + zr, zt, k);
    LookupAppend(a + t + y + p, zr, k);
    LookupAppend(a + t + y, p, k);
    LookupAppend(a + t, y, k);
    LookupAppend(a, t, k);
  }

  /** The fields read back as they were written, a NaN rating as `null`. */
  lemma MovieFieldsReadBack(m: WatchedMovie)
    ensures RequiredString(MovieFields(m), "imdbID") == Some(m.imdbID)
    ensures RequiredString(MovieFields(m), "runtime") == Some(m.runtime)
    ensures RequiredCount(MovieFields(m), "userRating") == Some(m.userRating)
    ensures RequiredRating(MovieFields(m), "imdbRating") == Some(Reloaded(m).imdbRating)
    ensures StringField(MovieFields(m), "title") == Some(m.title)
    ensures StringField(MovieFields(m), "year") == Some(m.year)
    ensures StringField(MovieFields(m), "poster") == Some(m.poster)
  {
    RequiredFieldsReadBack(m);
    OptionalFieldsReadBack(m);
  }

  lemma RequiredFieldsReadBack(m: WatchedMovie)
    ensures RequiredString(MovieFields(m), "imdbID") == Some(m.imdbID)
    ensures RequiredString(MovieFields(m), "runtime") == Some(m.runtime)
    ensures RequiredCount(MovieFields(m), "userRating") == Some(m.userRating)
    ensures RequiredRating(MovieFields(m), "imdbRating") == Some(Reloaded(m).imdbRating)
  {
    var fs := MovieFields(m);
    assert RequiredString(fs, "imdbID") == Some(m.imdbID) by { LookupMovieFields(m, "imdbID"); }
    assert RequiredString(fs, "runtime") == Some(m.runtime) by { LookupMovieFields(m, "runtime"); }
    assert RequiredCount(fs, "userRating") == Some(m.userRating) by { LookupMovieFields(m, "userRating"); }
    assert RequiredRating(fs, "imdbRating") == Some(Reloaded(m).imdbRating) by {
      LookupMovieFields(m, "imdbRating");
    }
  }

  lemma OptionalFieldsReadBack(m: WatchedMovie)
    ensures StringField(MovieFields(m), "title") == Some(m.title)
    ensures StringField(MovieFields(m), "year") == Some(m.year)
    ensures StringField(MovieFields(m), "poster") == Some(m.poster)
  {
    var fs := MovieFields(m);
    assert StringField(fs, "title") == Some(m.title) by { LookupMovieFields(m, "title"); }
    assert StringField(fs, "year") == Some(m.year) by { LookupMovieFields(m, "year"); }
    assert StringField(fs, "poster") == Some(m.poster) by { LookupMovieFields(m, "poster"); }
  }

  /** A record read back from its JSON object is the record, with a NaN rating now `null`. */
  lemma MovieRoundTrip(m: WatchedMovie)
    ensures MovieFromJson(MovieToJson(m)) == Some(Reloaded(m))
  {
    MovieFieldsReadBack(m);
  }

  /** The watched list read back from its JSON array: every record as `Reloaded` gives it. */
  lemma {:induction false} WatchedRoundTrip(watched: seq<WatchedMovie>)
    ensures WatchedFromJson(WatchedToJson(watched)) == Some(ReloadedList(watched))
  {
    if watched != [] {
      var items := WatchedToJson(watched).items;
      SplitWatched(watched);
      WatchedRoundTrip(watched[1..]);
      MovieRoundTrip(watched[0]);
      assert MoviesFromJson(items) == Some([Reloaded(watched[0])] + ReloadedList(watched[1..]));
    }
  }

  /** The array and the reloaded list of a non-empty list, split at the first record. */
  lemma SplitWatched(watched: seq<WatchedMovie>)
    requires watched != []
    ensures WatchedToJson(watched).items[0] == MovieToJson(watched[0])
    ensures WatchedToJson(watched).items[1..] == WatchedToJson(watched[1..]).items
    ensures ReloadedList(watched) == [Reloaded(watched[0])] + ReloadedList(watched[1..])
  {
    assert WatchedToJson(watched).items[1..] == WatchedToJson(watched[1..]).items;
    assert ReloadedList(watched) == [Reloaded(watched[0])] + ReloadedList(watched[1..]);
  }

  /** A list without NaN ratings reloads exactly; one with a NaN rating does not. */
  lemma {:induction false} ReloadedListExact(watched: seq<WatchedMovie>)
    ensures ReloadedList(watched) == watched <==>
              forall i :: 0 <= i < |watched| ==> watched[i].imdbRating != NotANumber
  {
    if exists i :: 0 <= i < |watched| && watched[i].imdbRating == NotANumber {
      var i :| 0 <= i < |watched| && watched[i].imdbRating == NotANumber;
      assert ReloadedList(watched)[i].imdbRating == NullRating;
    }
  }

  /** The keys a record's object may carry: none is an index key. */
  const MovieKeys: set<string> := {"imdbID", "title", "year", "poster", "imdbRating", "runtime", "userRating"}

  lemma MovieKeysAreNotIndexKeys()
    ensures forall k :: k in MovieKeys ==> !IsIndexKey(k)
  {
    forall k | k in MovieKeys ensures !IsIndexKey(k) {
      assert k[0] == 'i' || k[0] == 't' || k[0] == 'y' || k[0] == 'p' || k[0] == 'r' || k[0] == 'u';
    }
  }

  /** A record's object has distinct, non-index keys, so the codec law applies to it. */
  lemma MovieToJsonWellKeyed(m: WatchedMovie)
    ensures WellKeyed(MovieToJson(m))
  {
    var a := [("imdbID", Str(m.imdbID))];
    var t, y := OptionalField("title", m.title), OptionalField("year", m.year);
    var p := OptionalField("poster", m.poster);
    var z := [("imdbRating", RatingToJson(m.imdbRating)), ("runtime", Str(m.runtime)),
              ("userRating", Num(Whole(m.userRating)))];
    DistinctKeysAppend(a, t, {"imdbID"}, {"title"});
    DistinctKeysAppend(a + t, y, {"imdbID", "title"}, {"year"});
    DistinctKeysAppend(a + t + y, p, {"imdbID", "title", "year"}, {"poster"});
    DistinctKeysAppend(a + t + y + p, z, {"imdbID", "title", "year", "poster"},
                       {"imdbRating", "runtime", "userRating"});
    MovieKeysAreNotIndexKeys();
    var fs := MovieFields(m);
    assert fs == a + t + y + p + z;
    assert KeysIn(fs, MovieKeys);
  }

  lemma WatchedToJsonWellKeyed(watched: seq<WatchedMovie>)
    ensures WellKeyed(WatchedToJson(watched))
  {
    forall i | 0 <= i < |watched| ensures WellKeyed(WatchedToJson(watched).items[i]) {
      MovieToJsonWellKeyed(watched[i]);
    }
  }
}
