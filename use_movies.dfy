/**
 * The `useMovies(query, callback)` hook as a state machine over the cells
 * `movies`, `isLoading` and `error`.  A change of `query` re-runs the hook's
 * effect; each fetch it starts later settles with one outcome event.
 */
module Movies {
  import opened Wrappers

  /** Queries shorter than this (in UTF-16 code units) fetch nothing. */
  const MinQueryLength: nat := 3
  const NotOkMessage: string := "Unable to get movies"
  const NotFoundMessage: string := "Movie not found"

  /** One item of the search endpoint's `Search` array. */
  datatype SearchResult = SearchResult(imdbID: string, title: string, year: string, poster: string)

  /** How a started fetch ends. */
  datatype FetchOutcome =
    | HttpNotOk                           // `res.ok` is false
    | NoMatch                             // `data.Response === "False"`
    | Matches(search: seq<SearchResult>)  // `data.Search`
    | Rejected(message: string)           // `fetch` or `res.json()` rejected: an abort or a network failure

  /** JavaScript's `query.length`: characters outside the BMP take two code units. */
  function Utf16Length(s: string): (n: nat)
    ensures |s| <= n <= 2 * |s|
    ensures (forall i :: 0 <= i < |s| ==> s[i] as int < 0x1_0000) ==> n == |s|
    ensures |s| == 1 ==> n == if s[0] as int < 0x1_0000 then 1 else 2
  {
    if s == [] then 0
    else (if s[0] as int < 0x1_0000 then 1 else 2) + Utf16Length(s[1..])
  }

  /** Code units add up over concatenation: each character counts on its own. */
  lemma {:induction false} Utf16LengthAppend(a: string, b: string)
    ensures Utf16Length(a + b) == Utf16Length(a) + Utf16Length(b)
  {
    if a == [] {
      assert a + b == b;
    } else {
      assert (a + b)[0] == a[0] && (a + b)[1..] == a[1..] + b;
      Utf16LengthAppend(a[1..], b);
    }
  }

  /** The length gate `query.length < 3`; no trimming happens first. */
  predicate IsShortQuery(query: string)
    ensures IsShortQuery(query) ==> |query| < MinQueryLength
    ensures (forall i :: 0 <= i < |query| ==> query[i] as int < 0x1_0000) ==>
              (IsShortQuery(query) <==> |query| < MinQueryLength)
  {
    Utf16Length(query) < MinQueryLength
  }

  /** The message `fetchMovies` throws into its `catch` for an outcome, `None` on success. */
  function ThrownMessage(outcome: FetchOutcome): (m: Option<string>)
    ensures m.None? <==> outcome.Matches?
    ensures outcome.HttpNotOk? ==> m == Some(NotOkMessage)
    ensures outcome.NoMatch? ==> m == Some(NotFoundMessage)
    ensures outcome.Rejected? ==> m == Some(outcome.message)
  {
    match outcome
    case HttpNotOk => Some(NotOkMessage)
    case NoMatch => Some(NotFoundMessage)
    case Rejected(message) => Some(message)
    case Matches(_) => None
  }

  /** The three cells the hook returns. */
  datatype View = View(movies: seq<SearchResult>, isLoading: bool, error: string)

  const InitialView := View([], false, "")

  /** The cells after the effect ran for `query` (callback and abort aside). */
  function AfterQuery(v: View, query: string): (w: View)
    ensures IsShortQuery(query) ==> w == View([], v.isLoading, "")
    ensures !IsShortQuery(query) ==> w == View(v.movies, true, "")
  {
    if IsShortQuery(query) then v.(movies := [], error := "")
    else v.(isLoading := true, error := "")
  }

  /** The cells after a fetch settled: try/catch, then `finally` clears `isLoading`. */
  function AfterOutcome(v: View, outcome: FetchOutcome): (w: View)
    ensures !w.isLoading
    ensures outcome.Matches? ==> w.movies == outcome.search && w.error == ""
    ensures !outcome.Matches? ==> w.movies == v.movies && w.error == ThrownMessage(outcome).value
  {
    match ThrownMessage(outcome)
    case None => View(outcome.search, false, "")
    case Some(message) => View(v.movies, false, message)
  }

  /** Only a success writes `movies`; every outcome leaves `isLoading` false. */
  lemma OutcomeKeepsMoviesUnlessMatched(v: View, outcome: FetchOutcome)
    ensures AfterOutcome(v, outcome).movies == if outcome.Matches? then outcome.search else v.movies
    ensures !AfterOutcome(v, outcome).isLoading
  {
  }

  /** A short query leaves `movies` empty and `error` empty whatever came before. */
  lemma ShortQueryClears(v: View, query: string)
    requires IsShortQuery(query)
    ensures AfterQuery(v, query).movies == [] && AfterQuery(v, query).error == ""
    ensures AfterQuery(v, query).isLoading == v.isLoading
  {
  }

  /**
   * The hook's state.  Fetch number `i` is the `i`-th one started; `cleanup`
   * is the fetch whose `AbortController` the last effect run's cleanup aborts.
   */
  class MovieSearch {
    var movies: seq<SearchResult>
    var isLoading: bool
    var error: string
    /** Whether the caller passed a `callback`; `callbackRuns` counts its calls. */
    const hasCallback: bool
    var callbackRuns: nat
    var started: nat
    var cleanup: Option<nat>
    var aborted: set<nat>
    var settled: set<nat>
    /** The query the effect last ran for; `None` before the first render. */
    var effectQuery: Option<string>

    ghost predicate Valid()
      reads this
    {
      && (cleanup.Some? ==> cleanup.value < started && cleanup.value !in aborted)
      && (forall i :: i in aborted ==> i < started)
      && (forall i :: i in settled ==> i < started)
    }

    function Cells(): View
      reads this
    {
      View(movies, isLoading, error)
    }

    /** The `useState` initial values: no movies, not loading, no error. */
    constructor (hasCallback: bool)
      ensures Valid()
      ensures Cells() == InitialView
      ensures this.hasCallback == hasCallback && callbackRuns == 0
      ensures started == 0 && cleanup == None && aborted == {} && settled == {}
      ensures effectQuery == None
    {
      movies, isLoading, error := [], false, "";
      this.hasCallback := hasCallback;
      callbackRuns := 0;
      started := 0;
      cleanup := None;
      aborted, settled := {}, {};
      effectQuery := None;
    }

    /** The previous effect run's cleanup: `controller.abort()`, if it installed one. */
    method AbortPrevious()
      requires Valid()
      modifies this`cleanup, this`aborted
      ensures Valid()
      ensures cleanup == None
      ensures aborted == if old(cleanup).Some? then old(aborted) + {old(cleanup).value} else old(aborted)
    {
      if cleanup.Some? {
        aborted := aborted + {cleanup.value};
      }
      cleanup := None;
    }

    /** `callback?.()`: calls the callback when there is one. */
    method RunCallback()
      modifies this`callbackRuns
      ensures callbackRuns == old(callbackRuns) + if hasCallback then 1 else 0
    {
      if hasCallback {
        callbackRuns := callbackRuns + 1;
      }
    }

    /** The length gate: a short query empties `movies` and `error` and stops there. */
    method ApplyGate(query: string) returns (proceed: bool)
      modifies this`movies, this`error
      ensures proceed <==> !IsShortQuery(query)
      ensures proceed ==> movies == old(movies) && error == old(error)
      ensures !proceed ==> movies == [] && error == ""
    {
      if Utf16Length(query) < MinQueryLength {
        movies := [];
        error := "";
        proceed := false;
      } else {
        proceed := true;
      }
    }

    /**
     * `fetchMovies()` up to its first `await`: loading on, error cleared; the
     * returned cleanup will abort this fetch.
     */
    method StartFetch() returns (request: nat)
      requires Valid() && cleanup == None
      modifies this`isLoading, this`error, this`started, this`cleanup
      ensures Valid()
      ensures request == old(started) && started == old(started) + 1
      ensures cleanup == Some(request)
      ensures isLoading && error == "" && movies == old(movies)
    {
      isLoading := true;
      error := "";
      request := started;
      started := started + 1;
      cleanup := Some(request);
    }

    /**
     * The effect on `[query]`: the previous cleanup, the callback (before the
     * gate, so for short queries too), the gate, and for a long query a new fetch.
     */
    method QueryChanged(query: string) returns (request: Option<nat>)
      requires Valid()
      modifies this
      ensures Valid()
      ensures Cells() == AfterQuery(old(Cells()), query)
      ensures callbackRuns == old(callbackRuns) + if hasCallback then 1 else 0
      ensures aborted == if old(cleanup).Some? then old(aborted) + {old(cleanup).value} else old(aborted)
      ensures settled == old(settled) && effectQuery == Some(query)
      ensures IsShortQuery(query) ==> request == None && cleanup == None && started == old(started)
      ensures !IsShortQuery(query) ==>
                request == Some(old(started)) && cleanup == request && started == old(started) + 1
    {
      effectQuery := Some(query);
      AbortPrevious();
      RunCallback();
      var proceed := ApplyGate(query);
      if proceed {
        var id := StartFetch();
        request := Some(id);
      } else {
        request := None;
      }
    }

    /**
     * A render of the hook with `query`: React re-runs the `[query]` effect
     * only on the first render and when `query` differs from the last run's.
     */
    method Render(query: string) returns (request: Option<nat>)
      requires Valid()
      modifies this
      ensures Valid()
      ensures old(effectQuery) == Some(query) ==>
                request == None && Cells() == old(Cells()) && callbackRuns == old(callbackRuns) &&
                started == old(started) && cleanup == old(cleanup) && aborted == old(aborted) &&
                settled == old(settled) && effectQuery == old(effectQuery)
      ensures old(effectQuery) != Some(query) ==>
                && Cells() == AfterQuery(old(Cells()), query)
                && callbackRuns == old(callbackRuns) + (if hasCallback then 1 else 0)
                && aborted == (if old(cleanup).Some? then old(aborted) + {old(cleanup).value} else old(aborted))
                && settled == old(settled) && effectQuery == Some(query)
                && (IsShortQuery(query) ==> request == None && cleanup == None && started == old(started))
                && (!IsShortQuery(query) ==>
                      request == Some(old(started)) && cleanup == request && started == old(started) + 1)
    {
      if effectQuery == Some(query) {
        request := None;
      } else {
        request := QueryChanged(query);
      }
    }

    /**
     * Fetch `request` settles.  Nothing checks whether it was superseded:
     * a stale or aborted fetch writes the cells like a current one.
     */
    method Settle(request: nat, outcome: FetchOutcome)
      requires Valid() && request < started && request !in settled
      modifies this`movies, this`isLoading, this`error, this`settled
      ensures Valid()
      ensures Cells() == AfterOutcome(old(Cells()), outcome)
      ensures settled == old(settled) + {request}
    {
      var thrown := ThrownMessage(outcome);
      if thrown.None? {
        movies := outcome.search;
        error := "";
      } else {
        error := thrown.value;
      }
      isLoading := false;
      settled := settled + {request};
    }

    /** Unmounting runs the last cleanup. */
    method Unmount()
      requires Valid()
      modifies this`cleanup, this`aborted
      ensures Valid() && cleanup == None
      ensures aborted == if old(cleanup).Some? then old(aborted) + {old(cleanup).value} else old(aborted)
    {
      AbortPrevious();
    }
  }
}
