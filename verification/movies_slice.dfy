/** The client's movie store: the paginated browse list, the popular and trending lists and
    the movie being viewed, each with its own loading flag and error. Reducers are pure
    transitions; thunk payloads arrive as plain values. */
module MoviesSlice {
  import opened Wrappers
  import opened Seqs
  import opened MovieController

  datatype Paged = Paged(results: seq<MovieSummary>, page: int, totalPages: int, isLoading: bool, error: Option<string>)
  datatype Listing = Listing(results: seq<MovieSummary>, isLoading: bool, error: Option<string>)
  datatype Details = Details(movie: Option<MovieDetail>, isLoading: bool, error: Option<string>)

  datatype MoviesState = MoviesState(movies: Paged, popularMovies: Listing, trendingMovies: Listing, movieDetails: Details)

  /** The four request kinds, each owning one part of the state. */
  datatype Thunk = FetchMovies | FetchPopular | FetchTrending | FetchDetails

  datatype Action =
    | ClearMovies
    | Pending(thunk: Thunk)
    | Rejected(thunk: Thunk, error: string)
    | MoviesFulfilled(results: seq<MovieSummary>, page: int, totalPages: int)
    | PopularFulfilled(popular: seq<MovieSummary>)
    | TrendingFulfilled(trending: seq<MovieSummary>)
    | DetailsFulfilled(movie: MovieDetail)

  function InitialState(): (s: MoviesState)
    ensures s.movies.results == [] && s.movies.page == 1 && s.movies.totalPages == 0
    ensures !s.movies.isLoading && !s.popularMovies.isLoading && !s.trendingMovies.isLoading && !s.movieDetails.isLoading
    ensures s.movies.error.None? && s.popularMovies.error.None? && s.trendingMovies.error.None? && s.movieDetails.error.None?
    ensures s.popularMovies.results == [] && s.trendingMovies.results == [] && s.movieDetails.movie.None?
  {
    MoviesState(Paged([], 1, 0, false, None), Listing([], false, None), Listing([], false, None), Details(None, false, None))
  }

  /** The part of the state an action belongs to. */
  function Target(a: Action): Thunk {
    match a
    case ClearMovies => FetchMovies
    case Pending(t) => t
    case Rejected(t, _) => t
    case MoviesFulfilled(_, _, _) => FetchMovies
    case PopularFulfilled(_) => FetchPopular
    case TrendingFulfilled(_) => FetchTrending
    case DetailsFulfilled(_) => FetchDetails
  }

  /** The ids of a list, as the `Set` built from it. */
  function Ids(items: seq<MovieSummary>): (ids: set<int>)
    ensures forall id :: id in ids <==> exists i :: 0 <= i < |items| && items[i].id == id
  {
    set i | 0 <= i < |items| :: items[i].id
  }

  /** Appending a later page: the old list followed by the incoming movies whose id it does not hold yet. */
  function AppendNew(existing: seq<MovieSummary>, incoming: seq<MovieSummary>): (r: seq<MovieSummary>)
    ensures existing <= r
    ensures IsSubseq(r[|existing|..], incoming)
    ensures forall i :: |existing| <= i < |r| ==> r[i].id !in Ids(existing)
    ensures forall m :: m in incoming && m.id !in Ids(existing) ==> m in r[|existing|..]
    ensures forall m :: multiset(r[|existing|..])[m] == if m.id in Ids(existing) then 0 else multiset(incoming)[m]
  {
    var ids := Ids(existing);
    var added := Filter(incoming, (m: MovieSummary) => m.id !in ids);
    var r := existing + added;
    assert r[|existing|..] == added;
    r
  }

  /** `fetchMovies.fulfilled`: page 1 replaces the list, later pages append; page numbers
      come from the payload. */
  function MoviesLoaded(p: Paged, results: seq<MovieSummary>, page: int, totalPages: int): (r: Paged)
    ensures page == 1 ==> r.results == results
    ensures page != 1 ==> r.results == AppendNew(p.results, results)
    ensures r.page == page && r.totalPages == totalPages && !r.isLoading && r.error == p.error
  {
    Paged(if page == 1 then results else AppendNew(p.results, results), page, totalPages, false, p.error)
  }

  /** The movies reducer. */
  function Reduce(s: MoviesState, a: Action): (r: MoviesState)
    ensures Target(a) != FetchMovies ==> r.movies == s.movies
    ensures Target(a) != FetchPopular ==> r.popularMovies == s.popularMovies
    ensures Target(a) != FetchTrending ==> r.trendingMovies == s.trendingMovies
    ensures Target(a) != FetchDetails ==> r.movieDetails == s.movieDetails
    ensures a.MoviesFulfilled? ==> r.movies == MoviesLoaded(s.movies, a.results, a.page, a.totalPages)
    ensures a.PopularFulfilled? ==>
      && r.popularMovies.results == a.popular && !r.popularMovies.isLoading
      && r.popularMovies.error == s.popularMovies.error
    ensures a.TrendingFulfilled? ==>
      && r.trendingMovies.results == a.trending && !r.trendingMovies.isLoading
      && r.trendingMovies.error == s.trendingMovies.error
    ensures a.DetailsFulfilled? ==>
      && r.movieDetails.movie == Some(a.movie) && !r.movieDetails.isLoading
      && r.movieDetails.error == s.movieDetails.error
  {
    match a
    case ClearMovies => s.(movies := s.movies.(results := [], page := 1))
    case Pending(FetchMovies) => s.(movies := s.movies.(isLoading := true, error := None))
    case Pending(FetchPopular) => s.(popularMovies := s.popularMovies.(isLoading := true, error := None))
    case Pending(FetchTrending) => s.(trendingMovies := s.trendingMovies.(isLoading := true, error := None))
    case Pending(FetchDetails) => s.(movieDetails := s.movieDetails.(isLoading := true, error := None))
    case Rejected(FetchMovies, e) => s.(movies := s.movies.(isLoading := false, error := Some(e)))
    case Rejected(FetchPopular, e) => s.(popularMovies := s.popularMovies.(isLoading := false, error := Some(e)))
    case Rejected(FetchTrending, e) => s.(trendingMovies := s.trendingMovies.(isLoading := false, error := Some(e)))
    case Rejected(FetchDetails, e) => s.(movieDetails := s.movieDetails.(isLoading := false, error := Some(e)))
    case MoviesFulfilled(results, page, totalPages) => s.(movies := MoviesLoaded(s.movies, results, page, totalPages))
    case PopularFulfilled(results) => s.(popularMovies := s.popularMovies.(results := results, isLoading := false))
    case TrendingFulfilled(results) => s.(trendingMovies := s.trendingMovies.(results := results, isLoading := false))
    case DetailsFulfilled(movie) => s.(movieDetails := s.movieDetails.(movie := Some(movie), isLoading := false))
  }

  // ---------------------------------------------------------------------------
  // Properties

  /** No two entries of a list share an id. */
  predicate DistinctIds(items: seq<MovieSummary>) {
    forall i, j :: 0 <= i < j < |items| ==> items[i].id != items[j].id
  }

  /** `clearMovies` empties the browse list and rewinds to page 1; nothing else changes. */
  lemma ClearMoviesResets(s: MoviesState)
    ensures var r := Reduce(s, ClearMovies);
      && r.movies.results == [] && r.movies.page == 1
      && r.movies.totalPages == s.movies.totalPages && r.movies.isLoading == s.movies.isLoading
      && r.movies.error == s.movies.error
      && r.popularMovies == s.popularMovies && r.trendingMovies == s.trendingMovies && r.movieDetails == s.movieDetails
  {
  }

  /** Pending and rejected touch only the flag and the error of their own part, never its results. */
  lemma PendingAndRejected(s: MoviesState, t: Thunk, e: string)
    ensures var p := Reduce(s, Pending(t));
      && (t == FetchMovies ==> p.movies == s.movies.(isLoading := true, error := None))
      && (t == FetchPopular ==> p.popularMovies == s.popularMovies.(isLoading := true, error := None))
      && (t == FetchTrending ==> p.trendingMovies == s.trendingMovies.(isLoading := true, error := None))
      && (t == FetchDetails ==> p.movieDetails == s.movieDetails.(isLoading := true, error := None))
    ensures var q := Reduce(s, Rejected(t, e));
      && (t == FetchMovies ==> q.movies == s.movies.(isLoading := false, error := Some(e)))
      && (t == FetchPopular ==> q.popularMovies == s.popularMovies.(isLoading := false, error := Some(e)))
      && (t == FetchTrending ==> q.trendingMovies == s.trendingMovies.(isLoading := false, error := Some(e)))
      && (t == FetchDetails ==> q.movieDetails == s.movieDetails.(isLoading := false, error := Some(e)))
  {
  }

  /** Appending never duplicates: a list with distinct ids stays so after a later page
      whose own ids are distinct. */
  lemma AppendKeepsIdsDistinct(existing: seq<MovieSummary>, incoming: seq<MovieSummary>)
    requires DistinctIds(existing) && DistinctIds(incoming)
    ensures DistinctIds(AppendNew(existing, incoming))
  {
    var r := AppendNew(existing, incoming);
    var added := r[|existing|..];
    SubseqKeepsIdsDistinct(added, incoming);
    forall i, j | 0 <= i < j < |r| ensures r[i].id != r[j].id {
      if j >= |existing| && i < |existing| {
        assert r[i] == existing[i];
        assert r[i].id in Ids(existing);
      } else if i >= |existing| {
        assert r[i] == added[i - |existing|] && r[j] == added[j - |existing|];
      }
    }
  }

  /** A subsequence of a list with distinct ids has distinct ids. */
  lemma {:induction false} SubseqKeepsIdsDistinct(a: seq<MovieSummary>, b: seq<MovieSummary>)
    requires IsSubseq(a, b) && DistinctIds(b)
    ensures DistinctIds(a)
    decreases |b|
  {
    if |a| > 0 {
      assert |b| > 0;
      if a[0] == b[0] && IsSubseq(a[1..], b[1..]) {
        SubseqKeepsIdsDistinct(a[1..], b[1..]);
        SubseqElements(a[1..], b[1..]);
        forall i, j | 0 <= i < j < |a| ensures a[i].id != a[j].id {
          if i == 0 {
            assert a[j] == a[1..][j - 1];
            assert a[j] in a[1..];
            var k :| 0 <= k < |b[1..]| && b[1..][k] == a[j];
            assert b[k + 1] == a[j];
          } else {
            assert a[i] == a[1..][i - 1] && a[j] == a[1..][j - 1];
          }
        }
      } else {
        SubseqKeepsIdsDistinct(a, b[1..]);
      }
    }
  }

  /** Every element of a subsequence occurs in the sequence. */
  lemma {:induction false} SubseqElements<T>(a: seq<T>, b: seq<T>)
    requires IsSubseq(a, b)
    ensures forall x :: x in a ==> x in b
    decreases |b|
  {
    if |a| > 0 {
      if a[0] == b[0] && IsSubseq(a[1..], b[1..]) {
        SubseqElements(a[1..], b[1..]);
        assert a == [a[0]] + a[1..];
      } else {
        SubseqElements(a, b[1..]);
      }
    }
  }

  /** The dedup is only against the old list: a later page that repeats a new id adds it twice. */
  lemma RepeatsWithinAPageKept(m: MovieSummary)
    ensures AppendNew([], [m, m]) == [m, m]
  {
    assert Ids([]) == {};
    assert Filter([m], (x: MovieSummary) => x.id !in Ids([])) == [m];
  }
}
