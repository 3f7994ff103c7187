/** The movie catalogue handlers of the server. Each handler is split into what it decides
    before calling the upstream movie API (validation and the request it would send) and
    how it shapes the upstream answer. The upstream API itself is a parameter: a total
    function from the request to what came back. */
module MovieController {
  import opened Wrappers
  import opened Seqs
  import opened JsText
  import opened JsNumber

  const PosterBase := "https://image.tmdb.org/t/p/w500"
  const ProfileBase := "https://image.tmdb.org/t/p/w300"
  const WatchPrefix := "https://www.youtube.com/watch?v="
  const DefaultSort := "popularity.desc"
  const SearchEndpoint := "/search/movie"
  const DiscoverEndpoint := "/discover/movie"

  const RatingsMessage := "Ratings must be between 0 and 10"
  const YearsMessage := "minYear cannot exceed maxYear"
  const NotFoundMessage := "Resource not found"
  const MoviesFailure := "Failed to fetch movies"
  const PopularFailure := "Failed to fetch popular"
  const GenresFailure := "Failed to fetch genres"
  const DetailsFailure := "Failed to fetch details"
  const TrendingFailure := "Failed to fetch trending movies"
  const WindowMessage := "Invalid time window. Use 'day' or 'week'"

  /** An error reply: HTTP status and the `message` of the JSON body. */
  datatype HttpError = HttpError(status: int, message: string)

  /** The query parameters the handlers send upstream. */
  datatype Param = Page | Query | SortBy | WithGenres | ReleaseFrom | ReleaseTo | VoteFrom | VoteTo | AppendToResponse

  /** The name of a parameter on the wire. */
  function ParamName(p: Param): string {
    match p
    case Page => "page"
    case Query => "query"
    case SortBy => "sort_by"
    case WithGenres => "with_genres"
    case ReleaseFrom => "primary_release_date.gte"
    case ReleaseTo => "primary_release_date.lte"
    case VoteFrom => "vote_average.gte"
    case VoteTo => "vote_average.lte"
    case AppendToResponse => "append_to_response"
  }

  /** A call to the upstream API: path and query parameters (already without `undefined` ones). */
  datatype Request = Request(endpoint: string, params: map<Param, string>)

  /** What the upstream call produced: data, an HTTP error status, or no response at all. */
  datatype Upstream<T> = Fetched(data: T) | StatusError(status: int) | NoResponse

  /** The query string of `GET /movies/all`; `None` is a parameter that was not given. */
  datatype ListingQuery = ListingQuery(
    search: Option<string>, genre: Option<string>,
    minYear: Option<string>, maxYear: Option<string>,
    minRating: Option<string>, maxRating: Option<string>,
    sort: Option<string>, page: Option<string>)

  datatype UpstreamMovie = UpstreamMovie(
    id: int, title: string, posterPath: Option<string>, releaseDate: Option<string>,
    voteAverage: real, popularity: real)

  datatype UpstreamPage = UpstreamPage(page: int, totalPages: int, results: seq<UpstreamMovie>)

  /** One movie of a listing reply; `trendingScore` is only present in trending replies. */
  datatype MovieSummary = MovieSummary(
    id: int, title: string, poster: Option<string>, releaseYear: string, rating: real,
    trendingScore: Option<real>)

  datatype ListReply = ListReply(timeWindow: Option<string>, page: int, totalPages: int, results: seq<MovieSummary>)

  datatype Genre = Genre(id: int, name: string)
  datatype Video = Video(name: string, key: string, kind: string, site: string)
  datatype CastCredit = CastCredit(name: string, character: string, profilePath: Option<string>)

  /** The upstream detail record; `videos` and `cast` are `videos.results` and `credits.cast`,
      `None` when the enclosing `videos` or `credits` object is present but the list is missing
      or null. An absent `videos` or `credits` object makes the handler throw; that reply is not
      part of this record. */
  datatype UpstreamDetail = UpstreamDetail(
    id: int, title: string, overview: string, genres: seq<Genre>, voteAverage: real,
    releaseDate: Option<string>, posterPath: Option<string>,
    videos: Option<seq<Video>>, cast: Option<seq<CastCredit>>)

  datatype Trailer = Trailer(name: string, url: string)
  datatype CastMember = CastMember(name: string, character: string, profile: Option<string>)

  datatype MovieDetail = MovieDetail(
    id: int, title: string, synopsis: string, genres: seq<string>, rating: real,
    releaseDate: Option<string>, poster: Option<string>, trailers: seq<Trailer>, cast: seq<CastMember>)

  // ---------------------------------------------------------------------------
  // getAllMovies: validation and the upstream request

  /** A rating bound that is given and, read as a number, lies outside [0, 10]
      (a bound that is not a number passes, as every comparison with NaN is false). */
  predicate RatingOutOfRange(bound: Option<string>) {
    Truthy(bound) && (Lt(ToNumber(bound.value), Fin(0.0)) || Gt(ToNumber(bound.value), Fin(10.0)))
  }

  /** Both year bounds are given and the lower one is numerically above the upper one. */
  predicate YearsInverted(q: ListingQuery) {
    Truthy(q.minYear) && Truthy(q.maxYear) && Gt(ToNumber(q.minYear.value), ToNumber(q.maxYear.value))
  }

  /** The `page` sent upstream: the given text, or 1 when the parameter is missing. */
  function PageParam(page: Option<string>): string {
    page.GetOr("1")
  }

  /** `params` with `key` added when `value` is defined: the HTTP client drops only
      `undefined` parameters, so an empty value is still sent. */
  function Passed(params: map<Param, string>, key: Param, value: Option<string>): map<Param, string> {
    if value.Some? then params[key := value.value] else params
  }

  /** `params` with `key` added, as the value followed by `suffix`, only when `value` is truthy. */
  function WhenGiven(params: map<Param, string>, key: Param, value: Option<string>, suffix: string): map<Param, string> {
    if Truthy(value) then params[key := value.value + suffix] else params
  }

  /** The parameters of a discovery request. */
  function DiscoverParams(q: ListingQuery): (p: map<Param, string>)
    ensures Page in p && p[Page] == PageParam(q.page)
    ensures SortBy in p && p[SortBy] == (if Truthy(q.sort) then q.sort.value else DefaultSort)
    ensures WithGenres in p <==> q.genre.Some?
    ensures ReleaseFrom in p <==> Truthy(q.minYear)
    ensures ReleaseTo in p <==> Truthy(q.maxYear)
    ensures VoteFrom in p <==> q.minRating.Some?
    ensures VoteTo in p <==> q.maxRating.Some?
    ensures Query !in p && AppendToResponse !in p
  {
    var p := map[Page := PageParam(q.page), SortBy := if Truthy(q.sort) then q.sort.value else DefaultSort];
    var p := Passed(p, WithGenres, q.genre);
    var p := WhenGiven(p, ReleaseFrom, q.minYear, "-01-01");
    var p := WhenGiven(p, ReleaseTo, q.maxYear, "-12-31");
    var p := Passed(p, VoteFrom, q.minRating);
    Passed(p, VoteTo, q.maxRating)
  }

  /** Everything `getAllMovies` decides before the upstream call: a 400 reply, or the request. */
  function PlanListing(q: ListingQuery): (r: Result<Request, HttpError>)
    ensures r.Err? <==> RatingOutOfRange(q.minRating) || RatingOutOfRange(q.maxRating) || YearsInverted(q)
    ensures RatingOutOfRange(q.minRating) || RatingOutOfRange(q.maxRating) ==> r == Err(HttpError(400, RatingsMessage))
    ensures !RatingOutOfRange(q.minRating) && !RatingOutOfRange(q.maxRating) && YearsInverted(q) ==>
              r == Err(HttpError(400, YearsMessage))
    ensures r.Ok? ==> (r.value.endpoint == SearchEndpoint <==> Truthy(q.search))
    ensures r.Ok? ==> Page in r.value.params && r.value.params[Page] == PageParam(q.page)
  {
    if RatingOutOfRange(q.minRating) || RatingOutOfRange(q.maxRating) then Err(HttpError(400, RatingsMessage))
    else if YearsInverted(q) then Err(HttpError(400, YearsMessage))
    else if Truthy(q.search) then
      Ok(Request(SearchEndpoint, map[Page := PageParam(q.page), Query := Trim(q.search.value)]))
    else Ok(Request(DiscoverEndpoint, DiscoverParams(q)))
  }

  // ---------------------------------------------------------------------------
  // Shaping of listing results

  /** An image URL: the base followed by the upstream path, or `null` when the path is empty or missing. */
  function ImageUrl(base: string, path: Option<string>): (r: Option<string>)
    ensures r.Some? <==> Truthy(path)
    ensures r.Some? ==> base <= r.value && r.value[|base|..] == path.value
  {
    if Truthy(path) then Some(base + path.value) else None
  }

  /** The release year shown for a movie: the part of the date before its first `-`, or "N/A". */
  function ReleaseYear(date: Option<string>): (r: string)
    ensures !Truthy(date) ==> r == "N/A"
    ensures Truthy(date) ==> r <= date.value && '-' !in r && (r == date.value || date.value[|r|] == '-')
  {
    if Truthy(date) then BeforeFirst(date.value, '-') else "N/A"
  }

  function Summarize(m: UpstreamMovie): MovieSummary {
    MovieSummary(m.id, m.title, ImageUrl(PosterBase, m.posterPath), ReleaseYear(m.releaseDate), m.voteAverage, None)
  }

  function SummarizeTrending(m: UpstreamMovie): MovieSummary {
    Summarize(m).(trendingScore := Some(m.popularity))
  }

  /** The search-branch post-filter: each given rating bound is compared numerically, each
      given year bound as text, and the genre is never consulted. */
  predicate SearchKeeps(q: ListingQuery, m: MovieSummary) {
    && (!Truthy(q.minRating) || Ge(Fin(m.rating), ToNumber(q.minRating.value)))
    && (!Truthy(q.maxRating) || Le(Fin(m.rating), ToNumber(q.maxRating.value)))
    && (!Truthy(q.minYear) || AtLeast(m.releaseYear, q.minYear.value))
    && (!Truthy(q.maxYear) || AtMost(m.releaseYear, q.maxYear.value))
  }

  /** The reply for an upstream page: one summary per upstream movie, filtered in memory
      only when the search endpoint was used; page numbers are copied as they came. */
  function ShapeListing(q: ListingQuery, data: UpstreamPage): ListReply {
    var shaped := Map(data.results, Summarize);
    ListReply(None, data.page, data.totalPages,
              if Truthy(q.search) then Filter(shaped, m => SearchKeeps(q, m)) else shaped)
  }

  /** `GET /movies/all`. */
  function GetAllMovies(q: ListingQuery, fetch: Request -> Upstream<UpstreamPage>): (r: Result<ListReply, HttpError>)
    ensures PlanListing(q).Err? ==> r == Err(PlanListing(q).error)
    ensures r.Err? ==> r.error.status in {400, 404, 500}
  {
    match PlanListing(q)
    case Err(e) => Err(e)
    case Ok(req) =>
      match fetch(req)
      case Fetched(data) => Ok(ShapeListing(q, data))
      case StatusError(status) =>
        if status == 404 then Err(HttpError(404, NotFoundMessage)) else Err(HttpError(500, MoviesFailure))
      case NoResponse => Err(HttpError(500, MoviesFailure))
  }

  // ---------------------------------------------------------------------------
  // getPopularMovies, getGenres, getTrendingMovies

  /** The popular request; its page falls back to 1 whenever the given page is empty. */
  function PlanPopular(page: Option<string>): (r: Request)
    ensures r.endpoint == "/movie/popular" && r.params.Keys == {Page}
    ensures r.params[Page] != ""
    ensures page.Some? && page.value != "" ==> r.params[Page] == page.value
  {
    Request("/movie/popular", map[Page := if Truthy(page) then page.value else "1"])
  }

  /** `GET /movies/popular`. */
  function GetPopularMovies(page: Option<string>, fetch: Request -> Upstream<UpstreamPage>): (r: Result<ListReply, HttpError>)
    ensures r.Ok? <==> fetch(PlanPopular(page)).Fetched?
    ensures r.Err? ==> r.error == HttpError(500, PopularFailure)
    ensures r.Ok? ==>
              var data := fetch(PlanPopular(page)).data;
              && r.value.timeWindow.None? && r.value.page == data.page && r.value.totalPages == data.totalPages
              && |r.value.results| == |data.results|
              && forall i :: 0 <= i < |data.results| ==> r.value.results[i] == Summarize(data.results[i])
  {
    match fetch(PlanPopular(page))
    case Fetched(data) => Ok(ListReply(None, data.page, data.totalPages, Map(data.results, Summarize)))
    case _ => Err(HttpError(500, PopularFailure))
  }

  /** `GET /movies/genres`: the upstream genre list, passed through. */
  function GetGenres(fetch: Request -> Upstream<seq<Genre>>): (r: Result<seq<Genre>, HttpError>)
    ensures r.Ok? <==> fetch(Request("/genre/movie/list", map[])).Fetched?
    ensures r.Ok? ==> r.value == fetch(Request("/genre/movie/list", map[])).data
    ensures r.Err? ==> r.error == HttpError(500, GenresFailure)
  {
    match fetch(Request("/genre/movie/list", map[]))
    case Fetched(genres) => Ok(genres)
    case _ => Err(HttpError(500, GenresFailure))
  }

  /** The trending request: the window defaults to "day" only when it is missing, and must
      then be "day" or "week"; the reply echoes it. */
  function PlanTrending(timeWindow: Option<string>, page: Option<string>): (r: Result<Request, HttpError>)
    ensures r.Err? <==> timeWindow.Some? && timeWindow.value != "day" && timeWindow.value != "week"
    ensures r.Err? ==> r.error == HttpError(400, WindowMessage)
    ensures r.Ok? ==> r.value.endpoint == "/trending/movie/" + timeWindow.GetOr("day")
                      && r.value.params == map[Page := PageParam(page)]
  {
    var window := timeWindow.GetOr("day");
    if window != "day" && window != "week" then Err(HttpError(400, WindowMessage))
    else Ok(Request("/trending/movie/" + window, map[Page := PageParam(page)]))
  }

  /** `GET /movies/trending`. */
  function GetTrendingMovies(timeWindow: Option<string>, page: Option<string>, fetch: Request -> Upstream<UpstreamPage>): (r: Result<ListReply, HttpError>)
    ensures PlanTrending(timeWindow, page).Err? ==> r == Err(HttpError(400, WindowMessage))
    ensures PlanTrending(timeWindow, page).Ok? ==>
              (r.Ok? <==> fetch(PlanTrending(timeWindow, page).value).Fetched?)
    ensures PlanTrending(timeWindow, page).Ok? && !fetch(PlanTrending(timeWindow, page).value).Fetched? ==>
              r == Err(HttpError(500, TrendingFailure))
    ensures r.Ok? ==>
              var data := fetch(PlanTrending(timeWindow, page).value).data;
              && r.value.timeWindow == Some(timeWindow.GetOr("day"))
              && r.value.page == data.page && r.value.totalPages == data.totalPages
              && |r.value.results| == |data.results|
              && forall i :: 0 <= i < |data.results| ==> r.value.results[i] == SummarizeTrending(data.results[i])
  {
    match PlanTrending(timeWindow, page)
    case Err(e) => Err(e)
    case Ok(req) =>
      match fetch(req)
      case Fetched(data) =>
        Ok(ListReply(Some(timeWindow.GetOr("day")), data.page, data.totalPages, Map(data.results, SummarizeTrending)))
      case _ => Err(HttpError(500, TrendingFailure))
  }

  // ---------------------------------------------------------------------------
  // getMovieDetails

  predicate IsYouTubeTrailer(v: Video) {
    v.kind == "Trailer" && v.site == "YouTube"
  }

  function ToTrailer(v: Video): Trailer {
    Trailer(v.name, WatchPrefix + v.key)
  }

  /** The trailers of a movie: the YouTube entries of type "Trailer", in upstream order,
      each with its watch URL. */
  function Trailers(videos: seq<Video>): (r: seq<Trailer>)
    ensures |r| == |Filter(videos, IsYouTubeTrailer)| <= |videos|
    ensures forall i :: 0 <= i < |r| ==> WatchPrefix <= r[i].url
  {
    Map(Filter(videos, IsYouTubeTrailer), ToTrailer)
  }

  function ToCastMember(c: CastCredit): CastMember {
    CastMember(c.name, c.character, ImageUrl(ProfileBase, c.profilePath))
  }

  /** The top of the cast: the first five credits (or all, when fewer), in upstream order. */
  function TopCast(cast: seq<CastCredit>): (r: seq<CastMember>)
    ensures |r| == if |cast| < 5 then |cast| else 5
    ensures forall i :: 0 <= i < |r| ==> r[i] == ToCastMember(cast[i])
  {
    Map(if |cast| < 5 then cast else cast[..5], ToCastMember)
  }

  function ShapeDetails(d: UpstreamDetail): MovieDetail {
    MovieDetail(d.id, d.title, d.overview, Map(d.genres, (g: Genre) => g.name), d.voteAverage, d.releaseDate,
                ImageUrl(PosterBase, d.posterPath), Trailers(d.videos.GetOr([])), TopCast(d.cast.GetOr([])))
  }

  function PlanDetails(id: string): Request {
    Request("/movie/" + id, map[AppendToResponse := "videos,credits"])
  }

  /** `GET /movies/details/:id`. */
  function GetMovieDetails(id: string, fetch: Request -> Upstream<UpstreamDetail>): (r: Result<MovieDetail, HttpError>)
    ensures r.Ok? <==> fetch(PlanDetails(id)).Fetched?
    ensures r.Err? ==> r.error == HttpError(500, DetailsFailure)
    ensures r.Ok? ==> |r.value.cast| <= 5
  {
    match fetch(PlanDetails(id))
    case Fetched(d) => Ok(ShapeDetails(d))
    case _ => Err(HttpError(500, DetailsFailure))
  }

  // ---------------------------------------------------------------------------
  // Properties

  /** A request that fails validation gets its 400 reply whatever the upstream would have said. */
  lemma ValidationPrecedesUpstream(q: ListingQuery, f: Request -> Upstream<UpstreamPage>, g: Request -> Upstream<UpstreamPage>)
    requires PlanListing(q).Err?
    ensures GetAllMovies(q, f) == GetAllMovies(q, g)
    ensures GetAllMovies(q, f).Err? && GetAllMovies(q, f).error.status == 400
  {
  }

  /** A text search sends only the page and the trimmed query: genre, years, ratings and sort
      never reach the search endpoint, and changing genre or sort changes nothing. */
  lemma SearchSendsOnlyPageAndQuery(q: ListingQuery, genre: Option<string>, sort: Option<string>)
    requires Truthy(q.search) && PlanListing(q).Ok?
    ensures PlanListing(q).value.params.Keys == {Page, Query}
    ensures PlanListing(q).value.params[Page] == PageParam(q.page)
    ensures PlanListing(q).value.params[Query] == Trim(q.search.value)
    ensures PlanListing(q.(genre := genre, sort := sort)) == PlanListing(q)
  {
    var q' := q.(genre := genre, sort := sort);
    assert RatingOutOfRange(q'.minRating) == RatingOutOfRange(q.minRating);
    assert YearsInverted(q') == YearsInverted(q);
  }

  /** The search test looks at the untrimmed text: a search of only whitespace still goes
      to the search endpoint, with an empty query. */
  lemma WhitespaceSearchSendsEmptyQuery(q: ListingQuery)
    requires q.search.Some? && |q.search.value| > 0
    requires forall k :: 0 <= k < |q.search.value| ==> IsSpace(q.search.value[k])
    requires PlanListing(q).Ok?
    ensures PlanListing(q).value.endpoint == SearchEndpoint
    ensures PlanListing(q).value.params[Query] == ""
  {
    AllSpaceTrimsToEmpty(q.search.value);
  }

  /** Which filters a discovery request carries: the genre and rating bounds whenever they
      are defined (even empty), the date bounds only when the years are non-empty, widened to
      whole years, and nothing else besides page and sort. */
  lemma DiscoverParameters(q: ListingQuery)
    requires !Truthy(q.search) && PlanListing(q).Ok?
    ensures PlanListing(q).value.endpoint == DiscoverEndpoint
    ensures var p := PlanListing(q).value.params;
      && Query !in p && AppendToResponse !in p
      && (q.genre.Some? ==> p[WithGenres] == q.genre.value)
      && (Truthy(q.minYear) ==> p[ReleaseFrom] == q.minYear.value + "-01-01")
      && (Truthy(q.maxYear) ==> p[ReleaseTo] == q.maxYear.value + "-12-31")
      && (q.minRating.Some? ==> p[VoteFrom] == q.minRating.value)
      && (q.maxRating.Some? ==> p[VoteTo] == q.maxRating.value)
  {
  }

  /** The genre never narrows a listing reply: whether a search or a discovery, the
      in-memory shaping ignores it. */
  lemma GenreNeverFilters(q: ListingQuery, data: UpstreamPage, genre: Option<string>)
    ensures ShapeListing(q.(genre := genre), data) == ShapeListing(q, data)
  {
    var q' := q.(genre := genre);
    var keep := (m: MovieSummary) => SearchKeeps(q, m);
    var keep' := (m: MovieSummary) => SearchKeeps(q', m);
    FilterAgrees(Map(data.results, Summarize), keep', keep);
  }

  /** What a search reply holds: exactly the shaped upstream movies that meet every given
      rating and year bound, in upstream order. */
  lemma SearchResultsAreFiltered(q: ListingQuery, data: UpstreamPage)
    requires Truthy(q.search)
    ensures var r := ShapeListing(q, data).results;
      && IsSubseq(r, Map(data.results, Summarize))
      && (forall m :: m in r <==> m in Map(data.results, Summarize) && SearchKeeps(q, m))
      && (forall m :: multiset(r)[m] == if SearchKeeps(q, m) then multiset(Map(data.results, Summarize))[m] else 0)
  {
  }

  /** A discovery reply keeps every upstream movie, in order, each shaped by `Summarize`;
      both kinds of reply copy the upstream page numbers unchanged. */
  lemma DiscoveryIsUnfiltered(q: ListingQuery, data: UpstreamPage)
    ensures ShapeListing(q, data).page == data.page && ShapeListing(q, data).totalPages == data.totalPages
    ensures !Truthy(q.search) ==>
              |ShapeListing(q, data).results| == |data.results| &&
              forall i :: 0 <= i < |data.results| ==> ShapeListing(q, data).results[i] == Summarize(data.results[i])
  {
  }

  /** Upstream failures: a 404 becomes "Resource not found", everything else a 500. */
  lemma UpstreamFailures(q: ListingQuery, fetch: Request -> Upstream<UpstreamPage>)
    requires PlanListing(q).Ok?
    ensures fetch(PlanListing(q).value) == StatusError(404) ==> GetAllMovies(q, fetch) == Err(HttpError(404, NotFoundMessage))
    ensures fetch(PlanListing(q).value).NoResponse? ||
            (fetch(PlanListing(q).value).StatusError? && fetch(PlanListing(q).value).status != 404)
            ==> GetAllMovies(q, fetch) == Err(HttpError(500, MoviesFailure))
    ensures fetch(PlanListing(q).value).Fetched? ==> GetAllMovies(q, fetch) == Ok(ShapeListing(q, fetch(PlanListing(q).value).data))
  {
  }

  /** An empty `page` parameter is treated differently by the handlers: the popular list asks
      for page 1, while the listing and the trending list forward the empty text. */
  lemma EmptyPageHandling(q: ListingQuery, timeWindow: Option<string>)
    requires q.page == Some("")
    ensures PlanPopular(q.page).params[Page] == "1"
    ensures PlanListing(q).Ok? ==> PlanListing(q).value.params[Page] == ""
    ensures PlanTrending(timeWindow, q.page).Ok? ==> PlanTrending(timeWindow, q.page).value.params[Page] == ""
  {
  }

  /** Year bounds of a search are compared as text: a movie without a date ("N/A") passes
      every lower year bound of digits and fails every upper one. */
  lemma UnknownYearQuirk(q: ListingQuery, m: MovieSummary)
    requires m.releaseYear == "N/A"
    requires Truthy(q.minYear) && AllDigitsIn(q.minYear.value, 10)
    ensures AtLeast(m.releaseYear, q.minYear.value)
    ensures Truthy(q.maxYear) && AllDigitsIn(q.maxYear.value, 10) ==> !AtMost(m.releaseYear, q.maxYear.value)
  {
    assert q.minYear.value[0] < 'N';
    if Truthy(q.maxYear) && AllDigitsIn(q.maxYear.value, 10) {
      assert q.maxYear.value[0] < 'N';
    }
  }

  /** For four-digit years, the text comparison of the search filter agrees with the numeric one. */
  lemma FourDigitYearsCompareAsNumbers(year: string, bound: string)
    requires |year| == 4 && |bound| == 4
    requires AllDigitsIn(year, 10) && AllDigitsIn(bound, 10)
    ensures AtLeast(year, bound) <==> Ge(ToNumber(year), ToNumber(bound))
    ensures AtMost(year, bound) <==> Le(ToNumber(year), ToNumber(bound))
  {
    DigitOrder(year, bound);
    DigitOrder(bound, year);
    DigitsToNumber(year);
    DigitsToNumber(bound);
  }

  /** Popular and trending replies shape the same upstream page the same way; trending adds
      the popularity as `trendingScore` and echoes the window. */
  lemma TrendingAddsScore(timeWindow: Option<string>, page: Option<string>, fetch: Request -> Upstream<UpstreamPage>)
    requires PlanTrending(timeWindow, page).Ok?
    requires fetch(PlanTrending(timeWindow, page).value).Fetched?
    requires fetch(PlanPopular(page)) == fetch(PlanTrending(timeWindow, page).value)
    ensures var data := fetch(PlanPopular(page)).data;
      var t := GetTrendingMovies(timeWindow, page, fetch).value;
      var p := GetPopularMovies(page, fetch).value;
      && t.timeWindow == Some(timeWindow.GetOr("day")) && p.timeWindow.None?
      && |t.results| == |p.results| == |data.results|
      && forall i :: 0 <= i < |data.results| ==>
           p.results[i].trendingScore.None? &&
           t.results[i] == p.results[i].(trendingScore := Some(data.results[i].popularity))
  {
  }

  /** Every listed trailer comes from a YouTube video of type "Trailer", and every such video is listed. */
  lemma TrailerMembers(videos: seq<Video>)
    ensures forall t :: t in Trailers(videos) ==> exists v :: v in videos && IsYouTubeTrailer(v) && t == ToTrailer(v)
    ensures forall v :: v in videos && IsYouTubeTrailer(v) ==> ToTrailer(v) in Trailers(videos)
  {
    var kept := Filter(videos, IsYouTubeTrailer);
    var r := Trailers(videos);
    forall t | t in r ensures exists v :: v in videos && IsYouTubeTrailer(v) && t == ToTrailer(v) {
      var i :| 0 <= i < |r| && r[i] == t;
      assert kept[i] in kept;
    }
    forall v | v in videos && IsYouTubeTrailer(v) ensures ToTrailer(v) in r {
      assert v in kept;
      var i :| 0 <= i < |kept| && kept[i] == v;
      assert r[i] == ToTrailer(v);
    }
  }

  /** A teaser and a Vimeo trailer are dropped; the YouTube trailer is kept with its watch URL. */
  lemma OnlyYouTubeTrailersListed()
    ensures Trailers([Video("Teaser", "t1", "Teaser", "YouTube"),
                      Video("Official", "k9", "Trailer", "YouTube"),
                      Video("Mirror", "v2", "Trailer", "Vimeo")])
            == [Trailer("Official", WatchPrefix + "k9")]
  {
    var vs := [Video("Teaser", "t1", "Teaser", "YouTube"),
               Video("Official", "k9", "Trailer", "YouTube"),
               Video("Mirror", "v2", "Trailer", "Vimeo")];
    assert Filter(vs[2..], IsYouTubeTrailer) == [];
    assert Filter(vs[1..], IsYouTubeTrailer) == [vs[1]];
    assert Filter(vs, IsYouTubeTrailer) == [vs[1]];
    assert Map([vs[1]], ToTrailer) == [ToTrailer(vs[1])];
  }

  /** The detail reply: the synopsis is the overview, genres are reduced to their names,
      and missing video or cast lists yield empty ones. */
  lemma DetailsShape(id: string, fetch: Request -> Upstream<UpstreamDetail>)
    requires fetch(PlanDetails(id)).Fetched?
    ensures var d := fetch(PlanDetails(id)).data;
      var r := GetMovieDetails(id, fetch).value;
      && r.id == d.id && r.synopsis == d.overview && r.rating == d.voteAverage && r.releaseDate == d.releaseDate
      && |r.genres| == |d.genres| && (forall i :: 0 <= i < |d.genres| ==> r.genres[i] == d.genres[i].name)
      && r.title == d.title && r.poster == ImageUrl(PosterBase, d.posterPath)
      && (d.videos.None? ==> r.trailers == []) && (d.videos.Some? ==> r.trailers == Trailers(d.videos.value))
      && (d.cast.None? ==> r.cast == []) && (d.cast.Some? ==> r.cast == TopCast(d.cast.value))
  {
  }
}
