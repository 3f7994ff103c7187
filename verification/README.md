# CineCraze core in Dafny

CineCraze is a movie browsing app: an Express back end in front of the TMDb API with a
per-user favorites collection, and a React/Redux front end. This project models the rules in
that code base as pure Dafny functions over immutable datatypes, and proves properties about
them. It covers:

- **Movie controller** (`MovieController`). Each handler is split into a *plan* and a *shape*
  step. The plan turns the query into either a 400 reply or an upstream request. The shape
  step turns the upstream data into the reply. The upstream call is a function parameter
  returning data, a status error, or no response.
- **Favorites controller** (`FavoriteController`). Add, remove and list are transitions on an
  in-memory store: a sequence of records plus a counter that stands for the database `_id`.
- **Bearer guard** (`AuthMiddleware`). This is `protect`, with the token verifier passed in as
  an uninterpreted partial function.
- **Redux slices** (`MoviesSlice`, `FavoritesSlice`, `AuthSlice`, `GenresSlice`, `UiSlice`).
  Each is modelled as a `Reduce(state, action)` transition.
- **Client helpers**:
  - `transformMovieData` (`MovieUtils`), over a small model of JavaScript values;
  - the two YouTube id extractors (`YoutubeEmbed`, `MovieDetailPage`);
  - the favourite test of the detail page;
  - rating bands and the favourite toggle of the movie card (`MovieCard`);
  - the filter/URL logic of the movies page (`MoviesPage`);
  - the register and login form checks (`AuthForms`).

Shared modules hold the JavaScript semantics this code relies on:

- `Wrappers`: `Option` and `Result`.
- `Seqs`: `filter` and `map` with their laws.
- `JsText`: JavaScript whitespace, `trim`, `split(c)[0]`, and relational operators on strings.
- `JsNumber`: numbers as `NaN | Fin(real)`, with `Number()`, `parseInt` and `parseFloat`.
- `Capture`: leftmost matching of patterns of the form `(?:m1|m2)([^…]+)`.

Conventions:

- An optional query value is `Option<string>`, where `None` stands for `undefined`. JavaScript
  truthiness of such a value is "present and non-empty".
- Axios drops only `undefined` parameters. So a present but empty `genre` or rating bound is
  still forwarded to discovery, as the code does.
- A destructuring default (`page = 1`, `time_window = "day"`) applies only to `undefined`.
  By contrast, `req.query.page || 1` also replaces the empty string.

Some JavaScript quirks are kept as written and proved:

- A whitespace-only search still takes the search branch, with an empty query.
- The year post-filter compares strings. `"N/A"` passes any all-digit `minYear` and fails any
  all-digit `maxYear`. For four-digit years, string order equals numeric order.
- The genre never filters search results.
- A year (or rating) range moved at only one end is written to the URL with one bound. The
  parser needs both bounds, so reopening that URL loses the range.
- `checkAuth.pending` does not clear the error.
- `handleChange` blanks an error message but keeps its key.

## Model

| member | source | states |
|---|---|---|
| MovieController.PlanListing | backend/controllers/movieController.js:17-52 | A 400 reply exactly when a present rating bound is outside [0, 10] or both years are present and inverted. The ratings message wins when both checks fail; inverted years alone give 400 "minYear cannot exceed maxYear". Otherwise the search endpoint is chosen exactly when the search text is truthy, and either request carries the given page, or "1" when it is missing. |
| MovieController.DiscoverParams | backend/controllers/movieController.js:42-51 | Discovery always carries page and sort (default "popularity.desc"). The date bounds are present exactly when the year is truthy; genre and vote bounds exactly when they are defined. Query and append_to_response are never sent. |
| MovieController.ValidationPrecedesUpstream | backend/controllers/movieController.js:17-32 | When validation fails, the reply is a 400 and does not depend on the upstream at all. |
| MovieController.SearchSendsOnlyPageAndQuery | backend/controllers/movieController.js:35-39 | A search request carries exactly the page (the given one, or "1" when missing) and the trimmed text. Changing genre or sort does not change the request. |
| MovieController.WhitespaceSearchSendsEmptyQuery | backend/controllers/movieController.js:35-38 | A whitespace-only search still goes to the search endpoint, and its query is empty. |
| MovieController.DiscoverParameters | backend/controllers/movieController.js:40-52 | The discovery request's genre and vote bounds are passed through. Its dates are "<minYear>-01-01" and "<maxYear>-12-31", and nothing else is added. |
| MovieController.ImageUrl | backend/controllers/movieController.js:60 | An image URL exists exactly when the path is truthy. It is then the base followed by the path. |
| MovieController.ReleaseYear | backend/controllers/movieController.js:61 | "N/A" without a date. Otherwise the longest dash-free prefix of the date, ending at the first '-' or at the end. |
| MovieController.GenreNeverFilters | backend/controllers/movieController.js:74 | The genre value never changes the shaped listing. |
| MovieController.SearchResultsAreFiltered | backend/controllers/movieController.js:67-77 | Search results are an order-preserving subsequence of the shaped page. Every summary that meets every present rating and year bound occurs as often as in the shaped page, and every other summary not at all. |
| MovieController.DiscoveryIsUnfiltered | backend/controllers/movieController.js:56-63 | Page and total pages are copied verbatim. Without search there is one summary per upstream record, in order. |
| MovieController.UnknownYearQuirk | backend/controllers/movieController.js:72-73 | "N/A" passes a digit minYear bound and fails a digit maxYear bound under string comparison. |
| MovieController.FourDigitYearsCompareAsNumbers | backend/controllers/movieController.js:72-73 | For four-digit years, the string comparisons agree with numeric ones. |
| MovieController.GetAllMovies | backend/controllers/movieController.js:4-92 | A validation error is returned as is. Every error has status 400, 404 or 500. |
| MovieController.UpstreamFailures | backend/controllers/movieController.js:85-90 | An upstream 404 gives 404 "Resource not found". Any other failure gives 500 "Failed to fetch movies". Data gives the shaped listing. |
| MovieController.PlanPopular | backend/controllers/movieController.js:97-98 | The popular endpoint with only a page. The page sent is never empty, and a non-empty given page is sent as it is. |
| MovieController.EmptyPageHandling | backend/controllers/movieController.js:97-98 | An empty page parameter becomes "1" for the popular list, whose fallback to 1 also replaces empty text, but the listing and the trending list, whose default of line 14 and line 168 applies only to a missing page, forward the empty text. |
| MovieController.GetPopularMovies | backend/controllers/movieController.js:95-112 | A reply exactly when the upstream returned data; otherwise 500 "Failed to fetch popular". The reply copies the page numbers and holds one summary per upstream movie, in order, without a trending score. |
| MovieController.GetGenres | backend/controllers/movieController.js:115-122 | A reply exactly when the upstream returned data, and it is the upstream genre list unchanged; otherwise 500 "Failed to fetch genres". |
| MovieController.PlanTrending | backend/controllers/movieController.js:168-180 | A 400 reply exactly when a window is given that is neither "day" nor "week". Otherwise the trending endpoint for the window (default "day"), with only a page. |
| MovieController.GetTrendingMovies | backend/controllers/movieController.js:166-204 | An invalid window gives the 400 reply. For a valid window, a reply exactly when the upstream returned data, and 500 "Failed to fetch trending movies" otherwise. A reply echoes the window, copies the page numbers and holds one summary with trendingScore per upstream movie, in order. |
| MovieController.TrendingAddsScore | backend/controllers/movieController.js:182-196 | On the same upstream page, trending and popular give the same summaries. Trending also adds trendingScore = popularity and the window. |
| MovieController.Trailers | backend/controllers/movieController.js:133-135 | One trailer per YouTube "Trailer" entry. Every URL starts with the watch prefix. |
| MovieController.TrailerMembers | backend/controllers/movieController.js:133-135 | A video is listed as a trailer exactly when it is a YouTube "Trailer"; its URL is the watch prefix followed by its key. |
| MovieController.OnlyYouTubeTrailersListed | backend/controllers/movieController.js:134 | Example, not a general property: a teaser and a non-YouTube trailer are dropped, and the YouTube trailer is kept with its watch URL. |
| MovieController.TopCast | backend/controllers/movieController.js:138-142 | The first min(5, n) cast entries, in order. Each has a w300 profile URL or null. |
| MovieController.GetMovieDetails | backend/controllers/movieController.js:125-163 | A reply exactly when the upstream returned data, with at most five cast members. The only error is 500 "Failed to fetch details". |
| MovieController.DetailsShape | backend/controllers/movieController.js:144-158 | The detail reply copies id, title, overview, rating and date, builds the w500 poster URL, and maps genres to their names. Present videos and cast give the trailer list and the top cast; missing ones give empty lists. |
| FavoriteController.FindFirst | backend/controllers/favoriteController.js:9-12 | The first record of the (user, movieId) pair, or none exactly when no record has it. |
| FavoriteController.AddFavorite | backend/controllers/favoriteController.js:4-40 | A duplicate (user, movieId) gives 400 "Movie already in favorites" and an unchanged store. Otherwise an empty title fails the schema's required check: 500 "Failed to add favorite", store unchanged. Otherwise exactly one record is appended, with the caller's user, movieId, title and rating, and with no posterPath or releaseDate, because the schema declares neither name. |
| FavoriteController.Kept | backend/models/Favorite.js:10-20 | Of the fields the handler writes, the strict schema keeps movieId, title and rating and drops posterPath and releaseDate. |
| FavoriteController.AddFavoriteIntended | backend/controllers/favoriteController.js:21-28 | With the handler and the schema agreeing on field names, add fails in exactly the same cases and with the same reply. On success it stores the same record except that every field of the body is kept. |
| FavoriteController.DuplicateAddRefused | backend/controllers/favoriteController.js:9-19 | Adding the same pair twice: the second add changes nothing. It is the 400 duplicate reply when the pair was stored or the title is non-empty; with an empty title on a new pair both adds give the same 500. |
| FavoriteController.AddKeepsValid | backend/controllers/favoriteController.js:9-28 | Add keeps "at most one record per (user, movieId)" and distinct ids. |
| FavoriteController.RemoveFavorite | backend/controllers/favoriteController.js:44-63 | A 404 "Favorite not found" with an unchanged store exactly when the pair is absent. Otherwise one matching record is deleted and the reply is "<title> is removed from Favorites ". |
| FavoriteController.RemoveKeepsValid | backend/controllers/favoriteController.js:48-51 | Remove keeps the store invariant. |
| FavoriteController.RemoveDeletesOnlyThePair | backend/controllers/favoriteController.js:48-58 | After removal no record of the pair remains. Every record of another user or movie is kept. |
| FavoriteController.AddThenRemove | backend/controllers/favoriteController.js:21-28 | Adding a new pair with a non-empty title and then removing it gives back the original records. |
| FavoriteController.GetFavorites | backend/controllers/favoriteController.js:74-80 | Exactly the caller's records, as a subsequence of the store. Empty when the caller has none. |
| FavoriteController.OthersAddsInvisible | backend/controllers/favoriteController.js:76 | Another user's add does not change the caller's list. |
| AuthMiddleware.BearerToken | backend/middlewares/authMiddleware.js:13 | The token is the space-free text right after "Bearer ", up to the next space or the end. |
| AuthMiddleware.Protect | backend/middlewares/authMiddleware.js:3-20 | A missing header, or one not starting with "Bearer ", gives 401 "Unauthorized". next is reached exactly when the verifier accepts the token, with its userId. Every rejection is a 401. |
| AuthMiddleware.TokenRoundTrip | backend/middlewares/authMiddleware.js:13 | "Bearer " followed by a space-free token hands back exactly that token. |
| AuthMiddleware.RefusedToken | backend/middlewares/authMiddleware.js:17-19 | A token the verifier rejects gives 401 "Token invalid or expired". |
| AuthMiddleware.LowerCaseSchemeRejected | backend/middlewares/authMiddleware.js:5-7 | The scheme check is case-sensitive: "bearer " is refused. |
| AuthMiddleware.EmptyTokenReachesVerifier | backend/middlewares/authMiddleware.js:13-14 | The header "Bearer " passes the empty token to the verifier. |
| MoviesSlice.InitialState | frontend/src/redux/slices/moviesSlice.js:59-82 | All lists are empty, page 1, nothing loading, no errors. |
| MoviesSlice.AppendNew | frontend/src/redux/slices/moviesSlice.js:108-111 | The old results are a prefix. The suffix is a subsequence of the payload: each payload movie whose id is new occurs in it as often as in the payload, and no movie with an old id occurs in it. |
| MoviesSlice.MoviesLoaded | frontend/src/redux/slices/moviesSlice.js:100-117 | Page 1 replaces the results; any other page appends the new items. Page and total pages come from the payload, and loading ends. |
| MoviesSlice.Reduce | frontend/src/redux/slices/moviesSlice.js:87-163 | Each action touches only its own sub-state. A fulfilled listing is loaded as `MoviesLoaded` describes. Fulfilled popular and trending replace their results; fulfilled details store the movie. Each fulfilled action stops loading and keeps the error. |
| MoviesSlice.ClearMoviesResets | frontend/src/redux/slices/moviesSlice.js:88-91 | Results become empty and the page becomes 1. Everything else is unchanged. |
| MoviesSlice.PendingAndRejected | frontend/src/redux/slices/moviesSlice.js:96-99 | Pending sets loading and clears the error. Rejected stops loading and records the error. The results are untouched in both. |
| MoviesSlice.AppendKeepsIdsDistinct | frontend/src/redux/slices/moviesSlice.js:109-111 | An append never duplicates an id when the old list and the page were free of duplicates. |
| MoviesSlice.RepeatsWithinAPageKept | frontend/src/redux/slices/moviesSlice.js:110 | Example: duplicates inside one payload page are not removed. |
| FavoritesSlice.InitialState | frontend/src/redux/slices/favoritesSlice.js:53-57 | No favorites, not loading, no error. |
| FavoritesSlice.Reduce | frontend/src/redux/slices/favoritesSlice.js:62-118 | Pending and rejected keep the list. Clear empties it. A fetch maps each record in order (id←movieId, title, rating, poster←posterPath, releaseYear←releaseDate, dbId←_id). An add appends at the end. A remove keeps every entry with another id as often as it occurred, as a subsequence, and drops every entry with the removed id. |
| FavoritesSlice.PosterAndYearLost | frontend/src/redux/slices/favoritesSlice.js:23-32 | A stored movie reads back with no poster and no release year. It differs from the item the add thunk returned whenever the movie had either. |
| FavoritesSlice.BodyRoundTripIntended | frontend/src/redux/slices/favoritesSlice.js:23-32 | With the server keeping the names it is sent, a stored movie reads back as the item the add thunk returned, on the five mapped fields and the record id. |
| FavoritesSlice.AddKeepsClientInSync | frontend/src/redux/slices/favoritesSlice.js:95-98 | After a successful add, a client list that matched the user's server records position by position on movie id, title, rating and record id still matches. |
| FavoritesSlice.AddKeepsClientInSyncIntended | frontend/src/redux/slices/favoritesSlice.js:95-98 | With the server keeping the names it is sent, a client list equal to the mapped server records, on the five mapped fields and the record id, stays equal after a successful add. |
| FavoritesSlice.RemoveDropsAllCopies | frontend/src/redux/slices/favoritesSlice.js:109-114 | After a fulfilled remove, no entry with that id is left. |
| AuthSlice.InitialState | frontend/src/redux/slices/authSlice.js:60-65 | No user, not loading, no error. The token is present exactly when the stored token is truthy. |
| AuthSlice.Reduce | frontend/src/redux/slices/authSlice.js:70-138 | Logout clears the user and token. clearError clears only the error. Pending sets loading, and clears the error except for checkAuth. Login and register set the user and token. getCurrentUser sets only the user. checkAuth sets the user or null, and its rejection clears the user and token. |
| AuthSlice.TokenDroppedOnlyBy | frontend/src/redux/slices/authSlice.js:71-75 | A held token is lost only by logout, a rejected checkAuth, or a fulfilled login/register whose payload has no token. |
| AuthSlice.FailedLoginKeepsSession | frontend/src/redux/slices/authSlice.js:83-95 | A login that fails leaves the user and token as they were and records the error. |
| AuthSlice.CheckAuthKeepsError | frontend/src/redux/slices/authSlice.js:127-129 | checkAuth pending keeps the error, while login and register pending clear it. |
| GenresSlice.InitialState | frontend/src/redux/slices/genresSlice.js:16-20 | No genres, not loading, no error. |
| GenresSlice.Reduce | frontend/src/redux/slices/genresSlice.js:28-39 | Pending sets loading and clears the error. Fulfilled replaces the genres. Rejected records the error. Only fulfilled changes the genres. |
| GenresSlice.LoadSucceeds | frontend/src/redux/slices/genresSlice.js:28-35 | Pending then fulfilled gives exactly the payload, not loading, no error. |
| GenresSlice.LoadFailsKeepsGenres | frontend/src/redux/slices/genresSlice.js:28-39 | Pending then rejected keeps the genres and records the error. |
| UiSlice.InitialState | frontend/src/redux/slices/uiSlice.js:3-5 | No scroll positions. |
| UiSlice.SaveScrollPosition | frontend/src/redux/slices/uiSlice.js:11-14 | The key maps to the position. Every other key is unchanged. |
| UiSlice.ClearScrollPositions | frontend/src/redux/slices/uiSlice.js:15-17 | The map becomes empty. |
| UiSlice.LastSaveWins | frontend/src/redux/slices/uiSlice.js:13 | Saving the same key twice keeps only the last position. |
| UiSlice.SavesCommute | frontend/src/redux/slices/uiSlice.js:13 | Saves to different keys can be done in either order. |
| MovieUtils.YearOfDate | frontend/src/lib/utils.jsx:11 | `releaseDate?.split("-")[0]` is the text before the first '-'. It is undefined for a missing date, and a TypeError (none) for a non-string. |
| MovieUtils.TransformMovieData | frontend/src/lib/utils.jsx:8-15 | poster is poster, else posterPath, else "". releaseYear is releaseYear, else the year of releaseDate, else "". rating, genres and overview default to 0, [] and "". Every other key is copied unchanged. |
| MovieUtils.TransformIdempotent | frontend/src/lib/utils.jsx:8-15 | Transforming twice is the same as transforming once. |
| MovieUtils.BareMovieGetsDefaults | frontend/src/lib/utils.jsx:10-14 | A record with only an id gets all five defaults. |
| MovieUtils.ServerDetailDefaults | frontend/src/lib/utils.jsx:11-12 | A NaN rating becomes 0, and a "YYYY-MM-DD" date gives its year. |
| YoutubeEmbed.GetVideoId | frontend/src/components/movies/YoutubeEmbed.jsx:15-32 | Falsy input gives null. A short text without '/' is returned as is. Otherwise it gives the leftmost watch-URL capture, or failing that the youtu.be capture, and null exactly when neither pattern matches. |
| YoutubeEmbed.WatchUrlRoundTrip | frontend/src/components/movies/YoutubeEmbed.jsx:22-24 | For a non-empty key without '&', the watch URL the back end builds gives back the key. |
| YoutubeEmbed.TrailerLinkRoundTrip | backend/controllers/movieController.js:135 | Every trailer URL of the details reply gives back its video key. |
| YoutubeEmbed.ShortUrlRoundTrip | frontend/src/components/movies/YoutubeEmbed.jsx:27-29 | A youtu.be link gives back a non-empty key without '?'. |
| YoutubeEmbed.NoWatchMatchWithoutQuestionMark | frontend/src/components/movies/YoutubeEmbed.jsx:22 | Text without '?' never matches the watch pattern. |
| MovieDetailPage.GetTrailerUrl | frontend/src/pages/MovieDetailPage.jsx:104-116 | Null without trailers or with an empty first URL. Otherwise the capture of the leftmost match of either link form in the first URL, null exactly when there is none. A result is non-empty and has no '&' or whitespace. |
| MovieDetailPage.TrailerUrlRoundTrip | frontend/src/pages/MovieDetailPage.jsx:113-115 | A first trailer built from a key without '&' or whitespace gives back that key. |
| MovieDetailPage.ShortTrailerUrlRoundTrip | frontend/src/pages/MovieDetailPage.jsx:113-115 | A first trailer that is a youtu.be link, after any text without 'y', gives back its key when the key has no '&' or whitespace. |
| MovieDetailPage.FirstTrailerOnly | frontend/src/pages/MovieDetailPage.jsx:109 | Trailers after the first never change the result. |
| MovieDetailPage.IsFavorite | frontend/src/pages/MovieDetailPage.jsx:48 | For a route id of decimal digits, true exactly when some favourite's id equals its decimal value. A route id parseInt reads as NaN is never a favourite. |
| MovieDetailPage.DigitRouteIds | frontend/src/pages/MovieDetailPage.jsx:48 | For a digit route id this is membership of its decimal value. |
| MovieDetailPage.NonNumericRouteNeverFavorite | frontend/src/pages/MovieDetailPage.jsx:48 | A route id that parses to NaN is never a favourite. |
| MovieCard.RatingBand | frontend/src/components/movies/MovieCard.jsx:45-49 | "movie-rating-high" exactly when the rating is ≥ 7. Medium exactly when it is ≥ 5 and < 7. Low otherwise, including NaN. |
| MovieCard.BandsMonotone | frontend/src/components/movies/MovieCard.jsx:45-49 | A higher rating never gets a lower band. |
| MovieCard.Toggle | frontend/src/components/movies/MovieCard.jsx:21-42 | Nothing without a user. Otherwise remove(movie.id) for a favourite, else add(movie). |
| MovieCard.ToggleOnThenOff | frontend/src/components/movies/MovieCard.jsx:30-42 | Toggling a non-favourite on and then off, with both fulfilled, gives back the original list. |
| MoviesPage.GetParam | frontend/src/pages/MoviesPage.jsx:46 | `params.get`: the value of the first pair with the name, and none exactly when the name is absent. |
| MoviesPage.NameOf | frontend/src/pages/MoviesPage.jsx:42-63 | A URL name is filed under a key exactly when it spells that key's name; any other name is kept as other text. |
| MoviesPage.ParseUrl | frontend/src/pages/MoviesPage.jsx:42-63 | Each present key overwrites its field. A year or rating range is updated only when both bounds are present, using parseInt and parseFloat. filter=trending sets the sort to "trending" even when a sort key is present. |
| MoviesPage.Entries | frontend/src/pages/MoviesPage.jsx:74-80 | A key is written exactly when its field differs from its default. It carries that field's value, and no key is written twice. |
| MoviesPage.Serialize | frontend/src/pages/MoviesPage.jsx:72-83 | Keys are written for a non-empty search or genre, minYear !== 1900, maxYear !== the current year, minRating !== 0, maxRating !== 10 and sort !== "popularity.desc". Each key appears once with its field's value, and filter is never written. |
| MoviesPage.ReadBack | frontend/src/pages/MoviesPage.jsx:42-83 | Each key written to the URL is read back by `params.get` as its field's value, text as it is and numbers in their string form. |
| MoviesPage.TextFieldsRoundTrip | frontend/src/pages/MoviesPage.jsx:42-83 | Search, genre and sort survive writing the URL and reading it back from the defaults. |
| MoviesPage.OneYearBoundIsLost | frontend/src/pages/MoviesPage.jsx:48-53 | A year range moved at one end only is lost when the URL is read back. |
| MoviesPage.BothYearBoundsSurvive | frontend/src/pages/MoviesPage.jsx:48-53 | Both bounds moved survive, when parseInt reads the written numbers back. |
| MoviesPage.FilterChangeRequest | frontend/src/pages/MoviesPage.jsx:86-101 | A filter change requests page 1 with the debounced search and the current filters. |
| MoviesPage.FilterChangeReplacesList | frontend/src/pages/MoviesPage.jsx:90-103 | Clearing and then receiving the page-1 answer leaves exactly the payload. |
| MoviesPage.LoadMore | frontend/src/pages/MoviesPage.jsx:119-133 | A request exactly when not loading and hasMore (page < totalPages). It asks for page + 1 with the search text as typed, the genre, both year bounds, both rating bounds and the sort: the filter-change request with the next page. |
| MoviesPage.LoadMoreExtendsList | frontend/src/pages/MoviesPage.jsx:119-133 | The answer to a load-more request keeps the list as a prefix. |
| MoviesPage.Reset | frontend/src/pages/MoviesPage.jsx:137-144 | The five filter states return to "", "", [1900, current year], [0, 10] and "popularity.desc". |
| MoviesPage.ResetEmitsNothing | frontend/src/pages/MoviesPage.jsx:72-83 | After a reset the URL carries no key, and the filter indicator is off. |
| MoviesPage.ActiveIffFilterKeyWritten | frontend/src/pages/MoviesPage.jsx:193-197 | The indicator is on exactly when the URL carries a genre, year or rating key. Search and sort do not count. |
| AuthForms.TestEmail | frontend/src/components/auth/Register.jsx:51 | A scan over each '@' decides exactly the unanchored pattern \S+@\S+\.\S+. |
| AuthForms.EmailExamples | frontend/src/components/auth/Login.jsx:50 | Examples: "a@b.c" and "x a@b.c y" match. "a@b", "a@.c" and "" do not. |
| AuthForms.EmailError | frontend/src/components/auth/Login.jsx:48-52 | No error exactly when the pattern matches. Otherwise "Email is required" for empty text, else "Email is invalid". |
| AuthForms.ValidateRegister | frontend/src/components/auth/Register.jsx:42-63 | Name is flagged exactly when empty. Email is flagged exactly when the pattern fails. Password is flagged exactly when shorter than 8, as "required" when empty. |
| AuthForms.ValidateLogin | frontend/src/components/auth/Login.jsx:45-60 | The same e-mail rule. The password is flagged exactly when empty, and there is no length rule. |
| AuthForms.SubmitRegister | frontend/src/components/auth/Register.jsx:66-70 | The form is dispatched exactly when the name is non-empty, the e-mail matches and the password has at least 8 characters. |
| AuthForms.SubmitLogin | frontend/src/components/auth/Login.jsx:63-69 | The form is dispatched exactly when the e-mail matches and the password is non-empty. |
| AuthForms.RegisterStricterThanLogin | frontend/src/components/auth/Register.jsx:55-59 | Every form registration accepts, login accepts too. |
| AuthForms.SevenCharacterPassword | frontend/src/components/auth/Register.jsx:57-59 | Example: a seven-character password passes login but gets only the length error at registration. |
| AuthForms.HandleChange | frontend/src/components/auth/Register.jsx:31-39 | The named field takes the value and the other fields are unchanged. That field's error is blanked but keeps its key, and the other errors are unchanged. |
| AuthForms.FieldsValidatedIndependently | frontend/src/components/auth/Login.jsx:34-59 | Typing into one field never changes another field's validation result. |
| AuthForms.RedirectTarget | frontend/src/components/auth/Login.jsx:22 | The pathname when it is truthy, else "/". Never empty. |

## Left out

- Network and HTTP plumbing are not modelled: axios clients, Express routing, thunk orchestration and response bodies beyond the fields named. Upstream calls are function parameters, and thunk payloads are plain values.
- MongoDB persistence is replaced by an in-memory sequence with a counter standing for `_id`. Database failures (the 500 replies of the favorites controller) are not modelled, except the schema's rejection of an empty title on add. A missing or non-numeric `movieId` is not modelled: the body's fields are typed.
- Of mongoose's casting, only the strict schema's dropping of undeclared paths and the required-title check are modelled. Type casting and the `timestamps` fields are not.
- The cast of the `movieId` route parameter from text to a number by mongoose is not modelled. Remove takes an integer id.
- The client's movie objects are reduced to the five fields of `FavoritesSlice.ClientMovie`. The add body has exactly those five fields, but the add thunk's payload `{ ...movie, dbId }` keeps the whole movie (for a grid card also `genres`, `overview` and, on trending, `trendingScore`; on the detail page also `synopsis` and the rest). A refetch returns only the five mapped fields plus `dbId`, so the client item and its refetched form differ on those extra fields; the model does not represent them.
- FavoritesSlice.AddKeepsClientInSyncIntended: the equality of the client list with the mapped server list is over `ClientMovie`'s five fields and `dbId` only. With a real movie object carrying more fields, the thunk's item would not equal its refetched form even with the field names fixed.
- FavoritesSlice.BodyRoundTripIntended: likewise, the read-back item equals the thunk's item on the five mapped fields and `dbId` only.
- Query arrays (repeated query keys in Express) are not modelled. Query values are single strings or absent.
- `Number()` of `Infinity`, hexadecimal, binary and octal literals is not modelled, and neither is `parseFloat` of `Infinity`/`-Infinity`. Those texts are read as NaN, where JavaScript gives a number or ±Infinity. Number-to-string conversion is a parameter (`show`) of `MoviesPage.AsQuery`.
- MoviesPage.ParseUrl: a rating bound of `Infinity` or `-Infinity` reads as NaN here, where the page gets ±Infinity. The rating range read from such a URL differs from the page's.
- MovieController.GetMovieDetails: an upstream reply without a `videos` or `credits` object makes the handler throw, giving the 500 reply. The model's `UpstreamDetail` always has both objects; only a missing list inside them is modelled, as an empty one.
- The upstream parameter names (`sort_by`, `primary_release_date.gte`, …) are given by an enumeration, `MovieController.ParamName`. The URL keys of the movies page are likewise an enumeration.
- Floating-point formatting of ratings and popularity is not modelled; they are reals used only in comparisons.
- Error payloads of rejected thunks are modelled as text.
- `localStorage` writes of the auth slice are not modelled. The stored token is an input of `AuthSlice.InitialState`.
- Rendering, toasts, animation, routing, debouncing, the filter panel's open state and the favourite toggle of the detail page are not modelled; they are not logic of the modelled functions.
- `authController.js` and `User.js` are not part of this model. Token signing and verification are an uninterpreted verifier in `AuthMiddleware.Protect`.
- MovieController.Trailers: its contract states the count, the URL prefix and, through `MovieController.TrailerMembers`, membership in both directions. Order preservation follows from its definition as a filter then map and is not a separate ensures.
- MovieController.GetMovieDetails: its contract states when a reply exists, the error and the cast bound. The field-by-field shape is stated in `MovieController.DetailsShape`.
- Text length is counted in Dafny `char`s, which are Unicode scalar values, while JavaScript's `.length` counts UTF-16 code units. Text outside the Basic Multilingual Plane (emoji, for instance) is therefore shorter in the model: a password of four emoji has `.length` 8 and passes the register length rule, but has four characters in `AuthForms.ValidateRegister` and is flagged. The same applies to the length-15 bound of `YoutubeEmbed.LooksLikeId`.
- Concurrent requests are not modelled. The favorites store is changed by one request at a time, so the "one record per (user, movieId)" invariant of `FavoriteController.Valid` holds for sequential requests only: the `findOne` check and the `create` are not atomic and `backend/models/Favorite.js` declares no unique index, so two adds in flight together can both store the pair.

## Findings

| source | as written | input that shows it | evidently intended | confidence | as-written member | corrected member |
|---|---|---|---|---|---|---|
| backend/controllers/favoriteController.js:21-28 | The handler creates the favorite with `posterPath` and `releaseDate`, but `backend/models/Favorite.js:18-19` declares `poster` and `releaseYear`. The strict schema drops both written fields, so a fetched favorite has no poster and no release year. | Adding a movie with `poster = "/p.jpg"` and `releaseYear = "1999"`, then fetching the favorites: the item reads back with neither. | Handler and schema use the same names, so a stored favorite reads back as the movie that was added, on the five mapped fields. | not executed | FavoritesSlice.PosterAndYearLost | FavoritesSlice.BodyRoundTripIntended |

The as-written half is `FavoriteController.AddFavorite`, built on `FavoriteController.Kept`, and the rest of the model uses it. The corrected half is `FavoriteController.AddFavoriteIntended`, built on `FavoriteController.KeptIntended`. For it, `FavoritesSlice.BodyRoundTripIntended` and `FavoritesSlice.AddKeepsClientInSyncIntended` prove the round trip and the client/server agreement on the five mapped fields and the record id.
