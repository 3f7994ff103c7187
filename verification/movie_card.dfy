/** Two decisions of a movie card: the colour band of its rating and what its heart button
    asks the favorites store to do. */
module MovieCard {
  import opened Wrappers
  import opened Seqs
  import opened JsNumber
  import AuthSlice
  import FavoritesSlice

  const High := "movie-rating-high"
  const Medium := "movie-rating-medium"
  const Low := "movie-rating-low"

  /** `getRatingColor`; a missing rating compares as `NaN` and lands in the low band. */
  function RatingBand(rating: Num): (band: string)
    ensures band == High <==> Ge(rating, Fin(7.0))
    ensures band == Medium <==> Ge(rating, Fin(5.0)) && Lt(rating, Fin(7.0))
    ensures band == Low <==> !Ge(rating, Fin(5.0))
  {
    if Ge(rating, Fin(7.0)) then High
    else if Ge(rating, Fin(5.0)) then Medium
    else Low
  }

  /** The bands in increasing order. */
  function BandRank(band: string): nat {
    if band == High then 2 else if band == Medium then 1 else 0
  }

  /** What the heart button dispatches. */
  datatype Request = RemoveFavorite(movieId: int) | AddFavorite(movie: FavoritesSlice.ClientMovie)

  /** `handleFavoriteToggle`: nothing without a signed-in user; otherwise remove a favorite by its id or add the movie. */
  function Toggle(user: Option<AuthSlice.User>, isFavorite: bool, movie: FavoritesSlice.ClientMovie): (r: Option<Request>)
    ensures r.None? <==> user.None?
    ensures r.Some? ==> (r.value.RemoveFavorite? <==> isFavorite)
    ensures r.Some? && isFavorite ==> r.value.movieId == movie.id
    ensures r.Some? && !isFavorite ==> r.value.movie == movie
  {
    if user.None? then None
    else if isFavorite then Some(RemoveFavorite(movie.id))
    else Some(AddFavorite(movie))
  }

  // ---------------------------------------------------------------------------
  // Properties

  /** A higher rating never gets a lower band. */
  lemma BandsMonotone(a: real, b: real)
    requires a <= b
    ensures BandRank(RatingBand(Fin(a))) <= BandRank(RatingBand(Fin(b)))
  {
  }

  /** Toggling a movie that is not yet a favorite on and then off again, with both requests
      fulfilled, gives back the favorites list it started from. */
  lemma ToggleOnThenOff(user: AuthSlice.User, movie: FavoritesSlice.ClientMovie, dbId: nat, s: FavoritesSlice.FavoritesState)
    requires forall i :: 0 <= i < |s.favorites| ==> s.favorites[i].movie.id != movie.id
    ensures var on := Toggle(Some(user), false, movie).value;
      var s1 := FavoritesSlice.Reduce(s, FavoritesSlice.AddFulfilled(FavoritesSlice.FavoriteItem(on.movie, dbId)));
      var off := Toggle(Some(user), true, movie).value;
      FavoritesSlice.Reduce(s1, FavoritesSlice.RemoveFulfilled(off.movieId)).favorites == s.favorites
  {
    var item := FavoritesSlice.FavoriteItem(movie, dbId);
    var keep := (f: FavoritesSlice.FavoriteItem) => f.movie.id != movie.id;
    FilterAppend(s.favorites, item, keep);
    FilterKeepsAll(s.favorites, keep);
  }
}
