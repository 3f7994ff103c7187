/** Two decisions of the movie detail page: which video id its trailer player gets, and
    whether the movie of the route is among the user's favorites. */
module MovieDetailPage {
  import opened Wrappers
  import opened JsText
  import opened JsNumber
  import opened Capture
  import opened MovieController
  import YoutubeEmbed
  import FavoritesSlice

  /** Both link forms, tried in this order at each position. */
  const LinkMarkers := [YoutubeEmbed.WatchMarker, YoutubeEmbed.ShortMarker]

  /** A character that ends the id: `&` or whitespace. */
  predicate EndsId(c: char) { c == '&' || IsSpace(c) }

  /** `getTrailerUrl`: the video id of the first trailer of the movie being shown. */
  function GetTrailerUrl(movie: Option<MovieDetail>): (r: Option<string>)
    ensures movie.None? || |movie.value.trailers| == 0 || movie.value.trailers[0].url == "" ==> r.None?
    ensures movie.Some? && |movie.value.trailers| > 0 ==>
              (r.None? <==> forall i: nat :: !MatchAt(movie.value.trailers[0].url, i, LinkMarkers, EndsId))
    ensures movie.Some? && |movie.value.trailers| > 0 && movie.value.trailers[0].url != "" ==>
              r == Match(movie.value.trailers[0].url, LinkMarkers, EndsId)
    ensures r.Some? ==> |r.value| > 0 && forall k :: 0 <= k < |r.value| ==> !EndsId(r.value[k])
  {
    if movie.None? || |movie.value.trailers| == 0 then None
    else
      var url := movie.value.trailers[0].url;
      if url == "" then
        assert forall i: nat :: !MatchAt(url, i, LinkMarkers, EndsId) by {
          forall i: nat ensures !MatchAt(url, i, LinkMarkers, EndsId) { NoMatchPastEnd(url, i, LinkMarkers, EndsId); }
        }
        None
      else
        var r := Match(url, LinkMarkers, EndsId);
        assert r.Some? ==> forall k :: 0 <= k < |r.value| ==> !EndsId(r.value[k]) by {
          if r.Some? {
            var i: nat :| MatchAt(url, i, LinkMarkers, EndsId) && r.value == CaptureAt(url, i, LinkMarkers, EndsId);
          }
        }
        r
  }

  /** `isFavorite`: some favorite's id is strictly equal to the route id read by `parseInt`.
      For a route id of decimal digits that is plain integer equality with its value, and a
      route id `parseInt` cannot read is never a favorite. */
  function IsFavorite(favorites: seq<FavoritesSlice.FavoriteItem>, routeId: string): (r: bool)
    ensures |routeId| > 0 && AllDigitsIn(routeId, 10) ==>
              (r <==> exists i :: 0 <= i < |favorites| && favorites[i].movie.id == Value(routeId, 10))
    ensures ParseInt(routeId).NaN? ==> !r
  {
    assert |routeId| > 0 && AllDigitsIn(routeId, 10) ==> ParseInt(routeId) == Fin(Value(routeId, 10) as real) by {
      if |routeId| > 0 && AllDigitsIn(routeId, 10) { DigitsToNumber(routeId); }
    }
    exists i :: 0 <= i < |favorites| && StrictEq(Fin(favorites[i].movie.id as real), ParseInt(routeId))
  }

  // ---------------------------------------------------------------------------
  // Properties

  /** The trailer link the server builds yields its key, for a key free of `&` and whitespace. */
  lemma TrailerUrlRoundTrip(d: MovieDetail, key: string)
    requires |d.trailers| > 0 && d.trailers[0].url == WatchPrefix + key
    requires |key| > 0 && forall k :: 0 <= k < |key| ==> !EndsId(key[k])
    ensures GetTrailerUrl(Some(d)) == Some(key)
  {
    YoutubeEmbed.WatchPrefixShape();
    var prefix := "https://www.";
    assert d.trailers[0].url == prefix + YoutubeEmbed.WatchMarker + key;
    MatchAfterPrefix(prefix, YoutubeEmbed.WatchMarker, key, LinkMarkers, EndsId);
  }

  /** A short link yields its key, whatever comes before `youtu.be/` as long as it holds no `y`
      (so `https://`, `http://` or nothing at all). */
  lemma ShortTrailerUrlRoundTrip(d: MovieDetail, prefix: string, key: string)
    requires 'y' !in prefix
    requires |d.trailers| > 0 && d.trailers[0].url == prefix + YoutubeEmbed.ShortMarker + key
    requires |key| > 0 && forall k :: 0 <= k < |key| ==> !EndsId(key[k])
    ensures GetTrailerUrl(Some(d)) == Some(key)
  {
    var s := prefix + YoutubeEmbed.ShortMarker + key;
    var i := |prefix|;
    assert LinkMarkers[1] == YoutubeEmbed.ShortMarker;
    assert forall k :: 0 <= k < |prefix| ==> Foreign(prefix[k], LinkMarkers) by {
      forall k | 0 <= k < |prefix| ensures Foreign(prefix[k], LinkMarkers) { assert prefix[k] in prefix; }
    }
    assert !MarkerAt(s, i, LinkMarkers[0], EndsId) by {
      assert s[i + 5] == '.';
      assert i + 20 <= |s| ==> s[i..i + 20][5] == '.';
      assert LinkMarkers[0][5] == 'b';
    }
    MatchAfterPrefixAlt(prefix, key, LinkMarkers, 1, EndsId);
  }

  /** Only the first trailer is consulted: the others may be anything. */
  lemma FirstTrailerOnly(d: MovieDetail, others: seq<Trailer>)
    requires |d.trailers| > 0
    ensures GetTrailerUrl(Some(d.(trailers := [d.trailers[0]] + others))) == GetTrailerUrl(Some(d))
  {
  }

  /** For a route id of decimal digits, the test is plain integer equality with its value. */
  lemma DigitRouteIds(favorites: seq<FavoritesSlice.FavoriteItem>, routeId: string)
    requires |routeId| > 0 && AllDigitsIn(routeId, 10)
    ensures IsFavorite(favorites, routeId) <==> exists i :: 0 <= i < |favorites| && favorites[i].movie.id == Value(routeId, 10)
  {
    DigitsToNumber(routeId);
  }

  /** A route id with no leading digits is never a favorite. */
  lemma NonNumericRouteNeverFavorite(favorites: seq<FavoritesSlice.FavoriteItem>, routeId: string)
    requires ParseInt(routeId).NaN?
    ensures !IsFavorite(favorites, routeId)
  {
  }
}
