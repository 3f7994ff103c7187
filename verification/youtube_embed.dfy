/** How the embedded player turns its `videoId` property into a YouTube video id: a short
    text without `/` is taken as an id already, otherwise the id is pulled out of a watch URL
    or, failing that, a short `youtu.be` URL. */
module YoutubeEmbed {
  import opened Wrappers
  import opened JsText
  import opened Capture
  import MovieController

  const WatchMarker := "youtube.com/watch?v="
  const ShortMarker := "youtu.be/"

  predicate IsAmpersand(c: char) { c == '&' }
  predicate IsQuestionMark(c: char) { c == '?' }

  /** Text short enough, and free of `/`, to be taken for a bare id. */
  predicate LooksLikeId(s: string) {
    |s| < 15 && '/' !in s
  }

  /** `getVideoId`. */
  function GetVideoId(idOrUrl: Option<string>): (r: Option<string>)
    ensures !Truthy(idOrUrl) ==> r.None?
    ensures Truthy(idOrUrl) && LooksLikeId(idOrUrl.value) ==> r == idOrUrl
    ensures Truthy(idOrUrl) && !LooksLikeId(idOrUrl.value) ==>
              (r.None? <==> (forall i: nat :: !MatchAt(idOrUrl.value, i, [WatchMarker], IsAmpersand))
                            && (forall i: nat :: !MatchAt(idOrUrl.value, i, [ShortMarker], IsQuestionMark)))
    ensures Truthy(idOrUrl) && !LooksLikeId(idOrUrl.value) && Match(idOrUrl.value, [WatchMarker], IsAmpersand).Some? ==>
              r == Match(idOrUrl.value, [WatchMarker], IsAmpersand) && '&' !in r.value
    ensures Truthy(idOrUrl) && !LooksLikeId(idOrUrl.value) && Match(idOrUrl.value, [WatchMarker], IsAmpersand).None? ==>
              r == Match(idOrUrl.value, [ShortMarker], IsQuestionMark)
    ensures r.Some? ==> |r.value| > 0
  {
    if !Truthy(idOrUrl) then None
    else
      var v := idOrUrl.value;
      if LooksLikeId(v) then Some(v)
      else
        var watch := Match(v, [WatchMarker], IsAmpersand);
        if watch.Some? then
          assert '&' !in watch.value by {
            var i: nat :| MatchAt(v, i, [WatchMarker], IsAmpersand) && watch.value == CaptureAt(v, i, [WatchMarker], IsAmpersand);
          }
          watch
        else Match(v, [ShortMarker], IsQuestionMark)
  }

  // ---------------------------------------------------------------------------
  // Properties

  lemma WatchPrefixShape()
    ensures MovieController.WatchPrefix == "https://www." + WatchMarker
  {
  }

  /** The id of a watch URL as the server builds it is recovered exactly, for any non-empty key without `&`. */
  lemma WatchUrlRoundTrip(key: string)
    requires |key| > 0 && '&' !in key
    ensures GetVideoId(Some(MovieController.WatchPrefix + key)) == Some(key)
  {
    var prefix := "https://www.";
    WatchPrefixShape();
    var url := prefix + WatchMarker + key;
    assert url[12] == 'y';
    assert !LooksLikeId(url);
    MatchAfterPrefix(prefix, WatchMarker, key, [WatchMarker], IsAmpersand);
  }

  /** The trailer links of the detail reply play back the video they were built from. */
  lemma TrailerLinkRoundTrip(v: MovieController.Video)
    requires |v.key| > 0 && '&' !in v.key
    ensures GetVideoId(Some(MovieController.ToTrailer(v).url)) == Some(v.key)
  {
    WatchUrlRoundTrip(v.key);
  }

  /** Text without `?` holds no watch-URL match. */
  lemma NoWatchMatchWithoutQuestionMark(s: string)
    requires '?' !in s
    ensures forall i: nat :: !MatchAt(s, i, [WatchMarker], IsAmpersand)
  {
    forall i: nat ensures !MatchAt(s, i, [WatchMarker], IsAmpersand) {
      if MatchAt(s, i, [WatchMarker], IsAmpersand) {
        WatchMatchHasQuestionMark(s, i);
      }
    }
  }

  /** A watch-URL match at `i` has its `?` at `i + 17`. */
  lemma WatchMatchHasQuestionMark(s: string, i: nat)
    requires MatchAt(s, i, [WatchMarker], IsAmpersand)
    ensures i + 17 < |s| && s[i + 17] == '?'
  {
    assert FirstAlt(s, i, [WatchMarker], IsAmpersand, 0) == 0;
    assert s[i..i + |WatchMarker|] == WatchMarker;
    assert s[i + 17] == s[i..i + |WatchMarker|][17];
  }

  /** The id of a short link is recovered exactly, for any non-empty key without `?`. */
  lemma ShortUrlRoundTrip(key: string)
    requires |key| > 0 && '?' !in key
    ensures GetVideoId(Some("https://" + ShortMarker + key)) == Some(key)
  {
    var prefix := "https://";
    var url := prefix + ShortMarker + key;
    assert url[6] == '/';
    assert !LooksLikeId(url);
    assert '?' !in url by {
      forall k | 0 <= k < |url| ensures url[k] != '?' {
        if k >= |prefix + ShortMarker| { assert url[k] == key[k - |prefix + ShortMarker|]; }
      }
    }
    NoWatchMatchWithoutQuestionMark(url);
    assert Match(url, [WatchMarker], IsAmpersand).None?;
    MatchAfterPrefix(prefix, ShortMarker, key, [ShortMarker], IsQuestionMark);
  }
}
