/** The filter state of the movies page and its mirror in the page URL: reading filters from
    the query string, writing them back, the request a filter change or a scroll to the end
    issues, and the reset. The current year is a parameter. */
module MoviesPage {
  import opened Wrappers
  import opened JsNumber
  import MoviesSlice
  import MovieController

  const DefaultSort := "popularity.desc"
  const EarliestYear := 1900

  /** The five filter states; each range bound is a JavaScript number. */
  datatype Filters = Filters(
    search: string, genre: string, minYear: Num, maxYear: Num, minRating: Num, maxRating: Num, sortBy: string)

  function Defaults(currentYear: int): Filters {
    Filters("", "", Fin(EarliestYear as real), Fin(currentYear as real), Fin(0.0), Fin(10.0), DefaultSort)
  }

  /** The query parameters the page reads or writes. */
  datatype Key = Search | Genre | MinYear | MaxYear | MinRating | MaxRating | Sort | Filter

  /** The parameter name each key stands for in the URL. */
  function KeyName(k: Key): string {
    match k
    case Search => "search"
    case Genre => "genre"
    case MinYear => "minYear"
    case MaxYear => "maxYear"
    case MinRating => "minRating"
    case MaxRating => "maxRating"
    case Sort => "sort"
    case Filter => "filter"
  }

  /** A parameter name as read from the URL: one of the page's keys, or any other name. */
  datatype Name = Known(key: Key) | Other(text: string)

  /** How a name read from the URL is filed: under the key it spells, or as other text. */
  function NameOf(text: string): (n: Name)
    ensures n.Known? <==> exists k: Key :: KeyName(k) == text
    ensures n.Known? ==> KeyName(n.key) == text
    ensures n.Other? ==> n.text == text
  {
    var n :=
      if text == "search" then Known(Search)
      else if text == "genre" then Known(Genre)
      else if text == "minYear" then Known(MinYear)
      else if text == "maxYear" then Known(MaxYear)
      else if text == "minRating" then Known(MinRating)
      else if text == "maxRating" then Known(MaxRating)
      else if text == "sort" then Known(Sort)
      else if text == "filter" then Known(Filter)
      else Other(text);
    assert n.Known? ==> KeyName(n.key) == text;
    n
  }

  /** A query string as `URLSearchParams` holds it: name/value pairs in order. */
  type Query = seq<(Name, string)>

  /** A query as read from a URL: every name is filed by `NameOf`, so no `Other` name spells a key. */
  predicate WellFormed(q: Query) {
    forall i :: 0 <= i < |q| && q[i].0.Other? ==> NameOf(q[i].0.text) == q[i].0
  }

  predicate Has(q: Query, key: Name) {
    exists i :: 0 <= i < |q| && q[i].0 == key
  }

  /** `params.get(key)`: the value of the first pair with that name. */
  function GetParam(q: Query, key: Name): (r: Option<string>)
    ensures r.None? <==> !Has(q, key)
    ensures r.Some? ==> exists i :: 0 <= i < |q| && q[i] == (key, r.value) && forall j :: 0 <= j < i ==> q[j].0 != key
  {
    if |q| == 0 then None
    else if q[0].0 == key then Some(q[0].1)
    else
      var r := GetParam(q[1..], key);
      assert Has(q, key) <==> Has(q[1..], key) by {
        if Has(q, key) { var i :| 0 <= i < |q| && q[i].0 == key; assert q[1..][i - 1] == q[i]; }
        if Has(q[1..], key) { var i :| 0 <= i < |q[1..]| && q[1..][i].0 == key; assert q[i + 1] == q[1..][i]; }
      }
      if r.Some? then
        var i :| 0 <= i < |q[1..]| && q[1..][i] == (key, r.value) && forall j :: 0 <= j < i ==> q[1..][j].0 != key;
        assert q[i + 1] == (key, r.value);
        assert forall j :: 0 <= j < i + 1 ==> q[j].0 != key by {
          forall j | 0 <= j < i + 1 ensures q[j].0 != key { if j > 0 { assert q[j] == q[1..][j - 1]; } }
        }
        r
      else r
  }

  /** The value a present parameter gives a text field, or the field unchanged. */
  function OrKeep(o: Option<string>, current: string): string {
    if o.Some? then o.value else current
  }

  /** The URL effect: each field present in the query overwrites its state; a range only
      when both of its bounds are present; `filter=trending` wins over `sort`. */
  function ParseUrl(f: Filters, q: Query): (r: Filters)
    ensures Has(q, Known(Search)) ==> r.search == GetParam(q, Known(Search)).value
    ensures !Has(q, Known(Search)) ==> r.search == f.search
    ensures Has(q, Known(Genre)) ==> r.genre == GetParam(q, Known(Genre)).value
    ensures !Has(q, Known(Genre)) ==> r.genre == f.genre
    ensures Has(q, Known(MinYear)) && Has(q, Known(MaxYear)) ==>
              r.minYear == ParseInt(GetParam(q, Known(MinYear)).value) && r.maxYear == ParseInt(GetParam(q, Known(MaxYear)).value)
    ensures !(Has(q, Known(MinYear)) && Has(q, Known(MaxYear))) ==> r.minYear == f.minYear && r.maxYear == f.maxYear
    ensures Has(q, Known(MinRating)) && Has(q, Known(MaxRating)) ==>
              r.minRating == ParseFloat(GetParam(q, Known(MinRating)).value)
              && r.maxRating == ParseFloat(GetParam(q, Known(MaxRating)).value)
    ensures !(Has(q, Known(MinRating)) && Has(q, Known(MaxRating))) ==> r.minRating == f.minRating && r.maxRating == f.maxRating
    ensures GetParam(q, Known(Filter)) == Some("trending") ==> r.sortBy == "trending"
    ensures GetParam(q, Known(Filter)) != Some("trending") && Has(q, Known(Sort)) ==> r.sortBy == GetParam(q, Known(Sort)).value
    ensures GetParam(q, Known(Filter)) != Some("trending") && !Has(q, Known(Sort)) ==> r.sortBy == f.sortBy
  {
    var minYear, maxYear := GetParam(q, Known(MinYear)), GetParam(q, Known(MaxYear));
    var minRating, maxRating := GetParam(q, Known(MinRating)), GetParam(q, Known(MaxRating));
    var years := if minYear.Some? && maxYear.Some? then (ParseInt(minYear.value), ParseInt(maxYear.value))
                 else (f.minYear, f.maxYear);
    var ratings := if minRating.Some? && maxRating.Some? then (ParseFloat(minRating.value), ParseFloat(maxRating.value))
                   else (f.minRating, f.maxRating);
    var sort := OrKeep(GetParam(q, Known(Sort)), f.sortBy);
    Filters(
      OrKeep(GetParam(q, Known(Search)), f.search),
      OrKeep(GetParam(q, Known(Genre)), f.genre),
      years.0, years.1, ratings.0, ratings.1,
      if GetParam(q, Known(Filter)) == Some("trending") then "trending" else sort)
  }

  /** A value written to the URL: text as it is, a number through its string form. */
  datatype UrlValue = Text(text: string) | Number(n: Num)

  /** The order in which the serializer considers the keys. */
  const Order := [Search, Genre, MinYear, MaxYear, MinRating, MaxRating, Sort]

  /** The state's value for a key differs from its default, the condition under which the key
      is written; `filter` never is. */
  predicate Differs(f: Filters, currentYear: int, k: Key) {
    match k
    case Search => f.search != ""
    case Genre => f.genre != ""
    case MinYear => !StrictEq(f.minYear, Fin(EarliestYear as real))
    case MaxYear => !StrictEq(f.maxYear, Fin(currentYear as real))
    case MinRating => !StrictEq(f.minRating, Fin(0.0))
    case MaxRating => !StrictEq(f.maxRating, Fin(10.0))
    case Sort => f.sortBy != DefaultSort
    case Filter => false
  }

  /** The value written for a key. */
  function ValueOf(f: Filters, k: Key): UrlValue {
    match k
    case Search => Text(f.search)
    case Genre => Text(f.genre)
    case MinYear => Number(f.minYear)
    case MaxYear => Number(f.maxYear)
    case MinRating => Number(f.minRating)
    case MaxRating => Number(f.maxRating)
    case Sort => Text(f.sortBy)
    case Filter => Text("trending")
  }

  predicate Writes(pairs: seq<(Key, UrlValue)>, key: Key) {
    exists i :: 0 <= i < |pairs| && pairs[i].0 == key
  }

  predicate Distinct(keys: seq<Key>) {
    forall i, j :: 0 <= i < j < |keys| ==> keys[i] != keys[j]
  }

  /** One `if (...) params.set(key, value)` per key, in the given order. */
  function Entries(f: Filters, currentYear: int, keys: seq<Key>): (r: seq<(Key, UrlValue)>)
    ensures forall k :: Writes(r, k) <==> k in keys && Differs(f, currentYear, k)
    ensures forall i :: 0 <= i < |r| ==> r[i].1 == ValueOf(f, r[i].0)
    ensures Distinct(keys) ==> forall i, j :: 0 <= i < j < |r| ==> r[i].0 != r[j].0
  {
    if |keys| == 0 then []
    else
      var head := if Differs(f, currentYear, keys[0]) then [(keys[0], ValueOf(f, keys[0]))] else [];
      var tail := Entries(f, currentYear, keys[1..]);
      EntriesStep(f, currentYear, keys, head, tail);
      head + tail
  }

  /** The inductive step of `Entries`: one optional pair for the first key before the rest. */
  lemma EntriesStep(f: Filters, currentYear: int, keys: seq<Key>, head: seq<(Key, UrlValue)>, tail: seq<(Key, UrlValue)>)
    requires |keys| > 0
    requires head == if Differs(f, currentYear, keys[0]) then [(keys[0], ValueOf(f, keys[0]))] else []
    requires forall k :: Writes(tail, k) <==> k in keys[1..] && Differs(f, currentYear, k)
    requires forall i :: 0 <= i < |tail| ==> tail[i].1 == ValueOf(f, tail[i].0)
    requires Distinct(keys[1..]) ==> forall i, j :: 0 <= i < j < |tail| ==> tail[i].0 != tail[j].0
    ensures var r := head + tail;
      && (forall k :: Writes(r, k) <==> k in keys && Differs(f, currentYear, k))
      && (forall i :: 0 <= i < |r| ==> r[i].1 == ValueOf(f, r[i].0))
      && (Distinct(keys) ==> forall i, j :: 0 <= i < j < |r| ==> r[i].0 != r[j].0)
  {
    var r := head + tail;
    forall k ensures Writes(r, k) <==> k in keys && Differs(f, currentYear, k) {
      WritesConcat(head, tail, k);
      assert k in keys <==> k == keys[0] || k in keys[1..] by { assert keys == [keys[0]] + keys[1..]; }
    }
    if Distinct(keys) {
      DistinctTail(keys);
      forall i, j | 0 <= i < j < |r| ensures r[i].0 != r[j].0 {
        if i >= |head| {
          assert r[i] == tail[i - |head|] && r[j] == tail[j - |head|];
        } else {
          assert r[i].0 == keys[0];
          assert r[j] == tail[j - |head|];
          assert Writes(tail, tail[j - |head|].0);
        }
      }
    }
  }

  lemma WritesConcat(a: seq<(Key, UrlValue)>, b: seq<(Key, UrlValue)>, k: Key)
    ensures Writes(a + b, k) <==> Writes(a, k) || Writes(b, k)
  {
    if Writes(b, k) { var i :| 0 <= i < |b| && b[i].0 == k; assert (a + b)[|a| + i] == b[i]; }
    if Writes(a, k) { var i :| 0 <= i < |a| && a[i].0 == k; assert (a + b)[i] == a[i]; }
    if Writes(a + b, k) {
      var i :| 0 <= i < |a + b| && (a + b)[i].0 == k;
      if i >= |a| { assert b[i - |a|] == (a + b)[i]; } else { assert a[i] == (a + b)[i]; }
    }
  }

  lemma DistinctTail(keys: seq<Key>)
    requires |keys| > 0 && Distinct(keys)
    ensures Distinct(keys[1..]) && keys[0] !in keys[1..]
  {
    forall i, j | 0 <= i < j < |keys[1..]| ensures keys[1..][i] != keys[1..][j] { assert keys[1..][i] == keys[i + 1]; }
    assert forall j :: 0 <= j < |keys[1..]| ==> keys[1..][j] == keys[j + 1];
  }

  /** `updateUrlWithFilters`: each field that differs from its default, each key once. */
  function Serialize(f: Filters, currentYear: int): (r: seq<(Key, UrlValue)>)
    ensures forall k :: Writes(r, k) <==> Differs(f, currentYear, k)
    ensures forall i :: 0 <= i < |r| ==> r[i].1 == ValueOf(f, r[i].0)
    ensures forall i, j :: 0 <= i < j < |r| ==> r[i].0 != r[j].0
  {
    Entries(f, currentYear, Order)
  }

  /** The text a written value takes in the query string. */
  function Shown(v: UrlValue, show: Num -> string): string {
    match v
    case Text(t) => t
    case Number(n) => show(n)
  }

  /** The query string a serialized state becomes, given the number-to-text conversion. */
  function AsQuery(pairs: seq<(Key, UrlValue)>, show: Num -> string): (q: Query)
    ensures |q| == |pairs|
    ensures forall i :: 0 <= i < |pairs| ==> q[i] == (Known(pairs[i].0), Shown(pairs[i].1, show))
  {
    seq(|pairs|, i requires 0 <= i < |pairs| => (Known(pairs[i].0), Shown(pairs[i].1, show)))
  }

  /** The filter indicator on the page: genre, years or ratings away from their defaults. */
  predicate ActiveFilters(f: Filters, currentYear: int) {
    || f.genre != ""
    || !StrictEq(f.minYear, Fin(EarliestYear as real)) || !StrictEq(f.maxYear, Fin(currentYear as real))
    || !StrictEq(f.minRating, Fin(0.0)) || !StrictEq(f.maxRating, Fin(10.0))
  }

  /** The parameters of a listing request. */
  datatype FetchParams = FetchParams(
    page: int, search: string, genre: string, minYear: Num, maxYear: Num, minRating: Num, maxRating: Num, sort: string)

  function Request(f: Filters, page: int, search: string): FetchParams {
    FetchParams(page, search, f.genre, f.minYear, f.maxYear, f.minRating, f.maxRating, f.sortBy)
  }

  /** The request after a filter change: always page 1, with the debounced search text. */
  function FilterChangeRequest(f: Filters, debouncedSearch: string): (r: FetchParams)
    ensures r.page == 1 && r.search == debouncedSearch
    ensures r.genre == f.genre && r.sort == f.sortBy && r.minYear == f.minYear && r.maxYear == f.maxYear
    ensures r.minRating == f.minRating && r.maxRating == f.maxRating
  {
    Request(f, 1, debouncedSearch)
  }

  /** `hasMore` as handed to the grid. */
  predicate HasMore(movies: MoviesSlice.Paged) {
    movies.page < movies.totalPages
  }

  /** `handleLoadMore`: nothing while loading or on the last page; otherwise the next page
      with the current filters and the search text as typed. */
  function LoadMore(f: Filters, movies: MoviesSlice.Paged): (r: Option<FetchParams>)
    ensures r.Some? <==> !movies.isLoading && HasMore(movies)
    ensures r.Some? ==> r.value.page == movies.page + 1 && r.value.search == f.search
    ensures r.Some? ==> r.value.genre == f.genre && r.value.sort == f.sortBy
    ensures r.Some? ==> r.value.minYear == f.minYear && r.value.maxYear == f.maxYear
    ensures r.Some? ==> r.value.minRating == f.minRating && r.value.maxRating == f.maxRating
    ensures r.Some? ==> r.value == FilterChangeRequest(f, f.search).(page := movies.page + 1)
  {
    if movies.isLoading || movies.page >= movies.totalPages then None
    else Some(Request(f, movies.page + 1, f.search))
  }

  /** `handleResetFilters`: the five filter states back to their initial values. */
  function Reset(f: Filters, currentYear: int): (r: Filters)
    ensures r.search == "" && r.genre == "" && r.sortBy == DefaultSort
    ensures r.minYear == Fin(1900.0) && r.maxYear == Fin(currentYear as real)
    ensures r.minRating == Fin(0.0) && r.maxRating == Fin(10.0)
  {
    Defaults(currentYear)
  }

  // ---------------------------------------------------------------------------
  // Properties

  /** After a reset the URL carries no filter at all and the indicator is off. */
  lemma ResetEmitsNothing(f: Filters, currentYear: int)
    ensures Serialize(Reset(f, currentYear), currentYear) == []
    ensures !ActiveFilters(Reset(f, currentYear), currentYear)
  {
    var r := Serialize(Reset(f, currentYear), currentYear);
    assert |r| > 0 ==> Writes(r, r[0].0);
  }

  /** The indicator is on exactly when the URL carries a genre, year or rating key:
      search and sort do not count. */
  lemma ActiveIffFilterKeyWritten(f: Filters, currentYear: int)
    ensures var r := Serialize(f, currentYear);
      ActiveFilters(f, currentYear) <==>
        Writes(r, Genre) || Writes(r, MinYear) || Writes(r, MaxYear) || Writes(r, MinRating) || Writes(r, MaxRating)
  {
  }

  /** `get` returns the value of the first pair with the name. */
  lemma GetFirst(q: Query, key: Name, i: nat)
    requires i < |q| && q[i].0 == key && forall j :: 0 <= j < i ==> q[j].0 != key
    ensures GetParam(q, key) == Some(q[i].1)
  {
    var r := GetParam(q, key);
    assert Has(q, key);
    var k :| 0 <= k < |q| && q[k] == (key, r.value) && forall j :: 0 <= j < k ==> q[j].0 != key;
    assert k == i;
  }

  /** A key the serializer writes is read back as the text of the value it wrote. */
  lemma ReadBack(f: Filters, currentYear: int, show: Num -> string, key: Key)
    requires Differs(f, currentYear, key)
    ensures GetParam(AsQuery(Serialize(f, currentYear), show), Known(key)) == Some(Shown(ValueOf(f, key), show))
  {
    var r := Serialize(f, currentYear);
    var q := AsQuery(r, show);
    assert Writes(r, key);
    var i :| 0 <= i < |r| && r[i].0 == key;
    GetFirst(q, Known(key), i);
  }

  /** The query holds a key exactly when the serializer wrote it. */
  lemma WrittenIffInQuery(r: seq<(Key, UrlValue)>, show: Num -> string, k: Key)
    ensures Has(AsQuery(r, show), Known(k)) <==> Writes(r, k)
  {
    var q := AsQuery(r, show);
    if Has(q, Known(k)) { var i :| 0 <= i < |q| && q[i].0 == Known(k); assert r[i].0 == k; }
    if Writes(r, k) { var i :| 0 <= i < |r| && r[i].0 == k; assert q[i].0 == Known(k); }
  }

  /** Search text, genre and sort order survive the trip through the URL from the defaults. */
  lemma TextFieldsRoundTrip(f: Filters, currentYear: int, show: Num -> string)
    ensures var r := ParseUrl(Defaults(currentYear), AsQuery(Serialize(f, currentYear), show));
      r.search == f.search && r.genre == f.genre && r.sortBy == f.sortBy
  {
    var r := Serialize(f, currentYear);
    var q := AsQuery(r, show);
    forall k ensures Has(q, Known(k)) <==> Differs(f, currentYear, k) {
      WrittenIffInQuery(r, show, k);
    }
    if f.search != "" { ReadBack(f, currentYear, show, Search); }
    if f.genre != "" { ReadBack(f, currentYear, show, Genre); }
    if f.sortBy != DefaultSort { ReadBack(f, currentYear, show, Sort); }
  }

  /** A year range moved at one end only is written with one bound, which the reader ignores:
      reopening the URL from the defaults loses the range. */
  lemma OneYearBoundIsLost(f: Filters, currentYear: int, show: Num -> string)
    requires !StrictEq(f.minYear, Fin(EarliestYear as real)) && f.maxYear == Fin(currentYear as real)
    ensures var q := AsQuery(Serialize(f, currentYear), show);
      ParseUrl(Defaults(currentYear), q).minYear == Fin(EarliestYear as real) != f.minYear
  {
    var r := Serialize(f, currentYear);
    var q := AsQuery(r, show);
    WrittenIffInQuery(r, show, MaxYear);
  }

  /** Both year bounds moved: the URL reproduces them when the number-to-text conversion is
      one that `parseInt` reads back. */
  lemma BothYearBoundsSurvive(f: Filters, currentYear: int, show: Num -> string)
    requires !StrictEq(f.minYear, Fin(EarliestYear as real)) && !StrictEq(f.maxYear, Fin(currentYear as real))
    requires ParseInt(show(f.minYear)) == f.minYear && ParseInt(show(f.maxYear)) == f.maxYear
    ensures var q := AsQuery(Serialize(f, currentYear), show);
      ParseUrl(Defaults(currentYear), q).minYear == f.minYear && ParseUrl(Defaults(currentYear), q).maxYear == f.maxYear
  {
    var q := AsQuery(Serialize(f, currentYear), show);
    ReadBack(f, currentYear, show, MinYear);
    ReadBack(f, currentYear, show, MaxYear);
    assert GetParam(q, Known(MinYear)) == Some(show(f.minYear));
    assert GetParam(q, Known(MaxYear)) == Some(show(f.maxYear));
  }

  /** A filter change followed by its answer replaces the list whatever it held before. */
  lemma FilterChangeReplacesList(s: MoviesSlice.MoviesState, f: Filters, debounced: string,
                                 results: seq<MovieController.MovieSummary>, totalPages: int)
    ensures var cleared := MoviesSlice.Reduce(s, MoviesSlice.ClearMovies);
      var req := FilterChangeRequest(f, debounced);
      MoviesSlice.Reduce(cleared, MoviesSlice.MoviesFulfilled(results, req.page, totalPages)).movies.results == results
  {
  }

  /** Loading more and receiving the next page only ever extends the list. */
  lemma LoadMoreExtendsList(s: MoviesSlice.MoviesState, f: Filters,
                            results: seq<MovieController.MovieSummary>, totalPages: int)
    requires s.movies.page >= 1 && LoadMore(f, s.movies).Some?
    ensures var req := LoadMore(f, s.movies).value;
      s.movies.results <= MoviesSlice.Reduce(s, MoviesSlice.MoviesFulfilled(results, req.page, totalPages)).movies.results
  {
  }
}
