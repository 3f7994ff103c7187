/** `transformMovieData`, which gives a movie object from any source (a listing, the detail
    reply, a stored favorite) the fields the movie components read, with defaults. A movie
    object is modelled as a map from property names to JavaScript values; a name missing
    from the map reads as `undefined`. */
module MovieUtils {
  import opened Wrappers
  import opened JsText
  import opened JsNumber

  /** The JavaScript values a movie property can hold, as far as truthiness and `split` see them. */
  datatype JsValue = Undefined | Null | Bool(b: bool) | Number(n: Num) | Str(s: string) | Array(items: seq<JsValue>) | Object

  type JsObject = map<string, JsValue>

  predicate Truthy(v: JsValue) {
    match v
    case Undefined => false
    case Null => false
    case Bool(b) => b
    case Number(n) => n.Fin? && n.v != 0.0
    case Str(s) => s != ""
    case _ => true
  }

  function Get(o: JsObject, key: string): JsValue {
    if key in o then o[key] else Undefined
  }

  /** `a || b`: the first operand when truthy, else the second. */
  function Or(a: JsValue, b: JsValue): (r: JsValue)
    ensures Truthy(a) ==> r == a
    ensures !Truthy(a) ==> r == b
  {
    if Truthy(a) then a else b
  }

  /** `date?.split("-")[0]`: `undefined` for a nullish date, the text before the first `-` for
      a string, and a `TypeError` (`None`) for anything else, which has no `split`. */
  function YearOfDate(date: JsValue): (r: Option<JsValue>)
    ensures r.None? <==> !(date.Undefined? || date.Null? || date.Str?)
    ensures date.Str? ==> r == Some(Str(BeforeFirst(date.s, '-')))
  {
    match date
    case Undefined => Some(Undefined)
    case Null => Some(Undefined)
    case Str(s) => Some(Str(BeforeFirst(s, '-')))
    case _ => None
  }

  /** The names `transformMovieData` writes. */
  const Written: set<string> := {"poster", "releaseYear", "rating", "genres", "overview"}

  /** `transformMovieData(movie)`, or `None` when it throws. */
  function TransformMovieData(movie: JsObject): (r: Option<JsObject>)
    ensures r.None? <==> !Truthy(Get(movie, "releaseYear")) && YearOfDate(Get(movie, "releaseDate")).None?
    ensures r.Some? ==> Written <= r.value.Keys
    ensures r.Some? ==> forall k :: k !in Written ==> (k in r.value <==> k in movie) && (k in movie ==> r.value[k] == movie[k])
    ensures r.Some? ==> r.value["poster"] == (if Truthy(Get(movie, "poster")) then movie["poster"]
                                              else if Truthy(Get(movie, "posterPath")) then movie["posterPath"] else Str(""))
    ensures r.Some? ==> r.value["rating"] == if Truthy(Get(movie, "rating")) then movie["rating"] else Number(Fin(0.0))
    ensures r.Some? ==> r.value["genres"] == if Truthy(Get(movie, "genres")) then movie["genres"] else Array([])
    ensures r.Some? ==> r.value["overview"] == if Truthy(Get(movie, "overview")) then movie["overview"] else Str("")
    ensures r.Some? && Truthy(Get(movie, "releaseYear")) ==> r.value["releaseYear"] == movie["releaseYear"]
    ensures r.Some? && !Truthy(Get(movie, "releaseYear")) ==>
              r.value["releaseYear"] == (match Get(movie, "releaseDate")
                                         case Str(d) => Str(BeforeFirst(d, '-'))
                                         case _ => Str(""))
  {
    var year :=
      if Truthy(Get(movie, "releaseYear")) then Some(Get(movie, "releaseYear"))
      else match YearOfDate(Get(movie, "releaseDate"))
        case None => None
        case Some(y) => Some(Or(y, Str("")));
    if year.None? then None
    else
      Some(movie["poster" := Or(Or(Get(movie, "poster"), Get(movie, "posterPath")), Str(""))]
                ["releaseYear" := year.value]
                ["rating" := Or(Get(movie, "rating"), Number(Fin(0.0)))]
                ["genres" := Or(Get(movie, "genres"), Array([]))]
                ["overview" := Or(Get(movie, "overview"), Str(""))])
  }

  // ---------------------------------------------------------------------------
  // Properties

  /** Transforming an already transformed movie changes nothing. */
  lemma TransformIdempotent(movie: JsObject)
    requires TransformMovieData(movie).Some?
    ensures TransformMovieData(TransformMovieData(movie).value) == TransformMovieData(movie)
  {
    var once := TransformMovieData(movie).value;
    var twice := TransformMovieData(once);
    assert Truthy(Get(once, "releaseYear")) || Get(once, "releaseYear") == Str("");
    if !Truthy(Get(once, "releaseYear")) {
      assert Get(once, "releaseDate") == Get(movie, "releaseDate");
    }
    assert twice.Some?;
    assert twice.value.Keys == once.Keys;
    forall k | k in once ensures twice.value[k] == once[k] {
      if k == "releaseYear" && !Truthy(Get(once, "releaseYear")) {
        match Get(movie, "releaseDate")
        case Str(d) => {}
        case _ => {}
      }
    }
    assert twice.value == once;
  }

  /** A movie that lacks every defaulted field gets exactly the defaults. */
  lemma BareMovieGetsDefaults(id: JsValue)
    ensures TransformMovieData(map["id" := id]) ==
              Some(map["id" := id, "poster" := Str(""), "releaseYear" := Str(""), "rating" := Number(Fin(0.0)),
                       "genres" := Array([]), "overview" := Str("")])
  {
  }

  /** A rating of 0 or `NaN` reads as 0; a release date is cut to its year. */
  lemma ServerDetailDefaults(title: JsValue, date: string)
    requires |date| == 10 && date[4] == '-' && forall k :: 0 <= k < 4 ==> date[k] != '-'
    ensures var r := TransformMovieData(map["title" := title, "rating" := Number(NaN), "releaseDate" := Str(date)]);
      r.Some? && r.value["rating"] == Number(Fin(0.0)) && r.value["releaseYear"] == Str(date[..4])
  {
    assert BeforeFirst(date, '-') == date[..4];
  }
}
