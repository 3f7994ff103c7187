/** The client's genre list, loaded once for the filter controls. */
module GenresSlice {
  import opened Wrappers
  import opened MovieController

  datatype GenresState = GenresState(genres: seq<Genre>, isLoading: bool, error: Option<string>)

  datatype Action = Pending | Fulfilled(genres: seq<Genre>) | Rejected(error: string)

  function InitialState(): (s: GenresState)
    ensures s.genres == [] && !s.isLoading && s.error.None?
  {
    GenresState([], false, None)
  }

  /** The genres reducer. */
  function Reduce(s: GenresState, a: Action): (r: GenresState)
    ensures a.Pending? ==> r.isLoading && r.error.None? && r.genres == s.genres
    ensures a.Fulfilled? ==> r.genres == a.genres && !r.isLoading && r.error == s.error
    ensures a.Rejected? ==> r.error == Some(a.error) && !r.isLoading && r.genres == s.genres
  {
    match a
    case Pending => s.(isLoading := true, error := None)
    case Fulfilled(genres) => s.(genres := genres, isLoading := false)
    case Rejected(e) => s.(isLoading := false, error := Some(e))
  }

  /** A request that starts and succeeds ends idle, error-free and holding exactly the payload,
      whatever the state before. */
  lemma LoadSucceeds(s: GenresState, genres: seq<Genre>)
    ensures Reduce(Reduce(s, Pending), Fulfilled(genres)) == GenresState(genres, false, None)
  {
  }

  /** A request that starts and fails keeps the genres loaded before. */
  lemma LoadFailsKeepsGenres(s: GenresState, e: string)
    ensures Reduce(Reduce(s, Pending), Rejected(e)) == s.(isLoading := false, error := Some(e))
  {
  }
}
