/** The client's favorites list. A favorite is held as the movie it was added from plus the
    server's record id; the add request and the list fetch translate between that shape and
    the server's field names. */
module FavoritesSlice {
  import opened Wrappers
  import opened Seqs
  import Server = FavoriteController

  /** A movie as the client pages hold it, reduced to the five fields the add body and the fetch
      mapping carry. The pages' movie objects hold more (genres, overview, trendingScore, synopsis),
      and the add thunk's payload keeps all of them; those extra fields are not part of this model. */
  datatype ClientMovie = ClientMovie(id: int, title: string, poster: Option<string>, releaseYear: Option<string>, rating: Option<real>)

  datatype FavoriteItem = FavoriteItem(movie: ClientMovie, dbId: nat)

  datatype FavoritesState = FavoritesState(favorites: seq<FavoriteItem>, isLoading: bool, error: Option<string>)

  datatype Thunk = FetchFavorites | AddFavorite | RemoveFavorite

  datatype Action =
    | ClearFavorites
    | Pending(thunk: Thunk)
    | Rejected(thunk: Thunk, error: string)
    | FetchFulfilled(records: seq<Server.FavoriteRecord>)
    | AddFulfilled(item: FavoriteItem)
    | RemoveFulfilled(movieId: int)

  function InitialState(): (s: FavoritesState)
    ensures s.favorites == [] && !s.isLoading && s.error.None?
  {
    FavoritesState([], false, None)
  }

  /** The body of the add request: the client's names renamed to the server's. */
  function RequestBody(m: ClientMovie): Server.FavoriteFields {
    Server.FavoriteFields(m.id, m.title, m.poster, m.releaseYear, m.rating)
  }

  /** One fetched record in the client's shape: the server's names renamed back. */
  function FromRecord(r: Server.FavoriteRecord): FavoriteItem {
    FavoriteItem(ClientMovie(r.fields.movieId, r.fields.title, r.fields.posterPath, r.fields.releaseDate, r.fields.rating), r.id)
  }

  /** The payload of a fulfilled add: the movie together with the id of the record the server created. */
  function AddedItem(m: ClientMovie, created: Server.FavoriteRecord): FavoriteItem {
    FavoriteItem(m, created.id)
  }

  /** The favorites reducer. */
  function Reduce(s: FavoritesState, a: Action): (r: FavoritesState)
    ensures a.Pending? ==> r.favorites == s.favorites && r.isLoading && r.error.None?
    ensures a.Rejected? ==> r.favorites == s.favorites && !r.isLoading && r.error == Some(a.error)
    ensures a.ClearFavorites? ==> r.favorites == [] && r.isLoading == s.isLoading && r.error == s.error
    ensures a.FetchFulfilled? ==>
              && |r.favorites| == |a.records|
              && (forall i :: 0 <= i < |a.records| ==>
                    r.favorites[i].movie.id == a.records[i].fields.movieId && r.favorites[i].dbId == a.records[i].id
                    && r.favorites[i].movie.title == a.records[i].fields.title
                    && r.favorites[i].movie.rating == a.records[i].fields.rating
                    && r.favorites[i].movie.poster == a.records[i].fields.posterPath
                    && r.favorites[i].movie.releaseYear == a.records[i].fields.releaseDate)
    ensures a.AddFulfilled? ==> r.favorites == s.favorites + [a.item]
    ensures a.RemoveFulfilled? ==>
              && IsSubseq(r.favorites, s.favorites)
              && (forall f :: f in r.favorites <==> f in s.favorites && f.movie.id != a.movieId)
              && (forall f :: multiset(r.favorites)[f] == if f.movie.id == a.movieId then 0 else multiset(s.favorites)[f])
    ensures a.FetchFulfilled? || a.AddFulfilled? || a.RemoveFulfilled? ==> !r.isLoading && r.error == s.error
  {
    match a
    case ClearFavorites => s.(favorites := [])
    case Pending(_) => s.(isLoading := true, error := None)
    case Rejected(_, e) => s.(isLoading := false, error := Some(e))
    case FetchFulfilled(records) => s.(favorites := Map(records, FromRecord), isLoading := false)
    case AddFulfilled(item) => s.(favorites := s.favorites + [item], isLoading := false)
    case RemoveFulfilled(id) => s.(favorites := Filter(s.favorites, (f: FavoriteItem) => f.movie.id != id), isLoading := false)
  }

  // ---------------------------------------------------------------------------
  // Properties

  /** The fields of a favorite that the server keeps: movie id, title, rating and record id. */
  function Essentials(f: FavoriteItem): (int, string, Option<real>, nat) {
    (f.movie.id, f.movie.title, f.movie.rating, f.dbId)
  }

  /** The client list agrees with the server's records, position by position, on the fields the server keeps. */
  predicate Mirrors(client: seq<FavoriteItem>, records: seq<Server.FavoriteRecord>) {
    |client| == |records| && forall i :: 0 <= i < |client| ==> Essentials(client[i]) == Essentials(FromRecord(records[i]))
  }

  /** An added movie reads back without its poster and release year: the server kept neither,
      so the fetch mapping finds both absent, and the fetched item differs from the one the add
      thunk returned whenever the movie had either. */
  lemma PosterAndYearLost(s: Server.Store, user: string, m: ClientMovie)
    requires Server.AddFavorite(s, user, RequestBody(m)).1.Ok?
    ensures var created := Server.AddFavorite(s, user, RequestBody(m)).1.value;
      && FromRecord(created) == AddedItem(m.(poster := None, releaseYear := None), created)
      && (m.poster.Some? || m.releaseYear.Some? ==> FromRecord(created) != AddedItem(m, created))
  {
  }

  /** With the handler and the schema agreeing on field names, the record stored for an added
      movie reads back as the item the add thunk returned, on the five mapped fields and the record id. */
  lemma BodyRoundTripIntended(s: Server.Store, user: string, m: ClientMovie)
    requires Server.AddFavoriteIntended(s, user, RequestBody(m)).1.Ok?
    ensures var created := Server.AddFavoriteIntended(s, user, RequestBody(m)).1.value;
      FromRecord(created) == AddedItem(m, created)
  {
  }

  /** When the client list mirrors the user's records on the server, it still does after a
      successful add has gone through both the server and the reducer, on the fields the server keeps. */
  lemma AddKeepsClientInSync(s: Server.Store, user: string, m: ClientMovie, c: FavoritesState)
    requires Server.AddFavorite(s, user, RequestBody(m)).1.Ok?
    requires Mirrors(c.favorites, Server.GetFavorites(s, user))
    ensures var (s', created) := Server.AddFavorite(s, user, RequestBody(m));
      Mirrors(Reduce(c, AddFulfilled(AddedItem(m, created.value))).favorites, Server.GetFavorites(s', user))
  {
    var (s', created) := Server.AddFavorite(s, user, RequestBody(m));
    var mine := (f: Server.FavoriteRecord) => f.user == user;
    FilterAppend(s.records, created.value, mine);
    MirrorsAppend(c.favorites, Server.GetFavorites(s, user), AddedItem(m, created.value), created.value);
  }

  /** Appending a matching pair to both lists keeps them mirrored. */
  lemma MirrorsAppend(client: seq<FavoriteItem>, records: seq<Server.FavoriteRecord>,
                      item: FavoriteItem, record: Server.FavoriteRecord)
    requires Mirrors(client, records) && Essentials(item) == Essentials(FromRecord(record))
    ensures Mirrors(client + [item], records + [record])
  {
    var c', r' := client + [item], records + [record];
    forall i | 0 <= i < |c'| ensures Essentials(c'[i]) == Essentials(FromRecord(r'[i])) {
      if i < |client| {
        assert c'[i] == client[i] && r'[i] == records[i];
      }
    }
  }

  /** With the handler and the schema agreeing on field names, the client list stays equal to the
      mapped server list across a successful add, on the five mapped fields and the record id. */
  lemma AddKeepsClientInSyncIntended(s: Server.Store, user: string, m: ClientMovie, c: FavoritesState)
    requires Server.AddFavoriteIntended(s, user, RequestBody(m)).1.Ok?
    requires c.favorites == Map(Server.GetFavorites(s, user), FromRecord)
    ensures var (s', created) := Server.AddFavoriteIntended(s, user, RequestBody(m));
      Reduce(c, AddFulfilled(AddedItem(m, created.value))).favorites == Map(Server.GetFavorites(s', user), FromRecord)
  {
    var (s', created) := Server.AddFavoriteIntended(s, user, RequestBody(m));
    var mine := (f: Server.FavoriteRecord) => f.user == user;
    FilterAppend(s.records, created.value, mine);
    MapAppend(Server.GetFavorites(s, user), created.value, FromRecord);
  }

  /** Removing deletes every entry for the movie, however many the list held. */
  lemma RemoveDropsAllCopies(s: FavoritesState, id: int)
    ensures forall i :: 0 <= i < |Reduce(s, RemoveFulfilled(id)).favorites| ==>
              Reduce(s, RemoveFulfilled(id)).favorites[i].movie.id != id
  {
  }
}
