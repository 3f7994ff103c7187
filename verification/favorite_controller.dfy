/** The favorites handlers of the server as transitions of an in-memory record store.
    A user owns at most one record per movie; records get increasing ids, standing in for
    the database's generated `_id`. */
module FavoriteController {
  import opened Wrappers
  import opened Seqs

  const DuplicateMessage := "Movie already in favorites"
  const MissingMessage := "Favorite not found"
  const RemovedSuffix := " is removed from Favorites "
  const AddFailure := "Failed to add favorite"

  /** The request body of `POST /favorites`, and the same names as read from a stored record.
      `None` is a field that is absent. */
  datatype FavoriteFields = FavoriteFields(
    movieId: int, title: string, posterPath: Option<string>, releaseDate: Option<string>, rating: Option<real>)

  /** A stored favorite: its generated id, its owner and the fields it kept. */
  datatype FavoriteRecord = FavoriteRecord(id: nat, user: string, fields: FavoriteFields)

  /** What `Favorite.create` keeps of the body. The favorite schema declares `poster` and
      `releaseYear`, not the `posterPath` and `releaseDate` the handler writes; undeclared paths
      are dropped by the schema, so a stored record has neither. */
  function Kept(body: FavoriteFields): (k: FavoriteFields)
    ensures k.movieId == body.movieId && k.title == body.title && k.rating == body.rating
    ensures k.posterPath.None? && k.releaseDate.None?
  {
    body.(posterPath := None, releaseDate := None)
  }

  /** What `Favorite.create` would keep with the field names agreeing between the handler and
      the schema: the whole body. */
  function KeptIntended(body: FavoriteFields): (k: FavoriteFields)
    ensures k.movieId == body.movieId && k.title == body.title && k.rating == body.rating
    ensures k.posterPath == body.posterPath && k.releaseDate == body.releaseDate
  {
    body
  }

  datatype Store = Store(records: seq<FavoriteRecord>, nextId: nat)

  /** An error reply: HTTP status and message. */
  datatype HttpError = HttpError(status: int, message: string)

  predicate Owns(r: FavoriteRecord, user: string, movieId: int) {
    r.user == user && r.fields.movieId == movieId
  }

  predicate HasFavorite(s: Store, user: string, movieId: int) {
    exists i :: 0 <= i < |s.records| && Owns(s.records[i], user, movieId)
  }

  /** The store invariant: at most one record per (user, movie), and ids distinct and below the counter. */
  predicate Valid(s: Store) {
    && (forall i, j :: 0 <= i < j < |s.records| ==>
          !Owns(s.records[j], s.records[i].user, s.records[i].fields.movieId))
    && (forall i, j :: 0 <= i < j < |s.records| ==> s.records[i].id != s.records[j].id)
    && (forall i :: 0 <= i < |s.records| ==> s.records[i].id < s.nextId)
  }

  function EmptyStore(): (s: Store)
    ensures Valid(s) && s.records == []
  {
    Store([], 0)
  }

  /** `findOne` / `findOneAndDelete`: the position of the first record of `user` for `movieId`. */
  function FindFirst(records: seq<FavoriteRecord>, user: string, movieId: int): (r: Option<nat>)
    ensures r.None? <==> forall i :: 0 <= i < |records| ==> !Owns(records[i], user, movieId)
    ensures r.Some? ==> r.value < |records| && Owns(records[r.value], user, movieId)
                        && forall j :: 0 <= j < r.value ==> !Owns(records[j], user, movieId)
  {
    if |records| == 0 then None
    else if Owns(records[0], user, movieId) then Some(0)
    else match FindFirst(records[1..], user, movieId)
      case None => None
      case Some(k) => Some(k + 1)
  }

  /** The add handler storing `doc` for a body: a 400 when that movie is already a favorite of
      the user; a 500 when the schema rejects the document because its required title is empty;
      otherwise the new record (the 201 reply) appended to the store. */
  function Insert(s: Store, user: string, doc: FavoriteFields): (r: (Store, Result<FavoriteRecord, HttpError>))
    ensures HasFavorite(s, user, doc.movieId) ==> r == (s, Err(HttpError(400, DuplicateMessage)))
    ensures !HasFavorite(s, user, doc.movieId) && doc.title == "" ==> r == (s, Err(HttpError(500, AddFailure)))
    ensures !HasFavorite(s, user, doc.movieId) && doc.title != "" ==>
              && r.1.Ok? && r.1.value.user == user && r.1.value.fields == doc
              && r.0.records == s.records + [r.1.value]
              && r.1.value.id < r.0.nextId
              && (Valid(s) ==> forall i :: 0 <= i < |s.records| ==> s.records[i].id != r.1.value.id)
  {
    if FindFirst(s.records, user, doc.movieId).Some? then (s, Err(HttpError(400, DuplicateMessage)))
    else if doc.title == "" then (s, Err(HttpError(500, AddFailure)))
    else
      var record := FavoriteRecord(s.nextId, user, doc);
      (Store(s.records + [record], s.nextId + 1), Ok(record))
  }

  /** `POST /favorites` by `user`, as written: the stored record has no poster or release date. */
  function AddFavorite(s: Store, user: string, body: FavoriteFields): (r: (Store, Result<FavoriteRecord, HttpError>))
    ensures HasFavorite(s, user, body.movieId) ==> r == (s, Err(HttpError(400, DuplicateMessage)))
    ensures !HasFavorite(s, user, body.movieId) && body.title == "" ==> r == (s, Err(HttpError(500, AddFailure)))
    ensures !HasFavorite(s, user, body.movieId) && body.title != "" ==>
              && r.1.Ok? && r.1.value.user == user
              && r.1.value.fields.movieId == body.movieId && r.1.value.fields.title == body.title
              && r.1.value.fields.rating == body.rating
              && r.1.value.fields.posterPath.None? && r.1.value.fields.releaseDate.None?
              && r.0.records == s.records + [r.1.value]
              && r.1.value.id < r.0.nextId
              && (Valid(s) ==> forall i :: 0 <= i < |s.records| ==> s.records[i].id != r.1.value.id)
  {
    Insert(s, user, Kept(body))
  }

  /** `POST /favorites` with the schema and the handler agreeing on field names: the stored
      record keeps the whole body. */
  function AddFavoriteIntended(s: Store, user: string, body: FavoriteFields): (r: (Store, Result<FavoriteRecord, HttpError>))
    ensures r.1.Err? <==> AddFavorite(s, user, body).1.Err?
    ensures r.1.Err? ==> r == AddFavorite(s, user, body)
    ensures r.1.Ok? ==> && r.1.value == AddFavorite(s, user, body).1.value.(fields := body)
                        && r.0.records == s.records + [r.1.value]
  {
    Insert(s, user, KeptIntended(body))
  }

  /** `DELETE /favorites/:movieId` by `user`: the first matching record is deleted and its title
      announced, or a 404 when there is none. */
  function RemoveFavorite(s: Store, user: string, movieId: int): (r: (Store, Result<string, HttpError>))
    ensures !HasFavorite(s, user, movieId) <==> r.1.Err?
    ensures r.1.Err? ==> r == (s, Err(HttpError(404, MissingMessage)))
    ensures r.1.Ok? ==>
              && |r.0.records| == |s.records| - 1 && r.0.nextId == s.nextId
              && (exists i :: 0 <= i < |s.records| && Owns(s.records[i], user, movieId)
                    && r.0.records == s.records[..i] + s.records[i + 1..]
                    && r.1.value == s.records[i].fields.title + RemovedSuffix)
  {
    match FindFirst(s.records, user, movieId)
    case None => (s, Err(HttpError(404, MissingMessage)))
    case Some(i) =>
      (Store(s.records[..i] + s.records[i + 1..], s.nextId), Ok(s.records[i].fields.title + RemovedSuffix))
  }

  /** `GET /favorites` by `user`: that user's records, in store order. */
  function GetFavorites(s: Store, user: string): (r: seq<FavoriteRecord>)
    ensures forall f :: f in r <==> f in s.records && f.user == user
    ensures IsSubseq(r, s.records)
    ensures (forall i :: 0 <= i < |s.records| ==> s.records[i].user != user) ==> r == []
  {
    Filter(s.records, (f: FavoriteRecord) => f.user == user)
  }

  // ---------------------------------------------------------------------------
  // Properties

  /** Adding keeps the invariant: never two records of one user for one movie. */
  lemma AddKeepsValid(s: Store, user: string, body: FavoriteFields)
    requires Valid(s)
    ensures Valid(AddFavorite(s, user, body).0)
  {
  }

  /** Removing keeps the invariant. */
  lemma RemoveKeepsValid(s: Store, user: string, movieId: int)
    requires Valid(s)
    ensures Valid(RemoveFavorite(s, user, movieId).0)
  {
    if HasFavorite(s, user, movieId) {
      DeleteKeepsValid(s, FindFirst(s.records, user, movieId).value);
    }
  }

  /** Deleting any one record keeps the invariant: the survivors keep their relative order. */
  lemma DeleteKeepsValid(s: Store, i: nat)
    requires Valid(s) && i < |s.records|
    ensures Valid(Store(s.records[..i] + s.records[i + 1..], s.nextId))
  {
    var rest := s.records[..i] + s.records[i + 1..];
    assert forall k :: 0 <= k < |rest| ==> rest[k] == s.records[if k < i then k else k + 1];
  }

  /** In a valid store, a successful remove leaves no record of that user for that movie, and
      every record of another user or another movie is still there. */
  lemma RemoveDeletesOnlyThePair(s: Store, user: string, movieId: int)
    requires Valid(s)
    ensures var s' := RemoveFavorite(s, user, movieId).0;
      && !HasFavorite(s', user, movieId)
      && forall f :: f in s.records && !Owns(f, user, movieId) ==> f in s'.records
  {
    if HasFavorite(s, user, movieId) {
      var i := FindFirst(s.records, user, movieId).value;
      DeleteKeepsOthers(s.records, i);
      DeleteRemovesPair(s, i, user, movieId);
    }
  }

  /** Deleting one record keeps every other record. */
  lemma DeleteKeepsOthers(records: seq<FavoriteRecord>, i: nat)
    requires i < |records|
    ensures forall f :: f in records && f != records[i] ==> f in records[..i] + records[i + 1..]
  {
    forall f | f in records && f != records[i] ensures f in records[..i] + records[i + 1..] {
      var k :| 0 <= k < |records| && records[k] == f;
      if k < i { assert f in records[..i]; } else { assert f in records[i + 1..]; }
    }
  }

  /** In a valid store, deleting the record of a pair leaves no record of that pair. */
  lemma DeleteRemovesPair(s: Store, i: nat, user: string, movieId: int)
    requires Valid(s) && i < |s.records| && Owns(s.records[i], user, movieId)
    ensures !HasFavorite(Store(s.records[..i] + s.records[i + 1..], s.nextId), user, movieId)
  {
    var rest := s.records[..i] + s.records[i + 1..];
    forall k | 0 <= k < |rest| ensures !Owns(rest[k], user, movieId) {
      if k < i { assert rest[k] == s.records[k]; } else { assert rest[k] == s.records[k + 1]; }
    }
  }

  /** Adding a new favorite and removing it again gives back the records as they were. */
  lemma AddThenRemove(s: Store, user: string, body: FavoriteFields)
    requires Valid(s) && !HasFavorite(s, user, body.movieId)
    ensures var s' := AddFavorite(s, user, body).0;
      RemoveFavorite(s', user, body.movieId).0.records == s.records
  {
    var s' := AddFavorite(s, user, body).0;
    if body.title != "" {
      var n := |s.records|;
      assert forall j :: 0 <= j < n ==> s'.records[j] == s.records[j];
      assert Owns(s'.records[n], user, body.movieId);
      var k := FindFirst(s'.records, user, body.movieId);
      assert k.Some?;
      assert k.value == n;
      assert s'.records[..n] == s.records;
    }
  }

  /** A second add of the same movie by the same user changes nothing, and is refused as a
      duplicate unless the first one failed for lack of a title (then it fails the same way). */
  lemma DuplicateAddRefused(s: Store, user: string, body: FavoriteFields)
    ensures var (s', first) := AddFavorite(s, user, body);
      && AddFavorite(s', user, body).0 == s'
      && (HasFavorite(s, user, body.movieId) || body.title != "" ==>
            AddFavorite(s', user, body).1 == Err(HttpError(400, DuplicateMessage)))
      && (!HasFavorite(s, user, body.movieId) && body.title == "" ==>
            AddFavorite(s', user, body).1 == first == Err(HttpError(500, AddFailure)))
  {
    var (s', first) := AddFavorite(s, user, body);
    if first.Ok? {
      assert Owns(s'.records[|s.records|], user, body.movieId);
    }
  }

  /** Listing after an add by another user: the caller's favorites are unaffected. */
  lemma OthersAddsInvisible(s: Store, user: string, other: string, body: FavoriteFields)
    requires other != user
    ensures GetFavorites(AddFavorite(s, other, body).0, user) == GetFavorites(s, user)
  {
    var s' := AddFavorite(s, other, body).0;
    if s' != s {
      FilterAppend(s.records, s'.records[|s.records|], (f: FavoriteRecord) => f.user == user);
    }
  }
}
