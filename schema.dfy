/**
 * The tables of database_setup.py as records, the JSON projections
 * (`serializable`) and the table constraints as predicates over maps keyed by id.
 * Nullable columns are Options; `nullable=False` columns are plain values.
 */
module Schema {
  import opened Wrappers

  /** Table `user`: name and email are required, picture is optional. */
  datatype User = User(name: string, email: string, picture: Option<string>)

  /** Table `genre`: name (unique) and description required; `userId` is the owner. */
  datatype Genre = Genre(name: string, description: string, poster: Option<string>, userId: int)

  /** Table `movie`: belongs to the genre `genreId`; `userId` records the creator. */
  datatype Movie = Movie(
    name: string,
    storyline: Option<string>,
    poster: Option<string>,
    trailerUrl: Option<string>,
    genreId: int,
    userId: int)

  /** The JSON values a projection can hold. */
  datatype Json = JString(str: string) | JInt(num: int) | JNull

  /** A nullable text column as JSON: `null` for None. */
  function TextOrNull(o: Option<string>): (j: Json)
    ensures j == JNull <==> o.None?
    ensures o.Some? ==> j == JString(o.value)
  {
    match o
    case None => JNull
    case Some(s) => JString(s)
  }

  /** `unique = True` on `genre.name`: no two genre rows share a name. */
  ghost predicate UniqueGenreNames(genres: map<int, Genre>) {
    forall a, b :: a in genres && b in genres && genres[a].name == genres[b].name ==> a == b
  }

  /** Every movie row's `genre_id` names an existing genre row. */
  ghost predicate MoviesReferenceGenres(movies: map<int, Movie>, genres: map<int, Genre>) {
    forall id :: id in movies ==> movies[id].genreId in genres
  }

  /** Some genre other than `self` already has the name `name`. */
  predicate NameTakenByOther(genres: map<int, Genre>, name: string, self: Option<int>) {
    exists id :: id in genres && Some(id) != self && genres[id].name == name
  }

  /**
   * In a table with unique names, writing genre `g` under `id` keeps the names
   * unique exactly when no other genre already has `g`'s name: the commit that
   * the unique constraint lets through is the one `NameTakenByOther` permits.
   */
  lemma GenreNameWriteKeepsUnique(genres: map<int, Genre>, id: int, g: Genre)
    requires UniqueGenreNames(genres)
    ensures UniqueGenreNames(genres[id := g]) <==> !NameTakenByOther(genres, g.name, Some(id))
  {
    if NameTakenByOther(genres, g.name, Some(id)) {
      var other :| other in genres && Some(other) != Some(id) && genres[other].name == g.name;
      assert genres[id := g][other].name == genres[id := g][id].name;
    }
  }

  const GenreKeys: set<string> := {"name", "description", "poster", "owner", "owner_id", "id"}
  const MovieKeys: set<string> := {"name", "storyline", "poster", "trailer_url", "id"}

  /**
   * `Genre.serializable`: `owner` goes through the `user` relationship, so a genre
   * whose owner row is missing cannot be projected (None: the AttributeError).
   */
  function GenreSerializable(users: map<int, User>, id: int, g: Genre): (r: Option<map<string, Json>>)
    ensures r.Some? <==> g.userId in users
    ensures r.Some? ==> r.value.Keys == GenreKeys
    ensures r.Some? ==> r.value["owner_id"] == JInt(g.userId) && r.value["owner"] == JString(users[g.userId].name)
    ensures r.Some? ==> r.value["id"] == JInt(id) && r.value["name"] == JString(g.name)
    ensures r.Some? ==> r.value["description"] == JString(g.description) && r.value["poster"] == TextOrNull(g.poster)
  {
    if g.userId !in users then None
    else Some(map[
      "name" := JString(g.name),
      "description" := JString(g.description),
      "poster" := TextOrNull(g.poster),
      "owner" := JString(users[g.userId].name),
      "owner_id" := JInt(g.userId),
      "id" := JInt(id)])
  }

  /** `Movie.serializable`: five keys, and neither `genre_id` nor `user_id`. */
  function MovieSerializable(id: int, m: Movie): (r: map<string, Json>)
    ensures r.Keys == MovieKeys
    ensures "genre_id" !in r && "user_id" !in r
    ensures r["id"] == JInt(id) && r["name"] == JString(m.name)
    ensures r["storyline"] == TextOrNull(m.storyline) && r["poster"] == TextOrNull(m.poster)
    ensures r["trailer_url"] == TextOrNull(m.trailerUrl)
  {
    map[
      "name" := JString(m.name),
      "storyline" := TextOrNull(m.storyline),
      "poster" := TextOrNull(m.poster),
      "trailer_url" := TextOrNull(m.trailerUrl),
      "id" := JInt(id)]
  }

  /** The movie projection does not depend on which genre or user the movie belongs to. */
  lemma MovieSerializableHidesOwnership(id: int, m: Movie, genreId: int, userId: int)
    ensures MovieSerializable(id, m) == MovieSerializable(id, m.(genreId := genreId, userId := userId))
  {
  }

  /**
   * Two genres that differ at most in their owner project alike exactly when
   * they have the same owner id.
   */
  lemma GenreSerializableOwner(users: map<int, User>, id: int, g: Genre, h: Genre)
    requires g.userId in users && h.userId in users
    requires g.(userId := 0) == h.(userId := 0)
    ensures GenreSerializable(users, id, g) == GenreSerializable(users, id, h) <==> g.userId == h.userId
  {
    if g.userId != h.userId {
      assert GenreSerializable(users, id, g).value["owner_id"] != GenreSerializable(users, id, h).value["owner_id"];
    }
  }
}
