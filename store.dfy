/**
 * The relational store behind the module-global SQLAlchemy session: the three
 * tables as maps from primary key to row. `Valid` holds the constraints every
 * committed state keeps.
 */
module Store {
  import opened Wrappers
  import opened Schema

  class Database {
    var users: map<int, User>
    var genres: map<int, Genre>
    var movies: map<int, Movie>

    /** Unique genre names, and no movie left pointing at a deleted genre. */
    ghost predicate Valid()
      reads this
    {
      UniqueGenreNames(genres) && MoviesReferenceGenres(movies, genres)
    }

    constructor ()
      ensures Valid()
      ensures users == map[] && genres == map[] && movies == map[]
    {
      users, genres, movies := map[], map[], map[];
    }
  }

  /**
   * The key SQLite gives a new row of an `INTEGER PRIMARY KEY` table: one more
   * than the largest key in use, or 1 for an empty table.
   */
  method NextRowId(ids: set<int>) returns (id: int)
    ensures id !in ids
    ensures ids == {} ==> id == 1
    ensures ids != {} ==> id - 1 in ids && forall i :: i in ids ==> i < id
  {
    var rest := ids;
    var largest: Option<int> := None;
    while rest != {}
      invariant rest <= ids
      invariant largest.None? <==> rest == ids
      invariant largest.Some? ==> largest.value in ids
      invariant largest.Some? ==> forall i :: i in ids && i !in rest ==> i <= largest.value
      decreases rest
    {
      ghost var w := SetHasElement(rest);
      var x :| x in rest;
      if largest.None? || x > largest.value {
        largest := Some(x);
      }
      rest := rest - {x};
    }
    id := if largest.None? then 1 else largest.value + 1;
  }
}
