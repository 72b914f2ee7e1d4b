/**
 * The catalogue routes of project.py that change the tables. Each is behind
 * `login_required`; the edit and delete routes and `create_movie` then compare the
 * user that `get_user_from_session` resolves with the owner of the row
 * (`abort(401)` otherwise). Exceptions end in `unhandled_exception`, which
 * rolls the transaction back.
 */
module Catalogue {
  import opened Wrappers
  import opened Responses
  import opened Schema
  import opened Store
  import opened LoginSessions
  import opened Accounts
  import opened Uploads

  /** `request.files['poster']`: the client's file name and what `secure_filename` made of it. */
  datatype Upload = Upload(filename: string, secured: string)

  /** `pic_file and permitted_file(pic_file.filename)` */
  predicate Accepted(u: Upload) {
    u.filename != "" && PermittedFile(u.filename)
  }

  /**
   * The poster after the upload branch: the old one without an accepted file, the
   * renamed upload with one. None is the IndexError of a secured name with no dot.
   */
  function PosterAfterUpload(current: Option<string>, prefix: string, u: Upload, tag: string)
    : (r: Option<Option<string>>)
    ensures !Accepted(u) ==> r == Some(current)
    ensures Accepted(u) ==> (r.None? <==> '.' !in u.secured)
    ensures Accepted(u) && r.Some? ==> r.value == PosterFileName(prefix, u.secured, tag)
  {
    if !Accepted(u) then Some(current)
    else match PosterFileName(prefix, u.secured, tag)
      case None => None
      case Some(n) => Some(Some(n))
  }

  /** Logged in, and the session's user is the owner `ownerId`. */
  ghost predicate Authorized(entries: map<string, Value>, users: map<int, User>, ownerId: int) {
    "username" in entries && SessionUserIs(entries, users, ownerId)
  }

  /** `edit_genre` */
  method EditGenre(db: Database, login: LoginSession, genreId: int, isPost: bool,
                   name: string, description: string, upload: Upload) returns (r: Response)
    requires db.Valid()
    modifies db
    ensures db.Valid()
    ensures db.users == old(db.users) && db.movies == old(db.movies)
    ensures !login.LoggedIn() ==> r == Redirect("/") && db.genres == old(db.genres)
    ensures login.LoggedIn() && genreId !in old(db.genres) ==>
      r == ServerError(GenericError) && db.genres == old(db.genres)
    ensures login.LoggedIn() && genreId in old(db.genres)
            && !SessionUserIs(login.entries, db.users, old(db.genres)[genreId].userId) ==>
      r == Abort(401) && db.genres == old(db.genres)
    ensures db.genres != old(db.genres) ==>
      isPost && genreId in old(db.genres) && Authorized(login.entries, db.users, old(db.genres)[genreId].userId)
    ensures genreId in old(db.genres) && Authorized(login.entries, db.users, old(db.genres)[genreId].userId) ==>
      var g := old(db.genres)[genreId];
      var poster := PosterAfterUpload(g.poster, name, upload, GenreTag);
      if !isPost then r == Render("edit_genre.html") && db.genres == old(db.genres)
      else if poster.None? then r == ServerError(GenericError) && db.genres == old(db.genres)
      else if NameTakenByOther(old(db.genres), name, Some(genreId)) then
        r == ServerError(DuplicateError) && db.genres == old(db.genres)
      else r == Redirect("/") && db.genres == old(db.genres)[genreId := Genre(name, description, poster.value, g.userId)]
  {
    if !login.LoggedIn() {
      return Redirect("/");
    }
    var user := GetUserFromSession(login.entries, db.users);
    if genreId !in db.genres {
      return ServerError(GenericError);
    }
    var genre := db.genres[genreId];
    if !(user.Some? && user.value == genre.userId) {
      return Abort(401);
    }
    if !isPost {
      return Render("edit_genre.html");
    }
    var poster := PosterAfterUpload(genre.poster, name, upload, GenreTag);
    if poster.None? {
      return ServerError(GenericError);
    }
    if NameTakenByOther(db.genres, name, Some(genreId)) {
      // the unique constraint fails at commit
      return ServerError(DuplicateError);
    }
    db.genres := db.genres[genreId := Genre(name, description, poster.value, genre.userId)];
    r := Redirect("/");
  }

  /**
   * `create_new_genre`: only `login_required`; the owner is the `user_id` of the
   * URL. The flash message reads the session user's name after the commit, so a
   * session email that resolves to no single user answers 500 with the genre kept.
   */
  method CreateNewGenre(db: Database, login: LoginSession, userId: int, isPost: bool,
                        name: string, description: string, upload: Upload) returns (r: Response)
    requires db.Valid()
    modifies db
    ensures db.Valid()
    ensures db.users == old(db.users) && db.movies == old(db.movies)
    ensures !login.LoggedIn() ==> r == Redirect("/") && db.genres == old(db.genres)
    ensures login.LoggedIn() ==>
      var poster := PosterAfterUpload(None, name, upload, GenreTag);
      if !isPost then r == Render("create_genre.html") && db.genres == old(db.genres)
      else if poster.None? then r == ServerError(GenericError) && db.genres == old(db.genres)
      else if NameTakenByOther(old(db.genres), name, None) then
        r == ServerError(DuplicateError) && db.genres == old(db.genres)
      else
        && (exists id :: id !in old(db.genres) && db.genres == old(db.genres)[id := Genre(name, description, poster.value, userId)])
        && (r == Redirect("/") <==> exists id :: SessionUserIs(login.entries, db.users, id))
        && (r != Redirect("/") ==> r == ServerError(GenericError))
  {
    if !login.LoggedIn() {
      return Redirect("/");
    }
    var user := GetUserFromSession(login.entries, db.users);
    if !isPost {
      return Render("create_genre.html");
    }
    var poster := PosterAfterUpload(None, name, upload, GenreTag);
    if poster.None? {
      return ServerError(GenericError);
    }
    if NameTakenByOther(db.genres, name, None) {
      return ServerError(DuplicateError);
    }
    var id := NextRowId(db.genres.Keys);
    db.genres := db.genres[id := Genre(name, description, poster.value, userId)];
    r := if user.Some? then Redirect("/") else ServerError(GenericError);
  }

  /**
   * `delete_genre`: the owner's POST deletes every movie of the genre, one at a
   * time, and then the genre.
   */
  method DeleteGenre(db: Database, login: LoginSession, genreId: int, isPost: bool) returns (r: Response)
    requires db.Valid()
    modifies db
    ensures db.Valid()
    ensures db.users == old(db.users)
    ensures !login.LoggedIn() ==> r == Redirect("/") && db.genres == old(db.genres) && db.movies == old(db.movies)
    ensures login.LoggedIn() && genreId !in old(db.genres) ==>
      r == ServerError(GenericError) && db.genres == old(db.genres) && db.movies == old(db.movies)
    ensures login.LoggedIn() && genreId in old(db.genres)
            && !SessionUserIs(login.entries, db.users, old(db.genres)[genreId].userId) ==>
      r == Abort(401) && db.genres == old(db.genres) && db.movies == old(db.movies)
    ensures db.genres != old(db.genres) || db.movies != old(db.movies) ==>
      isPost && genreId in old(db.genres) && Authorized(login.entries, db.users, old(db.genres)[genreId].userId)
    ensures genreId in old(db.genres) && Authorized(login.entries, db.users, old(db.genres)[genreId].userId) && !isPost ==>
      r == Render("delete_genre.html") && db.genres == old(db.genres) && db.movies == old(db.movies)
    ensures genreId in old(db.genres) && Authorized(login.entries, db.users, old(db.genres)[genreId].userId) && isPost ==>
      && r == Redirect("/")
      && db.genres == old(db.genres) - {genreId}
      && db.movies.Keys <= old(db.movies).Keys
      && (forall id :: id in db.movies ==> db.movies[id] == old(db.movies)[id] && db.movies[id].genreId != genreId)
      && (forall id :: id in old(db.movies) && old(db.movies)[id].genreId != genreId ==> id in db.movies)
  {
    if !login.LoggedIn() {
      return Redirect("/");
    }
    var user := GetUserFromSession(login.entries, db.users);
    if genreId !in db.genres {
      return ServerError(GenericError);
    }
    var genre := db.genres[genreId];
    if !(user.Some? && user.value == genre.userId) {
      return Abort(401);
    }
    if !isPost {
      return Render("delete_genre.html");
    }
    var doomed := set id | id in db.movies && db.movies[id].genreId == genreId;
    while doomed != {}
      invariant db.genres == old(db.genres) && db.users == old(db.users)
      invariant db.movies.Keys <= old(db.movies).Keys
      invariant forall id :: id in db.movies ==> db.movies[id] == old(db.movies)[id]
      invariant forall id :: id in old(db.movies) && old(db.movies)[id].genreId != genreId ==> id in db.movies
      invariant forall id :: id in db.movies && db.movies[id].genreId == genreId ==> id in doomed
      decreases doomed
    {
      ghost var w := SetHasElement(doomed);
      var id :| id in doomed;
      db.movies := db.movies - {id};
      doomed := doomed - {id};
    }
    db.genres := db.genres - {genreId};
    r := Redirect("/");
  }

  /**
   * `create_movie`: gated on the genre's owner, but the stored `user_id` is the
   * one in the URL, whoever that is.
   */
  method CreateMovie(db: Database, login: LoginSession, genreId: int, userId: int, isPost: bool,
                     name: string, storyline: string, trailerUrl: string, upload: Upload) returns (r: Response)
    requires db.Valid()
    modifies db
    ensures db.Valid()
    ensures db.users == old(db.users) && db.genres == old(db.genres)
    ensures !login.LoggedIn() ==> r == Redirect("/") && db.movies == old(db.movies)
    ensures login.LoggedIn() && genreId !in old(db.genres) ==>
      r == ServerError(GenericError) && db.movies == old(db.movies)
    ensures login.LoggedIn() && genreId in old(db.genres)
            && !SessionUserIs(login.entries, db.users, old(db.genres)[genreId].userId) ==>
      r == Abort(401) && db.movies == old(db.movies)
    ensures db.movies != old(db.movies) ==>
      isPost && genreId in old(db.genres) && Authorized(login.entries, db.users, old(db.genres)[genreId].userId)
    ensures genreId in old(db.genres) && Authorized(login.entries, db.users, old(db.genres)[genreId].userId) ==>
      var poster := PosterAfterUpload(None, old(db.genres)[genreId].name + name, upload, MovieTag);
      if !isPost then r == Render("create_movie.html") && db.movies == old(db.movies)
      else if poster.None? then r == ServerError(GenericError) && db.movies == old(db.movies)
      else
        && r == RedirectToGenre(genreId)
        && exists id :: id !in old(db.movies)
             && db.movies == old(db.movies)[id := Movie(name, Some(storyline), poster.value, Some(trailerUrl), genreId, userId)]
  {
    if !login.LoggedIn() {
      return Redirect("/");
    }
    var user := GetUserFromSession(login.entries, db.users);
    if genreId !in db.genres {
      return ServerError(GenericError);
    }
    var genre := db.genres[genreId];
    if !(user.Some? && user.value == genre.userId) {
      return Abort(401);
    }
    if !isPost {
      return Render("create_movie.html");
    }
    var poster := PosterAfterUpload(None, genre.name + name, upload, MovieTag);
    if poster.None? {
      return ServerError(GenericError);
    }
    var id := NextRowId(db.movies.Keys);
    db.movies := db.movies[id := Movie(name, Some(storyline), poster.value, Some(trailerUrl), genreId, userId)];
    r := RedirectToGenre(genreId);
  }

  /**
   * `edit_movie`: a missing movie or genre redirects home; the owner of the movie
   * (not of the genre) may change its name, storyline, trailer and poster.
   */
  method EditMovie(db: Database, login: LoginSession, genreId: int, movieId: int, isPost: bool,
                   name: string, storyline: string, trailerUrl: string, upload: Upload) returns (r: Response)
    requires db.Valid()
    modifies db
    ensures db.Valid()
    ensures db.users == old(db.users) && db.genres == old(db.genres)
    ensures !login.LoggedIn() ==> r == Redirect("/") && db.movies == old(db.movies)
    ensures login.LoggedIn() && (movieId !in old(db.movies) || genreId !in old(db.genres)) ==>
      r == Redirect("/") && db.movies == old(db.movies)
    ensures login.LoggedIn() && movieId in old(db.movies) && genreId in old(db.genres)
            && !SessionUserIs(login.entries, db.users, old(db.movies)[movieId].userId) ==>
      r == Abort(401) && db.movies == old(db.movies)
    ensures db.movies != old(db.movies) ==>
      isPost && movieId in old(db.movies) && genreId in old(db.genres)
      && Authorized(login.entries, db.users, old(db.movies)[movieId].userId)
    ensures movieId in old(db.movies) && genreId in old(db.genres)
            && Authorized(login.entries, db.users, old(db.movies)[movieId].userId) ==>
      var m := old(db.movies)[movieId];
      var poster := PosterAfterUpload(m.poster, old(db.genres)[genreId].name + name, upload, MovieTag);
      if !isPost then r == Render("edit_movie.html") && db.movies == old(db.movies)
      else if poster.None? then r == ServerError(GenericError) && db.movies == old(db.movies)
      else
        && r == RedirectToGenre(genreId)
        && db.movies == old(db.movies)[movieId := m.(name := name, storyline := Some(storyline),
                                                      trailerUrl := Some(trailerUrl), poster := poster.value)]
  {
    if !login.LoggedIn() {
      return Redirect("/");
    }
    var user := GetUserFromSession(login.entries, db.users);
    if movieId !in db.movies || genreId !in db.genres {
      return Redirect("/");
    }
    var movie := db.movies[movieId];
    var genre := db.genres[genreId];
    if !(user.Some? && user.value == movie.userId) {
      return Abort(401);
    }
    if !isPost {
      return Render("edit_movie.html");
    }
    var poster := PosterAfterUpload(movie.poster, genre.name + name, upload, MovieTag);
    if poster.None? {
      return ServerError(GenericError);
    }
    db.movies := db.movies[movieId := movie.(name := name, storyline := Some(storyline),
                                             trailerUrl := Some(trailerUrl), poster := poster.value)];
    r := RedirectToGenre(genreId);
  }

  /** `delete_movie`: like `edit_movie`, and the owner's POST deletes the movie. */
  method DeleteMovie(db: Database, login: LoginSession, genreId: int, movieId: int, isPost: bool)
    returns (r: Response)
    requires db.Valid()
    modifies db
    ensures db.Valid()
    ensures db.users == old(db.users) && db.genres == old(db.genres)
    ensures !login.LoggedIn() ==> r == Redirect("/") && db.movies == old(db.movies)
    ensures login.LoggedIn() && (movieId !in old(db.movies) || genreId !in old(db.genres)) ==>
      r == Redirect("/") && db.movies == old(db.movies)
    ensures login.LoggedIn() && movieId in old(db.movies) && genreId in old(db.genres)
            && !SessionUserIs(login.entries, db.users, old(db.movies)[movieId].userId) ==>
      r == Abort(401) && db.movies == old(db.movies)
    ensures db.movies != old(db.movies) ==>
      isPost && movieId in old(db.movies) && genreId in old(db.genres)
      && Authorized(login.entries, db.users, old(db.movies)[movieId].userId)
    ensures movieId in old(db.movies) && genreId in old(db.genres)
            && Authorized(login.entries, db.users, old(db.movies)[movieId].userId) ==>
      if !isPost then r == Render("delete_movie.html") && db.movies == old(db.movies)
      else r == RedirectToGenre(genreId) && db.movies == old(db.movies) - {movieId}
  {
    if !login.LoggedIn() {
      return Redirect("/");
    }
    var user := GetUserFromSession(login.entries, db.users);
    if movieId !in db.movies || genreId !in db.genres {
      return Redirect("/");
    }
    var movie := db.movies[movieId];
    if !(user.Some? && user.value == movie.userId) {
      return Abort(401);
    }
    if !isPost {
      return Render("delete_movie.html");
    }
    db.movies := db.movies - {movieId};
    r := RedirectToGenre(genreId);
  }
}
