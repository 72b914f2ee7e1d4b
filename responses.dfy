/** What a request handler of project.py answers, reduced to what decides behaviour. */
module Responses {

  datatype Response =
    | Redirect(location: string)            // redirect(location)
    | RedirectToGenre(genreId: int)         // redirect(url_for('show_movies_genre', genre_id=...))
    | Render(template: string)              // render_template(template, ...), status 200
    | LoginPage(state: string)              // login.html rendered with STATE=state
    | Message(status: int, text: string)    // make_response(json.dumps(text), status)
    | Welcome(username: string, picture: string)  // gconnect's HTML greeting, status 200
    | Abort(status: int)                    // abort(status)
    | ServerError(error: string)            // unhandled_exception: 500, rollback

  /** The two texts of `unhandled_exception` (the misspelling is the source's). */
  const GenericError := "Some server error occured."
  const DuplicateError := "Duplicate Entry Tried."
}
