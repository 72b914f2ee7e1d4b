# The Movie Catalogue, modelled in Dafny

This project models the core logic of The Movie Catalogue, a Flask web application. Users sign in with Google. They keep lists ("genres") of movies with posters and YouTube trailers, and only the owner of a list or movie may edit or delete it. The model covers four parts:

- **Upload and URL helpers** (`uploads.dfy`, which builds on a model of Python's `str.split`, `rsplit` and `startswith` in `pystr.dfy`):
  - the allow-list check on poster file names;
  - `strip_string`;
  - the poster-renaming expression;
  - the rewrite of a trailer URL to a YouTube `/embed/` URL.
- **The login session** (`login.dfy`, `accounts.dfy`):
  - Flask's `login_session` is a class whose `entries` map the handlers update key by key;
  - `show_login` stores the anti-forgery token;
  - `gconnect` checks the token and Google's answers, then resolves or creates the user;
  - `gdisconnect` and `disconnect` revoke the token and delete the identity keys;
  - `login_required` gates the catalogue routes on `username`.
- **The tables** (`schema.dfy`, `store.dfy`):
  - `user`, `genre` and `movie` records;
  - the unique genre name;
  - the `serializable` JSON projections;
  - a `Database` class holding the three tables as maps keyed by row id. A new row takes SQLite's next rowid.
- **The catalogue routes** (`catalogue.dfy`):
  - `create_new_genre`, `edit_genre`, `delete_genre`, `create_movie`, `edit_movie` and `delete_movie`;
  - each one's `login_required` gate and ownership gate, plus its error paths.

Each route states every outcome in the source's order: not logged in, missing row, wrong owner, GET, failed poster rename, duplicate name, success. Each also states two further facts:

- any change to a table implies a POST from a logged-in session. For every route except `create_new_genre`, which has no ownership gate, the session's user must also be the owner: of the genre for the genre routes and `create_movie`, of the movie for `edit_movie` and `delete_movie`;
- the invariant `Database.Valid()` is kept. That invariant says genre names are unique and every movie's genre exists.

Google's three HTTP answers (code exchange, tokeninfo, userinfo) and the revoke call are inputs. So are the random state token, the request method and form fields, and the uploaded file name together with what `secure_filename` makes of it.

Behaviour follows the code wherever it is surprising:

- **Ownership** is decided by `get_user_from_session`. The session's `email` must match exactly one user row, and that row's id must equal the owner id. The session's `user_id` plays no part.
- **Missing rows:**
  - A missing genre in `edit_genre`, `delete_genre` or `create_movie` raises from `.one()`, which ends in the 500 page "Some server error occured." (the typo is the source's).
  - `edit_movie` and `delete_movie` catch that error and redirect home.
- **Duplicate genre names:** a duplicate fails at commit and answers "Duplicate Entry Tried.". The transaction is rolled back, so the tables do not change.
- **Poster names:** the new poster name joins `filename.split(".")[1]`, which is the second dot-separated piece and not the extension. A secured name without a dot raises IndexError, which ends in a 500 with nothing changed.
- **`create_new_genre` and `create_movie`** store the `user_id` taken from the URL unchecked. `create_new_genre` answers 500 after its commit when the session's user does not resolve, and the genre stays.
- **Session saving:** the Flask session is saved even when an error page answers. So `gconnect` keeps the stored credentials when the userinfo step fails, and `disconnect` keeps the deletions made before a missing key raised KeyError.
- **Status codes:** `gdisconnect` sends its failure message with status 200, because 400 is passed to `json.dumps` and not to `make_response`. `abort(401)` is modelled as `Abort(401)`, whatever page the 401 handler then renders.

## Model

| member | source | states |
|---|---|---|
| PyStr.IndexFrom | project.py:145 | the first occurrence of the separator at or after a position, or None when there is none |
| PyStr.Split | project.py:145 | Python `str.split(sep)` on a non-empty separator yields at least one piece |
| PyStr.JoinSplit | project.py:145 | joining the pieces of `split(sep)` with `sep` gives back the original string |
| PyStr.SplitPiecesFree | project.py:145 | no piece of `split(sep)` contains the separator |
| PyStr.SplitHasSecondPiece | project.py:145 | `split(sep)[1]` exists exactly when the separator occurs in the string |
| PyStr.SplitWithoutSeparator | project.py:145 | a string without the separator splits into itself alone |
| PyStr.SplitAfterFirst | project.py:350-353 | the first piece is the text before the first separator, and the rest is split independently |
| PyStr.SplitFirstPiece | project.py:145 | piece 0 is the text before the first occurrence of the separator: a prefix in which no occurrence starts, followed by the separator unless it is the whole string |
| PyStr.LastIndexOf | project.py:624 | the position of the last occurrence of a character, None exactly when it does not occur |
| PyStr.RSplitOnce | project.py:624 | `rsplit(c, 1)` yields two pieces exactly when `c` occurs; they rebuild the string and the second has no `c` |
| PyStr.OccursChar | project.py:624 | a one-character separator occurs exactly when the character is in the string |
| Uploads.PermittedFile | project.py:622-624 | an accepted file name contains a dot |
| Uploads.PermittedFileIff | project.py:622-624 | a name is accepted iff it has a dot and the text after its last dot is exactly `png`, `jpg`, `jpeg` or `gif` (so `PNG` is refused) |
| Uploads.PermittedFileByExtension | project.py:34 | `base.ext` with a dot-free `ext` is accepted iff `ext` is in the allow-list, whatever `base` is |
| Uploads.StripString | project.py:612-619 | the result holds only `[A-Za-z0-9_]` and is no longer than the input |
| Uploads.StripIsSubsequence | project.py:612-619 | the result is a subsequence of the input |
| Uploads.StripCounts | project.py:612-619 | each word character keeps its count; every other character is removed entirely |
| Uploads.StripKeepsWordString | project.py:612-619 | a string of word characters only is left unchanged |
| Uploads.StripIdempotent | project.py:612-619 | stripping twice equals stripping once |
| Uploads.PosterFileName | project.py:143-145 | the renamed poster exists exactly when the secured name has a dot (otherwise `split(".")[1]` raises) |
| Uploads.PosterNameOneDot | project.py:143-145 | for `base.ext`, the poster is strip(prefix) + base + tag + ext |
| Uploads.PosterNameDropsLaterPieces | project.py:181-183 | for `base.mid.rest`, the poster keeps `mid` as its extension and drops `rest` |
| Uploads.PosterNameOneDotPermitted | project.py:271-273 | renaming an accepted one-dot name gives a name the allow-list still accepts |
| Uploads.EmbedUrl | project.py:348-354 | the embed URL is non-empty exactly for the two YouTube prefixes, and then starts with the embed base |
| Uploads.EmbedShortLink | project.py:348-350 | `https://youtu.be/` + rest becomes the embed base + the text of rest before any further `.be/` |
| Uploads.EmbedWatchLink | project.py:351-353 | `https://www.youtube.com/watch?v=` + rest becomes the embed base + the text of rest before any further `?v=` |
| Schema.TextOrNull | database_setup.py:36 | a nullable column is JSON `null` exactly when it is empty, and otherwise the column's text |
| Schema.GenreNameWriteKeepsUnique | database_setup.py:24 | writing a genre keeps names unique iff no other genre already has its name |
| Schema.GenreSerializable | database_setup.py:30-40 | exactly the keys name, description, poster, owner, owner_id, id; owner_id is the genre's user id and owner that user's name; absent when the owner row is missing |
| Schema.GenreSerializableOwner | database_setup.py:37-38 | two genres that differ at most in their owner project alike iff they have the same owner id |
| Schema.MovieSerializable | database_setup.py:56-65 | exactly the keys name, storyline, poster, trailer_url, id, with the row's values |
| Schema.MovieSerializableHidesOwnership | database_setup.py:56-65 | the projection does not depend on genre_id or user_id |
| Store.Database.constructor | database_setup.py:67-68 | a freshly created database has three empty tables and satisfies the invariant |
| Store.NextRowId | project.py:627-633 | a new row id is unused: 1 in an empty table, otherwise one more than the largest id |
| LoginSessions.LoginSession.Delete | project.py:568-574 | `del login_session[key]` removes the key and reports whether it was there (KeyError otherwise) |
| LoginSessions.ShowLogin | project.py:425-431 | stores a 32-character A-Z/0-9 token under `state`, renders it, and changes nothing else |
| LoginSessions.GDisconnect | project.py:532-559 | 401 and no change without credentials; otherwise copies the access token and answers success or failure, both with status 200 |
| LoginSessions.DeletedOnLogout | project.py:565-574 | Google sessions lose all seven logout keys including `gplus_id`; other providers lose the six identity keys |
| LoginSessions.LoginSession.LoggedIn | project.py:87 | the test of `login_required`: the session holds `username` |
| LoginSessions.FirstMissing | project.py:569-574 | the position of the first key of a sequence that the session lacks, or the length when none is missing |
| LoginSessions.AfterIdentityDeletes | project.py:569-574 | the session after the six identity deletions: exactly the keys before the first missing one are gone, and all six when none is missing |
| LoginSessions.DeleteNext | project.py:569-574 | one identity `del`: it fails exactly when this key is the first missing one, leaving the earlier deletions in place |
| LoginSessions.DeleteIdentity | project.py:569-574 | deletes the six identity keys in order and stops at the first missing one: the new session is `AfterIdentityDeletes` of the old, and ok holds iff all six were present |
| LoginSessions.ForgetGoogle | project.py:566-568 | `gdisconnect` then `del gplus_id`: no change when the stored credentials are not credentials; otherwise the token is copied and `gplus_id` removed, failing exactly when it was missing |
| LoginSessions.Disconnect | project.py:562-577 | no `provider`: no change; a complete logout removes exactly the provider's logout keys and keeps `credentials` and `state`; a missing key answers 500 and the session is exactly what the deletions before it left; only logout keys are ever removed |
| Accounts.AtMostOneWithEmail | project.py:636-642 | with unique emails, at most one row matches an email |
| Accounts.GetUser | project.py:636-642 | a user is found iff exactly one row has the email, and it is that row |
| Accounts.SessionEmail | project.py:645-651 | the session's `email` text, present exactly when `email` holds text |
| Accounts.GetUserFromSession | project.py:645-651 | the result is the single row matching the session's email, and None when there is no such single row |
| Accounts.GetUserFromId | project.py:654-660 | the row with that id, None exactly when there is none |
| Accounts.GetUserFromIdRoundTrip | project.py:515-517 | with unique emails, the row found by id is the one its email resolves to, so `get_user` finds it again |
| Accounts.CreateUser | project.py:627-633 | adds a row with the session's name, email and picture under an unused id; other tables unchanged |
| Accounts.CreateKeepsEmailsUnique | project.py:513-517 | creating a user for an unseen email keeps emails unique, and the new row is the one that email resolves to |
| Accounts.GConnect | project.py:434-529 | each failed check answers in source order with no change; an already connected account answers 200 unchanged; otherwise credentials and profile are stored and `user_id` is the resolved or newly created user; unique emails and the session user's existence are preserved |
| Catalogue.Accepted | project.py:140 | an upload is renamed and stored when its file name is non-empty and `permitted_file` accepts it |
| Catalogue.Authorized | project.py:170 | the ownership gate: logged in, and the session's email resolves to exactly the owner's row |
| Catalogue.PosterAfterUpload | project.py:140-146 | no accepted upload keeps the poster; an accepted one gives the renamed poster, or the IndexError when the secured name has no dot |
| Catalogue.CreateNewGenre | project.py:129-156 | redirects when logged out; a POST adds one genre with the URL's user id under a new id unless the poster rename fails or the name is taken; 500 after the commit when the session user does not resolve |
| Catalogue.EditGenre | project.py:161-202 | only the owner's POST changes the genre (name, description, poster renamed after the new name); missing genre 500, wrong owner 401, duplicate name "Duplicate Entry Tried." with no change |
| Catalogue.DeleteGenre | project.py:207-245 | the owner's POST removes the genre and every movie of it, leaves all other genres and movies unchanged, and keeps the invariant; otherwise nothing changes |
| Catalogue.CreateMovie | project.py:250-285 | gated on the genre's owner; a POST adds one movie of that genre carrying the URL's user id under a new id |
| Catalogue.EditMovie | project.py:290-337 | missing movie or genre redirects home; only the movie's owner's POST changes its name, storyline, trailer and poster, and nothing else |
| Catalogue.DeleteMovie | project.py:363-395 | missing movie or genre redirects home; only the movie's owner's POST removes exactly that movie |

## Left out

- Flask routing, `render_template`, `flash`, `redirect`, `url_for` and the `nocache` decorator (project.py:57-75): presentation only. Responses are a small datatype that names the page or the redirect target.
- HTTP calls to Google (code exchange, tokeninfo, userinfo, revoke) and oauth2client: their answers are the inputs `GoogleReply` and `revoked`. A reply that lacks a field (a KeyError in the source) is not separately modelled.
- `random.choice` token generation: the token is a parameter constrained to 32 characters from A-Z and 0-9. `func.random()` ordering in the list pages is not modelled.
- werkzeug `secure_filename`: the secured name is an input of the upload.
- Saving posters and `os.remove`: file-system I/O. In the source, a failing `os.remove` either raises or hits the broken `except e:` clause; both end in a 500 and a rollback, and neither is modelled.
- The 4 MB upload limit and the 413 handler: enforced by Flask before the route runs.
- SQLAlchemy sessions, `scoped_session`, CSRF protection and the `unhandled_exception` logging: the rollback is modelled as "no table changes" on every error path.
- The 401 handler renders its page with status 413 (project.py:405-409): error-page rendering, not modelled.
- Flash messages: `flash` appends to the `_flashes` key of the same session dictionary, and that key is not modelled. So where a contract gives the exact session after `gconnect`, or says a route leaves the session unchanged, `_flashes` is not covered.
- Column lengths (`String(250)`, `String(500)`) are not enforced by SQLite and are not modelled.
- Foreign keys are not enforced by SQLite. The model stores URL-supplied user ids unchecked, as the source does, and keeps only "every movie's genre exists" as an invariant.
- Null form fields and a NULL `trailer_url` (an AttributeError in `show_movie_details`): form fields are strings in the model.
- The read-only pages and JSON endpoints (`show_genres`, `show_movies_genre`, `show_movie_details` rendering, `index_json*`) are not modelled, apart from the YouTube rewrite and the `serializable` projections they use.
- `get_user_id` (project.py:663-669) is not called by the modelled handlers and is not modelled.
- populate_database.py, test_database.py and the static files are not part of this model.
- The state token is never cleared after a successful connect, so no single-use property is stated.
