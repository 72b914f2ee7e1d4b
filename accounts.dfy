/**
 * The user directory of project.py (`get_user`, `get_user_from_session`,
 * `get_user_from_id`, `create_user`) and the Google sign-in handler `gconnect`,
 * with Google's three answers as inputs.
 */
module Accounts {
  import opened Wrappers
  import opened Responses
  import opened Schema
  import opened Store
  import opened LoginSessions

  /** The ids of the user rows whose email is `email`. */
  function IdsWithEmail(users: map<int, User>, email: string): set<int> {
    set id | id in users && users[id].email == email
  }

  /** No two user rows share an email (the schema does not demand it). */
  ghost predicate UniqueEmails(users: map<int, User>) {
    forall a, b :: a in users && b in users && users[a].email == users[b].email ==> a == b
  }

  /** With unique emails, at most one row has a given email. */
  lemma AtMostOneWithEmail(users: map<int, User>, email: string)
    requires UniqueEmails(users)
    ensures |IdsWithEmail(users, email)| <= 1
  {
    var ids := IdsWithEmail(users, email);
    if ids != {} {
      var a := SetHasElement(ids);
      forall x | x in ids ensures x == a {
        assert users[x].email == email == users[a].email;
      }
      assert ids == {a};
    }
  }

  /**
   * `get_user(email)`: `query(User).filter_by(email=email).one()`, which raises
   * (and yields None) unless exactly one row matches.
   */
  method GetUser(users: map<int, User>, email: string) returns (found: Option<int>)
    ensures found.Some? <==> |IdsWithEmail(users, email)| == 1
    ensures found.Some? ==> IdsWithEmail(users, email) == {found.value}
  {
    var rest := users.Keys;
    var hits: set<int> := {};
    while rest != {}
      invariant rest <= users.Keys
      invariant hits == IdsWithEmail(users, email) - rest
      decreases rest
    {
      ghost var w := SetHasElement(rest);
      var id :| id in rest;
      if users[id].email == email {
        hits := hits + {id};
      }
      rest := rest - {id};
    }
    if |hits| == 1 {
      ghost var w := SetHasElement(hits);
      var id :| id in hits;
      assert hits == {id} by {
        assert |hits - {id}| == 0;
      }
      found := Some(id);
    } else {
      found := None;
    }
  }

  /** The session's `email` as a string, when there is one. */
  function SessionEmail(entries: map<string, Value>): (e: Option<string>)
    ensures e.Some? <==> "email" in entries && entries["email"].Text?
    ensures e.Some? ==> e.value == entries["email"].text
  {
    if "email" in entries && entries["email"].Text? then Some(entries["email"].text) else None
  }

  /** The user `get_user_from_session` resolves to is the row `id`. */
  ghost predicate SessionUserIs(entries: map<string, Value>, users: map<int, User>, id: int) {
    SessionEmail(entries).Some? && IdsWithEmail(users, SessionEmail(entries).value) == {id}
  }

  /**
   * `get_user_from_session(s)`: `get_user(s['email'])` when the session has an
   * email, else None.
   */
  method GetUserFromSession(entries: map<string, Value>, users: map<int, User>) returns (user: Option<int>)
    ensures user.Some? ==> SessionUserIs(entries, users, user.value)
    ensures forall id :: SessionUserIs(entries, users, id) ==> user == Some(id)
  {
    var email := SessionEmail(entries);
    if email.None? {
      return None;
    }
    user := GetUser(users, email.value);
    forall id | SessionUserIs(entries, users, id) ensures user == Some(id) {
      assert id in IdsWithEmail(users, email.value);
    }
  }

  /** `get_user_from_id(id)`: the row with that key, or None. */
  function GetUserFromId(users: map<int, User>, id: int): (user: Option<User>)
    ensures user.Some? <==> id in users
    ensures user.Some? ==> user.value == users[id]
  {
    if id in users then Some(users[id]) else None
  }

  /**
   * With unique emails, the row `get_user_from_id` returns is the one its email
   * resolves to, so `get_user` finds it again.
   */
  lemma GetUserFromIdRoundTrip(users: map<int, User>, id: int)
    requires UniqueEmails(users) && id in users
    ensures GetUserFromId(users, id).Some?
    ensures IdsWithEmail(users, GetUserFromId(users, id).value.email) == {id}
  {
    var email := users[id].email;
    forall x | x in IdsWithEmail(users, email) ensures x == id {
      assert users[x].email == users[id].email;
    }
  }

  /**
   * `create_user(login_session)`: a new row from the session's `username`,
   * `email` and `picture`, under a key no row has.
   */
  method CreateUser(db: Database, name: string, email: string, picture: string) returns (id: int)
    requires db.Valid()
    modifies db
    ensures db.Valid()
    ensures id !in old(db.users)
    ensures db.users == old(db.users)[id := User(name, email, Some(picture))]
    ensures db.genres == old(db.genres) && db.movies == old(db.movies)
  {
    id := NextRowId(db.users.Keys);
    db.users := db.users[id := User(name, email, Some(picture))];
  }

  /** Creating a user for an email no row has keeps emails unique, and finds that user. */
  lemma CreateKeepsEmailsUnique(users: map<int, User>, id: int, u: User)
    requires UniqueEmails(users) && id !in users && IdsWithEmail(users, u.email) == {}
    ensures UniqueEmails(users[id := u])
    ensures IdsWithEmail(users[id := u], u.email) == {id}
  {
    forall b | b in users ensures users[b].email != u.email {
      assert b !in IdsWithEmail(users, u.email);
    }
  }

  /** Google's answer to the tokeninfo request. */
  datatype TokenInfo = TokenInfo(error: Option<string>, userId: string, issuedTo: string)

  /** Google's answer to the userinfo request. */
  datatype Profile = Profile(name: string, email: string, picture: string)

  /**
   * What Google answers during one `gconnect`: the credentials from exchanging the
   * one-time code (None: FlowExchangeError), the token metadata, and the profile
   * (None: the userinfo request or its decoding failed).
   */
  datatype GoogleReply = GoogleReply(exchanged: Option<Credentials>, tokenInfo: TokenInfo, profile: Option<Profile>)

  /** The presented `state` argument equals the stored token. */
  predicate StateMatches(entries: map<string, Value>, presented: Option<string>) {
    "state" in entries && presented.Some? && entries["state"] == Text(presented.value)
  }

  /** The exchange worked and tokeninfo vouches for this user and this client. */
  predicate TokenVerified(reply: GoogleReply, clientId: string) {
    && reply.exchanged.Some?
    && reply.tokenInfo.error.None?
    && reply.tokenInfo.userId == reply.exchanged.value.sub
    && reply.tokenInfo.issuedTo == clientId
  }

  /** Credentials are stored and `gplus_id` is this Google account. */
  predicate AlreadyConnected(entries: map<string, Value>, gplusId: string) {
    "credentials" in entries && "gplus_id" in entries && entries["gplus_id"] == Text(gplusId)
  }

  /** The session after the credentials and the Google account id are stored. */
  function WithCredentials(entries: map<string, Value>, c: Credentials): map<string, Value> {
    entries["credentials" := Creds(c)]["gplus_id" := Text(c.sub)]
  }

  /** The session after a complete sign-in as row `uid`. */
  function SignedIn(entries: map<string, Value>, c: Credentials, p: Profile, uid: int): map<string, Value> {
    WithCredentials(entries, c)["username" := Text(p.name)]["picture" := Text(p.picture)]
      ["email" := Text(p.email)]["provider" := Text("google")]["user_id" := Number(uid)]
  }

  /**
   * Resolve-or-create: `uid` is the one row with the profile's email and the table
   * is unchanged, or no single row has it and `uid` is a new row made from the
   * profile.
   */
  ghost predicate ResolvedOrCreated(before: map<int, User>, after: map<int, User>, p: Profile, uid: int) {
    || (IdsWithEmail(before, p.email) == {uid} && after == before)
    || (|IdsWithEmail(before, p.email)| != 1 && uid !in before
        && after == before[uid := User(p.name, p.email, Some(p.picture))])
  }

  /** A signed-in session's `user_id` names an existing row. */
  ghost predicate SessionUserExists(entries: map<string, Value>, users: map<int, User>) {
    "user_id" in entries ==> entries["user_id"].Number? && entries["user_id"].number in users
  }

  /**
   * `gconnect`: the checks in the source's order, each failure answering without
   * touching the session or the tables; an already connected account answers 200
   * unchanged; otherwise the credentials are stored, the profile copied into the
   * session and the user resolved or created.
   */
  method GConnect(login: LoginSession, db: Database, presented: Option<string>, clientId: string, reply: GoogleReply)
    returns (r: Response)
    requires db.Valid()
    modifies login, db
    ensures db.Valid()
    ensures db.genres == old(db.genres) && db.movies == old(db.movies)
    ensures "state" !in old(login.entries) ==>
      r == ServerError(GenericError) && login.entries == old(login.entries) && db.users == old(db.users)
    ensures "state" in old(login.entries) && !StateMatches(old(login.entries), presented) ==>
      r == Message(401, "Invalid state parameter.")
      && login.entries == old(login.entries) && db.users == old(db.users)
    ensures StateMatches(old(login.entries), presented) && reply.exchanged.None? ==>
      r == Message(401, "Failed to upgrade the authorization code.")
      && login.entries == old(login.entries) && db.users == old(db.users)
    ensures StateMatches(old(login.entries), presented) && reply.exchanged.Some? && reply.tokenInfo.error.Some? ==>
      r == Message(500, reply.tokenInfo.error.value)
      && login.entries == old(login.entries) && db.users == old(db.users)
    ensures StateMatches(old(login.entries), presented) && reply.exchanged.Some? && reply.tokenInfo.error.None?
            && reply.tokenInfo.userId != reply.exchanged.value.sub ==>
      r == Message(401, "Token's user ID doesn't match given user ID.")
      && login.entries == old(login.entries) && db.users == old(db.users)
    ensures StateMatches(old(login.entries), presented) && reply.exchanged.Some? && reply.tokenInfo.error.None?
            && reply.tokenInfo.userId == reply.exchanged.value.sub && reply.tokenInfo.issuedTo != clientId ==>
      r == Message(401, "Token's client ID does not match app's.")
      && login.entries == old(login.entries) && db.users == old(db.users)
    ensures StateMatches(old(login.entries), presented) && TokenVerified(reply, clientId)
            && AlreadyConnected(old(login.entries), reply.exchanged.value.sub) ==>
      r == Message(200, "Current user is already connected.")
      && login.entries == old(login.entries) && db.users == old(db.users)
    ensures StateMatches(old(login.entries), presented) && TokenVerified(reply, clientId)
            && !AlreadyConnected(old(login.entries), reply.exchanged.value.sub) && reply.profile.None? ==>
      r == ServerError(GenericError)
      && login.entries == WithCredentials(old(login.entries), reply.exchanged.value)
      && db.users == old(db.users)
    ensures StateMatches(old(login.entries), presented) && TokenVerified(reply, clientId)
            && !AlreadyConnected(old(login.entries), reply.exchanged.value.sub) && reply.profile.Some? ==>
      var p := reply.profile.value;
      && r == Welcome(p.name, p.picture)
      && "user_id" in login.entries && login.entries["user_id"].Number?
      && login.entries == SignedIn(old(login.entries), reply.exchanged.value, p, login.entries["user_id"].number)
      && ResolvedOrCreated(old(db.users), db.users, p, login.entries["user_id"].number)
      && (UniqueEmails(old(db.users)) ==> IdsWithEmail(db.users, p.email) == {login.entries["user_id"].number})
    ensures UniqueEmails(old(db.users)) ==> UniqueEmails(db.users)
    ensures SessionUserExists(old(login.entries), old(db.users)) ==> SessionUserExists(login.entries, db.users)
    ensures db.users.Keys >= old(db.users).Keys
  {
    if "state" !in login.entries {
      return ServerError(GenericError);
    }
    if !StateMatches(login.entries, presented) {
      return Message(401, "Invalid state parameter.");
    }
    if reply.exchanged.None? {
      return Message(401, "Failed to upgrade the authorization code.");
    }
    var credentials := reply.exchanged.value;
    if reply.tokenInfo.error.Some? {
      return Message(500, reply.tokenInfo.error.value);
    }
    var gplusId := credentials.sub;
    if reply.tokenInfo.userId != gplusId {
      return Message(401, "Token's user ID doesn't match given user ID.");
    }
    if reply.tokenInfo.issuedTo != clientId {
      return Message(401, "Token's client ID does not match app's.");
    }
    if AlreadyConnected(login.entries, gplusId) {
      return Message(200, "Current user is already connected.");
    }
    login.entries := login.entries["credentials" := Creds(credentials)];
    login.entries := login.entries["gplus_id" := Text(gplusId)];
    if reply.profile.None? {
      return ServerError(GenericError);
    }
    var data := reply.profile.value;
    login.entries := login.entries["username" := Text(data.name)];
    login.entries := login.entries["picture" := Text(data.picture)];
    login.entries := login.entries["email" := Text(data.email)];
    login.entries := login.entries["provider" := Text("google")];
    var user := GetUser(db.users, data.email);
    var uid: int;
    if user.None? {
      uid := CreateUser(db, data.name, data.email, data.picture);
      if UniqueEmails(old(db.users)) {
        AtMostOneWithEmail(old(db.users), data.email);
        CreateKeepsEmailsUnique(old(db.users), uid, User(data.name, data.email, Some(data.picture)));
      }
    } else {
      uid := user.value;
    }
    login.entries := login.entries["user_id" := Number(uid)];
    r := Welcome(data.name, data.picture);
  }
}
