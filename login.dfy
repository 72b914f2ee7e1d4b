/**
 * Flask's `login_session` as a dictionary that the handlers update key by key:
 * `show_login` stores the anti-forgery token, `disconnect` deletes the identity
 * keys, and `login_required` gates the catalogue routes on `username`.
 */
module LoginSessions {
  import opened Responses

  /** The parts of the oauth2client credentials object the handlers read. */
  datatype Credentials = Credentials(accessToken: string, sub: string)

  /** What the handlers store under a key. */
  datatype Value = Text(text: string) | Number(number: int) | Creds(credentials: Credentials)

  class LoginSession {
    var entries: map<string, Value>

    constructor ()
      ensures entries == map[]
    {
      entries := map[];
    }

    /** The test of the `login_required` decorator: `username` is in the session. */
    predicate LoggedIn()
      reads this
    {
      "username" in entries
    }

    /** `del login_session[key]`: ok is false where Python raises KeyError. */
    method Delete(key: string) returns (ok: bool)
      modifies this
      ensures ok <==> key in old(entries)
      ensures entries == old(entries) - {key}
    {
      ok := key in entries;
      entries := entries - {key};
    }
  }

  /** `string.ascii_uppercase + string.digits` */
  predicate IsTokenChar(c: char) {
    ('A' <= c <= 'Z') || ('0' <= c <= '9')
  }

  /** The tokens `show_login` can draw: 32 characters from A-Z and 0-9. */
  predicate IsStateToken(t: string) {
    |t| == 32 && forall k :: 0 <= k < |t| ==> IsTokenChar(t[k])
  }

  /**
   * `show_login`: the random token is the parameter `token`; it is stored under
   * `state` and rendered into the login page. Nothing else changes.
   */
  method ShowLogin(login: LoginSession, token: string) returns (r: Response)
    requires IsStateToken(token)
    modifies login
    ensures login.entries == old(login.entries)["state" := Text(token)]
    ensures r == LoginPage(token)
    ensures login.LoggedIn() <==> old(login.LoggedIn())
  {
    login.entries := login.entries["state" := Text(token)];
    r := LoginPage(token);
  }

  /** The keys `disconnect` removes; `credentials` and `state` are not among them. */
  const LogoutKeys: set<string> := {"gplus_id", "access_token", "username", "email", "picture", "user_id", "provider"}

  /**
   * `gdisconnect`: without stored credentials, 401 and no change. Otherwise the
   * access token is copied under `access_token` and Google is asked to revoke it;
   * `revoked` is whether Google answered 200. The failure message is sent with
   * status 200, because the source hands 400 to `json.dumps` instead of to
   * `make_response`.
   */
  method GDisconnect(login: LoginSession, revoked: bool) returns (r: Response)
    modifies login
    ensures "credentials" !in old(login.entries) ==>
      r == Message(401, "Current user not connected.") && login.entries == old(login.entries)
    ensures "credentials" in old(login.entries) && !old(login.entries)["credentials"].Creds? ==>
      r == ServerError(GenericError) && login.entries == old(login.entries)
    ensures "credentials" in old(login.entries) && old(login.entries)["credentials"].Creds? ==>
      && login.entries == old(login.entries)["access_token" :=
           Text(old(login.entries)["credentials"].credentials.accessToken)]
      && r == (if revoked then Message(200, "Successfully disconnected.")
               else Message(200, "Failed to revoke token for given user."))
  {
    if "credentials" !in login.entries {
      r := Message(401, "Current user not connected.");
      return;
    }
    var stored := login.entries["credentials"];
    if !stored.Creds? {
      r := ServerError(GenericError);
      return;
    }
    login.entries := login.entries["access_token" := Text(stored.credentials.accessToken)];
    r := if revoked then Message(200, "Successfully disconnected.")
         else Message(200, "Failed to revoke token for given user.");
  }

  /**
   * Every `del` in `disconnect` finds its key. For Google, `gdisconnect` first
   * copies the stored credentials' access token under `access_token` (and an
   * attribute lookup on stored credentials that are not credentials fails).
   */
  ghost predicate LogoutCompletes(m: map<string, Value>) {
    && "provider" in m
    && {"username", "email", "picture", "user_id"} <= m.Keys
    && (if m["provider"] == Text("google") then
          && "gplus_id" in m
          && ("credentials" in m ==> m["credentials"].Creds?)
          && ("access_token" in m || "credentials" in m)
        else "access_token" in m)
  }

  /** Google sessions also lose `gplus_id`; other providers only the identity keys. */
  function DeletedOnLogout(provider: Value): (keys: set<string>)
    ensures IdentityKeys <= keys <= LogoutKeys
    ensures "gplus_id" in keys <==> provider == Text("google")
  {
    if provider == Text("google") then LogoutKeys else IdentityKeys
  }

  /** `after` differs from `before` only by deleted logout keys and a new `access_token`. */
  ghost predicate OnlyLogoutKeysTouched(before: map<string, Value>, after: map<string, Value>) {
    && after.Keys <= before.Keys + {"access_token"}
    && forall k :: k in before && k !in LogoutKeys ==> k in after && after[k] == before[k]
  }

  /** The keys deleted for every provider, in the order `disconnect` deletes them. */
  const IdentityOrder: seq<string> := ["access_token", "username", "email", "picture", "user_id", "provider"]

  /** The same keys as a set. */
  const IdentityKeys: set<string> := {"access_token", "username", "email", "picture", "user_id", "provider"}

  /** The position of the first of `keys` missing from `m`, or `|keys|` when none is. */
  function FirstMissing(m: map<string, Value>, keys: seq<string>): (j: nat)
    ensures j <= |keys|
    ensures forall i :: 0 <= i < j ==> keys[i] in m
    ensures j < |keys| ==> keys[j] !in m
  {
    if keys == [] || keys[0] !in m then 0 else 1 + FirstMissing(m, keys[1..])
  }

  /** The first `j` identity keys. */
  function IdentityPrefix(j: nat): (keys: set<string>)
    requires j <= |IdentityOrder|
    ensures keys <= IdentityKeys
  {
    set i | 0 <= i < j :: IdentityOrder[i]
  }

  /** The prefixes of the deletion order, written out. */
  lemma IdentityPrefixes()
    ensures IdentityPrefix(0) == {}
    ensures IdentityPrefix(1) == {"access_token"}
    ensures IdentityPrefix(2) == {"access_token", "username"}
    ensures IdentityPrefix(3) == {"access_token", "username", "email"}
    ensures IdentityPrefix(4) == {"access_token", "username", "email", "picture"}
    ensures IdentityPrefix(5) == {"access_token", "username", "email", "picture", "user_id"}
    ensures IdentityPrefix(6) == IdentityKeys
  {
    assert IdentityOrder[0] == "access_token" && IdentityOrder[1] == "username" && IdentityOrder[2] == "email";
    assert IdentityOrder[3] == "picture" && IdentityOrder[4] == "user_id" && IdentityOrder[5] == "provider";
  }

  /**
   * The session after the six identity `del` statements: the keys before the
   * first missing one are gone, the rest stay.
   */
  function AfterIdentityDeletes(m: map<string, Value>): (after: map<string, Value>)
    ensures after.Keys <= m.Keys && forall k :: k in after ==> after[k] == m[k]
    ensures forall k :: k in m && k !in IdentityKeys ==> k in after
  {
    m - IdentityPrefix(FirstMissing(m, IdentityOrder))
  }

  /**
   * No identity key is missing exactly when all six are present, and then all six
   * are deleted.
   */
  lemma AllIdentityKeysPresent(m: map<string, Value>)
    ensures FirstMissing(m, IdentityOrder) == |IdentityOrder| <==> IdentityKeys <= m.Keys
    ensures IdentityKeys <= m.Keys ==> AfterIdentityDeletes(m) == m - IdentityKeys
  {
    IdentityPrefixes();
    var j := FirstMissing(m, IdentityOrder);
    if j < |IdentityOrder| {
      assert IdentityOrder[j] in IdentityPrefix(6);
    } else {
      forall k | k in IdentityKeys ensures k in m {
        assert k in IdentityPrefix(6);
      }
    }
  }

  /**
   * When the first `k` identity keys are in `m` and the next one is not (or
   * `k` is six), the deletions stop at `k`.
   */
  lemma StoppedAt(m: map<string, Value>, k: nat)
    requires k <= |IdentityOrder|
    requires forall i :: 0 <= i < k ==> IdentityOrder[i] in m
    requires k < |IdentityOrder| ==> IdentityOrder[k] !in m
    ensures FirstMissing(m, IdentityOrder) == k
    ensures AfterIdentityDeletes(m) == m - IdentityPrefix(k)
  {
  }

  /** No key appears twice in the deletion order. */
  lemma IdentityOrderDistinct()
    ensures forall i, j :: 0 <= i < j < |IdentityOrder| ==> IdentityOrder[i] != IdentityOrder[j]
  {
  }

  /** The prefix grows by one key at a time. */
  lemma IdentityPrefixStep(n: nat)
    requires n < |IdentityOrder|
    ensures IdentityPrefix(n + 1) == IdentityPrefix(n) + {IdentityOrder[n]}
  {
  }

  /**
   * The `del` of the identity key at position `n`, after the `n` before it were
   * deleted from `m`: ok is false exactly when the deletions stop here.
   */
  method DeleteNext(login: LoginSession, ghost m: map<string, Value>, n: nat) returns (ok: bool)
    requires n < |IdentityOrder|
    requires forall i :: 0 <= i < n ==> IdentityOrder[i] in m
    requires login.entries == m - IdentityPrefix(n)
    modifies login
    ensures !ok ==> FirstMissing(m, IdentityOrder) == n && login.entries == AfterIdentityDeletes(m)
    ensures ok ==> forall i :: 0 <= i < n + 1 ==> IdentityOrder[i] in m
    ensures ok ==> login.entries == m - IdentityPrefix(n + 1)
  {
    ok := login.Delete(IdentityOrder[n]);
    if !ok {
      StoppedAt(m, n);
    } else {
      IdentityPrefixStep(n);
      IdentityOrderDistinct();
    }
  }

  /**
   * The six `del` statements of `disconnect` after the provider-specific part:
   * ok is false when one of them raises KeyError; the deletions before it stay.
   */
  method DeleteIdentity(login: LoginSession) returns (ok: bool)
    modifies login
    ensures ok <==> IdentityKeys <= old(login.entries).Keys
    ensures ok <==> FirstMissing(old(login.entries), IdentityOrder) == |IdentityOrder|
    ensures login.entries == AfterIdentityDeletes(old(login.entries))
    ensures ok ==> login.entries == old(login.entries) - IdentityKeys
  {
    ghost var m := login.entries;
    AllIdentityKeysPresent(m);
    ok := DeleteNext(login, m, 0);
    if !ok {
      return;
    }
    ok := DeleteNext(login, m, 1);
    if !ok {
      return;
    }
    ok := DeleteNext(login, m, 2);
    if !ok {
      return;
    }
    ok := DeleteNext(login, m, 3);
    if !ok {
      return;
    }
    ok := DeleteNext(login, m, 4);
    if !ok {
      return;
    }
    ok := DeleteNext(login, m, 5);
  }

  /** The session after `gdisconnect` copied the stored access token, if there is one. */
  function AfterRevoke(m: map<string, Value>): map<string, Value>
  {
    if "credentials" in m && m["credentials"].Creds? then
      m["access_token" := Text(m["credentials"].credentials.accessToken)]
    else m
  }

  /**
   * The Google part of `disconnect`: `gdisconnect`, whose answer is ignored, then
   * `del login_session['gplus_id']`. done is false when either raises.
   */
  method ForgetGoogle(login: LoginSession, revoked: bool) returns (done: bool)
    modifies login
    ensures "credentials" in old(login.entries) && !old(login.entries)["credentials"].Creds? ==>
      !done && login.entries == old(login.entries)
    ensures !("credentials" in old(login.entries) && !old(login.entries)["credentials"].Creds?) ==>
      && (done <==> "gplus_id" in old(login.entries))
      && login.entries == AfterRevoke(old(login.entries)) - {"gplus_id"}
  {
    var answer := GDisconnect(login, revoked);
    if answer.ServerError? {
      return false;
    }
    done := login.Delete("gplus_id");
  }

  /**
   * `disconnect`: with a `provider` key, revoke (Google only; whether Google
   * confirmed is `revoked`, and its answer is ignored) and delete the identity keys
   * one by one; a missing key raises KeyError part way, which ends in a 500 with
   * the earlier deletions kept. Without `provider` nothing changes.
   */
  method Disconnect(login: LoginSession, revoked: bool) returns (r: Response)
    modifies login
    ensures "provider" !in old(login.entries) ==> r == Redirect("/") && login.entries == old(login.entries)
    ensures LogoutCompletes(old(login.entries)) ==>
      && r == Redirect("/")
      && login.entries == old(login.entries) - DeletedOnLogout(old(login.entries)["provider"])
    ensures "provider" in old(login.entries) && !LogoutCompletes(old(login.entries)) ==>
      r == ServerError(GenericError)
    ensures "provider" in old(login.entries) && old(login.entries)["provider"] != Text("google") ==>
      login.entries == AfterIdentityDeletes(old(login.entries))
    ensures "provider" in old(login.entries) && old(login.entries)["provider"] == Text("google") ==>
      if "credentials" in old(login.entries) && !old(login.entries)["credentials"].Creds? then
        login.entries == old(login.entries)
      else if "gplus_id" !in old(login.entries) then
        login.entries == AfterRevoke(old(login.entries))
      else
        login.entries == AfterIdentityDeletes(AfterRevoke(old(login.entries)) - {"gplus_id"})
    ensures OnlyLogoutKeysTouched(old(login.entries), login.entries)
  {
    r := Redirect("/");
    if "provider" !in login.entries {
      return;
    }
    if login.entries["provider"] == Text("google") {
      var done := ForgetGoogle(login, revoked);
      if !done {
        r := ServerError(GenericError);
        return;
      }
    }
    ghost var beforeDeletes := login.entries;
    var ok := DeleteIdentity(login);
    if !ok {
      r := ServerError(GenericError);
    } else if old(login.entries)["provider"] == Text("google") {
      assert login.entries == beforeDeletes - IdentityKeys;
      assert login.entries == old(login.entries) - LogoutKeys;
    }
  }
}
