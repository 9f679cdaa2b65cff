/**
 * The authentication context: the signed-in user and the loading flag that
 * the route gates and pages read, driven by the start-up check, login,
 * register and logout. The session store is the AuthService.Session object;
 * toasts, console output and navigation are left out, except that logout
 * returns the path it navigates to.
 */
module AuthContext {
  import opened Wrappers
  import opened JsValues
  import opened SessionJson
  import opened AuthResponses
  import opened AuthService
  import Text

  const LoginPath := "/login"

  /** `!!user`. */
  predicate IsAuthenticated(user: Option<SessionUser>)
  {
    user.Some?
  }

  /** `user && user.isAdmin`, read for its truthiness. */
  predicate IsAdmin(user: Option<SessionUser>)
  {
    user.Some? && Truthy(user.value.isAdmin)
  }

  /** Whoever is an admin is signed in. */
  lemma AdminIsAuthenticated(user: Option<SessionUser>)
    ensures IsAdmin(user) ==> IsAuthenticated(user)
    ensures user.None? ==> !IsAdmin(user) && !IsAuthenticated(user)
  {
  }

  /**
   * The start-up check: the user and the storage after it. The user is
   * replaced only when the token is valid: by the stored user, or by null
   * when none is stored; when the stored user cannot be parsed the session
   * is logged out instead.
   */
  function Startup(user: Option<SessionUser>, storage: Storage, decode: string -> Option<Claims>, nowMs: int)
    : (r: (Option<SessionUser>, Storage))
    ensures !CheckToken(storage, decode, nowMs).Valid? ==> r.0 == user
    ensures CheckToken(storage, decode, nowMs).Undecodable? || CheckToken(storage, decode, nowMs).Expired? ==> r.1 == Removed(storage)
    ensures CheckToken(storage, decode, nowMs).NoToken? ==> r.1 == storage
    ensures r.0.Some? && r.0 != user ==>
      CheckToken(storage, decode, nowMs).Valid? && CurrentUserIn(storage) == User(r.0.value) && r.1 == storage
    ensures CheckToken(storage, decode, nowMs).Valid? && CurrentUserIn(storage).Throws? ==> r == (user, Removed(storage))
  {
    match CheckToken(storage, decode, nowMs)
    case NoToken => (user, storage)
    case Undecodable => (user, Removed(storage))
    case Expired => (user, Removed(storage))
    case Valid =>
      match CurrentUserIn(storage)
      case NoUser => (None, storage)
      case User(u) => (Some(u), storage)
      case Throws => (user, Removed(storage))
  }

  /** A reload after a login keeps the session until the token expires. */
  lemma {:induction false} ReloadKeepsSession(storage: Storage, data: JsObject, decode: string -> Option<Claims>, nowMs: int)
    requires Truthy(Get(data, "token"))
    requires var token := ToJsString(Get(data, "token"));
      decode(token).Some? && !IsExpired(decode(token).value, nowMs)
    ensures Startup(None, Stored(storage, data), decode, nowMs) == (Some(SessionUserOf(data)), Stored(storage, data))
  {
    StoredUserReadsBack(storage, data);
    var token := ToJsString(Get(data, "token"));
    assert token != "" by {
      if Get(data, "token").Num? {
        assert |Text.IntToString(Get(data, "token").n)| > 0;
      }
    }
    assert HasItem(Stored(storage, data), TokenKey);
  }

  class Provider {
    var user: Option<SessionUser>
    var loading: bool

    constructor ()
      ensures user == None && loading
    {
      user := None;
      loading := true;
    }

    /** The mount effect: the start-up check, after which loading is false. */
    method CheckLoggedIn(session: Session, decode: string -> Option<Claims>, nowMs: int)
      modifies this, session
      ensures (user, session.storage) == Startup(old(user), old(session.storage), decode, nowMs)
      ensures !loading
    {
      var loggedIn := session.IsLoggedIn(decode, nowMs);
      if loggedIn {
        var current := CurrentUserIn(session.storage);
        match current {
          case NoUser => user := None;
          case User(u) => user := Some(u);
          case Throws => session.Logout();
        }
      }
      loading := false;
    }

    /**
     * login: on an answer the user becomes the session user read from it
     * under the names the server writes (userId, username, admin; the
     * client as written reads id and isAdmin, see SessionUserOfAsWritten),
     * whether or not it carried a token, and the result is true; when the
     * request throws the user is kept and the result is false. Loading is
     * false afterwards.
     */
    method Login(session: Session, response: Option<JsObject>) returns (ok: bool)
      modifies this, session
      ensures ok == response.Some?
      ensures session.storage == if response.Some? then Stored(old(session.storage), response.value) else old(session.storage)
      ensures user == if response.Some? then Some(SessionUserOf(response.value)) else old(user)
      ensures !loading
    {
      loading := true;
      var answer := session.Login(response);
      if answer.Some? {
        user := Some(SessionUserOf(answer.value));
        ok := true;
      } else {
        ok := false;
      }
      loading := false;
    }

    /** register: the same flow over the register answer. */
    method Register(session: Session, response: Option<JsObject>) returns (ok: bool)
      modifies this, session
      ensures ok == response.Some?
      ensures session.storage == if response.Some? then Stored(old(session.storage), response.value) else old(session.storage)
      ensures user == if response.Some? then Some(SessionUserOf(response.value)) else old(user)
      ensures !loading
    {
      loading := true;
      var answer := session.Register(response);
      if answer.Some? {
        user := Some(SessionUserOf(answer.value));
        ok := true;
      } else {
        ok := false;
      }
      loading := false;
    }

    /** logout: the session keys removed, no user, and navigation to the login page. */
    method Logout(session: Session) returns (to: string)
      modifies this, session
      ensures session.storage == Removed(old(session.storage))
      ensures user == None && !IsAuthenticated(user) && !IsAdmin(user)
      ensures loading == old(loading) && to == LoginPath
    {
      session.Logout();
      user := None;
      to := LoginPath;
    }
  }

  /** A server answer signs in its user, with the admin flag the server holds. */
  lemma SignedInFromAnswer(r: AuthResponse)
    ensures IsAuthenticated(Some(SessionUserOf(Body(r))))
    ensures IsAdmin(Some(SessionUserOf(Body(r)))) <==> r.isAdmin
  {
    SessionUserOfReadsResponse(r);
  }

  /** As written, a server answer never makes the context's user an admin. */
  lemma AsWrittenNeverAdmin(r: AuthResponse)
    ensures !IsAdmin(Some(SessionUserOfAsWritten(Body(r))))
  {
    AsWrittenLosesIdAndAdmin(r);
  }
}
