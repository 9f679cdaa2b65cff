/**
 * The client's session store: the token and the session user kept in
 * localStorage, written on login and register, removed on logout, and the
 * token's expiry check, which logs out as a side effect. The HTTP answer is
 * a parameter (None when the request throws), and so are the token decoder
 * and the clock, in milliseconds since the epoch.
 */
module AuthService {
  import opened Wrappers
  import opened JsValues
  import opened SessionJson
  import opened AuthResponses

  /** localStorage: keys to the strings stored under them. */
  type Storage = map<string, string>

  const TokenKey := "token"
  const UserKey := "user"

  /** `localStorage.getItem(key)` is truthy: the key is stored with a non-empty string. */
  predicate HasItem(storage: Storage, key: string)
  {
    key in storage && storage[key] != ""
  }

  /**
   * The storage after a login or register answer: both keys are written
   * only when the answer carries a truthy token. The session user is read
   * under the names the server writes; the client as written reads other
   * names, which AuthResponses.SessionUserOfAsWritten models.
   */
  function Stored(storage: Storage, data: JsObject): (r: Storage)
    ensures Truthy(Get(data, "token")) ==>
      (r.Keys == storage.Keys + {TokenKey, UserKey}
       && r[TokenKey] == ToJsString(Get(data, "token")) && r[UserKey] == Stringify(SessionUserOf(data)))
    ensures !Truthy(Get(data, "token")) ==> r == storage
    ensures forall k :: k in storage && k != TokenKey && k != UserKey ==> k in r && r[k] == storage[k]
  {
    if Truthy(Get(data, "token"))
    then storage[TokenKey := ToJsString(Get(data, "token"))][UserKey := Stringify(SessionUserOf(data))]
    else storage
  }

  /** logout: both session keys removed, every other key as it was. */
  function Removed(storage: Storage): (r: Storage)
    ensures TokenKey !in r && UserKey !in r
    ensures forall k :: k in storage && k != TokenKey && k != UserKey ==> k in r && r[k] == storage[k]
    ensures r.Keys <= storage.Keys
  {
    storage - {TokenKey, UserKey}
  }

  /** What getCurrentUser yields. */
  datatype CurrentUser =
    | NoUser                 // null: nothing, or an empty string, stored
    | User(u: SessionUser)   // the parsed object
    | Throws                 // JSON.parse rejects the stored text

  function CurrentUserIn(storage: Storage): (r: CurrentUser)
    ensures r.NoUser? <==> !HasItem(storage, UserKey)
    ensures r.User? ==> Parse(storage[UserKey]) == Some(r.u)
    ensures HasItem(storage, UserKey) && Parse(storage[UserKey]).None? ==> r.Throws?
  {
    if !HasItem(storage, UserKey) then NoUser
    else match Parse(storage[UserKey])
      case None => Throws
      case Some(u) => User(u)
  }

  /** isAdmin: `user && user.isAdmin`; None where getCurrentUser throws. */
  function AdminFlag(storage: Storage): (r: Option<JsValue>)
    ensures !HasItem(storage, UserKey) ==> r == Some(Null) && !Truthy(r.value)
    ensures r.Some? && Truthy(r.value) ==> CurrentUserIn(storage).User? && Truthy(CurrentUserIn(storage).u.isAdmin)
  {
    match CurrentUserIn(storage)
    case NoUser => Some(Null)
    case User(u) => Some(u.isAdmin)
    case Throws => None
  }

  /** The claims jwtDecode yields; only the expiry, in seconds, is read. A missing exp is undefined. */
  datatype Claims = Claims(exp: Option<int>)

  /** The outcome of isLoggedIn's checks on the stored token. */
  datatype TokenCheck = NoToken | Undecodable | Expired | Valid

  /**
   * `decoded.exp < Date.now() / 1000`, compared in milliseconds. An
   * undefined exp compares false, so a token without one never expires.
   */
  predicate IsExpired(c: Claims, nowMs: int)
  {
    c.exp.Some? && c.exp.value * 1000 < nowMs
  }

  function CheckToken(storage: Storage, decode: string -> Option<Claims>, nowMs: int): (t: TokenCheck)
    ensures t.NoToken? <==> !HasItem(storage, TokenKey)
    ensures t.Undecodable? <==> HasItem(storage, TokenKey) && decode(storage[TokenKey]).None?
    ensures t.Expired? <==>
      (HasItem(storage, TokenKey) && decode(storage[TokenKey]).Some?
       && IsExpired(decode(storage[TokenKey]).value, nowMs))
    ensures t.Valid? <==>
      (HasItem(storage, TokenKey) && decode(storage[TokenKey]).Some?
       && !IsExpired(decode(storage[TokenKey]).value, nowMs))
  {
    if !HasItem(storage, TokenKey) then NoToken
    else match decode(storage[TokenKey])
      case None => Undecodable
      case Some(c) => if IsExpired(c, nowMs) then Expired else Valid
  }

  /** A token is still valid at the very second it expires. */
  lemma ExpiryInstantIsValid(storage: Storage, decode: string -> Option<Claims>, exp: int)
    requires HasItem(storage, TokenKey) && decode(storage[TokenKey]) == Some(Claims(Some(exp)))
    ensures CheckToken(storage, decode, exp * 1000).Valid?
    ensures CheckToken(storage, decode, exp * 1000 + 1).Expired?
  {
  }

  /** Once expired, a token stays expired at every later time. */
  lemma ExpiryIsPermanent(storage: Storage, decode: string -> Option<Claims>, t1: int, t2: int)
    requires t1 <= t2 && CheckToken(storage, decode, t1).Expired?
    ensures CheckToken(storage, decode, t2).Expired?
  {
  }

  /** After a login that stored a token, getCurrentUser reads back the very session user that was stored. */
  lemma {:induction false} StoredUserReadsBack(storage: Storage, data: JsObject)
    requires Truthy(Get(data, "token"))
    ensures CurrentUserIn(Stored(storage, data)) == User(SessionUserOf(data))
    ensures AdminFlag(Stored(storage, data)) == Some(SessionUserOf(data).isAdmin)
  {
    var s := Stored(storage, data);
    ParseStringify(SessionUserOf(data));
    assert Stringify(SessionUserOf(data))[0] == '{';
    assert HasItem(s, UserKey);
  }

  /** After a logout there is no token and no user. */
  lemma LogoutForgetsSession(storage: Storage, decode: string -> Option<Claims>, nowMs: int)
    ensures CheckToken(Removed(storage), decode, nowMs).NoToken?
    ensures CurrentUserIn(Removed(storage)).NoUser? && AdminFlag(Removed(storage)) == Some(Null)
  {
  }

  /** The authService object, whose only state is the browser's localStorage. */
  class Session {
    var storage: Storage

    constructor (storage: Storage)
      ensures this.storage == storage
    {
      this.storage := storage;
    }

    /**
     * login and register: the answer is returned as it came (None when the
     * request throws, which leaves the storage alone); a truthy token stores
     * the token and the session user, read under the server's names.
     */
    method Login(response: Option<JsObject>) returns (r: Option<JsObject>)
      modifies this
      ensures r == response
      ensures storage == if response.Some? then Stored(old(storage), response.value) else old(storage)
    {
      r := response;
      if response.Some? {
        var data := response.value;
        if Truthy(Get(data, "token")) {
          storage := storage[TokenKey := ToJsString(Get(data, "token"))];
          storage := storage[UserKey := Stringify(SessionUserOf(data))];
        }
      }
    }

    method Register(response: Option<JsObject>) returns (r: Option<JsObject>)
      modifies this
      ensures r == response
      ensures storage == if response.Some? then Stored(old(storage), response.value) else old(storage)
    {
      r := Login(response);
    }

    method Logout()
      modifies this
      ensures storage == Removed(old(storage))
    {
      storage := storage - {TokenKey};
      storage := storage - {UserKey};
    }

    /**
     * isLoggedIn: false without a token; an undecodable or expired token
     * logs out and yields false; otherwise true with the storage untouched.
     */
    method IsLoggedIn(decode: string -> Option<Claims>, nowMs: int) returns (b: bool)
      modifies this
      ensures var t := CheckToken(old(storage), decode, nowMs);
        b == t.Valid?
        && storage == if t.Undecodable? || t.Expired? then Removed(old(storage)) else old(storage)
    {
      if !(TokenKey in storage && storage[TokenKey] != "") {
        return false;
      }
      var decoded := decode(storage[TokenKey]);
      if decoded.None? {
        Logout();
        return false;
      }
      if IsExpired(decoded.value, nowMs) {
        Logout();
        return false;
      }
      return true;
    }
  }
}
