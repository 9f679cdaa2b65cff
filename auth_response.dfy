/**
 * The answer of the login and register endpoints and the session user the
 * client derives from it. The server builds AuthResponse(token, username,
 * userId, isAdmin) and Jackson writes it under the names its getters give:
 * getToken, getUsername and getUserId yield "token", "username" and
 * "userId", and the boolean getter isAdmin() yields "admin". The client as
 * written reads "id" and "isAdmin", which that body does not have.
 */
module AuthResponses {
  import opened JsValues
  import opened SessionJson

  /** The controller always fills every field: a fresh token and the stored user's name, id and flag. */
  datatype AuthResponse = AuthResponse(token: string, username: string, userId: int, isAdmin: bool)

  /** The JSON object Jackson writes for an AuthResponse, as the client's JSON.parse reads it. */
  function Body(r: AuthResponse): (o: JsObject)
    ensures o.Keys == {"token", "username", "userId", "admin"}
    ensures Get(o, "id") == Undefined && Get(o, "isAdmin") == Undefined
  {
    map["token" := Str(r.token), "username" := Str(r.username), "userId" := Num(r.userId), "admin" := Bool(r.isAdmin)]
  }

  /** The client's `{id: data.id, username: data.username, isAdmin: data.isAdmin}` as written. */
  function SessionUserOfAsWritten(data: JsObject): (u: SessionUser)
    ensures u.id == Get(data, "id") && u.username == Get(data, "username") && u.isAdmin == Get(data, "isAdmin")
  {
    SessionUser(Get(data, "id"), Get(data, "username"), Get(data, "isAdmin"))
  }

  /** The session user read under the names the server writes. */
  function SessionUserOf(data: JsObject): (u: SessionUser)
    ensures u.id == Get(data, "userId") && u.username == Get(data, "username") && u.isAdmin == Get(data, "admin")
  {
    SessionUser(Get(data, "userId"), Get(data, "username"), Get(data, "admin"))
  }

  /**
   * As written, every session user built from a server answer has an
   * undefined id and an undefined, hence falsy, admin flag; only the
   * username comes through.
   */
  lemma AsWrittenLosesIdAndAdmin(r: AuthResponse)
    ensures var u := SessionUserOfAsWritten(Body(r));
      u.id == Undefined && u.isAdmin == Undefined && !Truthy(u.isAdmin) && u.username == Str(r.username)
  {
  }

  /** So the stored session text carries the username alone: JSON.stringify drops the undefined members. */
  lemma {:induction false} AsWrittenStoresOnlyUsername(r: AuthResponse)
    ensures Stringify(SessionUserOfAsWritten(Body(r))) == "{" + Quote("username") + ":" + Quote(r.username) + "}"
  {
    var u := SessionUserOfAsWritten(Body(r));
    assert Present(u) == [("username", Str(r.username))];
  }

  /** Read under the server's names, the session user carries the user's id, name and admin flag. */
  lemma SessionUserOfReadsResponse(r: AuthResponse)
    ensures SessionUserOf(Body(r)) == SessionUser(Num(r.userId), Str(r.username), Bool(r.isAdmin))
    ensures Truthy(SessionUserOf(Body(r)).isAdmin) <==> r.isAdmin
  {
  }
}
