/**
 * UserService: registration, the active and admin toggles, and the public and
 * admin lists. Each operation is specified by a function from the tables
 * before the call to the outcome and the tables after it; the methods perform
 * the same steps on the store.
 */
module UserService {
  import opened Wrappers
  import opened Entities
  import opened Errors
  import opened Store
  import UserRepository

  type Outcome = Result<User, ServiceError>

  /** A void operation: None when it returns normally, the exception otherwise. */
  type Completion = Option<ServiceError>

  /** The PasswordEncoder bean, as a function of the raw password. */
  type Encoder = string -> string

  // ---------------------------------------------------------------- register

  /**
   * registerUser: a taken username is refused; otherwise the password is
   * encoded, the user is made a non-admin and active, and the row is saved
   * under the next id.
   */
  function Register(t: Tables, u: User, encode: Encoder): (Outcome, Tables)
  {
    if UserRepository.ExistsByUsername(t.users, u.username) then
      (Err(DuplicateResource("User", "username", u.username)), t)
    else
      var saved := u.(id := t.nextUserId, password := encode(u.password), isAdmin := false, isActive := true);
      (Ok(saved), t.(users := t.users[t.nextUserId := saved], nextUserId := t.nextUserId + 1))
  }

  /**
   * A taken username changes nothing. Otherwise exactly one user is added;
   * whatever flags the input carried, it is a non-admin and active, it stores
   * the encoder's output rather than the raw password, it keeps the submitted
   * profile fields, and it is what findByUsername now finds.
   */
  lemma RegisterEffect(t: Tables, u: User, encode: Encoder)
    requires WellFormed(t)
    ensures var (r, t') := Register(t, u, encode);
      (r.Err? <==> UserRepository.FindByUsername(t.users, u.username).Some?)
      && (r.Err? ==> r.error == DuplicateResource("User", "username", u.username) && t' == t)
      && (r.Ok? ==>
            WellFormed(t')
            && t.nextUserId !in t.users && t'.users.Keys == t.users.Keys + {t.nextUserId}
            && t'.users[t.nextUserId] == r.value && r.value.id == t.nextUserId
            && !r.value.isAdmin && r.value.isActive && r.value.password == encode(u.password)
            && r.value.username == u.username && r.value.name == u.name && r.value.location == u.location
            && r.value.profilePhoto == u.profilePhoto && r.value.availability == u.availability
            && r.value.isPublic == u.isPublic
            && (forall k | k in t.users :: t'.users[k] == t.users[k])
            && t'.skills == t.skills && t'.swaps == t.swaps && t'.feedback == t.feedback
            && UserRepository.FindByUsername(t'.users, u.username) == Some(r.value))
  {
    UserRepository.ExistsIffFound(t.users, u.username);
    if !UserRepository.ExistsByUsername(t.users, u.username) {
      var saved := u.(id := t.nextUserId, password := encode(u.password), isAdmin := false, isActive := true);
      UserRowAdded(t, saved);
      UserRepository.FindsTheOwner(t.users[t.nextUserId := saved], t.nextUserId);
    }
  }

  /** Registering the same username a second time is refused, whatever the second user carries. */
  lemma RegisterTwiceRefused(t: Tables, u: User, v: User, encode: Encoder)
    requires WellFormed(t) && v.username == u.username
    ensures var (r, t') := Register(t, u, encode);
      Register(t', v, encode).0 == Err(DuplicateResource("User", "username", u.username))
  {
    var (r, t') := Register(t, u, encode);
    if r.Ok? {
      assert t'.users[t.nextUserId].username == v.username;
    }
  }

  method RegisterUser(db: Db, u: User, encode: Encoder) returns (r: Outcome)
    requires db.Valid()
    modifies db
    ensures db.Valid()
    ensures (r, db.State()) == Register(old(db.State()), u, encode)
  {
    if UserRepository.ExistsByUsername(db.users, u.username) {
      return Err(DuplicateResource("User", "username", u.username));
    }
    var user := u;
    user := user.(password := encode(user.password));
    user := user.(isAdmin := false);
    user := user.(isActive := true);
    var saved := db.InsertUser(user);
    r := Ok(saved);
  }

  /** getUserById: the row, or a not-found exception. */
  function GetUserById(users: map<int, User>, id: int): (r: Outcome)
    ensures r.Ok? <==> id in users
    ensures r.Ok? ==> r.value == users[id]
    ensures r.Err? ==> r.error == NotFound("User", "id", id)
  {
    if id in users then Ok(users[id]) else Err(NotFound("User", "id", id))
  }

  /** updateUser: save() of a loaded user, which overwrites its row. */
  function UpdateUser(t: Tables, u: User): Tables
  {
    t.(users := t.users[u.id := u])
  }

  /** Saving a loaded user whose username is kept changes that one row and keeps the tables well formed. */
  lemma UpdateUserEffect(t: Tables, u: User)
    requires WellFormed(t) && u.id in t.users && u.username == t.users[u.id].username
    ensures WellFormed(UpdateUser(t, u))
    ensures UpdateUser(t, u).users[u.id] == u && UpdateUser(t, u).users.Keys == t.users.Keys
    ensures forall k | k in t.users && k != u.id :: UpdateUser(t, u).users[k] == t.users[k]
  {
    UserTableGrowth(t, t.users[u.id := u], t.nextUserId);
  }

  // ------------------------------------------------------------------- lists

  /** getAllPublicUsers: the users that are both public and active. */
  function GetAllPublicUsers(users: map<int, User>): set<int>
  {
    UserRepository.FindByIsPublicTrueAndIsActiveTrue(users)
  }

  /** getAllAdmins. */
  function GetAllAdmins(users: map<int, User>): set<int>
  {
    UserRepository.FindByIsAdmin(users, true)
  }

  // ------------------------------------------------------------ the toggles

  /** deactivateUser (active = false) and activateUser (active = true). */
  function SetActive(t: Tables, id: int, active: bool): (Completion, Tables)
  {
    if id !in t.users then (Some(NotFound("User", "id", id)), t)
    else (None, t.(users := t.users[id := t.users[id].(isActive := active)]))
  }

  /**
   * On a known user the flag is set and nothing else changes: the user is
   * then public-listed exactly when active and public. Setting it twice is
   * setting it once, and the later call wins.
   */
  lemma SetActiveEffect(t: Tables, id: int, active: bool, later: bool)
    requires WellFormed(t)
    ensures var (r, t') := SetActive(t, id, active);
      WellFormed(t')
      && (r.Some? <==> id !in t.users)
      && (r.Some? ==> r.value == NotFound("User", "id", id) && t' == t)
      && (r.None? ==> t'.users.Keys == t.users.Keys && t'.users[id] == t.users[id].(isActive := active)
                      && (forall k | k in t.users && k != id :: t'.users[k] == t.users[k])
                      && (id in GetAllPublicUsers(t'.users) <==> active && t.users[id].isPublic)
                      && GetAllAdmins(t'.users) == GetAllAdmins(t.users)
                      && t'.skills == t.skills && t'.swaps == t.swaps && t'.feedback == t.feedback)
      && SetActive(t', id, active) == (r, t')
      && SetActive(t', id, later) == SetActive(t, id, later)
  {
    if id in t.users {
      var t' := SetActive(t, id, active).1;
      UserRowRewrite(t, id, t.users[id].(isActive := active));
      assert GetAllAdmins(t'.users) == GetAllAdmins(t.users) by {
        forall k ensures k in GetAllAdmins(t'.users) <==> k in GetAllAdmins(t.users) {
        }
      }
    }
    SetActiveTwice(t, id, active, later);
  }

  /** The flag is set by overwriting: a repeat changes nothing, and only the later value counts. */
  lemma SetActiveTwice(t: Tables, id: int, active: bool, later: bool)
    ensures var (r, t') := SetActive(t, id, active);
      SetActive(t', id, active) == (r, t') && SetActive(t', id, later) == SetActive(t, id, later)
  {
    if id in t.users {
      var t' := SetActive(t, id, active).1;
      assert t'.users[id := t'.users[id].(isActive := active)] == t'.users;
      assert t'.users[id := t'.users[id].(isActive := later)] == t.users[id := t.users[id].(isActive := later)];
    }
  }

  method SetUserActive(db: Db, id: int, active: bool) returns (r: Completion)
    requires db.Valid()
    modifies db
    ensures db.Valid()
    ensures (r, db.State()) == SetActive(old(db.State()), id, active)
  {
    if id !in db.users {
      return Some(NotFound("User", "id", id));
    }
    var user := db.users[id];
    user := user.(isActive := active);
    db.SaveUser(user);
    r := None;
  }

  method DeactivateUser(db: Db, id: int) returns (r: Completion)
    requires db.Valid()
    modifies db
    ensures db.Valid()
    ensures (r, db.State()) == SetActive(old(db.State()), id, false)
  {
    r := SetUserActive(db, id, false);
  }

  method ActivateUser(db: Db, id: int) returns (r: Completion)
    requires db.Valid()
    modifies db
    ensures db.Valid()
    ensures (r, db.State()) == SetActive(old(db.State()), id, true)
  {
    r := SetUserActive(db, id, true);
  }

  /** makeAdmin (admin = true) and removeAdmin (admin = false). */
  function SetAdmin(t: Tables, id: int, admin: bool): (Completion, Tables)
  {
    if id !in t.users then (Some(NotFound("User", "id", id)), t)
    else (None, t.(users := t.users[id := t.users[id].(isAdmin := admin)]))
  }

  /**
   * On a known user the admin flag is set and nothing else changes: the
   * user is then in the admin list exactly when made admin, and the public
   * list is unaffected. Setting it twice is setting it once, and the later
   * call wins.
   */
  lemma SetAdminEffect(t: Tables, id: int, admin: bool, later: bool)
    requires WellFormed(t)
    ensures var (r, t') := SetAdmin(t, id, admin);
      WellFormed(t')
      && (r.Some? <==> id !in t.users)
      && (r.Some? ==> r.value == NotFound("User", "id", id) && t' == t)
      && (r.None? ==> t'.users.Keys == t.users.Keys && t'.users[id] == t.users[id].(isAdmin := admin)
                      && (forall k | k in t.users && k != id :: t'.users[k] == t.users[k])
                      && (id in GetAllAdmins(t'.users) <==> admin)
                      && GetAllPublicUsers(t'.users) == GetAllPublicUsers(t.users)
                      && t'.skills == t.skills && t'.swaps == t.swaps && t'.feedback == t.feedback)
      && SetAdmin(t', id, admin) == (r, t')
      && SetAdmin(t', id, later) == SetAdmin(t, id, later)
  {
    if id in t.users {
      var t' := SetAdmin(t, id, admin).1;
      UserRowRewrite(t, id, t.users[id].(isAdmin := admin));
      assert GetAllPublicUsers(t'.users) == GetAllPublicUsers(t.users) by {
        forall k ensures k in GetAllPublicUsers(t'.users) <==> k in GetAllPublicUsers(t.users) {
        }
      }
    }
    SetAdminTwice(t, id, admin, later);
  }

  /** The flag is set by overwriting: a repeat changes nothing, and only the later value counts. */
  lemma SetAdminTwice(t: Tables, id: int, admin: bool, later: bool)
    ensures var (r, t') := SetAdmin(t, id, admin);
      SetAdmin(t', id, admin) == (r, t') && SetAdmin(t', id, later) == SetAdmin(t, id, later)
  {
    if id in t.users {
      var t' := SetAdmin(t, id, admin).1;
      assert t'.users[id := t'.users[id].(isAdmin := admin)] == t'.users;
      assert t'.users[id := t'.users[id].(isAdmin := later)] == t.users[id := t.users[id].(isAdmin := later)];
    }
  }

  method SetUserAdmin(db: Db, id: int, admin: bool) returns (r: Completion)
    requires db.Valid()
    modifies db
    ensures db.Valid()
    ensures (r, db.State()) == SetAdmin(old(db.State()), id, admin)
  {
    if id !in db.users {
      return Some(NotFound("User", "id", id));
    }
    var user := db.users[id];
    user := user.(isAdmin := admin);
    db.SaveUser(user);
    r := None;
  }

  method MakeAdmin(db: Db, id: int) returns (r: Completion)
    requires db.Valid()
    modifies db
    ensures db.Valid()
    ensures (r, db.State()) == SetAdmin(old(db.State()), id, true)
  {
    r := SetUserAdmin(db, id, true);
  }

  method RemoveAdmin(db: Db, id: int) returns (r: Completion)
    requires db.Valid()
    modifies db
    ensures db.Valid()
    ensures (r, db.State()) == SetAdmin(old(db.State()), id, false)
  {
    r := SetUserAdmin(db, id, false);
  }
}
