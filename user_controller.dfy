/**
 * UserController: the public list, the skill-name user searches, profile
 * visibility, the caller's own profile and its update, and the admin-only
 * activation toggles.
 */
module UserController {
  import opened Wrappers
  import opened Entities
  import opened Errors
  import opened Store
  import opened Http
  import UserRepository
  import Service = UserService
  import Strings = Text

  /**
   * The wire form of a user. Its class is not part of this model: the fields
   * are the nine convertToDTO passes, plus the password updateUserProfile
   * reads, which convertToDTO leaves null.
   */
  datatype UserDTO = UserDTO(
    id: Option<int>,
    username: Option<string>,
    name: string,
    location: Option<string>,
    profilePhoto: Option<string>,
    availability: string,
    isPublic: bool,
    isAdmin: bool,
    isActive: bool,
    password: Option<string>)

  /** convertToDTO: the nine-argument constructor, which never sets the password. */
  function ConvertToDTO(u: User): (d: UserDTO)
    ensures d.password.None?
  {
    UserDTO(Some(u.id), Some(u.username), u.name, u.location, u.profilePhoto, u.availability, u.isPublic, u.isAdmin,
            u.isActive, None)
  }

  /** The DTO carries everything about a user except the password. */
  lemma ConvertForgetsOnlyPassword(a: User, b: User)
    ensures ConvertToDTO(a) == ConvertToDTO(b) <==> a.(password := b.password) == b
  {
  }

  function Dtos(users: map<int, User>, keys: set<int>): set<UserDTO>
  {
    set k | k in keys && k in users :: ConvertToDTO(users[k])
  }

  // ------------------------------------------------------------------- lists

  /** GET /public. */
  function PublicUsers(users: map<int, User>): Response<set<UserDTO>>
  {
    OkResponse(Dtos(users, Service.GetAllPublicUsers(users)))
  }

  /**
   * The public list is the DTO of every active, public user and of no other
   * user; each listed user is one any caller could also open by id, and a
   * deactivated user never appears.
   */
  lemma PublicUsersVisible(t: Tables, auth: Auth)
    requires WellFormed(t)
    ensures PublicUsers(t.users).status == OK && PublicUsers(t.users).body.Value?
    ensures forall d | d in PublicUsers(t.users).body.value ::
      d.isPublic && d.isActive && d.id.Some? && d.id.value in t.users && d == ConvertToDTO(t.users[d.id.value])
      && CanSee(t.users[d.id.value], auth)
    ensures forall k | k in t.users && t.users[k].isPublic && t.users[k].isActive ::
      ConvertToDTO(t.users[k]) in PublicUsers(t.users).body.value
  {
    forall d | d in PublicUsers(t.users).body.value
      ensures d.isPublic && d.isActive && d.id.Some? && d.id.value in t.users && d == ConvertToDTO(t.users[d.id.value])
      && CanSee(t.users[d.id.value], auth)
    {
      var k :| k in Service.GetAllPublicUsers(t.users) && k in t.users && d == ConvertToDTO(t.users[k]);
      assert d.id.value == k;
    }
  }

  /**
   * GET /search/offered-skills (isOffered = true) and /search/wanted-skills:
   * the public, active owners of a skill of that type whose name contains
   * the term.
   */
  function SearchUsers(t: Tables, term: string, isOffered: bool): Response<set<UserDTO>>
  {
    var rows := UserRepository.FindBySkillsOfTypeContaining(t.users, t.skills, term, isOffered);
    OkResponse(set row | row in rows :: ConvertToDTO(t.users[row.0]))
  }

  /** Every user found has a skill of the searched type matching the term, and is public and active. */
  lemma SearchUsersQualify(t: Tables, term: string, isOffered: bool, d: UserDTO)
    requires WellFormed(t)
    requires d in SearchUsers(t, term, isOffered).body.value
    ensures d.isPublic && d.isActive && d.id.Some?
    ensures exists k :: k in t.skills && t.skills[k].owner.id == d.id.value && t.skills[k].isOffered == isOffered
                        && Strings.Contains(t.skills[k].name, term)
  {
    var rows := UserRepository.FindBySkillsOfTypeContaining(t.users, t.skills, term, isOffered);
    var row :| row in rows && d == ConvertToDTO(t.users[row.0]);
    assert t.skills[row.1].owner.id == d.id.value;
  }

  /**
   * Conversely every public, active owner of a skill of the searched type
   * whose name contains the term is found.
   */
  lemma SearchUsersFindsAll(t: Tables, term: string, isOffered: bool)
    ensures forall k | k in t.skills && t.skills[k].isOffered == isOffered && Strings.Contains(t.skills[k].name, term)
                       && t.skills[k].owner.id in t.users
                       && t.users[t.skills[k].owner.id].isPublic && t.users[t.skills[k].owner.id].isActive ::
      ConvertToDTO(t.users[t.skills[k].owner.id]) in SearchUsers(t, term, isOffered).body.value
  {
    var rows := UserRepository.FindBySkillsOfTypeContaining(t.users, t.skills, term, isOffered);
    forall k | k in t.skills && t.skills[k].isOffered == isOffered && Strings.Contains(t.skills[k].name, term)
               && t.skills[k].owner.id in t.users
               && t.users[t.skills[k].owner.id].isPublic && t.users[t.skills[k].owner.id].isActive
      ensures ConvertToDTO(t.users[t.skills[k].owner.id]) in SearchUsers(t, term, isOffered).body.value
    {
      assert (t.skills[k].owner.id, k) in rows;
    }
  }

  // --------------------------------------------------------------- profiles

  const PrivateProfileMessage := "This profile is private"

  /** GET /{id}: 404 for an unknown id, the profile when visible, 403 with a message otherwise. */
  function GetUserById(users: map<int, User>, auth: Auth, id: int): (r: Response<UserDTO>)
    ensures r.status == NOT_FOUND <==> id !in users
    ensures r.status == OK <==> id in users && CanSee(users[id], auth)
    ensures r.status == OK ==> r.body == Value(ConvertToDTO(users[id]))
    ensures r.status == FORBIDDEN ==> r.body == Text(PrivateProfileMessage)
  {
    if id !in users then NotFoundResponse()
    else if CanSee(users[id], auth) then OkResponse(ConvertToDTO(users[id]))
    else Forbidden(PrivateProfileMessage)
  }

  /** A private profile is refused to everyone but its owner and admins. */
  lemma PrivateProfileOnlyForOwnerOrAdmin(users: map<int, User>, auth: Auth, id: int)
    requires id in users && !users[id].isPublic
    ensures GetUserById(users, auth, id).status == OK <==> users[id].username == auth.name || auth.isAdmin
    ensures GetUserById(users, auth.(isAdmin := true), id).status == OK
  {
  }

  /** GET /profile: the caller's own profile, or 404 when the caller has no user row. */
  function CurrentProfile(t: Tables, auth: Auth): (r: Response<UserDTO>)
    requires WellFormed(t)
    ensures r.status == NOT_FOUND <==> UserRepository.FindByUsername(t.users, auth.name).None?
    ensures r.status == OK ==> r.body.Value? && r.body.value.username == Some(auth.name)
  {
    match UserRepository.FindByUsername(t.users, auth.name)
    case None => NotFoundResponse()
    case Some(u) => OkResponse(ConvertToDTO(u))
  }

  /** The password field of an update takes effect only when it is present and non-empty. */
  predicate ChangesPassword(dto: UserDTO)
  {
    dto.password.Some? && dto.password.value != ""
  }

  /**
   * The profile as updateUserProfile rewrites it: the five editable fields
   * come from the body; the password is replaced only when one is given,
   * and then by its encoding, as the comment at the call promises.
   */
  function Edited(u: User, dto: UserDTO, encode: Service.Encoder): User
  {
    u.(name := dto.name, location := dto.location, profilePhoto := dto.profilePhoto,
       availability := dto.availability, isPublic := dto.isPublic,
       password := if ChangesPassword(dto) then encode(dto.password.value) else u.password)
  }

  /** The same rewrite as written: the raw password is handed to a plain save and stored as it came. */
  function EditedAsWritten(u: User, dto: UserDTO): User
  {
    u.(name := dto.name, location := dto.location, profilePhoto := dto.profilePhoto,
       availability := dto.availability, isPublic := dto.isPublic,
       password := if ChangesPassword(dto) then dto.password.value else u.password)
  }

  /** PUT /profile: 404 without a user row; otherwise the caller's row is rewritten and returned. */
  function UpdateProfile(t: Tables, auth: Auth, dto: UserDTO, encode: Service.Encoder): (Response<UserDTO>, Tables)
    requires WellFormed(t)
  {
    match UserRepository.FindByUsername(t.users, auth.name)
    case None => (NotFoundResponse(), t)
    case Some(u) =>
      var updated := Edited(u, dto, encode);
      (OkResponse(ConvertToDTO(updated)), Service.UpdateUser(t, updated))
  }

  function UpdateProfileAsWritten(t: Tables, auth: Auth, dto: UserDTO): (Response<UserDTO>, Tables)
    requires WellFormed(t)
  {
    match UserRepository.FindByUsername(t.users, auth.name)
    case None => (NotFoundResponse(), t)
    case Some(u) =>
      var updated := EditedAsWritten(u, dto);
      (OkResponse(ConvertToDTO(updated)), Service.UpdateUser(t, updated))
  }

  /**
   * A profile update rewrites only the caller's own row: the five editable
   * fields take the body's values, the id, username, admin and active flags
   * stay as they were whatever the body says, and the password changes only
   * when one is given, to its encoding.
   */
  lemma UpdateProfileEffect(t: Tables, auth: Auth, dto: UserDTO, encode: Service.Encoder)
    requires WellFormed(t)
    ensures var (r, t') := UpdateProfile(t, auth, dto, encode);
      var found := UserRepository.FindByUsername(t.users, auth.name);
      (r.status == NOT_FOUND <==> found.None?)
      && (r.status == NOT_FOUND ==> t' == t)
      && (r.status == OK ==>
            var id := found.value.id;
            var u := t'.users[id];
            WellFormed(t') && id in t.users && t.users[id] == found.value && t'.users.Keys == t.users.Keys
            && (forall k | k in t.users && k != id :: t'.users[k] == t.users[k])
            && u.name == dto.name && u.location == dto.location && u.profilePhoto == dto.profilePhoto
            && u.availability == dto.availability && u.isPublic == dto.isPublic
            && u.id == id && u.username == auth.name
            && u.isAdmin == t.users[id].isAdmin && u.isActive == t.users[id].isActive
            && (ChangesPassword(dto) ==> u.password == encode(dto.password.value))
            && (!ChangesPassword(dto) ==> u.password == t.users[id].password)
            && r.body == Value(ConvertToDTO(u))
            && t'.skills == t.skills && t'.swaps == t.swaps && t'.feedback == t.feedback)
  {
    var found := UserRepository.FindByUsername(t.users, auth.name);
    if found.Some? {
      var u := found.value;
      assert u.id in t.users && t.users[u.id] == u;
      Service.UpdateUserEffect(t, Edited(u, dto, encode));
    }
  }

  /**
   * As written, a new password is stored as the raw text of the body, so it
   * differs from the encoded password registration stores, for any encoder
   * that does change its input.
   */
  lemma RawPasswordStored(t: Tables, auth: Auth, dto: UserDTO, encode: Service.Encoder)
    requires WellFormed(t) && ChangesPassword(dto)
    requires UserRepository.FindByUsername(t.users, auth.name).Some?
    requires encode(dto.password.value) != dto.password.value
    ensures var id := UserRepository.FindByUsername(t.users, auth.name).value.id;
      UpdateProfileAsWritten(t, auth, dto).1.users[id].password == dto.password.value
      && UpdateProfileAsWritten(t, auth, dto).1.users[id].password != UpdateProfile(t, auth, dto, encode).1.users[id].password
  {
  }

  /** A concrete case: with an encoder that prefixes a tag, bob's new password is stored untagged. */
  lemma RawPasswordExample()
    ensures var bob := User(1, "bob", "{enc}old", "Bob", None, None, "Weekends", true, false, true);
      var t := EmptyTables().(users := map[1 := bob], nextUserId := 2);
      var dto := UserDTO(None, None, "Bob", None, None, "Weekends", true, false, true, Some("secret"));
      var encode := (p: string) => "{enc}" + p;
      WellFormed(t)
      && UpdateProfileAsWritten(t, Auth("bob", false), dto).1.users[1].password == "secret"
      && UpdateProfile(t, Auth("bob", false), dto, encode).1.users[1].password == "{enc}secret"
  {
    var bob := User(1, "bob", "{enc}old", "Bob", None, None, "Weekends", true, false, true);
    var t := EmptyTables().(users := map[1 := bob], nextUserId := 2);
    assert WellFormed(t);
    assert 1 in t.users && t.users[1].username == "bob";
    assert UserRepository.FindByUsername(t.users, "bob") == Some(bob);
  }

  method UpdateUserProfile(db: Db, auth: Auth, dto: UserDTO, encode: Service.Encoder) returns (r: Response<UserDTO>)
    requires db.Valid()
    modifies db
    ensures db.Valid()
    ensures (r, db.State()) == UpdateProfile(old(db.State()), auth, dto, encode)
  {
    var found := UserRepository.FindByUsername(db.users, auth.name);
    if found.None? {
      return NotFoundResponse();
    }
    var user := found.value;
    assert user.id in db.users && db.users[user.id] == user;
    user := user.(name := dto.name);
    user := user.(location := dto.location);
    user := user.(profilePhoto := dto.profilePhoto);
    user := user.(availability := dto.availability);
    user := user.(isPublic := dto.isPublic);
    if dto.password.Some? && dto.password.value != "" {
      user := user.(password := encode(dto.password.value));
    }
    db.SaveUser(user);
    r := OkResponse(ConvertToDTO(user));
  }

  // ------------------------------------------------------------------ admin

  /** PUT /{id}/activate and /{id}/deactivate, for admins only; a service exception becomes 400. */
  function ActivationEndpoint(t: Tables, auth: Auth, id: int, active: bool): (Response<UserDTO>, Tables)
  {
    if !auth.isAdmin then (Response(FORBIDDEN, Empty), t)
    else
      var (r, t') := Service.SetActive(t, id, active);
      match r
      case None => (Response(OK, Empty), t')
      case Some(e) => (BadRequestResponse(e), t')
  }

  /** Only an admin toggles a user, and only a known one; every other answer changes nothing. */
  lemma ActivationOutcomes(t: Tables, auth: Auth, id: int, active: bool)
    requires WellFormed(t)
    ensures var (r, t') := ActivationEndpoint(t, auth, id, active);
      WellFormed(t')
      && (r.status == OK <==> auth.isAdmin && id in t.users)
      && (r.status == FORBIDDEN <==> !auth.isAdmin)
      && (r.status == BAD_REQUEST ==> r.body == Failure(NotFound("User", "id", id)))
      && (r.status != OK ==> t' == t)
      && (r.status == OK ==> t'.users == t.users[id := t.users[id].(isActive := active)])
  {
    Service.SetActiveEffect(t, id, active, active);
  }

  method ActivateUser(db: Db, auth: Auth, id: int) returns (r: Response<UserDTO>)
    requires db.Valid()
    modifies db
    ensures db.Valid()
    ensures (r, db.State()) == ActivationEndpoint(old(db.State()), auth, id, true)
  {
    if !auth.isAdmin {
      return Response(FORBIDDEN, Empty);
    }
    var done := Service.ActivateUser(db, id);
    match done
    case None => r := Response(OK, Empty);
    case Some(e) => r := BadRequestResponse(e);
  }

  method DeactivateUser(db: Db, auth: Auth, id: int) returns (r: Response<UserDTO>)
    requires db.Valid()
    modifies db
    ensures db.Valid()
    ensures (r, db.State()) == ActivationEndpoint(old(db.State()), auth, id, false)
  {
    if !auth.isAdmin {
      return Response(FORBIDDEN, Empty);
    }
    var done := Service.DeactivateUser(db, id);
    match done
    case None => r := Response(OK, Empty);
    case Some(e) => r := BadRequestResponse(e);
  }
}
