/**
 * SkillController: the public skill searches, a user's skill lists behind the
 * visibility rule, the owner-or-admin edits and the admin moderation
 * endpoints. Reads are functions of the tables; the endpoints that change
 * state are methods specified by functions.
 */
module SkillController {
  import opened Wrappers
  import opened Text
  import opened Entities
  import opened Errors
  import opened Store
  import opened Http
  import opened SkillDto
  import SkillRepository
  import UserRepository
  import Service = SkillService

  type Rows = map<int, Skill>

  /** convertToDTO: every column of the skill, with the owner reduced to its id and username. */
  function ConvertToDTO(s: Skill): (d: SkillDTO)
    ensures d.id == Some(s.id) && d.userId == Some(s.owner.id) && d.username == Some(s.owner.username)
  {
    SkillDTO(Some(s.id), Some(s.name), s.description, s.isOffered, Some(s.owner.id), Some(s.owner.username), s.isApproved)
  }

  /** The DTO loses nothing: two skills with the same DTO are the same skill. */
  lemma ConvertIsInjective(a: Skill, b: Skill)
    requires ConvertToDTO(a) == ConvertToDTO(b)
    ensures a == b
  {
  }

  function Dtos(rows: Rows, keys: set<int>): set<SkillDTO>
  {
    set k | k in keys && k in rows :: ConvertToDTO(rows[k])
  }

  // ------------------------------------------------------------------- reads

  /** The three public searches: by name in any case, or offered / wanted by a case-sensitive name match. */
  datatype Search = AnyByName | OfferedByName | WantedByName

  function SearchKeys(rows: Rows, name: string, kind: Search): set<int>
  {
    match kind
    case AnyByName => SkillRepository.FindByNameContainingIgnoreCase(rows, name)
    case OfferedByName => SkillRepository.FindByNameContainingAndIsOffered(rows, name, true)
    case WantedByName => SkillRepository.FindByNameContainingAndIsOffered(rows, name, false)
  }

  /**
   * Whether a skill answers a public search: a case-insensitive name match
   * for the plain search, a case-sensitive match on an approved skill of the
   * asked type for the other two.
   */
  predicate Matches(s: Skill, name: string, kind: Search)
  {
    match kind
    case AnyByName => ContainsIgnoreCase(s.name, name)
    case OfferedByName => Contains(s.name, name) && s.isOffered && s.isApproved
    case WantedByName => Contains(s.name, name) && !s.isOffered && s.isApproved
  }

  /** GET /public/search, /public/offered and /public/wanted: open to everyone, always 200. */
  function PublicSearch(rows: Rows, name: string, kind: Search): (r: Response<set<SkillDTO>>)
  {
    OkResponse(Dtos(rows, SearchKeys(rows, name, kind)))
  }

  /**
   * Every search answers 200 with the DTO of every matching skill and of no
   * other; the typed searches list approved skills of their type only and
   * never more than the case-insensitive search.
   */
  lemma PublicSearchResults(rows: Rows, name: string, kind: Search)
    ensures PublicSearch(rows, name, kind).status == OK && PublicSearch(rows, name, kind).body.Value?
    ensures forall k | k in rows && Matches(rows[k], name, kind) :: ConvertToDTO(rows[k]) in PublicSearch(rows, name, kind).body.value
    ensures forall d | d in PublicSearch(rows, name, kind).body.value ::
      exists k :: k in rows && d == ConvertToDTO(rows[k]) && Matches(rows[k], name, kind)
    ensures kind != AnyByName ==> forall d | d in PublicSearch(rows, name, kind).body.value ::
      d.isApproved && d.isOffered == (kind == OfferedByName)
    ensures PublicSearch(rows, name, kind).body.value <= PublicSearch(rows, name, AnyByName).body.value
  {
    SkillRepository.TypedSearchIsNarrower(rows, name, kind == OfferedByName);
  }

  /** The three per-user lists: all of the user's skills, the offered ones, the wanted ones. */
  datatype UserScope = AllSkills | OfferedSkills | WantedSkills

  function UserKeys(rows: Rows, userId: int, scope: UserScope): set<int>
  {
    match scope
    case AllSkills => SkillRepository.FindByUser(rows, userId)
    case OfferedSkills => SkillRepository.FindByUserAndIsOffered(rows, userId, true)
    case WantedSkills => SkillRepository.FindByUserAndIsOffered(rows, userId, false)
  }

  /** Whether a skill belongs to the user and is of the type a per-user list asks for. */
  predicate OwnedInScope(s: Skill, userId: int, scope: UserScope)
  {
    s.owner.id == userId && (scope == OfferedSkills ==> s.isOffered) && (scope == WantedSkills ==> !s.isOffered)
  }

  /**
   * GET /user/{userId}, /user/{userId}/offered and /user/{userId}/wanted: 404
   * for an unknown user, 403 with no body when the visibility rule refuses,
   * and otherwise the DTO of every skill of the user in that scope and of no
   * other.
   */
  function SkillsOfUser(t: Tables, auth: Auth, userId: int, scope: UserScope): (r: Response<set<SkillDTO>>)
    ensures r.status == NOT_FOUND <==> userId !in t.users
    ensures r.status == OK <==> userId in t.users && CanSee(t.users[userId], auth)
    ensures r.status == FORBIDDEN ==> r.body == Empty
    ensures r.status == OK ==> (
      r.body.Value? &&
      (forall k | k in t.skills && OwnedInScope(t.skills[k], userId, scope) :: ConvertToDTO(t.skills[k]) in r.body.value) &&
      (forall d | d in r.body.value ::
         exists k :: k in t.skills && d == ConvertToDTO(t.skills[k]) && OwnedInScope(t.skills[k], userId, scope)))
  {
    if userId !in t.users then NotFoundResponse()
    else if CanSee(t.users[userId], auth) then OkResponse(Dtos(t.skills, UserKeys(t.skills, userId, scope)))
    else Response(FORBIDDEN, Empty)
  }

  /**
   * A visible user's lists hold that user's skills of the asked type, the
   * full list holds every skill the user owns, and the offered and wanted
   * lists together are the full list.
   */
  lemma SkillsOfUserContents(t: Tables, auth: Auth, userId: int)
    requires userId in t.users && CanSee(t.users[userId], auth)
    ensures forall k | k in t.skills && t.skills[k].owner.id == userId ::
      ConvertToDTO(t.skills[k]) in SkillsOfUser(t, auth, userId, AllSkills).body.value
    ensures forall scope: UserScope, d | d in SkillsOfUser(t, auth, userId, scope).body.value ::
      d.userId == Some(userId)
      && (scope == OfferedSkills ==> d.isOffered) && (scope == WantedSkills ==> !d.isOffered)
    ensures SkillsOfUser(t, auth, userId, OfferedSkills).body.value + SkillsOfUser(t, auth, userId, WantedSkills).body.value
         == SkillsOfUser(t, auth, userId, AllSkills).body.value
  {
    SkillRepository.OfferedAndWantedPartitionUser(t.skills, userId);
  }

  /** GET /pending-approval, admin only: the DTO of every skill still waiting for approval, and of no other. */
  function PendingApproval(rows: Rows, auth: Auth): (r: Response<set<SkillDTO>>)
    ensures r.status == OK <==> auth.isAdmin
    ensures !auth.isAdmin ==> r == Response(FORBIDDEN, Empty)
    ensures r.status == OK ==> r.body.Value? && forall d | d in r.body.value :: !d.isApproved
    ensures r.status == OK ==> (
      (forall k | k in rows && !rows[k].isApproved :: ConvertToDTO(rows[k]) in r.body.value) &&
      (forall d | d in r.body.value :: exists k :: k in rows && d == ConvertToDTO(rows[k]) && !rows[k].isApproved))
  {
    if !auth.isAdmin then Response(FORBIDDEN, Empty)
    else OkResponse(Dtos(rows, SkillRepository.FindByIsApproved(rows, false)))
  }

  // --------------------------------------------------------------------- add

  /** POST /: validation, the caller's user row, then the service with the caller as owner. */
  function AddEndpoint(t: Tables, auth: Auth, dto: SkillDTO): (Response<SkillDTO>, Tables)
    requires WellFormed(t)
  {
    if !IsValid(dto) then (Response(BAD_REQUEST, Invalid), t)
    else match UserRepository.FindByUsername(t.users, auth.name)
      case None => (Unauthorized(), t)
      case Some(user) =>
        var (r, t') := Service.Add(t, dto.name.value, dto.description, dto.isOffered, user.id);
        match r
        case Ok(s) => (Response(CREATED, Value(ConvertToDTO(s))), t')
        case Err(e) => (BadRequestResponse(e), t')
  }

  /**
   * A new skill always belongs to the caller, whatever owner, id or approval
   * the body names; it is approved exactly when it is a wanted skill; and any
   * answer other than 201 leaves the tables unchanged.
   */
  lemma AddOwnedByCaller(t: Tables, auth: Auth, dto: SkillDTO, userId: Option<int>, username: Option<string>, approved: bool)
    requires WellFormed(t)
    ensures var (r, t') := AddEndpoint(t, auth, dto);
      (r.status != CREATED ==> t' == t)
      && (r.status == CREATED <==> IsValid(dto) && UserRepository.FindByUsername(t.users, auth.name).Some?)
      && (r.status == CREATED ==>
            r.body.Value? && r.body.value.username == Some(auth.name)
            && r.body.value.name == dto.name && r.body.value.isOffered == dto.isOffered
            && (r.body.value.isApproved <==> !dto.isOffered)
            && WellFormed(t') && t.nextSkillId in t'.skills && t'.skills[t.nextSkillId].owner.username == auth.name)
      && AddEndpoint(t, auth, dto.(userId := userId, username := username, isApproved := approved)) == (r, t')
  {
    if IsValid(dto) && UserRepository.FindByUsername(t.users, auth.name).Some? {
      var user := UserRepository.FindByUsername(t.users, auth.name).value;
      Service.AddEffect(t, dto.name.value, dto.description, dto.isOffered, user.id);
    }
  }

  method AddSkill(db: Db, auth: Auth, dto: SkillDTO) returns (r: Response<SkillDTO>)
    requires db.Valid()
    modifies db
    ensures db.Valid()
    ensures (r, db.State()) == AddEndpoint(old(db.State()), auth, dto)
  {
    if !IsValid(dto) {
      return Response(BAD_REQUEST, Invalid);
    }
    var userOpt := UserRepository.FindByUsername(db.users, auth.name);
    if userOpt.None? {
      return Unauthorized();
    }
    var user := userOpt.value;
    var saved := Service.AddSkill(db, dto.name.value, dto.description, dto.isOffered, user.id);
    match saved
    case Ok(s) => r := Response(CREATED, Value(ConvertToDTO(s)));
    case Err(e) => r := BadRequestResponse(e);
  }

  // ------------------------------------------------------------ edit, delete

  predicate OwnerOrAdmin(s: Skill, auth: Auth)
  {
    s.owner.username == auth.name || auth.isAdmin
  }

  /** The fetched skill with the three editable fields set from the body. */
  function Edited(s: Skill, dto: SkillDTO): Skill
    requires IsValid(dto)
  {
    s.(name := dto.name.value, description := dto.description, isOffered := dto.isOffered)
  }

  /**
   * PUT /{id}: validation, 404, the owner-or-admin check, then the service,
   * which revises the stored row from the edited copy.
   */
  function UpdateEndpoint(t: Tables, auth: Auth, id: int, dto: SkillDTO): (Response<SkillDTO>, Tables)
  {
    if !IsValid(dto) then (Response(BAD_REQUEST, Invalid), t)
    else if id !in t.skills then (NotFoundResponse(), t)
    else if !OwnerOrAdmin(t.skills[id], auth) then (Forbidden("You don't have permission to update this skill"), t)
    else
      var (r, t') := Service.Update(t, Edited(t.skills[id], dto));
      match r
      case Ok(s) => (OkResponse(ConvertToDTO(s)), t')
      case Err(e) => (BadRequestResponse(e), t')
  }

  /**
   * Only the owner or an admin changes a skill; an edit never makes an
   * offered skill approved that was not an approved offered skill already,
   * so turning a wanted skill into an offered one sends it back to the
   * moderation queue.
   */
  lemma UpdateKeepsModeration(t: Tables, auth: Auth, id: int, dto: SkillDTO)
    requires WellFormed(t)
    ensures var (r, t') := UpdateEndpoint(t, auth, id, dto);
      WellFormed(t')
      && (r.status != OK ==> t' == t)
      && (r.status == OK <==> IsValid(dto) && id in t.skills && OwnerOrAdmin(t.skills[id], auth))
      && (r.status == FORBIDDEN <==> IsValid(dto) && id in t.skills && !OwnerOrAdmin(t.skills[id], auth))
      && (r.status == OK ==>
            t'.skills.Keys == t.skills.Keys && t'.skills[id].owner == t.skills[id].owner
            && Some(t'.skills[id].name) == dto.name && t'.skills[id].isOffered == dto.isOffered
            && (t'.skills[id].isOffered && t'.skills[id].isApproved ==> t.skills[id].isOffered && t.skills[id].isApproved)
            && (!t.skills[id].isOffered && dto.isOffered ==> id in SkillRepository.FindByIsApproved(t'.skills, false))
            && r.body == Value(ConvertToDTO(t'.skills[id])))
  {
    if IsValid(dto) && id in t.skills && OwnerOrAdmin(t.skills[id], auth) {
      Service.UpdateEffect(t, Edited(t.skills[id], dto));
    }
  }

  method UpdateSkill(db: Db, auth: Auth, id: int, dto: SkillDTO) returns (r: Response<SkillDTO>)
    requires db.Valid()
    modifies db
    ensures db.Valid()
    ensures (r, db.State()) == UpdateEndpoint(old(db.State()), auth, id, dto)
  {
    if !IsValid(dto) {
      return Response(BAD_REQUEST, Invalid);
    }
    if id !in db.skills {
      return NotFoundResponse();
    }
    var skill := db.skills[id];
    if !OwnerOrAdmin(skill, auth) {
      return Forbidden("You don't have permission to update this skill");
    }
    skill := skill.(name := dto.name.value, description := dto.description, isOffered := dto.isOffered);
    var updated := Service.UpdateSkill(db, skill);
    match updated
    case Ok(s) => r := OkResponse(ConvertToDTO(s));
    case Err(e) => r := BadRequestResponse(e);
  }

  /**
   * The same endpoint as the code runs it: the skill the controller edits is
   * the managed instance, and the service's findById returns that same
   * instance, so the service compares the edited skill with itself.
   */
  function UpdateEndpointSharedInstance(t: Tables, auth: Auth, id: int, dto: SkillDTO): (Response<SkillDTO>, Tables)
  {
    if !IsValid(dto) then (Response(BAD_REQUEST, Invalid), t)
    else if id !in t.skills then (NotFoundResponse(), t)
    else if !OwnerOrAdmin(t.skills[id], auth) then (Forbidden("You don't have permission to update this skill"), t)
    else
      var managed := Edited(t.skills[id], dto);
      var u := Service.Revised(managed, managed);
      (OkResponse(ConvertToDTO(u)), t.(skills := t.skills[id := u]))
  }

  /**
   * With the shared instance the approval is never withdrawn: an approved
   * wanted skill that its owner turns into an offered one stays approved, and
   * so enters the offered-skill search without any admin review.
   */
  lemma SharedInstanceSkipsModeration(t: Tables, auth: Auth, id: int, dto: SkillDTO)
    requires WellFormed(t) && IsValid(dto) && id in t.skills && OwnerOrAdmin(t.skills[id], auth)
    requires !t.skills[id].isOffered && t.skills[id].isApproved && dto.isOffered
    ensures var (r, t') := UpdateEndpointSharedInstance(t, auth, id, dto);
      r.status == OK && t'.skills[id].isOffered && t'.skills[id].isApproved
    ensures var (r, t') := UpdateEndpoint(t, auth, id, dto);
      r.status == OK && t'.skills[id].isOffered && !t'.skills[id].isApproved
  {
  }

  /** An instance of the above: the owner of the wanted skill "Chess" offers it instead. */
  lemma SharedInstanceExample()
    ensures var owner := User(1, "alice", "x", "Alice", None, None, "", true, false, true);
      var chess := Skill(1, "Chess", None, false, RefOf(owner), true);
      var t := EmptyTables().(users := map[1 := owner], skills := map[1 := chess], nextUserId := 2, nextSkillId := 2);
      var dto := SkillDTO(None, Some("Chess"), None, true, None, None, true);
      WellFormed(t)
      && UpdateEndpointSharedInstance(t, Auth("alice", false), 1, dto).1.skills[1].isApproved
      && !UpdateEndpoint(t, Auth("alice", false), 1, dto).1.skills[1].isApproved
      && 1 in SkillRepository.FindByNameContainingAndIsOffered(UpdateEndpointSharedInstance(t, Auth("alice", false), 1, dto).1.skills, "Chess", true)
  {
    var owner := User(1, "alice", "x", "Alice", None, None, "", true, false, true);
    var chess := Skill(1, "Chess", None, false, RefOf(owner), true);
    var t := EmptyTables().(users := map[1 := owner], skills := map[1 := chess], nextUserId := 2, nextSkillId := 2);
    var dto := SkillDTO(None, Some("Chess"), None, true, None, None, true);
    assert !Text.IsJavaBlank("Chess") by {
      assert "Chess"[0] == 'C';
    }
    var t' := UpdateEndpointSharedInstance(t, Auth("alice", false), 1, dto).1;
    assert Text.OccursAt(t'.skills[1].name, "Chess", 0);
  }

  /** DELETE /{id}: 404, the owner-or-admin check, then the service; 200 with no body. */
  function DeleteEndpoint(t: Tables, auth: Auth, id: int): (Response<SkillDTO>, Tables)
  {
    if id !in t.skills then (NotFoundResponse(), t)
    else if !OwnerOrAdmin(t.skills[id], auth) then (Forbidden("You don't have permission to delete this skill"), t)
    else
      var (r, t') := Service.Delete(t, id);
      match r
      case None => (Response(OK, Empty), t')
      case Some(e) => (BadRequestResponse(e), t')
  }

  /**
   * Only the owner or an admin removes a skill, and only one no swap request
   * refers to; every other answer leaves the tables unchanged.
   */
  lemma DeleteOutcomes(t: Tables, auth: Auth, id: int)
    requires WellFormed(t)
    ensures var (r, t') := DeleteEndpoint(t, auth, id);
      WellFormed(t')
      && (r.status != OK ==> t' == t)
      && (r.status == OK <==> id in t.skills && OwnerOrAdmin(t.skills[id], auth) && !Service.InUse(t, id))
      && (r.status == OK ==> r.body == Empty && t'.skills == t.skills - {id})
      && (r.status == BAD_REQUEST ==> r.body == Failure(ConstraintViolation("swap_requests", id)))
  {
    Service.DeleteEffect(t, id);
  }

  method DeleteSkill(db: Db, auth: Auth, id: int) returns (r: Response<SkillDTO>)
    requires db.Valid()
    modifies db
    ensures db.Valid()
    ensures (r, db.State()) == DeleteEndpoint(old(db.State()), auth, id)
  {
    if id !in db.skills {
      return NotFoundResponse();
    }
    var skill := db.skills[id];
    if !OwnerOrAdmin(skill, auth) {
      return Forbidden("You don't have permission to delete this skill");
    }
    var done := Service.DeleteSkill(db, id);
    match done
    case None => r := Response(OK, Empty);
    case Some(e) => r := BadRequestResponse(e);
  }

  // -------------------------------------------------------------- moderation

  /** PUT /{id}/approve and /{id}/reject: admin only, then the service; 200 with no body. */
  function ModerateEndpoint(t: Tables, auth: Auth, id: int, approved: bool): (Response<SkillDTO>, Tables)
  {
    if !auth.isAdmin then (Response(FORBIDDEN, Empty), t)
    else
      var (r, t') := Service.SetApproval(t, id, approved);
      match r
      case None => (Response(OK, Empty), t')
      case Some(e) => (BadRequestResponse(e), t')
  }

  /** Only an admin moderates; an unknown id is a 400 carrying the not-found exception. */
  lemma ModerateOutcomes(t: Tables, auth: Auth, id: int, approved: bool)
    requires WellFormed(t)
    ensures var (r, t') := ModerateEndpoint(t, auth, id, approved);
      WellFormed(t')
      && (r.status != OK ==> t' == t)
      && (r.status == OK <==> auth.isAdmin && id in t.skills)
      && (r.status == FORBIDDEN <==> !auth.isAdmin)
      && (r.status == BAD_REQUEST ==> r.body == Failure(NotFound("Skill", "id", id)))
      && (r.status == OK ==> t'.skills[id].isApproved == approved && t'.skills.Keys == t.skills.Keys)
  {
    Service.SetApprovalEffect(t, id, approved, approved);
  }

  method ModerateSkill(db: Db, auth: Auth, id: int, approved: bool) returns (r: Response<SkillDTO>)
    requires db.Valid()
    modifies db
    ensures db.Valid()
    ensures (r, db.State()) == ModerateEndpoint(old(db.State()), auth, id, approved)
  {
    if !auth.isAdmin {
      return Response(FORBIDDEN, Empty);
    }
    var done := Service.SetSkillApproval(db, id, approved);
    match done
    case None => r := Response(OK, Empty);
    case Some(e) => r := BadRequestResponse(e);
  }

  method ApproveSkill(db: Db, auth: Auth, id: int) returns (r: Response<SkillDTO>)
    requires db.Valid()
    modifies db
    ensures db.Valid()
    ensures (r, db.State()) == ModerateEndpoint(old(db.State()), auth, id, true)
  {
    r := ModerateSkill(db, auth, id, true);
  }

  method RejectSkill(db: Db, auth: Auth, id: int) returns (r: Response<SkillDTO>)
    requires db.Valid()
    modifies db
    ensures db.Valid()
    ensures (r, db.State()) == ModerateEndpoint(old(db.State()), auth, id, false)
  {
    r := ModerateSkill(db, auth, id, false);
  }
}
