/**
 * SwapRequestController: who may see and act on a swap request, and how
 * service outcomes become HTTP responses. Reads are functions of the tables;
 * the endpoints that change state are methods specified by functions.
 */
module SwapRequestController {
  import opened Wrappers
  import opened Entities
  import opened Errors
  import opened SwapRequests
  import opened Store
  import opened Http
  import opened SwapRequestDto
  import SwapRequestRepository
  import UserRepository
  import Service = SwapRequestService

  type Rows = map<int, SwapView>

  /** convertToDTO: every column of the request, with the parties and skills reduced to their ids and names. */
  function ConvertToDTO(v: SwapView): (d: SwapRequestDTO)
    ensures d.requesterId == Some(v.requester.id) && d.providerId == Some(v.provider.id)
    ensures d.requestedSkillId == Some(v.requestedSkill.id) && d.offeredSkillId == Some(v.offeredSkill.id)
  {
    SwapRequestDTO(v.id, Some(v.requester.id), Some(v.requester.username), Some(v.provider.id), Some(v.provider.username),
                   Some(v.requestedSkill.id), Some(v.requestedSkill.name), Some(v.offeredSkill.id), Some(v.offeredSkill.name),
                   Some(v.requestDate), v.responseDate, Some(v.status), v.message)
  }

  /** Two requests with the same DTO agree on every column except the skills' other fields. */
  lemma ConvertKeepsColumns(a: SwapView, b: SwapView)
    requires ConvertToDTO(a) == ConvertToDTO(b)
    ensures a.id == b.id && a.requester == b.requester && a.provider == b.provider
    ensures a.requestedSkill.id == b.requestedSkill.id && a.requestedSkill.name == b.requestedSkill.name
    ensures a.offeredSkill.id == b.offeredSkill.id && a.offeredSkill.name == b.offeredSkill.name
    ensures a.requestDate == b.requestDate && a.responseDate == b.responseDate
    ensures a.status == b.status && a.message == b.message
  {
  }

  /** A converted request passes validation exactly when its message fits in 300 characters. */
  lemma ConvertedIsValidIff(v: SwapView)
    ensures IsValid(ConvertToDTO(v)) <==> (v.message.None? || |v.message.value| <= MaxMessage)
  {
  }

  function Dtos(rows: Rows, keys: set<int>): set<SwapRequestDTO>
  {
    set k | k in keys && k in rows :: ConvertToDTO(rows[k])
  }

  /** The four list endpoints of the caller: their own, sent, received, or their own with one status. */
  datatype ListScope = All | Sent | Received | WithStatus(status: SwapStatus)

  function ScopeKeys(rows: Rows, userId: int, scope: ListScope): set<int>
  {
    match scope
    case All => SwapRequestRepository.FindByUser(rows, userId)
    case Sent => SwapRequestRepository.FindByRequester(rows, userId)
    case Received => SwapRequestRepository.FindByProvider(rows, userId)
    case WithStatus(s) => SwapRequestRepository.FindByUserAndStatus(rows, userId, s)
  }

  /** Whether a request belongs in the caller's list of this scope, stated on the request's own columns. */
  predicate InScope(v: SwapView, userId: int, scope: ListScope)
  {
    match scope
    case All => v.requester.id == userId || v.provider.id == userId
    case Sent => v.requester.id == userId
    case Received => v.provider.id == userId
    case WithStatus(s) => (v.requester.id == userId || v.provider.id == userId) && v.status == s
  }

  /**
   * GET /, /sent, /received and /status/{status}: 401 when the caller has no
   * user row; otherwise the body is exactly the DTOs of the requests of the
   * caller's row in that scope, every one of which names the caller.
   */
  function ListForCaller(t: Tables, auth: Auth, scope: ListScope): (r: Response<set<SwapRequestDTO>>)
    requires WellFormed(t)
    ensures r.status == OK || r == Unauthorized()
    ensures r.status == UNAUTHORIZED <==> UserRepository.FindByUsername(t.users, auth.name).None?
    ensures r.status == OK ==> (
      r.body.Value? &&
      var user := UserRepository.FindByUsername(t.users, auth.name).value;
      (forall k | k in t.swaps && InScope(t.swaps[k], user.id, scope) :: ConvertToDTO(t.swaps[k]) in r.body.value) &&
      (forall d | d in r.body.value ::
         exists k :: k in t.swaps && d == ConvertToDTO(t.swaps[k]) &&
           InScope(t.swaps[k], user.id, scope) && IsParticipant(t.swaps[k], auth.name)))
  {
    match UserRepository.FindByUsername(t.users, auth.name)
    case None => Unauthorized()
    case Some(user) =>
      ScopeListing(t, user, scope);
      OkResponse(Dtos(t.swaps, ScopeKeys(t.swaps, user.id, scope)))
  }

  /**
   * The scope's query lists the DTO of every request in scope and of no
   * other, and under the table invariant each one names the user.
   */
  lemma ScopeListing(t: Tables, user: User, scope: ListScope)
    requires WellFormed(t) && exists k :: k in t.users && t.users[k] == user
    ensures var body := Dtos(t.swaps, ScopeKeys(t.swaps, user.id, scope));
      (forall k | k in t.swaps && InScope(t.swaps[k], user.id, scope) :: ConvertToDTO(t.swaps[k]) in body) &&
      (forall d | d in body ::
         exists k :: k in t.swaps && d == ConvertToDTO(t.swaps[k]) &&
           InScope(t.swaps[k], user.id, scope) && IsParticipant(t.swaps[k], user.username))
  {
    var keys := ScopeKeys(t.swaps, user.id, scope);
    assert forall k :: k in keys <==> k in t.swaps && InScope(t.swaps[k], user.id, scope);
    forall d | d in Dtos(t.swaps, keys)
      ensures exists k :: k in t.swaps && d == ConvertToDTO(t.swaps[k]) &&
                          InScope(t.swaps[k], user.id, scope) && IsParticipant(t.swaps[k], user.username)
    {
      var k :| k in keys && k in t.swaps && d == ConvertToDTO(t.swaps[k]);
      var v := t.swaps[k];
      assert RefersTo(t.users, v.requester) && RefersTo(t.users, v.provider);
    }
  }

  predicate IsParticipant(v: SwapView, username: string)
  {
    v.requester.username == username || v.provider.username == username
  }

  predicate IsProvider(v: SwapView, username: string)
  {
    v.provider.username == username
  }

  /** GET /{id}: the request for its participants and for admins; 403 for anyone else; 404 when absent. */
  function GetSwapRequestById(rows: Rows, auth: Auth, id: int): (r: Response<SwapRequestDTO>)
    ensures r.status == NOT_FOUND <==> id !in rows
    ensures r.status == OK <==> id in rows && (IsParticipant(rows[id], auth.name) || auth.isAdmin)
    ensures r.status == OK ==> r.body == Value(ConvertToDTO(rows[id]))
    ensures r.status == FORBIDDEN ==> r.body == Text("You don't have permission to view this swap request")
  {
    if id !in rows then NotFoundResponse()
    else if IsParticipant(rows[id], auth.name) || auth.isAdmin then OkResponse(ConvertToDTO(rows[id]))
    else Forbidden("You don't have permission to view this swap request")
  }

  /**
   * GET /admin/all and /admin/status/{status}: @PreAuthorize turns a
   * non-admin away with 403; an admin gets the DTO of every request, or of
   * every request with the given status, and nothing else.
   */
  function AdminList(rows: Rows, auth: Auth, status: Option<SwapStatus>): (r: Response<set<SwapRequestDTO>>)
    ensures r.status == OK <==> auth.isAdmin
    ensures !auth.isAdmin ==> r == Response(FORBIDDEN, Empty)
    ensures r.status == OK ==> (
      r.body.Value? &&
      (forall k | k in rows && (status.None? || rows[k].status == status.value) :: ConvertToDTO(rows[k]) in r.body.value) &&
      (forall d | d in r.body.value ::
         exists k :: k in rows && d == ConvertToDTO(rows[k]) &&
           (status.None? || rows[k].status == status.value)))
  {
    if !auth.isAdmin then Response(FORBIDDEN, Empty)
    else match status
      case None => OkResponse(Dtos(rows, rows.Keys))
      case Some(s) => OkResponse(Dtos(rows, SwapRequestRepository.FindByStatus(rows, s)))
  }

  // ------------------------------------------------------------------ create

  /** POST /: validation, the caller's user row, the self-only rule, then the service. */
  function CreateEndpoint(t: Tables, auth: Auth, dto: SwapRequestDTO, now: int): (Response<SwapRequestDTO>, Tables)
    requires WellFormed(t)
  {
    if !IsValid(dto) then (Response(BAD_REQUEST, Invalid), t)
    else match UserRepository.FindByUsername(t.users, auth.name)
      case None => (Unauthorized(), t)
      case Some(user) =>
        if Some(user.id) != dto.requesterId then (Forbidden("You can only create swap requests for yourself"), t)
        else
          var (r, t') := Service.Create(t, dto.requesterId.value, dto.providerId.value, dto.requestedSkillId.value,
                                        dto.offeredSkillId.value, dto.message, now);
          match r
          case Ok(v) => (Response(CREATED, Value(ConvertToDTO(v))), t')
          case Err(e) => (BadRequestResponse(e), t')
  }

  /**
   * A request is created only for the caller: a 201 means the caller's user
   * row is the requester of the new row; every other response leaves the
   * tables unchanged, and a caller naming someone else as requester gets 403.
   */
  lemma CreateOnlyForSelf(t: Tables, auth: Auth, dto: SwapRequestDTO, now: int)
    requires WellFormed(t)
    ensures var (r, t') := CreateEndpoint(t, auth, dto, now);
      (r.status != CREATED ==> t' == t)
      && (r.status == CREATED ==>
            r.body.Value? && r.body.value.requesterUsername == Some(auth.name) && r.body.value.status == Some(PENDING)
            && dto.requesterId.Some? && t.nextSwapId in t'.swaps && t'.swaps[t.nextSwapId].requester.id == dto.requesterId.value)
      && (IsValid(dto) && UserRepository.FindByUsername(t.users, auth.name).Some?
          && Some(UserRepository.FindByUsername(t.users, auth.name).value.id) != dto.requesterId
          ==> r.status == FORBIDDEN)
  {
    if IsValid(dto) && UserRepository.FindByUsername(t.users, auth.name).Some? {
      var user := UserRepository.FindByUsername(t.users, auth.name).value;
      if Some(user.id) == dto.requesterId {
        Service.CreateEffect(t, dto.requesterId.value, dto.providerId.value, dto.requestedSkillId.value,
                             dto.offeredSkillId.value, dto.message, now);
      }
    }
  }

  method CreateSwapRequest(db: Db, auth: Auth, dto: SwapRequestDTO, now: int) returns (r: Response<SwapRequestDTO>)
    requires db.Valid()
    modifies db
    ensures db.Valid()
    ensures (r, db.State()) == CreateEndpoint(old(db.State()), auth, dto, now)
  {
    if !IsValid(dto) {
      return Response(BAD_REQUEST, Invalid);
    }
    var userOpt := UserRepository.FindByUsername(db.users, auth.name);
    if userOpt.None? {
      return Unauthorized();
    }
    var user := userOpt.value;
    if Some(user.id) != dto.requesterId {
      return Forbidden("You can only create swap requests for yourself");
    }
    var created := Service.CreateSwapRequest(db, dto.requesterId.value, dto.providerId.value,
                                             dto.requestedSkillId.value, dto.offeredSkillId.value, dto.message, now);
    match created
    case Ok(v) => r := Response(CREATED, Value(ConvertToDTO(v)));
    case Err(e) => r := BadRequestResponse(e);
  }

  // ------------------------------------------------------------- transitions

  /** Accept and reject are for the provider; complete and cancel for either participant. */
  predicate RoleAllows(a: Service.Action, v: SwapView, username: string)
  {
    match a
    case Accept => IsProvider(v, username)
    case Reject => IsProvider(v, username)
    case Complete => IsParticipant(v, username)
    case Cancel => IsParticipant(v, username)
  }

  function RoleMessage(a: Service.Action): string
  {
    match a
    case Accept => "Only the provider can accept a swap request"
    case Reject => "Only the provider can reject a swap request"
    case Complete => "Only participants can complete a swap request"
    case Cancel => "Only participants can cancel a swap request"
  }

  /** PUT /{id}/accept, /reject, /complete and /cancel: 404, then the role check, then the service. */
  function ActionEndpoint(rows: Rows, auth: Auth, id: int, a: Service.Action, now: int): (Response<SwapRequestDTO>, Rows)
  {
    if id !in rows then (NotFoundResponse(), rows)
    else if !RoleAllows(a, rows[id], auth.name) then (Forbidden(RoleMessage(a)), rows)
    else
      var (r, rows') := Service.Transition(rows, id, a, now);
      match r
      case Ok(v) => (OkResponse(ConvertToDTO(v)), rows')
      case Err(e) => (BadRequestResponse(e), rows')
  }

  /**
   * An action changes the table only with a 200, which needs the role the
   * action demands and a status its guard accepts; a caller without the role
   * gets 403, a refused status gives 400 with the service's exception, and an
   * unknown id gives 404.
   */
  lemma ActionOutcomes(rows: Rows, auth: Auth, id: int, a: Service.Action, now: int)
    ensures var (r, rows') := ActionEndpoint(rows, auth, id, a, now);
      (r.status != OK ==> rows' == rows)
      && (r.status == OK <==> id in rows && RoleAllows(a, rows[id], auth.name) && Service.Allowed(a, rows[id].status))
      && (r.status == NOT_FOUND <==> id !in rows)
      && (r.status == FORBIDDEN <==> id in rows && !RoleAllows(a, rows[id], auth.name))
      && (r.status == BAD_REQUEST ==>
            r.body == Failure(BadRequest(Service.GuardMessage(a, rows[id].status))))
      && (r.status == OK ==>
            rows' == Service.Transition(rows, id, a, now).1 && r.body == Value(ConvertToDTO(rows'[id])))
  {
    if id in rows && RoleAllows(a, rows[id], auth.name) {
      var (o, rows') := Service.Transition(rows, id, a, now);
      if Service.Allowed(a, rows[id].status) {
        assert o.Ok? && rows'[id] == o.value;
        assert ActionEndpoint(rows, auth, id, a, now) == (OkResponse(ConvertToDTO(o.value)), rows');
      } else {
        assert o == Err(BadRequest(Service.GuardMessage(a, rows[id].status))) && rows' == rows;
        assert ActionEndpoint(rows, auth, id, a, now) == (BadRequestResponse(o.error), rows);
      }
    }
  }

  /** Only the provider can accept or reject: a requester who is not also the provider is always refused. */
  lemma OnlyProviderDecides(rows: Rows, auth: Auth, id: int, now: int)
    requires id in rows && rows[id].provider.username != auth.name
    ensures ActionEndpoint(rows, auth, id, Service.Accept, now) == (Forbidden(RoleMessage(Service.Accept)), rows)
    ensures ActionEndpoint(rows, auth, id, Service.Reject, now) == (Forbidden(RoleMessage(Service.Reject)), rows)
  {
  }

  method ActOn(db: Db, auth: Auth, id: int, a: Service.Action, now: int) returns (r: Response<SwapRequestDTO>)
    requires db.Valid()
    modifies db.swaps.Values
    ensures db.Valid()
    ensures (r, db.SwapRows()) == ActionEndpoint(old(db.SwapRows()), auth, id, a, now)
    ensures db.State() == old(db.State()).(swaps := db.SwapRows())
  {
    var found := db.FindSwapById(id);
    if found.None? {
      return NotFoundResponse();
    }
    var swapRequest := found.value;
    assert swapRequest.View() == db.SwapRows()[id];
    if !RoleAllows(a, swapRequest.View(), auth.name) {
      return Forbidden(RoleMessage(a));
    }
    var outcome := Service.Apply(db, id, a, now);
    match outcome
    case Ok(v) => r := OkResponse(ConvertToDTO(v));
    case Err(e) => r := BadRequestResponse(e);
  }

  method AcceptSwapRequest(db: Db, auth: Auth, id: int, now: int) returns (r: Response<SwapRequestDTO>)
    requires db.Valid()
    modifies db.swaps.Values
    ensures db.Valid()
    ensures (r, db.SwapRows()) == ActionEndpoint(old(db.SwapRows()), auth, id, Service.Accept, now)
    ensures db.State() == old(db.State()).(swaps := db.SwapRows())
  {
    r := ActOn(db, auth, id, Service.Accept, now);
  }

  method RejectSwapRequest(db: Db, auth: Auth, id: int, now: int) returns (r: Response<SwapRequestDTO>)
    requires db.Valid()
    modifies db.swaps.Values
    ensures db.Valid()
    ensures (r, db.SwapRows()) == ActionEndpoint(old(db.SwapRows()), auth, id, Service.Reject, now)
    ensures db.State() == old(db.State()).(swaps := db.SwapRows())
  {
    r := ActOn(db, auth, id, Service.Reject, now);
  }

  method CompleteSwapRequest(db: Db, auth: Auth, id: int, now: int) returns (r: Response<SwapRequestDTO>)
    requires db.Valid()
    modifies db.swaps.Values
    ensures db.Valid()
    ensures (r, db.SwapRows()) == ActionEndpoint(old(db.SwapRows()), auth, id, Service.Complete, now)
    ensures db.State() == old(db.State()).(swaps := db.SwapRows())
  {
    r := ActOn(db, auth, id, Service.Complete, now);
  }

  method CancelSwapRequest(db: Db, auth: Auth, id: int, now: int) returns (r: Response<SwapRequestDTO>)
    requires db.Valid()
    modifies db.swaps.Values
    ensures db.Valid()
    ensures (r, db.SwapRows()) == ActionEndpoint(old(db.SwapRows()), auth, id, Service.Cancel, now)
    ensures db.State() == old(db.State()).(swaps := db.SwapRows())
  {
    r := ActOn(db, auth, id, Service.Cancel, now);
  }
}
