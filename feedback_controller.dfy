/**
 * FeedbackController: who may read a user's or a swap's feedback, the
 * self-only create, the reviewer-or-admin delete and the admin rating
 * filters with their default thresholds.
 */
module FeedbackController {
  import opened Wrappers
  import opened Entities
  import opened Errors
  import opened SwapRequests
  import opened Store
  import opened Http
  import opened FeedbackDto
  import FeedbackRepository
  import UserRepository
  import Service = FeedbackService

  type Rows = map<int, Feedback>

  /** convertToDTO: every column of the record, with the two users reduced to their ids and usernames. */
  function ConvertToDTO(f: Feedback): (d: FeedbackDTO)
    ensures d.id == Some(f.id) && d.swapRequestId == Some(f.swapRequestId) && d.rating == f.rating
    ensures d.reviewerId == Some(f.reviewer.id) && d.recipientId == Some(f.recipient.id)
  {
    FeedbackDTO(Some(f.id), Some(f.reviewer.id), Some(f.reviewer.username), Some(f.recipient.id),
                Some(f.recipient.username), Some(f.swapRequestId), f.rating, f.comment, Some(f.createdAt))
  }

  /** The DTO loses nothing, and a stored record converts to a valid body when its comment fits. */
  lemma ConvertIsInjective(a: Feedback, b: Feedback)
    requires ConvertToDTO(a) == ConvertToDTO(b)
    ensures a == b
  {
  }

  lemma StoredFeedbackConvertsValid(f: Feedback)
    requires 1 <= f.rating <= 5
    ensures IsValid(ConvertToDTO(f)) <==> (f.comment.None? || |f.comment.value| <= MaxComment)
  {
  }

  function Dtos(rows: Rows, keys: set<int>): set<FeedbackDTO>
  {
    set k | k in keys && k in rows :: ConvertToDTO(rows[k])
  }

  // ------------------------------------------------------------------- reads

  /** Whether the caller's row is the reviewer (given) or the recipient (received) of a record. */
  predicate OwnedBy(f: Feedback, userId: int, given: bool)
  {
    (if given then f.reviewer.id else f.recipient.id) == userId
  }

  /**
   * GET /given and /received: the caller's own feedback; 401 when the caller
   * has no user row. The body is the DTO of every record the caller's row
   * gave (or received) and of no other, each naming the caller.
   */
  function OwnFeedback(t: Tables, auth: Auth, given: bool): (r: Response<set<FeedbackDTO>>)
    requires WellFormed(t)
    ensures r.status == OK || r == Unauthorized()
    ensures r.status == UNAUTHORIZED <==> UserRepository.FindByUsername(t.users, auth.name).None?
    ensures r.status == OK ==> (
      r.body.Value? &&
      var user := UserRepository.FindByUsername(t.users, auth.name).value;
      (forall k | k in t.feedback && OwnedBy(t.feedback[k], user.id, given) :: ConvertToDTO(t.feedback[k]) in r.body.value) &&
      (forall d | d in r.body.value ::
         exists k :: k in t.feedback && d == ConvertToDTO(t.feedback[k]) && OwnedBy(t.feedback[k], user.id, given)) &&
      (forall d | d in r.body.value :: (if given then d.reviewerUsername else d.recipientUsername) == Some(auth.name)))
  {
    match UserRepository.FindByUsername(t.users, auth.name)
    case None => Unauthorized()
    case Some(user) =>
      var keys := if given then FeedbackRepository.FindByReviewer(t.feedback, user.id)
                  else FeedbackRepository.FindByRecipient(t.feedback, user.id);
      OkResponse(Dtos(t.feedback, keys))
  }

  /** GET /user/{userId}: the feedback a user received, behind the visibility rule. */
  function FeedbackOfUser(t: Tables, auth: Auth, userId: int): (r: Response<set<FeedbackDTO>>)
    ensures r.status == NOT_FOUND <==> userId !in t.users
    ensures r.status == OK <==> userId in t.users && CanSee(t.users[userId], auth)
    ensures r.status == FORBIDDEN ==> r.body == Empty
    ensures r.status == OK ==> (
      r.body.Value? &&
      (forall k | k in t.feedback && t.feedback[k].recipient.id == userId :: ConvertToDTO(t.feedback[k]) in r.body.value) &&
      (forall d | d in r.body.value ::
         exists k :: k in t.feedback && d == ConvertToDTO(t.feedback[k]) && t.feedback[k].recipient.id == userId))
  {
    if userId !in t.users then NotFoundResponse()
    else if CanSee(t.users[userId], auth) then
      OkResponse(Dtos(t.feedback, FeedbackRepository.FindByRecipient(t.feedback, userId)))
    else Response(FORBIDDEN, Empty)
  }

  /** GET /swap-request/{swapRequestId}: for the swap's participants and admins only. */
  function FeedbackOfSwap(t: Tables, auth: Auth, swapRequestId: int): (r: Response<set<FeedbackDTO>>)
    ensures r.status == NOT_FOUND <==> swapRequestId !in t.swaps
    ensures r.status == OK <==> (swapRequestId in t.swaps
      && (t.swaps[swapRequestId].requester.username == auth.name || t.swaps[swapRequestId].provider.username == auth.name
          || auth.isAdmin))
    ensures r.status == FORBIDDEN ==> r.body == Empty
    ensures r.status == OK ==> (
      r.body.Value? &&
      (forall k | k in t.feedback && t.feedback[k].swapRequestId == swapRequestId :: ConvertToDTO(t.feedback[k]) in r.body.value) &&
      (forall d | d in r.body.value ::
         exists k :: k in t.feedback && d == ConvertToDTO(t.feedback[k]) && t.feedback[k].swapRequestId == swapRequestId))
  {
    if swapRequestId !in t.swaps then NotFoundResponse()
    else
      var swap := t.swaps[swapRequestId];
      if swap.requester.username == auth.name || swap.provider.username == auth.name || auth.isAdmin then
        OkResponse(Dtos(t.feedback, FeedbackRepository.FindBySwapRequest(t.feedback, swapRequestId)))
      else Response(FORBIDDEN, Empty)
  }

  /**
   * GET /rating/{userId}, behind the visibility rule. The body is the average
   * rating, null when the user received no feedback.
   */
  ghost function RatingOfUser(t: Tables, auth: Auth, userId: int): (r: Response<Option<real>>)
    requires WellFormed(t)
    ensures r.status == NOT_FOUND <==> userId !in t.users
    ensures r.status == OK <==> userId in t.users && CanSee(t.users[userId], auth)
    ensures r.status == FORBIDDEN ==> r.body == Empty
    ensures r.status == OK ==> (
      r.body.Value? &&
      (r.body.value.None? <==> forall k | k in t.feedback :: t.feedback[k].recipient.id != userId) &&
      (r.body.value.Some? ==> 1.0 <= r.body.value.value <= 5.0))
  {
    if userId !in t.users then NotFoundResponse()
    else if CanSee(t.users[userId], auth) then
      FeedbackRepository.AverageInRange(t.feedback, userId);
      OkResponse(FeedbackRepository.AverageRating(t.feedback, userId))
    else Response(FORBIDDEN, Empty)
  }

  // ------------------------------------------------------------ admin reads

  const DefaultMaxRating := 2
  const DefaultMinRating := 4

  /** GET /admin/all, /admin/low-rating and /admin/high-rating; an absent threshold takes its default. */
  datatype AdminQuery = AllFeedback | LowRating(maxRating: Option<int>) | HighRating(minRating: Option<int>)

  /** Whether a record answers an admin query, with an absent threshold at its default. */
  predicate Answers(f: Feedback, q: AdminQuery)
  {
    match q
    case AllFeedback => true
    case LowRating(m) => f.rating <= m.GetOr(DefaultMaxRating)
    case HighRating(m) => f.rating >= m.GetOr(DefaultMinRating)
  }

  function AdminKeys(rows: Rows, q: AdminQuery): set<int>
  {
    match q
    case AllFeedback => rows.Keys
    case LowRating(m) => FeedbackRepository.FindByRatingLessThanEqual(rows, m.GetOr(DefaultMaxRating))
    case HighRating(m) => FeedbackRepository.FindByRatingGreaterThanEqual(rows, m.GetOr(DefaultMinRating))
  }

  /** A non-admin gets 403; an admin gets the DTO of every record answering the query, and of no other. */
  function AdminList(rows: Rows, auth: Auth, q: AdminQuery): (r: Response<set<FeedbackDTO>>)
    ensures r.status == OK <==> auth.isAdmin
    ensures !auth.isAdmin ==> r == Response(FORBIDDEN, Empty)
    ensures r.status == OK ==> (
      r.body.Value? &&
      (forall k | k in rows && Answers(rows[k], q) :: ConvertToDTO(rows[k]) in r.body.value) &&
      (forall d | d in r.body.value :: exists k :: k in rows && d == ConvertToDTO(rows[k]) && Answers(rows[k], q)))
  {
    if !auth.isAdmin then Response(FORBIDDEN, Empty) else OkResponse(Dtos(rows, AdminKeys(rows, q)))
  }

  /**
   * Without a threshold the low list holds ratings of 2 or less and the high
   * list ratings of 4 or more, so a rating of 3 is in neither.
   */
  lemma DefaultThresholds(rows: Rows, auth: Auth)
    requires auth.isAdmin
    ensures forall d | d in AdminList(rows, auth, LowRating(None)).body.value :: d.rating <= 2
    ensures forall d | d in AdminList(rows, auth, HighRating(None)).body.value :: d.rating >= 4
    ensures AdminList(rows, auth, LowRating(None)) == AdminList(rows, auth, LowRating(Some(2)))
    ensures AdminList(rows, auth, HighRating(None)) == AdminList(rows, auth, HighRating(Some(4)))
  {
  }

  // ------------------------------------------------------------------ create

  /** POST /: validation, the caller's user row, the self-only rule, then the service. */
  function CreateEndpoint(t: Tables, auth: Auth, dto: FeedbackDTO, now: int): (Response<FeedbackDTO>, Tables)
    requires WellFormed(t)
  {
    if !IsValid(dto) then (Response(BAD_REQUEST, Invalid), t)
    else match UserRepository.FindByUsername(t.users, auth.name)
      case None => (Unauthorized(), t)
      case Some(user) =>
        if Some(user.id) != dto.reviewerId then (Forbidden("You can only give feedback as yourself"), t)
        else
          var (r, t') := Service.Create(t, dto.reviewerId.value, dto.recipientId.value, dto.swapRequestId.value,
                                        dto.rating, dto.comment, now);
          match r
          case Ok(f) => (Response(CREATED, Value(ConvertToDTO(f))), t')
          case Err(e) => (BadRequestResponse(e), t')
  }

  /**
   * Feedback is given only as oneself: a 201 means the caller is the
   * reviewer of the new record; a caller naming another reviewer gets 403;
   * every other answer leaves the tables unchanged. Validation already keeps
   * the rating in 1..5, so the service's own rating guard never fires here.
   */
  lemma CreateOnlyAsSelf(t: Tables, auth: Auth, dto: FeedbackDTO, now: int)
    requires WellFormed(t)
    ensures var (r, t') := CreateEndpoint(t, auth, dto, now);
      (r.status != CREATED ==> t' == t)
      && (r.status == CREATED ==>
            r.body.Value? && r.body.value.reviewerUsername == Some(auth.name) && r.body.value.rating == dto.rating
            && WellFormed(t') && t.nextFeedbackId in t'.feedback)
      && (IsValid(dto) && UserRepository.FindByUsername(t.users, auth.name).Some?
          && Some(UserRepository.FindByUsername(t.users, auth.name).value.id) != dto.reviewerId
          ==> r.status == FORBIDDEN)
  {
    if IsValid(dto) && UserRepository.FindByUsername(t.users, auth.name).Some? {
      var user := UserRepository.FindByUsername(t.users, auth.name).value;
      if Some(user.id) == dto.reviewerId {
        Service.CreateEffect(t, dto.reviewerId.value, dto.recipientId.value, dto.swapRequestId.value,
                             dto.rating, dto.comment, now);
      }
    }
  }

  /**
   * Validation keeps the rating in 1..5, so what the service answers to a
   * valid body does not depend on its rating: the service's own rating check
   * cannot fire behind this endpoint.
   */
  lemma RatingGuardUnreachable(t: Tables, dto: FeedbackDTO, other: int)
    requires IsValid(dto) && MinRating <= other <= MaxRating
    ensures Service.CreateCheck(t, dto.reviewerId.value, dto.recipientId.value, dto.swapRequestId.value, dto.rating)
         == Service.CreateCheck(t, dto.reviewerId.value, dto.recipientId.value, dto.swapRequestId.value, other)
  {
  }

  method CreateFeedback(db: Db, auth: Auth, dto: FeedbackDTO, now: int) returns (r: Response<FeedbackDTO>)
    requires db.Valid()
    modifies db
    ensures db.Valid()
    ensures (r, db.State()) == CreateEndpoint(old(db.State()), auth, dto, now)
  {
    if !IsValid(dto) {
      return Response(BAD_REQUEST, Invalid);
    }
    var userOpt := UserRepository.FindByUsername(db.users, auth.name);
    if userOpt.None? {
      return Unauthorized();
    }
    var user := userOpt.value;
    if Some(user.id) != dto.reviewerId {
      return Forbidden("You can only give feedback as yourself");
    }
    var created := Service.CreateFeedback(db, dto.reviewerId.value, dto.recipientId.value, dto.swapRequestId.value,
                                          dto.rating, dto.comment, now);
    match created
    case Ok(f) => r := Response(CREATED, Value(ConvertToDTO(f)));
    case Err(e) => r := BadRequestResponse(e);
  }

  // ------------------------------------------------------------------ delete

  /** DELETE /{id}: 404, the reviewer-or-admin check, then the service; 200 with no body. */
  function DeleteEndpoint(t: Tables, auth: Auth, id: int): (Response<FeedbackDTO>, Tables)
  {
    if id !in t.feedback then (NotFoundResponse(), t)
    else if !(t.feedback[id].reviewer.username == auth.name || auth.isAdmin) then
      (Forbidden("You don't have permission to delete this feedback"), t)
    else
      var (r, t') := Service.Delete(t, id);
      match r
      case None => (Response(OK, Empty), t')
      case Some(e) => (BadRequestResponse(e), t')
  }

  /** Only the reviewer or an admin removes a record; anyone else gets 403 and the record remains. */
  lemma DeleteOutcomes(t: Tables, auth: Auth, id: int)
    requires WellFormed(t)
    ensures var (r, t') := DeleteEndpoint(t, auth, id);
      WellFormed(t')
      && (r.status == OK || r.status == NOT_FOUND || r.status == FORBIDDEN)
      && (r.status != OK ==> t' == t)
      && (r.status == NOT_FOUND <==> id !in t.feedback)
      && (r.status == OK <==> id in t.feedback && (t.feedback[id].reviewer.username == auth.name || auth.isAdmin))
      && (r.status == OK ==> r.body == Empty && t'.feedback == t.feedback - {id})
  {
    Service.DeleteEffect(t, id);
  }

  method DeleteFeedback(db: Db, auth: Auth, id: int) returns (r: Response<FeedbackDTO>)
    requires db.Valid()
    modifies db
    ensures db.Valid()
    ensures (r, db.State()) == DeleteEndpoint(old(db.State()), auth, id)
  {
    if id !in db.feedback {
      return NotFoundResponse();
    }
    var feedback := db.feedback[id];
    if !(feedback.reviewer.username == auth.name || auth.isAdmin) {
      return Forbidden("You don't have permission to delete this feedback");
    }
    var done := Service.DeleteFeedback(db, id);
    match done
    case None => r := Response(OK, Empty);
    case Some(e) => r := BadRequestResponse(e);
  }
}
