/**
 * SwapRequestService: swap-request creation and the four lifecycle
 * transitions. Each operation is specified by a function from the tables
 * before the call to the outcome and the tables after it; the methods perform
 * the same steps on the store's managed entities.
 */
module SwapRequestService {
  import opened Wrappers
  import opened Text
  import opened Entities
  import opened Errors
  import opened SwapRequests
  import opened Store
  import SwapRequestRepository

  type Rows = map<int, SwapView>
  type Outcome = Result<SwapView, ServiceError>

  /** getSwapRequestById: the row, or a not-found exception. */
  function GetSwapRequestById(rows: Rows, id: int): (r: Outcome)
    ensures r.Ok? <==> id in rows
    ensures r.Ok? ==> r.value == rows[id]
    ensures r.Err? ==> r.error == NotFound("SwapRequest", "id", id)
  {
    if id in rows then Ok(rows[id]) else Err(NotFound("SwapRequest", "id", id))
  }

  // ---------------------------------------------------------------- creation

  const InvalidRequestedSkill := "Invalid requested skill. The skill must belong to the provider and be offered."
  const InvalidOfferedSkill := "Invalid offered skill. The skill must belong to the requester and be offered."
  const SkillsNotApproved := "Skills must be approved before creating a swap request."

  /** The first check of createSwapRequest that fails, in the order the service makes them. */
  function CreateCheck(t: Tables, requesterId: int, providerId: int, requestedSkillId: int, offeredSkillId: int)
    : Option<ServiceError>
  {
    if requesterId !in t.users then Some(NotFound("User", "id", requesterId))
    else if providerId !in t.users then Some(NotFound("User", "id", providerId))
    else if requestedSkillId !in t.skills then Some(NotFound("Skill", "id", requestedSkillId))
    else if offeredSkillId !in t.skills then Some(NotFound("Skill", "id", offeredSkillId))
    else
      var requested, offered := t.skills[requestedSkillId], t.skills[offeredSkillId];
      if requested.owner.id != providerId || !requested.isOffered then Some(BadRequest(InvalidRequestedSkill))
      else if offered.owner.id != requesterId || !offered.isOffered then Some(BadRequest(InvalidOfferedSkill))
      else if !requested.isApproved || !offered.isApproved then Some(BadRequest(SkillsNotApproved))
      else None
  }

  /** createSwapRequest on the tables: on success one PENDING row is added under the next id. */
  function Create(t: Tables, requesterId: int, providerId: int, requestedSkillId: int, offeredSkillId: int,
                  message: Option<string>, now: int): (Outcome, Tables)
  {
    match CreateCheck(t, requesterId, providerId, requestedSkillId, offeredSkillId)
    case Some(e) => (Err(e), t)
    case None =>
      var v := SwapView(Some(t.nextSwapId), RefOf(t.users[requesterId]), RefOf(t.users[providerId]),
                        t.skills[requestedSkillId], t.skills[offeredSkillId], now, None, PENDING, message);
      (Ok(v), t.(swaps := t.swaps[t.nextSwapId := v], nextSwapId := t.nextSwapId + 1))
  }

  /**
   * Creation succeeds exactly when both users and both skills exist, the
   * requested skill is an offered skill of the provider, the offered skill is
   * an offered skill of the requester, and both are approved.
   */
  lemma CreateSucceedsIff(t: Tables, requesterId: int, providerId: int, requestedSkillId: int, offeredSkillId: int,
                          message: Option<string>, now: int)
    ensures Create(t, requesterId, providerId, requestedSkillId, offeredSkillId, message, now).0.Ok?
      <==> (requesterId in t.users && providerId in t.users
            && requestedSkillId in t.skills && offeredSkillId in t.skills
            && t.skills[requestedSkillId].owner.id == providerId && t.skills[requestedSkillId].isOffered
            && t.skills[offeredSkillId].owner.id == requesterId && t.skills[offeredSkillId].isOffered
            && t.skills[requestedSkillId].isApproved && t.skills[offeredSkillId].isApproved)
  {
  }

  /** A failed creation changes nothing; a successful one adds exactly one PENDING row, unanswered, dated now. */
  lemma CreateEffect(t: Tables, requesterId: int, providerId: int, requestedSkillId: int, offeredSkillId: int,
                     message: Option<string>, now: int)
    requires WellFormed(t)
    ensures var (r, t') := Create(t, requesterId, providerId, requestedSkillId, offeredSkillId, message, now);
      (r.Err? ==> t' == t)
      && (r.Ok? ==>
            WellFormed(t')
            && t'.swaps.Keys == t.swaps.Keys + {t.nextSwapId} && t.nextSwapId !in t.swaps
            && t'.swaps[t.nextSwapId] == r.value
            && r.value.status == PENDING && r.value.responseDate == None && r.value.requestDate == now
            && r.value.requester.id == requesterId && r.value.provider.id == providerId
            && r.value.requestedSkill.id == requestedSkillId && r.value.offeredSkill.id == offeredSkillId
            && r.value.message == message
            && t'.users == t.users && t'.skills == t.skills && t'.feedback == t.feedback)
  {
    if CreateCheck(t, requesterId, providerId, requestedSkillId, offeredSkillId) == None {
      var v := SwapView(Some(t.nextSwapId), RefOf(t.users[requesterId]), RefOf(t.users[providerId]),
                        t.skills[requestedSkillId], t.skills[offeredSkillId], now, None, PENDING, message);
      SwapRowAdded(t, v);
      assert Create(t, requesterId, providerId, requestedSkillId, offeredSkillId, message, now)
        == (Ok(v), t.(swaps := t.swaps[t.nextSwapId := v], nextSwapId := t.nextSwapId + 1));
    }
  }

  /** Nothing in createSwapRequest stops a user from proposing a swap to themselves. */
  lemma SelfSwapAccepted(t: Tables, userId: int, s1: int, s2: int, message: Option<string>, now: int)
    requires userId in t.users && s1 in t.skills && s2 in t.skills
    requires t.skills[s1].owner.id == userId && t.skills[s2].owner.id == userId
    requires t.skills[s1].isOffered && t.skills[s2].isOffered && t.skills[s1].isApproved && t.skills[s2].isApproved
    ensures Create(t, userId, userId, s1, s2, message, now).0.Ok?
  {
  }

  method CreateSwapRequest(db: Db, requesterId: int, providerId: int, requestedSkillId: int, offeredSkillId: int,
                           message: Option<string>, now: int) returns (r: Outcome)
    requires db.Valid()
    modifies db
    ensures db.Valid()
    ensures (r, db.State()) == Create(old(db.State()), requesterId, providerId, requestedSkillId, offeredSkillId, message, now)
  {
    if requesterId !in db.users { return Err(NotFound("User", "id", requesterId)); }
    var requester := db.users[requesterId];
    if providerId !in db.users { return Err(NotFound("User", "id", providerId)); }
    var provider := db.users[providerId];
    if requestedSkillId !in db.skills { return Err(NotFound("Skill", "id", requestedSkillId)); }
    var requestedSkill := db.skills[requestedSkillId];
    if offeredSkillId !in db.skills { return Err(NotFound("Skill", "id", offeredSkillId)); }
    var offeredSkill := db.skills[offeredSkillId];

    if requestedSkill.owner.id != providerId || !requestedSkill.isOffered {
      return Err(BadRequest(InvalidRequestedSkill));
    }
    if offeredSkill.owner.id != requesterId || !offeredSkill.isOffered {
      return Err(BadRequest(InvalidOfferedSkill));
    }
    if !requestedSkill.isApproved || !offeredSkill.isApproved {
      return Err(BadRequest(SkillsNotApproved));
    }

    r := SavePending(db, requesterId, providerId, requestedSkillId, offeredSkillId, message, now);
  }

  /** The end of createSwapRequest, once every check has passed: the new request is built and saved. */
  method SavePending(db: Db, requesterId: int, providerId: int, requestedSkillId: int, offeredSkillId: int,
                     message: Option<string>, now: int) returns (r: Outcome)
    requires db.Valid()
    requires CreateCheck(db.State(), requesterId, providerId, requestedSkillId, offeredSkillId) == None
    modifies db
    ensures db.Valid()
    ensures (r, db.State()) == Create(old(db.State()), requesterId, providerId, requestedSkillId, offeredSkillId, message, now)
  {
    ghost var t := db.State();
    var requester, provider := db.users[requesterId], db.users[providerId];
    var requestedSkill, offeredSkill := db.skills[requestedSkillId], db.skills[offeredSkillId];
    ghost var v := SwapView(Some(t.nextSwapId), RefOf(requester), RefOf(provider), requestedSkill, offeredSkill,
                            now, None, PENDING, message);
    var swapRequest := new SwapRequest(RefOf(requester), RefOf(provider), requestedSkill, offeredSkill, message, now);
    swapRequest.SetRequestDate(now);
    swapRequest.SetStatus(PENDING);
    assert swapRequest.View() == v.(id := None);
    assert swapRequest !in db.swaps.Values;
    assert db.State() == t;
    db.InsertSwap(swapRequest);
    assert swapRequest.View() == v;
    assert db.State() == t.(swaps := t.swaps[t.nextSwapId := v], nextSwapId := t.nextSwapId + 1);
    r := Ok(swapRequest.View());
  }

  // ------------------------------------------------------------- transitions

  datatype Action = Accept | Reject | Complete | Cancel

  /** The status guard of each transition. */
  predicate Allowed(a: Action, s: SwapStatus)
  {
    match a
    case Accept => s == PENDING
    case Reject => s == PENDING
    case Complete => s == ACCEPTED
    case Cancel => s == PENDING || s == ACCEPTED
  }

  function Target(a: Action): SwapStatus
  {
    match a
    case Accept => ACCEPTED
    case Reject => REJECTED
    case Complete => COMPLETED
    case Cancel => CANCELLED
  }

  /** Only accept and reject record a response date. */
  predicate StampsResponse(a: Action)
  {
    a == Accept || a == Reject
  }

  function GuardMessage(a: Action, s: SwapStatus): string
  {
    match a
    case Accept => "Swap request is not in PENDING status. Current status: " + StatusName(s)
    case Reject => "Swap request is not in PENDING status. Current status: " + StatusName(s)
    case Complete => "Swap request is not in ACCEPTED status. Current status: " + StatusName(s)
    case Cancel => "Swap request cannot be cancelled in its current status: " + StatusName(s)
  }

  /** One transition on the swap table: not found, refused by the status guard, or applied to one row. */
  function Transition(rows: Rows, id: int, a: Action, now: int): (Outcome, Rows)
  {
    if id !in rows then (Err(NotFound("SwapRequest", "id", id)), rows)
    else if !Allowed(a, rows[id].status) then (Err(BadRequest(GuardMessage(a, rows[id].status))), rows)
    else
      var v := rows[id].(status := Target(a),
                         responseDate := if StampsResponse(a) then Some(now) else rows[id].responseDate);
      (Ok(v), rows[id := v])
  }

  /** A transition succeeds exactly when the request exists and its status passes the guard. */
  lemma TransitionSucceedsIff(rows: Rows, id: int, a: Action, now: int)
    ensures Transition(rows, id, a, now).0.Ok? <==> id in rows && Allowed(a, rows[id].status)
  {
  }

  /**
   * A refused transition leaves the table as it was; an applied one changes
   * only the status of that row to the action's target and, for accept and
   * reject only, its response date to now.
   */
  lemma TransitionEffect(rows: Rows, id: int, a: Action, now: int)
    ensures var (r, rows') := Transition(rows, id, a, now);
      (r.Err? ==> rows' == rows)
      && (r.Ok? ==>
            rows'.Keys == rows.Keys
            && (forall k | k in rows && k != id :: rows'[k] == rows[k])
            && rows'[id] == r.value
            && r.value.status == Target(a)
            && r.value.responseDate == (if StampsResponse(a) then Some(now) else rows[id].responseDate)
            && r.value == rows[id].(status := r.value.status, responseDate := r.value.responseDate))
  {
  }

  /** REJECTED, COMPLETED and CANCELLED are terminal: every transition from them is refused. */
  lemma TerminalStates(rows: Rows, id: int, a: Action, now: int)
    requires id in rows && rows[id].status in {REJECTED, COMPLETED, CANCELLED}
    ensures Transition(rows, id, a, now) == (Err(BadRequest(GuardMessage(a, rows[id].status))), rows)
  {
  }

  /** How far along the lifecycle a status is. */
  function Stage(s: SwapStatus): nat
  {
    match s
    case PENDING => 0
    case ACCEPTED => 1
    case _ => 2
  }

  /** The statuses a sequence of transitions on one request passes through, starting from `rows`. */
  function Run(rows: Rows, id: int, actions: seq<Action>, now: int): Rows
    decreases |actions|
  {
    if actions == [] then rows else Run(Transition(rows, id, actions[0], now).1, id, actions[1..], now)
  }

  /** Number of status changes a sequence of transitions makes. */
  function Changes(rows: Rows, id: int, actions: seq<Action>, now: int): nat
    decreases |actions|
  {
    if actions == [] then 0
    else
      var step := Transition(rows, id, actions[0], now);
      (if step.0.Ok? then 1 else 0) + Changes(step.1, id, actions[1..], now)
  }

  lemma StepAdvances(rows: Rows, id: int, a: Action, now: int)
    requires id in rows
    ensures id in Transition(rows, id, a, now).1
    ensures Transition(rows, id, a, now).0.Ok? ==>
      Stage(Transition(rows, id, a, now).1[id].status) > Stage(rows[id].status)
    ensures Transition(rows, id, a, now).0.Err? ==>
      Transition(rows, id, a, now).1[id].status == rows[id].status
  {
  }

  /**
   * Every applied transition moves a request strictly forward, so however many
   * actions are tried, a request changes status at most twice more than its
   * stage allows (never more than twice from PENDING).
   */
  lemma {:induction false} AtMostTwoChanges(rows: Rows, id: int, actions: seq<Action>, now: int)
    requires id in rows
    ensures Changes(rows, id, actions, now) + Stage(rows[id].status) <= 2
    decreases |actions|
  {
    if actions != [] {
      StepAdvances(rows, id, actions[0], now);
      AtMostTwoChanges(Transition(rows, id, actions[0], now).1, id, actions[1..], now);
    }
  }

  /** The shared body of the four transition methods: load the managed entity, check, set, save. */
  method Apply(db: Db, id: int, a: Action, now: int) returns (r: Outcome)
    requires db.Valid()
    modifies db.swaps.Values
    ensures db.Valid()
    ensures (r, db.SwapRows()) == Transition(old(db.SwapRows()), id, a, now)
    ensures db.State() == old(db.State()).(swaps := db.SwapRows())
  {
    var found := db.FindSwapById(id);
    if found.None? {
      return Err(NotFound("SwapRequest", "id", id));
    }
    var swapRequest := found.value;
    if !Allowed(a, swapRequest.status) {
      return Err(BadRequest(GuardMessage(a, swapRequest.status)));
    }
    r := SetAndSave(db, id, a, now);
  }

  /** Apply past its guards: the new status, the response stamp, and save() of the managed entity. */
  method SetAndSave(db: Db, id: int, a: Action, now: int) returns (r: Outcome)
    requires db.Valid() && id in db.swaps && Allowed(a, db.swaps[id].status)
    modifies db.swaps.Values
    ensures db.Valid()
    ensures (r, db.SwapRows()) == Transition(old(db.SwapRows()), id, a, now)
    ensures db.State() == old(db.State()).(swaps := db.SwapRows())
  {
    var swapRequest := db.swaps[id];
    ghost var t0 := db.State();
    ghost var before := db.SwapRows();
    forall k | k in db.swaps && k != id ensures db.swaps[k] != swapRequest {
      db.DistinctEntities(k, id);
    }
    swapRequest.SetStatus(Target(a));
    if StampsResponse(a) {
      swapRequest.SetResponseDate(Some(now));
    }
    // save() of a managed entity writes back the object already in the table.
    r := Ok(swapRequest.View());
    ghost var after := before[id := swapRequest.View()];
    forall k | k in db.swaps ensures db.swaps[k].View() == after[k] {
    }
    assert db.SwapRows() == after;
    assert db.State() == t0.(swaps := after);
    SwapRowRewrite(t0, id, swapRequest.View());
  }

  method AcceptSwapRequest(db: Db, id: int, now: int) returns (r: Outcome)
    requires db.Valid()
    modifies db.swaps.Values
    ensures db.Valid()
    ensures (r, db.SwapRows()) == Transition(old(db.SwapRows()), id, Accept, now)
    ensures db.State() == old(db.State()).(swaps := db.SwapRows())
  {
    r := Apply(db, id, Accept, now);
  }

  method RejectSwapRequest(db: Db, id: int, now: int) returns (r: Outcome)
    requires db.Valid()
    modifies db.swaps.Values
    ensures db.Valid()
    ensures (r, db.SwapRows()) == Transition(old(db.SwapRows()), id, Reject, now)
    ensures db.State() == old(db.State()).(swaps := db.SwapRows())
  {
    r := Apply(db, id, Reject, now);
  }

  method CompleteSwapRequest(db: Db, id: int, now: int) returns (r: Outcome)
    requires db.Valid()
    modifies db.swaps.Values
    ensures db.Valid()
    ensures (r, db.SwapRows()) == Transition(old(db.SwapRows()), id, Complete, now)
    ensures db.State() == old(db.State()).(swaps := db.SwapRows())
  {
    r := Apply(db, id, Complete, now);
  }

  method CancelSwapRequest(db: Db, id: int, now: int) returns (r: Outcome)
    requires db.Valid()
    modifies db.swaps.Values
    ensures db.Valid()
    ensures (r, db.SwapRows()) == Transition(old(db.SwapRows()), id, Cancel, now)
    ensures db.State() == old(db.State()).(swaps := db.SwapRows())
  {
    r := Apply(db, id, Cancel, now);
  }
}
