/**
 * FeedbackService: the ordered guards of createFeedback before its insert,
 * and deleteFeedback. Each operation is specified by a function from the
 * tables before the call to the outcome and the tables after it; the methods
 * perform the same steps on the store.
 */
module FeedbackService {
  import opened Wrappers
  import opened Text
  import opened Entities
  import opened Errors
  import opened SwapRequests
  import opened Store
  import FeedbackRepository

  type Outcome = Result<Feedback, ServiceError>

  /** getFeedbackById: the row, or a not-found exception. */
  function GetFeedbackById(rows: map<int, Feedback>, id: int): (r: Outcome)
    ensures r.Ok? <==> id in rows
    ensures r.Ok? ==> r.value == rows[id]
    ensures r.Err? ==> r.error == NotFound("Feedback", "id", id)
  {
    if id in rows then Ok(rows[id]) else Err(NotFound("Feedback", "id", id))
  }

  function NotCompletedMessage(status: SwapStatus): string
  {
    "Feedback can only be given for completed swap requests. Current status: " + StatusName(status)
  }

  function ReviewerNotParticipantMessage(reviewerId: int): string
  {
    "Only participants of the swap can give feedback. User ID " + IntToString(reviewerId) + " is not a participant."
  }

  function RecipientNotParticipantMessage(recipientId: int): string
  {
    "Recipient must be a participant of the swap. User ID " + IntToString(recipientId) + " is not a participant."
  }

  const SelfFeedbackMessage := "Cannot give feedback to yourself."

  function RatingMessage(rating: int): string
  {
    "Rating must be between 1 and 5. Provided rating: " + IntToString(rating)
  }

  predicate IsSwapParty(v: SwapView, userId: int)
  {
    v.requester.id == userId || v.provider.id == userId
  }

  /** The first check of createFeedback that fails, in the order the service makes them. */
  function CreateCheck(t: Tables, reviewerId: int, recipientId: int, swapRequestId: int, rating: int): Option<ServiceError>
  {
    if reviewerId !in t.users then Some(NotFound("User", "id", reviewerId))
    else if recipientId !in t.users then Some(NotFound("User", "id", recipientId))
    else if swapRequestId !in t.swaps then Some(NotFound("SwapRequest", "id", swapRequestId))
    else
      var swap := t.swaps[swapRequestId];
      if swap.status != COMPLETED then Some(BadRequest(NotCompletedMessage(swap.status)))
      else if !IsSwapParty(swap, reviewerId) then Some(BadRequest(ReviewerNotParticipantMessage(reviewerId)))
      else if !IsSwapParty(swap, recipientId) then Some(BadRequest(RecipientNotParticipantMessage(recipientId)))
      else if reviewerId == recipientId then Some(BadRequest(SelfFeedbackMessage))
      else if FeedbackRepository.FindByReviewerAndSwapRequest(t.feedback, reviewerId, swapRequestId) != {} then
        Some(DuplicateResource("Feedback", "reviewer and swap request",
                               IntToString(reviewerId) + " and " + IntToString(swapRequestId)))
      else if rating < 1 || rating > 5 then Some(BadRequest(RatingMessage(rating)))
      else None
  }

  /** createFeedback on the tables: on success one row is added under the next id, dated now. */
  function Create(t: Tables, reviewerId: int, recipientId: int, swapRequestId: int, rating: int,
                  comment: Option<string>, now: int): (Outcome, Tables)
  {
    match CreateCheck(t, reviewerId, recipientId, swapRequestId, rating)
    case Some(e) => (Err(e), t)
    case None =>
      var f := Feedback(t.nextFeedbackId, RefOf(t.users[reviewerId]), RefOf(t.users[recipientId]), swapRequestId,
                        rating, comment, now);
      (Ok(f), t.(feedback := t.feedback[t.nextFeedbackId := f], nextFeedbackId := t.nextFeedbackId + 1))
  }

  /**
   * Feedback is accepted exactly for a completed swap, from one participant
   * to the other, once per reviewer and swap, with a rating of 1 to 5.
   */
  lemma CreateSucceedsIff(t: Tables, reviewerId: int, recipientId: int, swapRequestId: int, rating: int,
                          comment: Option<string>, now: int)
    ensures Create(t, reviewerId, recipientId, swapRequestId, rating, comment, now).0.Ok?
      <==> (reviewerId in t.users && recipientId in t.users && swapRequestId in t.swaps
            && t.swaps[swapRequestId].status == COMPLETED
            && IsSwapParty(t.swaps[swapRequestId], reviewerId) && IsSwapParty(t.swaps[swapRequestId], recipientId)
            && reviewerId != recipientId
            && (forall k | k in t.feedback :: !(t.feedback[k].reviewer.id == reviewerId && t.feedback[k].swapRequestId == swapRequestId))
            && 1 <= rating <= 5)
  {
    var dups := FeedbackRepository.FindByReviewerAndSwapRequest(t.feedback, reviewerId, swapRequestId);
    if dups != {} {
      if forall x :: x !in dups {
        assert false;
      }
      var k :| k in dups;
    } else {
      forall k | k in t.feedback
        ensures !(t.feedback[k].reviewer.id == reviewerId && t.feedback[k].swapRequestId == swapRequestId)
      {
        assert k !in dups;
      }
    }
  }

  /**
   * A refused feedback changes nothing; an accepted one is exactly one new
   * row carrying the rating and comment, whose reviewer and recipient are the
   * two different participants of the swap.
   */
  lemma CreateEffect(t: Tables, reviewerId: int, recipientId: int, swapRequestId: int, rating: int,
                     comment: Option<string>, now: int)
    requires WellFormed(t)
    ensures var (r, t') := Create(t, reviewerId, recipientId, swapRequestId, rating, comment, now);
      (r.Err? ==> t' == t)
      && (r.Ok? ==>
            WellFormed(t')
            && t.nextFeedbackId !in t.feedback && t'.feedback.Keys == t.feedback.Keys + {t.nextFeedbackId}
            && t'.feedback[t.nextFeedbackId] == r.value
            && r.value.rating == rating && r.value.comment == comment && r.value.createdAt == now
            && r.value.swapRequestId == swapRequestId
            && r.value.reviewer.id == reviewerId && r.value.recipient.id == recipientId
            && {reviewerId, recipientId} == {t.swaps[swapRequestId].requester.id, t.swaps[swapRequestId].provider.id}
            && reviewerId != recipientId
            && t'.users == t.users && t'.skills == t.skills && t'.swaps == t.swaps)
  {
    var (r, t') := Create(t, reviewerId, recipientId, swapRequestId, rating, comment, now);
    if r.Ok? {
      FeedbackRowAdded(t, r.value);
    }
  }

  /** Adding a feedback row whose references resolve and whose rating is in range keeps the tables well formed. */
  lemma FeedbackRowAdded(t: Tables, f: Feedback)
    requires WellFormed(t) && f.id == t.nextFeedbackId
    requires RefersTo(t.users, f.reviewer) && RefersTo(t.users, f.recipient) && f.swapRequestId in t.swaps
    requires 1 <= f.rating <= 5
    ensures WellFormed(t.(feedback := t.feedback[f.id := f], nextFeedbackId := t.nextFeedbackId + 1))
  {
  }

  /** Each reviewer leaves at most one feedback per swap request. */
  predicate OnePerReviewerAndSwap(rows: map<int, Feedback>)
  {
    forall a, b | a in rows && b in rows && rows[a].reviewer.id == rows[b].reviewer.id
                  && rows[a].swapRequestId == rows[b].swapRequestId :: a == b
  }

  /** createFeedback and deleteFeedback keep feedback unique per reviewer and swap request. */
  lemma CreateKeepsOnePerReviewerAndSwap(t: Tables, reviewerId: int, recipientId: int, swapRequestId: int, rating: int,
                                         comment: Option<string>, now: int, id: int)
    requires WellFormed(t) && OnePerReviewerAndSwap(t.feedback)
    ensures OnePerReviewerAndSwap(Create(t, reviewerId, recipientId, swapRequestId, rating, comment, now).1.feedback)
    ensures OnePerReviewerAndSwap(Delete(t, id).1.feedback)
  {
    CreateSucceedsIff(t, reviewerId, recipientId, swapRequestId, rating, comment, now);
  }

  /** Under that invariant the reviewer-and-swap finder returns at most one row, as its Optional result needs. */
  lemma AtMostOneMatch(rows: map<int, Feedback>, reviewerId: int, swapRequestId: int)
    requires OnePerReviewerAndSwap(rows)
    ensures |FeedbackRepository.FindByReviewerAndSwapRequest(rows, reviewerId, swapRequestId)| <= 1
  {
    var s := FeedbackRepository.FindByReviewerAndSwapRequest(rows, reviewerId, swapRequestId);
    if s != {} {
      if forall x :: x !in s {
        assert false;
      }
      var k :| k in s;
      forall j | j in s ensures j == k {
      }
      assert s == {k};
    }
  }

  /** The duplicate check runs before the rating check: a repeated review is refused as a duplicate whatever its rating. */
  lemma DuplicateReportedBeforeRating(t: Tables, reviewerId: int, recipientId: int, swapRequestId: int, rating: int)
    requires reviewerId in t.users && recipientId in t.users && swapRequestId in t.swaps
    requires t.swaps[swapRequestId].status == COMPLETED && reviewerId != recipientId
    requires IsSwapParty(t.swaps[swapRequestId], reviewerId) && IsSwapParty(t.swaps[swapRequestId], recipientId)
    requires exists k :: k in t.feedback && t.feedback[k].reviewer.id == reviewerId && t.feedback[k].swapRequestId == swapRequestId
    ensures CreateCheck(t, reviewerId, recipientId, swapRequestId, rating).Some?
    ensures CreateCheck(t, reviewerId, recipientId, swapRequestId, rating).value.DuplicateResource?
  {
    var k :| k in t.feedback && t.feedback[k].reviewer.id == reviewerId && t.feedback[k].swapRequestId == swapRequestId;
    assert k in FeedbackRepository.FindByReviewerAndSwapRequest(t.feedback, reviewerId, swapRequestId);
  }

  /** The guards of createFeedback, in order, over the store: the first that fails, or None. */
  method CheckFeedback(db: Db, reviewerId: int, recipientId: int, swapRequestId: int, rating: int)
    returns (e: Option<ServiceError>)
    requires db.Valid()
    ensures e == CreateCheck(db.State(), reviewerId, recipientId, swapRequestId, rating)
  {
    if reviewerId !in db.users { return Some(NotFound("User", "id", reviewerId)); }
    if recipientId !in db.users { return Some(NotFound("User", "id", recipientId)); }
    var found := db.FindSwapById(swapRequestId);
    if found.None? { return Some(NotFound("SwapRequest", "id", swapRequestId)); }
    var swapRequest := found.value.View();
    assert swapRequest == db.State().swaps[swapRequestId];

    if swapRequest.status != COMPLETED {
      return Some(BadRequest(NotCompletedMessage(swapRequest.status)));
    }
    if swapRequest.requester.id != reviewerId && swapRequest.provider.id != reviewerId {
      return Some(BadRequest(ReviewerNotParticipantMessage(reviewerId)));
    }
    if swapRequest.requester.id != recipientId && swapRequest.provider.id != recipientId {
      return Some(BadRequest(RecipientNotParticipantMessage(recipientId)));
    }
    if reviewerId == recipientId {
      return Some(BadRequest(SelfFeedbackMessage));
    }
    var existing := FeedbackRepository.FindByReviewerAndSwapRequest(db.feedback, reviewerId, swapRequestId);
    if existing != {} {
      return Some(DuplicateResource("Feedback", "reviewer and swap request",
                                    IntToString(reviewerId) + " and " + IntToString(swapRequestId)));
    }
    if rating < 1 || rating > 5 {
      return Some(BadRequest(RatingMessage(rating)));
    }
    e := None;
  }

  method CreateFeedback(db: Db, reviewerId: int, recipientId: int, swapRequestId: int, rating: int,
                        comment: Option<string>, now: int) returns (r: Outcome)
    requires db.Valid()
    modifies db
    ensures db.Valid()
    ensures (r, db.State()) == Create(old(db.State()), reviewerId, recipientId, swapRequestId, rating, comment, now)
  {
    var refused := CheckFeedback(db, reviewerId, recipientId, swapRequestId, rating);
    if refused.Some? {
      return Err(refused.value);
    }
    var reviewer, recipient := db.users[reviewerId], db.users[recipientId];
    var feedback := Feedback(0, RefOf(reviewer), RefOf(recipient), swapRequestId, rating, comment, now);
    var saved := db.InsertFeedback(feedback);
    r := Ok(saved);
  }

  /** deleteFeedback: a not-found exception for an unknown id, otherwise that one row is removed. */
  function Delete(t: Tables, id: int): (Option<ServiceError>, Tables)
  {
    if id !in t.feedback then (Some(NotFound("Feedback", "id", id)), t)
    else (None, t.(feedback := t.feedback - {id}))
  }

  lemma DeleteEffect(t: Tables, id: int)
    requires WellFormed(t)
    ensures var (r, t') := Delete(t, id);
      WellFormed(t')
      && (r.Some? <==> id !in t.feedback)
      && (r.Some? ==> r.value == NotFound("Feedback", "id", id) && t' == t)
      && (r.None? ==> t'.feedback.Keys == t.feedback.Keys - {id}
                      && (forall k | k in t'.feedback :: t'.feedback[k] == t.feedback[k])
                      && t'.users == t.users && t'.skills == t.skills && t'.swaps == t.swaps)
  {
  }

  method DeleteFeedback(db: Db, id: int) returns (r: Option<ServiceError>)
    requires db.Valid()
    modifies db
    ensures db.Valid()
    ensures (r, db.State()) == Delete(old(db.State()), id)
  {
    if id !in db.feedback {
      return Some(NotFound("Feedback", "id", id));
    }
    db.DeleteFeedback(id);
    r := None;
  }
}
