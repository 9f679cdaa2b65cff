/** FeedbackDTO: the wire form of a feedback record and its Bean Validation constraints. */
module FeedbackDto {
  import opened Wrappers

  /** The nine-argument constructor is this datatype's constructor: each argument lands in its field. */
  datatype FeedbackDTO = FeedbackDTO(
    id: Option<int>,
    reviewerId: Option<int>,
    reviewerUsername: Option<string>,
    recipientId: Option<int>,
    recipientUsername: Option<string>,
    swapRequestId: Option<int>,
    rating: int,
    comment: Option<string>,
    createdAt: Option<int>)

  const MinRating := 1
  const MaxRating := 5
  const MaxComment := 500

  /**
   * @NotNull on the three ids, @Min(1) and @Max(5) on the rating (its
   * @NotNull can never fail on a primitive int) and @Size(max = 500) on the
   * comment, which may be null.
   */
  predicate IsValid(d: FeedbackDTO)
  {
    d.reviewerId.Some? && d.recipientId.Some? && d.swapRequestId.Some?
    && MinRating <= d.rating <= MaxRating
    && (d.comment.None? || |d.comment.value| <= MaxComment)
  }

  /**
   * A body is valid exactly when it names a reviewer, a recipient and a swap
   * request, rates from 1 to 5, and comments in at most 500 characters; the
   * id, the usernames and the date play no part.
   */
  lemma ValidIff(d: FeedbackDTO, id: Option<int>, reviewerUsername: Option<string>, recipientUsername: Option<string>,
                 createdAt: Option<int>)
    ensures IsValid(d) <==> (d.reviewerId.Some? && d.recipientId.Some? && d.swapRequestId.Some?
                             && 1 <= d.rating <= 5 && (d.comment.None? || |d.comment.value| <= 500))
    ensures IsValid(d) == IsValid(d.(id := id, reviewerUsername := reviewerUsername,
                                     recipientUsername := recipientUsername, createdAt := createdAt))
  {
  }
}
