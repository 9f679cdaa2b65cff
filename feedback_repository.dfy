/** The feedback queries, each the set of keys of the rows it returns. */
module FeedbackRepository {
  import opened Wrappers
  import opened Entities

  type Rows = map<int, Feedback>

  function FindByReviewer(rows: Rows, userId: int): set<int>
  {
    set k | k in rows && rows[k].reviewer.id == userId
  }

  function FindByRecipient(rows: Rows, userId: int): set<int>
  {
    set k | k in rows && rows[k].recipient.id == userId
  }

  function FindBySwapRequest(rows: Rows, swapRequestId: int): set<int>
  {
    set k | k in rows && rows[k].swapRequestId == swapRequestId
  }

  /** The rows behind findByReviewerAndSwapRequest, which returns the one row matching both, if any. */
  function FindByReviewerAndSwapRequest(rows: Rows, reviewerId: int, swapRequestId: int): set<int>
  {
    set k | k in rows && rows[k].reviewer.id == reviewerId && rows[k].swapRequestId == swapRequestId
  }

  /** BETWEEN is inclusive at both ends. */
  function FindByCreatedAtBetween(rows: Rows, start: int, end: int): set<int>
  {
    set k | k in rows && start <= rows[k].createdAt <= end
  }

  function FindByRatingLessThanEqual(rows: Rows, rating: int): set<int>
  {
    set k | k in rows && rows[k].rating <= rating
  }

  function FindByRatingGreaterThanEqual(rows: Rows, rating: int): set<int>
  {
    set k | k in rows && rows[k].rating >= rating
  }

  /** A set other than the empty one has a member. */
  lemma HasMember(keys: set<int>)
    requires keys != {}
    ensures exists k :: k in keys
  {
    if forall k :: k !in keys {
      assert false;
    }
  }

  /** Some key of a non-empty set. */
  ghost function Pick(keys: set<int>): (k: int)
    requires keys != {}
    ensures k in keys
  {
    HasMember(keys);
    var k :| k in keys; k
  }

  /** The total of the ratings of the given rows. */
  ghost function RatingSum(rows: Rows, keys: set<int>): int
    requires keys <= rows.Keys
    decreases keys
  {
    if keys == {} then 0 else rows[Pick(keys)].rating + RatingSum(rows, keys - {Pick(keys)})
  }

  /** Ratings of 1..5 add up to between one and five times their number. */
  lemma {:induction false} RatingSumBounds(rows: Rows, keys: set<int>)
    requires keys <= rows.Keys
    requires forall k | k in keys :: 1 <= rows[k].rating <= 5
    ensures |keys| <= RatingSum(rows, keys) <= 5 * |keys|
    decreases keys
  {
    if keys != {} {
      var k := Pick(keys);
      RatingSumBounds(rows, keys - {k});
      assert |keys - {k}| == |keys| - 1;
      assert 1 <= rows[k].rating <= 5;
      assert |keys - {k}| <= RatingSum(rows, keys - {k}) <= 5 * |keys - {k}|;
      assert RatingSum(rows, keys) == rows[k].rating + RatingSum(rows, keys - {k});
    }
  }

  /**
   * `SELECT AVG(f.rating) FROM Feedback f WHERE f.recipient = ?1`: the mean of
   * the ratings the user received, or None (SQL NULL) when there are none.
   */
  ghost function AverageRating(rows: Rows, userId: int): Option<real>
  {
    var keys := FindByRecipient(rows, userId);
    if keys == {} then None else Some(RatingSum(rows, keys) as real / |keys| as real)
  }

  /** A total between one and five times a positive count gives a mean between 1 and 5. */
  lemma MeanWithin(n: real, sum: real)
    requires 0.0 < n && n <= sum <= 5.0 * n
    ensures 1.0 <= sum / n <= 5.0
  {
    var mean := sum / n;
    assert mean * n == sum;
    assert (mean - 1.0) * n >= 0.0 && (5.0 - mean) * n >= 0.0;
  }

  /**
   * The average is absent exactly when the user received no feedback, and
   * while every stored rating lies in 1..5 so does the average.
   */
  lemma AverageInRange(rows: Rows, userId: int)
    requires forall k | k in rows :: 1 <= rows[k].rating <= 5
    ensures AverageRating(rows, userId).None? <==> forall k | k in rows :: rows[k].recipient.id != userId
    ensures AverageRating(rows, userId).Some? ==> 1.0 <= AverageRating(rows, userId).value <= 5.0
  {
    var keys := FindByRecipient(rows, userId);
    if keys != {} {
      RatingSumBounds(rows, keys);
      assert |keys| >= 1 by { assert Pick(keys) in keys; }
      MeanWithin(|keys| as real, RatingSum(rows, keys) as real);
    } else {
      forall k | k in rows ensures rows[k].recipient.id != userId {
        assert k !in keys;
      }
    }
  }

  /** A user with a single received rating has that rating as average. */
  lemma AverageOfOne(rows: Rows, userId: int, k: int)
    requires FindByRecipient(rows, userId) == {k}
    ensures AverageRating(rows, userId) == Some(rows[k].rating as real)
  {
    assert k in FindByRecipient(rows, userId);
    assert Pick({k}) == k && {k} - {k} == {};
    assert RatingSum(rows, {k}) == rows[k].rating;
    assert |{k}| == 1;
    var r := rows[k].rating as real;
    assert r / 1.0 == r;
  }

  /** The low and high rating filters split the table at any threshold. */
  lemma ThresholdsSplit(rows: Rows, r: int)
    ensures FindByRatingLessThanEqual(rows, r) + FindByRatingGreaterThanEqual(rows, r + 1) == rows.Keys
    ensures FindByRatingLessThanEqual(rows, r) * FindByRatingGreaterThanEqual(rows, r + 1) == {}
  {
    forall k ensures k in FindByRatingLessThanEqual(rows, r) + FindByRatingGreaterThanEqual(rows, r + 1) <==> k in rows.Keys {
    }
  }

  /** The reviewer-and-swap finder is the intersection of the reviewer and swap finders. */
  lemma ReviewerAndSwapIsIntersection(rows: Rows, reviewerId: int, swapRequestId: int)
    ensures FindByReviewerAndSwapRequest(rows, reviewerId, swapRequestId)
         == FindByReviewer(rows, reviewerId) * FindBySwapRequest(rows, swapRequestId)
  {
    forall k ensures k in FindByReviewerAndSwapRequest(rows, reviewerId, swapRequestId)
                     <==> k in FindByReviewer(rows, reviewerId) * FindBySwapRequest(rows, swapRequestId) {
    }
  }
}
