/**
 * The swap-request queries. Each query is the set of keys of the rows it
 * returns; entity equality in JPQL (`sr.requester = ?1`) compares ids.
 */
module SwapRequestRepository {
  import opened SwapRequests

  type Rows = map<int, SwapView>

  function FindByRequester(rows: Rows, userId: int): set<int>
  {
    set k | k in rows && rows[k].requester.id == userId
  }

  function FindByProvider(rows: Rows, userId: int): set<int>
  {
    set k | k in rows && rows[k].provider.id == userId
  }

  function FindByRequesterAndStatus(rows: Rows, userId: int, status: SwapStatus): set<int>
  {
    set k | k in rows && rows[k].requester.id == userId && rows[k].status == status
  }

  function FindByProviderAndStatus(rows: Rows, userId: int, status: SwapStatus): set<int>
  {
    set k | k in rows && rows[k].provider.id == userId && rows[k].status == status
  }

  predicate IsParty(r: SwapView, userId: int)
  {
    r.requester.id == userId || r.provider.id == userId
  }

  function FindByUserAndStatus(rows: Rows, userId: int, status: SwapStatus): set<int>
  {
    set k | k in rows && IsParty(rows[k], userId) && rows[k].status == status
  }

  function FindByUser(rows: Rows, userId: int): set<int>
  {
    set k | k in rows && IsParty(rows[k], userId)
  }

  function FindByStatus(rows: Rows, status: SwapStatus): set<int>
  {
    set k | k in rows && rows[k].status == status
  }

  /** BETWEEN is inclusive at both ends. */
  function FindByRequestDateBetween(rows: Rows, start: int, end: int): set<int>
  {
    set k | k in rows && start <= rows[k].requestDate <= end
  }

  /** COUNT(sr) for one status: the number of rows the status filter selects. */
  function CountByStatus(rows: Rows, status: SwapStatus): nat
  {
    |FindByStatus(rows, status)|
  }

  /** A user's requests are exactly those they sent together with those they received. */
  lemma ByUserIsSentPlusReceived(rows: Rows, userId: int)
    ensures FindByUser(rows, userId) == FindByRequester(rows, userId) + FindByProvider(rows, userId)
    ensures FindByRequester(rows, userId) <= FindByUser(rows, userId)
    ensures FindByProvider(rows, userId) <= FindByUser(rows, userId)
  {
    forall k ensures k in FindByUser(rows, userId) <==> k in FindByRequester(rows, userId) + FindByProvider(rows, userId) {
    }
  }

  /** The combined user-and-status query is the user query narrowed to one status. */
  lemma ByUserAndStatusIsFiltered(rows: Rows, userId: int, status: SwapStatus)
    ensures FindByUserAndStatus(rows, userId, status) == FindByUser(rows, userId) * FindByStatus(rows, status)
    ensures FindByUserAndStatus(rows, userId, status)
         == FindByRequesterAndStatus(rows, userId, status) + FindByProviderAndStatus(rows, userId, status)
  {
    forall k
      ensures k in FindByUserAndStatus(rows, userId, status)
          <==> k in FindByRequesterAndStatus(rows, userId, status) + FindByProviderAndStatus(rows, userId, status)
    {
    }
  }

  lemma {:induction false} StatusSplit(rows: Rows, k: int, status: SwapStatus)
    requires k in rows
    ensures FindByStatus(rows, status)
         == FindByStatus(rows - {k}, status) + (if rows[k].status == status then {k} else {})
    ensures k !in FindByStatus(rows - {k}, status)
  {
  }

  function SumOfCounts(rows: Rows): int
  {
    CountByStatus(rows, PENDING) + CountByStatus(rows, ACCEPTED) + CountByStatus(rows, REJECTED)
      + CountByStatus(rows, COMPLETED) + CountByStatus(rows, CANCELLED)
  }

  lemma AnyKey(rows: Rows) returns (k: int)
    requires |rows| > 0
    ensures k in rows
  {
    if forall x :: x !in rows {
      assert false;
    }
    k :| k in rows;
  }

  /** Status is a non-null enum, so the five per-status counts add up to the number of requests. */
  lemma {:induction false} CountsCoverAllRows(rows: Rows)
    ensures SumOfCounts(rows) == |rows|
    decreases |rows|
  {
    if |rows| > 0 {
      var k := AnyKey(rows);
      assert |rows - {k}| == |rows| - 1 by {
        assert (rows - {k}).Keys == rows.Keys - {k};
      }
      CountsCoverAllRows(rows - {k});
      StatusSplit(rows, k, PENDING);
      StatusSplit(rows, k, ACCEPTED);
      StatusSplit(rows, k, REJECTED);
      StatusSplit(rows, k, COMPLETED);
      StatusSplit(rows, k, CANCELLED);
    } else {
      assert rows == map[];
    }
  }
}
