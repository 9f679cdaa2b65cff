/**
 * The swap-request list page: the tab filter over the page's fixture list and
 * the "request a skill" box. The tabs filter the fixture itself, which the
 * page also loads into its state when it mounts.
 */
module SwapRequestsPage {
  import opened Wrappers
  import opened SwapRequests
  import opened SwapRecords
  import opened Sublists

  /**
   * Whether the tab keeps a record. `user` is the signed-in username, None
   * when no one is signed in, in which case `user?.username` is undefined and
   * matches no record's username.
   */
  predicate Keeps(tab: string, user: Option<string>, r: SwapRecord)
  {
    if tab == "sent" then Some(r.requesterUsername) == user
    else if tab == "received" then Some(r.providerUsername) == user
    else if tab == "pending" then r.status == PENDING
    else if tab == "accepted" then r.status == ACCEPTED
    else if tab == "completed" then r.status == COMPLETED
    else true
  }

  /** filteredRequests: the records the active tab keeps, in their list order. */
  function Filtered(records: seq<SwapRecord>, tab: string, user: Option<string>): (r: seq<SwapRecord>)
    ensures |r| <= |records|
    ensures forall x :: x in r <==> x in records && Keeps(tab, user, x)
  {
    if records == [] then []
    else (if Keeps(tab, user, records[0]) then [records[0]] else []) + Filtered(records[1..], tab, user)
  }

  /** Every tab shows an order-preserving selection of the list. */
  lemma {:induction false} FilteredIsSublist(records: seq<SwapRecord>, tab: string, user: Option<string>)
    ensures IsSublist(Filtered(records, tab, user), records)
    decreases |records|
  {
    if records != [] {
      FilteredIsSublist(records[1..], tab, user);
      var rest := Filtered(records[1..], tab, user);
      if Keeps(tab, user, records[0]) {
        assert Filtered(records, tab, user) == [records[0]] + rest;
        assert ([records[0]] + rest)[1..] == rest;
      } else {
        assert Filtered(records, tab, user) == rest;
      }
    }
  }

  /** The status tabs keep exactly the records with their status. */
  lemma StatusTabs(records: seq<SwapRecord>, user: Option<string>, x: SwapRecord)
    ensures x in Filtered(records, "pending", user) <==> x in records && x.status == PENDING
    ensures x in Filtered(records, "accepted", user) <==> x in records && x.status == ACCEPTED
    ensures x in Filtered(records, "completed", user) <==> x in records && x.status == COMPLETED
  {
  }

  /** 'sent' and 'received' keep the signed-in user's requests; with no one signed in they are empty. */
  lemma PartyTabs(records: seq<SwapRecord>, user: Option<string>, x: SwapRecord)
    ensures x in Filtered(records, "sent", user) <==> x in records && user == Some(x.requesterUsername)
    ensures x in Filtered(records, "received", user) <==> x in records && user == Some(x.providerUsername)
    ensures user.None? ==> Filtered(records, "sent", user) == [] && Filtered(records, "received", user) == []
  {
  }

  /** Any other tab, 'all' included, shows the whole list. */
  lemma {:induction false} OtherTabsShowAll(records: seq<SwapRecord>, tab: string, user: Option<string>)
    requires tab !in ["sent", "received", "pending", "accepted", "completed"]
    ensures Filtered(records, tab, user) == records
    decreases |records|
  {
    if records != [] {
      assert tab != "sent" && tab != "received" && tab != "pending" && tab != "accepted" && tab != "completed";
      assert Keeps(tab, user, records[0]);
      OtherTabsShowAll(records[1..], tab, user);
      assert records == [records[0]] + records[1..];
    }
  }

  /**
   * A rejected or cancelled request is never under a status tab; only the
   * party tabs and the full list can show it.
   */
  lemma ClosedRequestsOffStatusTabs(records: seq<SwapRecord>, tab: string, user: Option<string>, x: SwapRecord)
    requires x.status == REJECTED || x.status == CANCELLED
    requires x in Filtered(records, tab, user)
    ensures tab != "pending" && tab != "accepted" && tab != "completed"
  {
  }

  class ListPage {
    var swapRequests: seq<SwapRecord>
    var loading: bool
    var activeTab: string
    var requestSkill: string

    constructor ()
      ensures swapRequests == [] && loading && activeTab == "all" && requestSkill == ""
    {
      swapRequests := [];
      loading := true;
      activeTab := "all";
      requestSkill := "";
    }

    /** The mount effect: the fixture becomes the page's list and loading ends. */
    method Mount(fixture: seq<SwapRecord>)
      modifies this
      ensures swapRequests == fixture && !loading
      ensures activeTab == old(activeTab) && requestSkill == old(requestSkill)
    {
      swapRequests := fixture;
      loading := false;
    }

    method HandleTabChange(tab: string)
      modifies this
      ensures activeTab == tab
      ensures swapRequests == old(swapRequests) && loading == old(loading) && requestSkill == old(requestSkill)
    {
      activeTab := tab;
    }

    method SetRequestSkill(text: string)
      modifies this
      ensures requestSkill == text
      ensures swapRequests == old(swapRequests) && loading == old(loading) && activeTab == old(activeTab)
    {
      requestSkill := text;
    }

    /** handleRequestSkill: the request box is cleared; nothing else changes. */
    method HandleRequestSkill()
      modifies this
      ensures requestSkill == ""
      ensures swapRequests == old(swapRequests) && loading == old(loading) && activeTab == old(activeTab)
    {
      requestSkill := "";
    }
  }
}
