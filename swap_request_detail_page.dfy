/**
 * The swap-request detail page: which buttons and forms a user sees for a
 * request, and the local state changes of its handlers. The page works on a
 * list of records handed to it instead of calling the API; its handlers
 * update only the page's own copy of the request.
 */
module SwapRequestDetailPage {
  import opened Wrappers
  import opened Text
  import opened SwapRequests
  import opened SwapRecords
  import opened SwapRequestService
  import SwapRequestController

  const NotFoundMessage := "Swap request not found"

  /**
   * `swapRequest?.requesterUsername === user?.username`, with the signed-in
   * user given by its username (None when no one is signed in). Two absent
   * values compare equal in JavaScript, so with no request and no user the
   * flag is true.
   */
  predicate IsRequester(request: Option<SwapRecord>, user: Option<string>)
  {
    (if request.Some? then Some(request.value.requesterUsername) else None) == user
  }

  predicate IsProvider(request: Option<SwapRecord>, user: Option<string>)
  {
    (if request.Some? then Some(request.value.providerUsername) else None) == user
  }

  predicate IsParticipant(request: Option<SwapRecord>, user: Option<string>)
  {
    IsRequester(request, user) || IsProvider(request, user)
  }

  /** For a loaded request the flags are plain username comparisons with a signed-in user. */
  lemma FlagsOfLoadedRequest(r: SwapRecord, user: Option<string>)
    ensures IsRequester(Some(r), user) <==> user == Some(r.requesterUsername)
    ensures IsProvider(Some(r), user) <==> user == Some(r.providerUsername)
    ensures IsParticipant(Some(r), user) <==> user.Some? && (user.value == r.requesterUsername || user.value == r.providerUsername)
    ensures IsParticipant(None, user) <==> user.None?
  {
  }

  /**
   * The action buttons rendered: none while loading, after an error or with
   * no request; otherwise Accept and Reject for the provider and Cancel for
   * the requester of a pending request, and Complete and Cancel for either
   * participant of an accepted one.
   */
  function Buttons(loading: bool, error: Option<string>, request: Option<SwapRecord>, user: Option<string>): (r: set<Action>)
    ensures r != {} ==> !loading && error.None? && request.Some? && IsParticipant(request, user)
    ensures r != {} ==> request.value.status == PENDING || request.value.status == ACCEPTED
  {
    if loading || error.Some? || request.None? then {}
    else
      var status := request.value.status;
      var pending :=
        if IsParticipant(request, user) && status == PENDING then
          (if IsProvider(request, user) then {Accept, Reject} else {})
          + (if IsRequester(request, user) then {Cancel} else {})
        else {};
      var accepted := if IsParticipant(request, user) && status == ACCEPTED then {Complete, Cancel} else {};
      pending + accepted
  }

  /** The message form is shown to a participant of a pending or accepted request. */
  predicate ShowsMessageForm(loading: bool, error: Option<string>, request: Option<SwapRecord>, user: Option<string>)
  {
    !loading && error.None? && request.Some? && IsParticipant(request, user)
    && (request.value.status == PENDING || request.value.status == ACCEPTED)
  }

  /** Each button, role by role, for a loaded request. */
  lemma ButtonsByRole(r: SwapRecord, user: Option<string>)
    ensures var b := Buttons(false, None, Some(r), user);
      (Accept in b <==> r.status == PENDING && user == Some(r.providerUsername))
      && (Reject in b <==> r.status == PENDING && user == Some(r.providerUsername))
      && (Complete in b <==> r.status == ACCEPTED && user.Some? && (user.value == r.requesterUsername || user.value == r.providerUsername))
      && (Cancel in b <==> ((r.status == PENDING && user == Some(r.requesterUsername))
                            || (r.status == ACCEPTED && user.Some? && (user.value == r.requesterUsername || user.value == r.providerUsername))))
  {
    FlagsOfLoadedRequest(r, user);
  }

  /** The message form is shown exactly when at least one action button is. */
  lemma MessageFormBesideButtons(loading: bool, error: Option<string>, request: Option<SwapRecord>, user: Option<string>)
    ensures Buttons(loading, error, request, user) != {} <==> ShowsMessageForm(loading, error, request, user)
  {
    if ShowsMessageForm(loading, error, request, user) {
      var r := request.value;
      FlagsOfLoadedRequest(r, user);
      if r.status == PENDING {
        assert IsProvider(request, user) || IsRequester(request, user);
        if IsProvider(request, user) {
          assert Accept in Buttons(loading, error, request, user);
        } else {
          assert Cancel in Buttons(loading, error, request, user);
        }
      } else {
        assert Complete in Buttons(loading, error, request, user);
      }
    }
  }

  /** The record a handler stores: the status set and the response date set to now, for all four actions. */
  function Responded(r: SwapRecord, a: Action, now: string): (r': SwapRecord)
    ensures r'.status == Target(a) && r'.responseDate == Some(now)
    ensures r'.(status := r.status, responseDate := r.responseDate) == r
  {
    r.(status := Target(a), responseDate := Some(now))
  }

  /** After reject, complete or cancel a request shows no buttons; after accept only Complete and Cancel remain. */
  lemma NoButtonsAfterTerminal(r: SwapRecord, a: Action, now: string, user: Option<string>)
    requires a in Buttons(false, None, Some(r), user)
    ensures var b := Buttons(false, None, Some(Responded(r, a, now)), user);
      (a == Accept ==> b == {Complete, Cancel}) && (a != Accept ==> b == {})
  {
    FlagsOfLoadedRequest(r, user);
    FlagsOfLoadedRequest(Responded(r, a, now), user);
  }

  class DetailPage {
    var swapRequest: Option<SwapRecord>
    var loading: bool
    var error: Option<string>
    var message: string

    /** The initial state of the page's hooks. */
    constructor ()
      ensures swapRequest == None && loading && error == None && message == ""
    {
      swapRequest := None;
      loading := true;
      error := None;
      message := "";
    }

    /**
     * The load effect: the record whose id is the route id, or the not-found
     * error; loading ends either way. `routeId` is None when the route
     * parameter does not parse as an integer (parseInt gives NaN, which equals
     * nothing).
     */
    method Load(records: seq<SwapRecord>, routeId: Option<int>)
      modifies this
      ensures var found := if routeId.Some? then FindById(records, routeId.value) else None;
        (found.Some? ==> swapRequest == found && error == old(error))
        && (found.None? ==> swapRequest == old(swapRequest) && error == Some(NotFoundMessage))
      ensures !loading && message == old(message)
    {
      var found := None;
      if routeId.Some? {
        found := FindById(records, routeId.value);
      }
      if found.Some? {
        swapRequest := found;
        loading := false;
      } else {
        error := Some(NotFoundMessage);
        loading := false;
      }
    }

    /**
     * handleAccept, handleReject, handleComplete and handleCancel: the page's
     * copy gets the action's status and a fresh response date; nothing else
     * changes. They are reachable only from the buttons, so only with a
     * request loaded.
     */
    method Respond(a: Action, now: string)
      requires swapRequest.Some?
      modifies this
      ensures swapRequest == Some(Responded(old(swapRequest.value), a, now))
      ensures loading == old(loading) && error == old(error) && message == old(message)
    {
      swapRequest := Some(swapRequest.value.(status := Target(a), responseDate := Some(now)));
    }

    /** handleSendMessage: a blank message is ignored; otherwise the box is cleared. */
    method SendMessage()
      modifies this
      ensures IsJsBlank(old(message)) ==> message == old(message)
      ensures !IsJsBlank(old(message)) ==> message == ""
      ensures swapRequest == old(swapRequest) && loading == old(loading) && error == old(error)
    {
      if IsJsBlank(message) {
        return;
      }
      message := "";
    }
  }

  // ---------------------------------------------- agreement with the backend

  /** The record shows the same parties and status as a stored request. */
  predicate Mirrors(r: SwapRecord, v: SwapView)
  {
    r.requesterUsername == v.requester.username && r.providerUsername == v.provider.username && r.status == v.status
  }

  /** Every button the page offers is one the backend's status guard and role check would accept. */
  lemma OfferedActionsAllowed(r: SwapRecord, v: SwapView, username: string, a: Action)
    requires Mirrors(r, v) && a in Buttons(false, None, Some(r), Some(username))
    ensures Allowed(a, v.status)
    ensures SwapRequestController.RoleAllows(a, v, username)
  {
    FlagsOfLoadedRequest(r, Some(username));
  }

  /** The backend lets the provider cancel a pending request; the page offers that provider no Cancel button. */
  lemma ProviderCannotCancelPendingInPage(r: SwapRecord, v: SwapView)
    requires Mirrors(r, v) && r.status == PENDING && r.providerUsername != r.requesterUsername
    ensures Allowed(Cancel, v.status) && SwapRequestController.RoleAllows(Cancel, v, r.providerUsername)
    ensures Cancel !in Buttons(false, None, Some(r), Some(r.providerUsername))
  {
    FlagsOfLoadedRequest(r, Some(r.providerUsername));
  }

  /** The page stamps a response date on complete and cancel too; the backend keeps the old one there. */
  lemma ResponseDateStamping(rows: Rows, id: int, a: Action, now: int, r: SwapRecord, clientNow: string)
    requires id in rows && Allowed(a, rows[id].status)
    ensures var v := Transition(rows, id, a, now).1[id];
      (StampsResponse(a) ==> v.responseDate == Some(now))
      && (!StampsResponse(a) ==> v.responseDate == rows[id].responseDate)
    ensures Responded(r, a, clientNow).responseDate == Some(clientNow)
    ensures Transition(rows, id, a, now).1[id].status == Responded(r, a, clientNow).status
  {
  }
}
