/**
 * The swap-request entity: a mutable JPA object whose constructor fixes the
 * initial status and request date, and whose setters overwrite one field each.
 */
module SwapRequests {
  import opened Wrappers
  import opened Entities

  /** The five lifecycle states; a column of this enum type is never null. */
  datatype SwapStatus = PENDING | ACCEPTED | REJECTED | COMPLETED | CANCELLED

  /** Enum.toString(), used in the service's error messages. */
  function StatusName(s: SwapStatus): (r: string)
    ensures |r| > 0
  {
    match s
    case PENDING => "PENDING"
    case ACCEPTED => "ACCEPTED"
    case REJECTED => "REJECTED"
    case COMPLETED => "COMPLETED"
    case CANCELLED => "CANCELLED"
  }

  /** The state of one swap-request row: every column of the entity. */
  datatype SwapView = SwapView(
    id: Option<int>,
    requester: UserRef,
    provider: UserRef,
    requestedSkill: Skill,
    offeredSkill: Skill,
    requestDate: int,
    responseDate: Option<int>,
    status: SwapStatus,
    message: Option<string>)

  class SwapRequest {
    var id: Option<int>
    var requester: UserRef
    var provider: UserRef
    var requestedSkill: Skill
    var offeredSkill: Skill
    var requestDate: int
    var responseDate: Option<int>
    var status: SwapStatus
    var message: Option<string>

    function View(): SwapView
      reads this
    {
      SwapView(id, requester, provider, requestedSkill, offeredSkill, requestDate, responseDate, status, message)
    }

    /** The five-argument constructor; `now` is the clock reading LocalDateTime.now() returns. */
    constructor (requester: UserRef, provider: UserRef, requestedSkill: Skill, offeredSkill: Skill,
                 message: Option<string>, now: int)
      ensures View() == SwapView(None, requester, provider, requestedSkill, offeredSkill, now, None, PENDING, message)
    {
      this.id := None;
      this.requester := requester;
      this.provider := provider;
      this.requestedSkill := requestedSkill;
      this.offeredSkill := offeredSkill;
      this.message := message;
      this.requestDate := now;
      this.responseDate := None;
      this.status := PENDING;
    }

    method SetId(id: Option<int>)
      modifies this
      ensures View() == old(View()).(id := id)
    {
      this.id := id;
    }

    method SetRequester(requester: UserRef)
      modifies this
      ensures View() == old(View()).(requester := requester)
    {
      this.requester := requester;
    }

    method SetProvider(provider: UserRef)
      modifies this
      ensures View() == old(View()).(provider := provider)
    {
      this.provider := provider;
    }

    method SetRequestedSkill(skill: Skill)
      modifies this
      ensures View() == old(View()).(requestedSkill := skill)
    {
      this.requestedSkill := skill;
    }

    method SetOfferedSkill(skill: Skill)
      modifies this
      ensures View() == old(View()).(offeredSkill := skill)
    {
      this.offeredSkill := skill;
    }

    method SetRequestDate(date: int)
      modifies this
      ensures View() == old(View()).(requestDate := date)
    {
      this.requestDate := date;
    }

    method SetResponseDate(date: Option<int>)
      modifies this
      ensures View() == old(View()).(responseDate := date)
    {
      this.responseDate := date;
    }

    method SetStatus(status: SwapStatus)
      modifies this
      ensures View() == old(View()).(status := status)
    {
      this.status := status;
    }

    method SetMessage(message: Option<string>)
      modifies this
      ensures View() == old(View()).(message := message)
    {
      this.message := message;
    }
  }
}
