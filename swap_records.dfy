/**
 * The swap-request objects the client pages hold: the JSON shape of the
 * backend's SwapRequestDTO as the pages use it, with dates as ISO-8601
 * strings. The list page's records carry no display names and no response
 * date, so those are optional here.
 */
module SwapRecords {
  import opened Wrappers
  import opened SwapRequests

  datatype SwapRecord = SwapRecord(
    id: int,
    requesterId: int,
    requesterUsername: string,
    requesterName: Option<string>,
    providerId: int,
    providerUsername: string,
    providerName: Option<string>,
    requestedSkillId: int,
    requestedSkillName: string,
    offeredSkillId: int,
    offeredSkillName: string,
    requestDate: string,
    responseDate: Option<string>,
    status: SwapStatus,
    message: string)

  /** `records.find(req => req.id === id)`: the first record with that id, if any. */
  function FindById(records: seq<SwapRecord>, id: int): (r: Option<SwapRecord>)
    ensures r.Some? <==> exists i :: 0 <= i < |records| && records[i].id == id
    ensures r.Some? ==> r.value in records && r.value.id == id
    ensures r.Some? ==> exists i :: 0 <= i < |records| && records[i] == r.value
                                   && forall j :: 0 <= j < i ==> records[j].id != id
  {
    if records == [] then None
    else if records[0].id == id then Some(records[0])
    else FindById(records[1..], id)
  }
}
