/** SwapRequestDTO: the wire form of a swap request and its Bean Validation constraints. */
module SwapRequestDto {
  import opened Wrappers
  import opened SwapRequests

  /** The thirteen-argument constructor is this datatype's constructor: each argument lands in its field. */
  datatype SwapRequestDTO = SwapRequestDTO(
    id: Option<int>,
    requesterId: Option<int>,
    requesterUsername: Option<string>,
    providerId: Option<int>,
    providerUsername: Option<string>,
    requestedSkillId: Option<int>,
    requestedSkillName: Option<string>,
    offeredSkillId: Option<int>,
    offeredSkillName: Option<string>,
    requestDate: Option<int>,
    responseDate: Option<int>,
    status: Option<SwapStatus>,
    message: Option<string>)

  const MaxMessage := 300

  /** @NotNull on the four ids and @Size(max = 300) on the message; a null message passes @Size. */
  predicate IsValid(d: SwapRequestDTO)
  {
    d.requesterId.Some? && d.providerId.Some? && d.requestedSkillId.Some? && d.offeredSkillId.Some?
    && (d.message.None? || |d.message.value| <= MaxMessage)
  }

  /** Status, dates, the response id and the display names carry no constraint. */
  lemma UnconstrainedFields(d: SwapRequestDTO, id: Option<int>, status: Option<SwapStatus>,
                            requestDate: Option<int>, responseDate: Option<int>,
                            names: (Option<string>, Option<string>, Option<string>, Option<string>))
    ensures IsValid(d) == IsValid(d.(id := id, status := status, requestDate := requestDate, responseDate := responseDate,
                                     requesterUsername := names.0, providerUsername := names.1,
                                     requestedSkillName := names.2, offeredSkillName := names.3))
  {
  }

  /** Filling all four ids makes the message length the only remaining constraint. */
  lemma ValidWithIds(d: SwapRequestDTO)
    requires d.requesterId.Some? && d.providerId.Some? && d.requestedSkillId.Some? && d.offeredSkillId.Some?
    ensures IsValid(d) <==> (d.message.None? || |d.message.value| <= MaxMessage)
  {
  }
}
