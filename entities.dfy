/**
 * The persisted entities other than swap requests, as values: a user, a skill
 * and a feedback record. Ids are the IDENTITY keys the database assigns;
 * LocalDateTime values are instants on an integer clock.
 */
module Entities {
  import opened Wrappers

  datatype User = User(
    id: int,
    username: string,
    password: string,
    name: string,
    location: Option<string>,
    profilePhoto: Option<string>,
    availability: string,
    isPublic: bool,
    isAdmin: bool,
    isActive: bool)

  /** The part of a referenced user that the swap and feedback rules read: its id and its (never changed) username. */
  datatype UserRef = UserRef(id: int, username: string)

  function RefOf(u: User): UserRef
  {
    UserRef(u.id, u.username)
  }

  datatype Skill = Skill(
    id: int,
    name: string,
    description: Option<string>,
    isOffered: bool,
    owner: UserRef,
    isApproved: bool)

  datatype Feedback = Feedback(
    id: int,
    reviewer: UserRef,
    recipient: UserRef,
    swapRequestId: int,
    rating: int,
    comment: Option<string>,
    createdAt: int)
}
