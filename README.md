# Skill-Swap core, modelled in Dafny

Skill-Swap is a web application where people swap skills. Each user lists
skills they offer and skills they want. A user proposes a swap to another
user: one of the provider's offered skills in exchange for one of the
requester's own. The provider accepts or rejects the proposal. An accepted
swap is completed or cancelled. After a completed swap, each party may rate
the other from 1 to 5. Administrators moderate offered skills and manage
accounts. The backend is a Spring application over JPA tables. The
frontend is a React client that keeps the signed-in user and a JWT in the
browser's local storage.

This project models that core and proves properties of it.

- Backend:
  - **Entities.** `User`, `Skill` and `Feedback` are values, with the
    columns the code reads. `SwapRequests.SwapRequest` is a class whose
    setters overwrite one column each.
  - **Store.** `Store.Db` holds the four JPA tables as maps from ids to
    managed objects or rows. Its invariant is `Store.WellFormed`: unique
    usernames, and every foreign key present.
  - **Repository queries.** Pure functions that return the set of keys (or
    rows) a derived query selects.
  - **Services.** Every state-changing service operation is a method over
    `Db`. It is proved equal to a function from the tables before the call
    to the outcome and the tables after it. Lemmas about those functions
    state the guards, the effects, the lifecycle and the uniqueness
    invariants.
  - **Controllers.** Each endpoint maps the caller, the tables and the
    request to an HTTP response. The endpoints that change state are
    methods too. Lemmas state the access rules: who gets 200, 201, 401,
    403, 404 and 400.
  - **DTOs.** The Bean Validation annotations, as predicates.
    `SkillWire` is the JSON form of a skill, with the member names
    Jackson derives from the getters and setters.
  - **Start-up seeding.** `DataInitializer` is a loop method.
- Frontend:
  - **JavaScript values.** `JsValues` models the property reads, the
    truthiness and the string conversion the client relies on.
    `SessionJson` models `JSON.stringify` and `JSON.parse` for the stored
    user, with a proved round trip.
  - **Authentication.** `AuthService.Session` is the local-storage store.
    `AuthContext.Provider` is the React context. `ProtectedRoutes` holds
    the two route gates.
  - **Pages.** Each page is a class whose fields are the page's state
    hooks. Its handlers are methods. The list computations and rendering
    decisions are functions with lemmas.

Throughout:
- Time is an integer parameter `now`, or `nowMs` for the client.
- Requests to the server are function parameters: given the arguments, they
  yield the answer, or `None` when the request throws.
- Java `Long` ids and `int` ratings are unbounded integers. No arithmetic in
  the core can overflow.


## Model

| member | source | states |
|---|---|---|
| SwapRequests.StatusName | src/main/java/com/SkillsSwap/skillswap/model/SwapRequest.java:129-135 | The name of each of the five statuses, as the service's messages print it. It is never empty. |
| SwapRequests.SwapRequest.constructor | src/main/java/com/SkillsSwap/skillswap/model/SwapRequest.java:45-53 | A new request has no id and no response date. Its status is PENDING and its request date is now. The parties, skills and message are the arguments. |
| SwapRequests.SwapRequest.SetId | src/main/java/com/SkillsSwap/skillswap/model/SwapRequest.java:60-62 | Only the id changes. |
| SwapRequests.SwapRequest.SetRequester | src/main/java/com/SkillsSwap/skillswap/model/SwapRequest.java:68-70 | Only the requester changes. |
| SwapRequests.SwapRequest.SetProvider | src/main/java/com/SkillsSwap/skillswap/model/SwapRequest.java:76-78 | Only the provider changes. |
| SwapRequests.SwapRequest.SetRequestedSkill | src/main/java/com/SkillsSwap/skillswap/model/SwapRequest.java:84-86 | Only the requested skill changes. |
| SwapRequests.SwapRequest.SetOfferedSkill | src/main/java/com/SkillsSwap/skillswap/model/SwapRequest.java:92-94 | Only the offered skill changes. |
| SwapRequests.SwapRequest.SetRequestDate | src/main/java/com/SkillsSwap/skillswap/model/SwapRequest.java:100-102 | Only the request date changes. |
| SwapRequests.SwapRequest.SetResponseDate | src/main/java/com/SkillsSwap/skillswap/model/SwapRequest.java:108-110 | Only the response date changes. |
| SwapRequests.SwapRequest.SetStatus | src/main/java/com/SkillsSwap/skillswap/model/SwapRequest.java:116-118 | Only the status changes. |
| SwapRequests.SwapRequest.SetMessage | src/main/java/com/SkillsSwap/skillswap/model/SwapRequest.java:124-126 | Only the message changes. |
| Store.EmptyTables | src/main/java/com/SkillsSwap/skillswap/model/User.java:15-16 | The empty database satisfies the table invariant, which includes unique usernames. |
| Store.Db.constructor | src/main/java/com/SkillsSwap/skillswap/repository/UserRepository.java:12 | A new store is valid and holds empty tables. |
| Store.Db.InsertUser | src/main/java/com/SkillsSwap/skillswap/service/UserService.java:35 | Saving a new user gives it the next id. Only that row is added, and the store stays valid. |
| Store.Db.SaveUser | src/main/java/com/SkillsSwap/skillswap/service/UserService.java:68-71 | Saving a loaded user overwrites its row and nothing else. |
| Store.Db.InsertSkill | src/main/java/com/SkillsSwap/skillswap/service/SkillService.java:79 | Saving a new skill gives it the next id. Only that row is added, and its owner must exist. |
| Store.Db.SaveSkill | src/main/java/com/SkillsSwap/skillswap/service/SkillService.java:97 | Saving a loaded skill overwrites its row and nothing else. |
| Store.Db.DeleteSkill | src/main/java/com/SkillsSwap/skillswap/service/SkillService.java:105 | deleteById removes exactly that skill row. The caller must not leave a swap request pointing at it, because the foreign keys forbid that. |
| Store.Db.FindSwapById | src/main/java/com/SkillsSwap/skillswap/service/SwapRequestService.java:43-45 | findById yields the managed entity stored under the id, and only when the id is present. |
| Store.Db.InsertSwap | src/main/java/com/SkillsSwap/skillswap/service/SwapRequestService.java:102 | Saving a new request gives it the next id. Its row is added and the other tables are untouched. |
| Store.Db.InsertFeedback | src/main/java/com/SkillsSwap/skillswap/service/FeedbackService.java:106-109 | Saving a new feedback gives it the next id. Only that row is added, with its rating in 1..5. |
| Store.Db.DeleteFeedback | src/main/java/com/SkillsSwap/skillswap/service/FeedbackService.java:117 | deleteById removes exactly that feedback row. |
| SwapRequestRepository.ByUserIsSentPlusReceived | src/main/java/com/SkillsSwap/skillswap/repository/SwapRequestRepository.java:16-28 | The requests that findByUser returns are exactly the union of findByRequester and findByProvider. |
| SwapRequestRepository.ByUserAndStatusIsFiltered | src/main/java/com/SkillsSwap/skillswap/repository/SwapRequestRepository.java:24-30 | findByUserAndStatus is findByUser intersected with findByStatus, and the requester and provider queries for that status together make it up. |
| SwapRequestRepository.StatusSplit | src/main/java/com/SkillsSwap/skillswap/repository/SwapRequestRepository.java:30 | Removing one row from the table removes at most that row from a status query. |
| SwapRequestRepository.CountsCoverAllRows | src/main/java/com/SkillsSwap/skillswap/repository/SwapRequestRepository.java:34-35 | Status is never null, so summing countByStatus over the five statuses counts every request exactly once. |
| SwapRequestDto.UnconstrainedFields | src/main/java/com/SkillsSwap/skillswap/dto/SwapRequestDTO.java:11-33 | Validation ignores the id, status, dates and display names. |
| SwapRequestDto.ValidWithIds | src/main/java/com/SkillsSwap/skillswap/dto/SwapRequestDTO.java:13-33 | Once the four ids are present, a DTO is valid exactly when its message is absent or at most 300 characters long. |
| SwapRequestService.GetSwapRequestById | src/main/java/com/SkillsSwap/skillswap/service/SwapRequestService.java:38-41 | The row when the id is present. Otherwise a not-found error naming SwapRequest, id and the id. |
| SwapRequestService.CreateSucceedsIff | src/main/java/com/SkillsSwap/skillswap/service/SwapRequestService.java:68-96 | Creation succeeds if and only if all of the following hold: both users and both skills exist; the requested skill is an offered skill of the provider; the offered skill is an offered skill of the requester; and both skills are approved. |
| SwapRequestService.CreateEffect | src/main/java/com/SkillsSwap/skillswap/service/SwapRequestService.java:71-103 | A failed creation changes no table. A successful one adds exactly one row under a fresh id: PENDING, unanswered, dated now, with the given parties, skills and message. The invariant is kept. |
| SwapRequestService.SelfSwapAccepted | src/main/java/com/SkillsSwap/skillswap/service/SwapRequestService.java:83-96 | Nothing stops a user from proposing a swap between two of their own offered, approved skills. |
| SwapRequestService.CreateSwapRequest | src/main/java/com/SkillsSwap/skillswap/service/SwapRequestService.java:67-103 | The method's outcome and new tables are those of the creation function, in the same check order and with the same messages. |
| SwapRequestService.TransitionSucceedsIff | src/main/java/com/SkillsSwap/skillswap/service/SwapRequestService.java:105-161 | A transition succeeds if and only if the request exists and its status passes the guard. Accept and reject need PENDING. Complete needs ACCEPTED. Cancel needs PENDING or ACCEPTED. |
| SwapRequestService.TransitionEffect | src/main/java/com/SkillsSwap/skillswap/service/SwapRequestService.java:105-161 | A refused transition leaves the table unchanged. An applied one changes only that row's status to the target. Only accept and reject also set the response date to now. |
| SwapRequestService.TerminalStates | src/main/java/com/SkillsSwap/skillswap/service/SwapRequestService.java:110-155 | From REJECTED, COMPLETED or CANCELLED, every transition is refused with the guard's message, and the table is unchanged. |
| SwapRequestService.StepAdvances | src/main/java/com/SkillsSwap/skillswap/service/SwapRequestService.java:105-161 | An applied transition moves the request strictly forward in the lifecycle. A refused one keeps its status. |
| SwapRequestService.AtMostTwoChanges | src/main/java/com/SkillsSwap/skillswap/service/SwapRequestService.java:105-161 | However many actions are tried, a request changes status at most twice over its life, starting from PENDING. |
| SwapRequestService.Apply | src/main/java/com/SkillsSwap/skillswap/service/SwapRequestService.java:106-118 | The shared load, check, set and save step equals the transition function on the swap table. Every other table is unchanged. |
| SwapRequestService.AcceptSwapRequest | src/main/java/com/SkillsSwap/skillswap/service/SwapRequestService.java:105-118 | The accept transition, applied to the managed entity. |
| SwapRequestService.RejectSwapRequest | src/main/java/com/SkillsSwap/skillswap/service/SwapRequestService.java:120-133 | The reject transition, applied to the managed entity. |
| SwapRequestService.CompleteSwapRequest | src/main/java/com/SkillsSwap/skillswap/service/SwapRequestService.java:135-147 | The complete transition, applied to the managed entity. It leaves the response date unchanged. |
| SwapRequestService.CancelSwapRequest | src/main/java/com/SkillsSwap/skillswap/service/SwapRequestService.java:149-161 | The cancel transition, applied to the managed entity. It leaves the response date unchanged. |
| SwapRequestController.ConvertToDTO | src/main/java/com/SkillsSwap/skillswap/controller/SwapRequestController.java:294-310 | The DTO carries the ids of both parties and both skills. |
| SwapRequestController.ConvertKeepsColumns | src/main/java/com/SkillsSwap/skillswap/controller/SwapRequestController.java:294-310 | Two requests with the same DTO agree on the id, the parties, the skill ids and names, both dates, the status and the message. |
| SwapRequestController.ConvertedIsValidIff | src/main/java/com/SkillsSwap/skillswap/controller/SwapRequestController.java:294-310 | A converted request would pass validation if and only if its message fits in 300 characters. |
| SwapRequestController.ListForCaller | src/main/java/com/SkillsSwap/skillswap/controller/SwapRequestController.java:39-108 | The four list endpoints return 401 exactly when the caller has no user row. Otherwise they return 200 with the DTO of every request of the caller's row in that scope, and of no other: all is requester or provider, sent is requester, received is provider, and by status is requester or provider with that status. Every listed request names the caller. |
| SwapRequestController.ScopeListing | src/main/java/com/SkillsSwap/skillswap/repository/SwapRequestRepository.java:16-28 | The query of each scope lists the DTO of every request in that scope and of no other. Under the table invariant, each listed request names the user by username. |
| SwapRequestController.GetSwapRequestById | src/main/java/com/SkillsSwap/skillswap/controller/SwapRequestController.java:111-133 | 404 exactly when the id is absent. 200 with the DTO exactly for a participant or an admin. Otherwise 403 with the source's message. |
| SwapRequestController.AdminList | src/main/java/com/SkillsSwap/skillswap/controller/SwapRequestController.java:273-291 | 200 exactly for an admin, with the DTO of every request, or of every request with the given status, and of no other. Anyone else gets 403 from the role check. |
| SwapRequestController.CreateOnlyForSelf | src/main/java/com/SkillsSwap/skillswap/controller/SwapRequestController.java:135-165 | A 201 means the caller's row is the requester of a new row. Every other response leaves the tables unchanged. A caller naming someone else as requester gets 403. |
| SwapRequestController.CreateSwapRequest | src/main/java/com/SkillsSwap/skillswap/controller/SwapRequestController.java:135-165 | The endpoint's response and new tables are those of the create-endpoint function. |
| SwapRequestController.ActionOutcomes | src/main/java/com/SkillsSwap/skillswap/controller/SwapRequestController.java:167-270 | The table changes only with a 200, which needs the action's role and an allowed status. A caller without the role gets 403. A refused status gives 400 carrying the service's exception. An unknown id gives 404. |
| SwapRequestController.OnlyProviderDecides | src/main/java/com/SkillsSwap/skillswap/controller/SwapRequestController.java:167-216 | Anyone but the provider who tries to accept or reject gets 403, and nothing changes. |
| SwapRequestController.ActOn | src/main/java/com/SkillsSwap/skillswap/controller/SwapRequestController.java:167-270 | The shared endpoint body equals the action-endpoint function on the swap table. The other tables are unchanged. |
| SwapRequestController.AcceptSwapRequest | src/main/java/com/SkillsSwap/skillswap/controller/SwapRequestController.java:167-191 | The accept endpoint, as given by the action-endpoint function. |
| SwapRequestController.RejectSwapRequest | src/main/java/com/SkillsSwap/skillswap/controller/SwapRequestController.java:193-217 | The reject endpoint, as given by the action-endpoint function. |
| SwapRequestController.CompleteSwapRequest | src/main/java/com/SkillsSwap/skillswap/controller/SwapRequestController.java:219-244 | The complete endpoint, as given by the action-endpoint function. |
| SwapRequestController.CancelSwapRequest | src/main/java/com/SkillsSwap/skillswap/controller/SwapRequestController.java:246-271 | The cancel endpoint, as given by the action-endpoint function. |
| SkillDto.EmptySkillDTO | src/main/java/com/SkillsSwap/skillswap/dto/SkillDTO.java:25-29 | The no-argument constructor leaves every reference null, the skill wanted, and the approval flag true. |
| SkillDto.EmptyBodyIsInvalid | src/main/java/com/SkillsSwap/skillswap/dto/SkillDTO.java:11-13 | A body without a name fails validation. |
| SkillDto.ValidIff | src/main/java/com/SkillsSwap/skillswap/dto/SkillDTO.java:11-25 | A body is valid if and only if its name has a non-whitespace character and at most 30 characters, and its description is absent or at most 200 characters. The id, the owner fields and both flags play no part. |
| SkillWire.Body | src/main/java/com/SkillsSwap/skillswap/dto/SkillDTO.java:42-96 | The server writes exactly the members id, name, description, offered, userId, username and approved. There is no isOffered or isApproved member. |
| SkillWire.Bind | src/main/java/com/SkillsSwap/skillswap/dto/SkillDTO.java:28-29 | A bound body starts from the no-argument constructor. It is offered exactly when its "offered" member is true, and approved unless its "approved" member is false. Unknown members are ignored. |
| SkillWire.BindWrittenBody | src/main/java/com/SkillsSwap/skillswap/dto/SkillDTO.java:66-95 | What the server writes, it binds back unchanged. |
| SkillWire.AsWrittenFlagsUndefined | src/main/java/com/SkillsSwap/skillswap/dto/SkillDTO.java:66-95 | For every skill, the members the client reads as written, isOffered and isApproved, are undefined and so falsy. |
| SkillWire.WireFlagsReadBack | src/main/java/com/SkillsSwap/skillswap/dto/SkillDTO.java:66-95 | The members "offered" and "approved" carry the skill's own flags. |
| Text.ContainsIsCaseInsensitive | src/main/java/com/SkillsSwap/skillswap/repository/SkillRepository.java:18 | A skill whose name contains the search term exactly is also found by the case-insensitive name search. |
| SkillRepository.DistinctNamesAreApprovedNames | src/main/java/com/SkillsSwap/skillswap/repository/SkillRepository.java:25-26 | The names list holds the name of every approved skill, and nothing else. Each name appears once, in strictly ascending order. The list is no longer than the table. |
| SkillRepository.OfferedAndWantedPartitionUser | src/main/java/com/SkillsSwap/skillswap/repository/SkillRepository.java:14-16 | A user's offered and wanted skills are disjoint, and together they are all of that user's skills. |
| SkillRepository.ApprovalPartition | src/main/java/com/SkillsSwap/skillswap/repository/SkillRepository.java:23 | Every skill is exactly one of approved or pending. |
| SkillRepository.TypedSearchIsNarrower | src/main/java/com/SkillsSwap/skillswap/repository/SkillRepository.java:18-21 | The typed name search returns only approved skills, and only ones that the case-insensitive search also returns. The offered and wanted results are disjoint. |
| SkillService.GetSkillById | src/main/java/com/SkillsSwap/skillswap/service/SkillService.java:29-32 | The row when the id is present. Otherwise a not-found error naming Skill, id and the id. |
| SkillService.AddEffect | src/main/java/com/SkillsSwap/skillswap/service/SkillService.java:66-80 | An unknown user gives not-found and changes nothing. Otherwise exactly one row is added under the next id, owned by the user, with the given fields. It is approved if and only if it is a wanted skill. |
| SkillService.AddSkill | src/main/java/com/SkillsSwap/skillswap/service/SkillService.java:66-80 | The method's outcome and new tables are those of the add function. |
| SkillService.RevisedApproval | src/main/java/com/SkillsSwap/skillswap/service/SkillService.java:83-98 | An update keeps the id and the owner, and takes name, description and type from the incoming skill. It never grants approval. It withdraws approval exactly when a wanted skill becomes offered. |
| SkillService.RevisedIdempotent | src/main/java/com/SkillsSwap/skillswap/service/SkillService.java:83-98 | Sending a stored skill back unchanged is a no-op. Sending the same update twice has the effect of sending it once. |
| SkillService.UpdateEffect | src/main/java/com/SkillsSwap/skillswap/service/SkillService.java:83-98 | An unknown id gives not-found and changes nothing. Otherwise only that row is replaced by its revision. |
| SkillService.UpdateSkill | src/main/java/com/SkillsSwap/skillswap/service/SkillService.java:83-98 | The method's outcome and new tables are those of the update function. |
| SkillService.DeleteEffect | src/main/java/com/SkillsSwap/skillswap/service/SkillService.java:100-106 | A deletion succeeds by removing exactly one row, and only a row that exists and that no swap request refers to. Every failure leaves the tables unchanged. |
| SkillService.DeleteSkill | src/main/java/com/SkillsSwap/skillswap/service/SkillService.java:100-106 | The method's outcome and new tables are those of the delete function. A skill still in use fails at commit. |
| SkillService.SetApprovalEffect | src/main/java/com/SkillsSwap/skillswap/service/SkillService.java:108-122 | Moderating a known skill sets its flag and nothing else. The pending list then holds it exactly when it was rejected. The later of two decisions wins. An unknown id is not-found. |
| SkillService.SetApprovalTwice | src/main/java/com/SkillsSwap/skillswap/service/SkillService.java:108-122 | Repeating a moderation decision changes nothing. After two decisions, the state is what the later one alone would give. |
| SkillService.SetSkillApproval | src/main/java/com/SkillsSwap/skillswap/service/SkillService.java:108-122 | The method's outcome and new tables are those of the moderation function. |
| SkillService.ApproveSkill | src/main/java/com/SkillsSwap/skillswap/service/SkillService.java:108-114 | Moderation with the flag true. |
| SkillService.RejectSkill | src/main/java/com/SkillsSwap/skillswap/service/SkillService.java:116-122 | Moderation with the flag false. |
| SkillController.ConvertToDTO | src/main/java/com/SkillsSwap/skillswap/controller/SkillController.java:261-271 | The DTO carries the skill's id and its owner's id and username. |
| SkillController.ConvertIsInjective | src/main/java/com/SkillsSwap/skillswap/controller/SkillController.java:261-271 | Two skills with the same DTO are the same skill. |
| SkillController.PublicSearchResults | src/main/java/com/SkillsSwap/skillswap/controller/SkillController.java:38-63 | Every public search answers 200 with the DTO of every matching skill and of no other. The name search matches in any case. The offered and wanted searches match the name case-sensitively and take only approved skills of their type, so they never list more than the name search. |
| SkillController.SkillsOfUser | src/main/java/com/SkillsSwap/skillswap/controller/SkillController.java:65-141 | 404 exactly for an unknown user. 200 exactly when the user is public, is the caller, or the caller is an admin, with the DTO of every skill the user owns of the requested type, and of no other. 403 with no body otherwise. |
| SkillController.SkillsOfUserContents | src/main/java/com/SkillsSwap/skillswap/controller/SkillController.java:65-141 | A visible user's lists hold only that user's skills of the requested type, and the full list holds every skill the user owns. The offered and wanted lists together make up the full list. |
| SkillController.PendingApproval | src/main/java/com/SkillsSwap/skillswap/controller/SkillController.java:250-258 | 200 exactly for an admin, with the DTO of every unapproved skill and of no other. Anyone else gets 403. |
| SkillController.AddOwnedByCaller | src/main/java/com/SkillsSwap/skillswap/controller/SkillController.java:143-166 | A new skill always belongs to the caller, whatever owner, id or approval the body names. It is approved exactly when it is a wanted skill. The answer is 201 if and only if the body is valid and the caller has a user row. Every other answer leaves the tables unchanged. |
| SkillController.AddSkill | src/main/java/com/SkillsSwap/skillswap/controller/SkillController.java:143-166 | The endpoint's response and new tables are those of the add-endpoint function. |
| SkillController.UpdateKeepsModeration | src/main/java/com/SkillsSwap/skillswap/controller/SkillController.java:168-198 | This is the corrected endpoint. Only the owner or an admin changes a skill. An edit never leaves an offered skill approved unless it was already an approved offered skill. So turning a wanted skill into an offered one sends it back for review. |
| SkillController.UpdateSkill | src/main/java/com/SkillsSwap/skillswap/controller/SkillController.java:168-198 | The endpoint's response and new tables are those of the corrected update endpoint. |
| SkillController.SharedInstanceSkipsModeration | src/main/java/com/SkillsSwap/skillswap/controller/SkillController.java:172-187 | The endpoint as written, where the controller and the service share one managed instance. An approved wanted skill that is turned into an offered one stays approved, where the corrected endpoint would withdraw the approval. |
| SkillController.SharedInstanceExample | src/main/java/com/SkillsSwap/skillswap/controller/SkillController.java:172-187 | A concrete case: the owner turns the wanted skill "Chess" into an offered one, and it stays approved. |
| SkillController.DeleteOutcomes | src/main/java/com/SkillsSwap/skillswap/controller/SkillController.java:200-226 | Only the owner or an admin removes a skill, and only one that no swap request refers to. Every other answer leaves the tables unchanged. Deleting a skill still in use gives 400, carrying the constraint violation. |
| SkillController.DeleteSkill | src/main/java/com/SkillsSwap/skillswap/controller/SkillController.java:200-226 | The endpoint's response and new tables are those of the delete-endpoint function. |
| SkillController.ModerateOutcomes | src/main/java/com/SkillsSwap/skillswap/controller/SkillController.java:228-248 | Only an admin moderates, getting 200 with the flag set. A non-admin gets 403. An unknown id gives 400 carrying the not-found exception. Nothing else changes. |
| SkillController.ModerateSkill | src/main/java/com/SkillsSwap/skillswap/controller/SkillController.java:228-248 | The endpoint's response and new tables are those of the moderation-endpoint function. |
| SkillController.ApproveSkill | src/main/java/com/SkillsSwap/skillswap/controller/SkillController.java:228-237 | Moderation with the flag true. |
| SkillController.RejectSkill | src/main/java/com/SkillsSwap/skillswap/controller/SkillController.java:239-248 | Moderation with the flag false. |
| FeedbackDto.ValidIff | src/main/java/com/SkillsSwap/skillswap/dto/FeedbackDTO.java:12-32 | A body is valid if and only if all of the following hold: it names a reviewer, a recipient and a swap request; its rating is 1 to 5; its comment is absent or at most 500 characters. The id, the usernames and the date play no part. |
| FeedbackRepository.ThresholdsSplit | src/main/java/com/SkillsSwap/skillswap/repository/FeedbackRepository.java:30-34 | At any threshold r, the at-most-r and at-least-r+1 filters are disjoint and together cover the table. |
| FeedbackRepository.ReviewerAndSwapIsIntersection | src/main/java/com/SkillsSwap/skillswap/repository/FeedbackRepository.java:17-23 | The reviewer-and-swap finder is the intersection of the reviewer finder and the swap finder. |
| FeedbackRepository.RatingSumBounds | src/main/java/com/SkillsSwap/skillswap/repository/FeedbackRepository.java:25-26 | Ratings of 1..5 add up to between one and five times their number. |
| FeedbackRepository.AverageInRange | src/main/java/com/SkillsSwap/skillswap/repository/FeedbackRepository.java:25-26 | The average of the ratings a user received is absent (SQL NULL) exactly when the user received none. While every stored rating lies in 1..5, so does the average. |
| FeedbackRepository.AverageOfOne | src/main/java/com/SkillsSwap/skillswap/repository/FeedbackRepository.java:25-26 | A user with a single received feedback has its rating as the average. |
| FeedbackService.GetFeedbackById | src/main/java/com/SkillsSwap/skillswap/service/FeedbackService.java:39-42 | The row when the id is present. Otherwise a not-found error naming Feedback, id and the id. |
| FeedbackService.CreateSucceedsIff | src/main/java/com/SkillsSwap/skillswap/service/FeedbackService.java:64-104 | Feedback is accepted if and only if all of the following hold: both users and the swap exist; the swap is COMPLETED; reviewer and recipient are its two different participants; the reviewer has not yet reviewed this swap; the rating is 1 to 5. |
| FeedbackService.CreateEffect | src/main/java/com/SkillsSwap/skillswap/service/FeedbackService.java:64-110 | A refused feedback changes nothing. An accepted one adds exactly one row under a fresh id. The row carries the rating, the comment and the date now, and names the swap's two different participants. The invariant is kept. |
| FeedbackService.CreateKeepsOnePerReviewerAndSwap | src/main/java/com/SkillsSwap/skillswap/service/FeedbackService.java:95-99 | Creating and deleting feedback both keep the invariant that each reviewer leaves at most one feedback per swap. |
| FeedbackService.AtMostOneMatch | src/main/java/com/SkillsSwap/skillswap/repository/FeedbackRepository.java:23 | Under that invariant the reviewer-and-swap finder matches at most one row, as its Optional result requires. |
| FeedbackService.DuplicateReportedBeforeRating | src/main/java/com/SkillsSwap/skillswap/service/FeedbackService.java:95-104 | The duplicate check comes before the rating check. A second review of the same swap is refused as a duplicate, whatever its rating. |
| FeedbackService.CheckFeedback | src/main/java/com/SkillsSwap/skillswap/service/FeedbackService.java:66-104 | The method returns the first failing guard, in the source's order and with its messages. It changes nothing. |
| FeedbackService.CreateFeedback | src/main/java/com/SkillsSwap/skillswap/service/FeedbackService.java:64-110 | The method's outcome and new tables are those of the create function. |
| FeedbackService.DeleteEffect | src/main/java/com/SkillsSwap/skillswap/service/FeedbackService.java:112-118 | An unknown id is not-found and changes nothing. Otherwise exactly that row is removed. |
| FeedbackService.DeleteFeedback | src/main/java/com/SkillsSwap/skillswap/service/FeedbackService.java:112-118 | The method's outcome and new tables are those of the delete function. |
| FeedbackController.ConvertToDTO | src/main/java/com/SkillsSwap/skillswap/controller/FeedbackController.java:242-254 | The DTO carries the record's id, its swap id, its rating, and the reviewer's and recipient's ids. |
| FeedbackController.ConvertIsInjective | src/main/java/com/SkillsSwap/skillswap/controller/FeedbackController.java:242-254 | Two records with the same DTO are the same record. |
| FeedbackController.StoredFeedbackConvertsValid | src/main/java/com/SkillsSwap/skillswap/controller/FeedbackController.java:242-254 | A stored record converts to a valid body if and only if its comment fits in 500 characters. |
| FeedbackController.OwnFeedback | src/main/java/com/SkillsSwap/skillswap/controller/FeedbackController.java:38-72 | The given and received lists return 401 exactly when the caller has no user row. Otherwise they return 200 with the DTO of every feedback the caller's row gave, or received, and of no other. Each one names the caller. |
| FeedbackController.FeedbackOfUser | src/main/java/com/SkillsSwap/skillswap/controller/FeedbackController.java:74-98 | 404 exactly for an unknown user. 200 exactly under the visibility rule, with the DTO of every feedback that user received and of no other. 403 with no body otherwise. |
| FeedbackController.FeedbackOfSwap | src/main/java/com/SkillsSwap/skillswap/controller/FeedbackController.java:100-126 | 404 exactly for an unknown swap. 200 exactly for its participants and admins, with the DTO of every feedback on that swap and of no other. 403 otherwise. |
| FeedbackController.RatingOfUser | src/main/java/com/SkillsSwap/skillswap/controller/FeedbackController.java:128-149 | 404 exactly for an unknown user. 200 exactly under the visibility rule, and the body is the average rating. It is null exactly when the user received no feedback, and otherwise lies in 1..5. 403 with no body otherwise. |
| FeedbackController.AdminList | src/main/java/com/SkillsSwap/skillswap/controller/FeedbackController.java:211-239 | 200 exactly for an admin, with the DTO of every feedback that answers the query and of no other. That is all of it, ratings at most the threshold (default 2), or ratings at least the threshold (default 4). Anyone else gets 403. |
| FeedbackController.DefaultThresholds | src/main/java/com/SkillsSwap/skillswap/controller/FeedbackController.java:221-239 | The default thresholds are 2 and 4. The low list then holds ratings of at most 2 and the high list ratings of at least 4, so a rating of 3 is in neither. |
| FeedbackController.CreateOnlyAsSelf | src/main/java/com/SkillsSwap/skillswap/controller/FeedbackController.java:151-181 | A 201 means the caller is the reviewer of the new record. A valid body naming another reviewer gets 403. Every answer other than 201 leaves the tables unchanged. |
| FeedbackController.RatingGuardUnreachable | src/main/java/com/SkillsSwap/skillswap/controller/FeedbackController.java:151-172 | Validation already keeps the rating in 1..5. So behind this endpoint the service's answer never depends on the rating, and its rating guard cannot fire. |
| FeedbackController.CreateFeedback | src/main/java/com/SkillsSwap/skillswap/controller/FeedbackController.java:151-181 | The endpoint's response and new tables are those of the create-endpoint function. |
| FeedbackController.DeleteOutcomes | src/main/java/com/SkillsSwap/skillswap/controller/FeedbackController.java:183-209 | 404 exactly for an unknown id. 200 exactly for the reviewer or an admin, removing that one record. Anyone else gets 403, and the record remains. |
| FeedbackController.DeleteFeedback | src/main/java/com/SkillsSwap/skillswap/controller/FeedbackController.java:183-209 | The endpoint's response and new tables are those of the delete-endpoint function. |
| UserRepository.FindByUsername | src/main/java/com/SkillsSwap/skillswap/repository/UserRepository.java:14 | The row with that username when one exists, and otherwise none. Usernames are unique. |
| UserRepository.ExistsIffFound | src/main/java/com/SkillsSwap/skillswap/repository/UserRepository.java:14-16 | existsByUsername holds if and only if findByUsername finds a row. |
| UserRepository.FindsTheOwner | src/main/java/com/SkillsSwap/skillswap/repository/UserRepository.java:14 | With unique usernames, findByUsername on a stored user's name returns that user's row. |
| UserRepository.JoinedUsersQualify | src/main/java/com/SkillsSwap/skillswap/repository/UserRepository.java:20-21 | Every user the join returns is public and active, and owns a skill whose name contains the term. |
| UserRepository.SearchesIgnoreSkillType | src/main/java/com/SkillsSwap/skillswap/repository/UserRepository.java:20-24 | The query as written: both collections of User map the same Skill.user column. So the offered and wanted searches are one query, the union of the two typed searches, which never share a row. |
| UserRepository.WanterFoundAsOfferer | src/main/java/com/SkillsSwap/skillswap/repository/UserRepository.java:20-21 | A concrete case: a public user who only wants Chess is found by the offered-skill search as written, but not by the typed search for offered skills. |
| UserRepository.FindBySkillsOfTypeContaining | src/main/java/com/SkillsSwap/skillswap/repository/UserRepository.java:20-24 | The corrected search: the join restricted to skills of one type. Every row it returns is a skill of that type. |
| UserService.RegisterEffect | src/main/java/com/SkillsSwap/skillswap/service/UserService.java:25-36 | A taken username is a duplicate error and changes nothing. Otherwise exactly one user is added under the next id, whatever flags the input carried. It is a non-admin and active, and it stores the encoder's output, not the raw password. Its profile fields are kept, and findByUsername now finds it. |
| UserService.RegisterTwiceRefused | src/main/java/com/SkillsSwap/skillswap/service/UserService.java:27-29 | Registering the same username a second time is refused as a duplicate. |
| UserService.RegisterUser | src/main/java/com/SkillsSwap/skillswap/service/UserService.java:25-36 | The method's outcome and new tables are those of the register function. |
| UserService.GetUserById | src/main/java/com/SkillsSwap/skillswap/service/UserService.java:38-41 | The row when the id is present. Otherwise a not-found error naming User, id and the id. |
| UserService.UpdateUserEffect | src/main/java/com/SkillsSwap/skillswap/service/UserService.java:68-71 | Saving a loaded user who keeps their username changes that one row and keeps the invariant. |
| UserService.SetActiveEffect | src/main/java/com/SkillsSwap/skillswap/service/UserService.java:73-87 | An unknown id is not-found and changes nothing. On a known user only the active flag is set. The user is then in the public list exactly when active and public, and the admin list is unchanged. Setting the flag twice has the effect of setting it once, and the later call wins. |
| UserService.SetActiveTwice | src/main/java/com/SkillsSwap/skillswap/service/UserService.java:73-87 | Repeating a toggle with the same value changes nothing. After two calls, the state is what the later call alone would give. |
| UserService.SetUserActive | src/main/java/com/SkillsSwap/skillswap/service/UserService.java:73-87 | The method's outcome and new tables are those of the activation function. |
| UserService.DeactivateUser | src/main/java/com/SkillsSwap/skillswap/service/UserService.java:73-79 | Activation with the flag false. |
| UserService.ActivateUser | src/main/java/com/SkillsSwap/skillswap/service/UserService.java:81-87 | Activation with the flag true. |
| UserService.SetAdminEffect | src/main/java/com/SkillsSwap/skillswap/service/UserService.java:89-107 | An unknown id is not-found and changes nothing. On a known user only the admin flag is set. The user is then in the admin list exactly when made admin, and the public list is unchanged. The later of two calls wins. |
| UserService.SetAdminTwice | src/main/java/com/SkillsSwap/skillswap/service/UserService.java:89-107 | Repeating makeAdmin or removeAdmin changes nothing. After two calls, the state is what the later call alone would give. |
| UserService.SetUserAdmin | src/main/java/com/SkillsSwap/skillswap/service/UserService.java:89-103 | The method's outcome and new tables are those of the admin-flag function. |
| UserService.MakeAdmin | src/main/java/com/SkillsSwap/skillswap/service/UserService.java:89-95 | The admin-flag function with true. |
| UserService.RemoveAdmin | src/main/java/com/SkillsSwap/skillswap/service/UserService.java:97-103 | The admin-flag function with false. |
| UserController.ConvertToDTO | src/main/java/com/SkillsSwap/skillswap/controller/UserController.java:144-156 | The DTO never carries a password. |
| UserController.ConvertForgetsOnlyPassword | src/main/java/com/SkillsSwap/skillswap/controller/UserController.java:144-156 | Two users have the same DTO if and only if they differ at most in their password. |
| UserController.PublicUsersVisible | src/main/java/com/SkillsSwap/skillswap/controller/UserController.java:28-35 | The public list answers 200 with the DTO of every active, public user and of no other. Each is a user any caller could also open by id. A deactivated user never appears. |
| UserController.SearchUsersQualify | src/main/java/com/SkillsSwap/skillswap/controller/UserController.java:37-53 | Every user found is public and active, and owns a skill of the searched type whose name contains the term. This uses the corrected typed search. |
| UserController.SearchUsersFindsAll | src/main/java/com/SkillsSwap/skillswap/controller/UserController.java:37-53 | Every public, active owner of a skill of the searched type whose name contains the term is found. This uses the corrected typed search. |
| UserController.GetUserById | src/main/java/com/SkillsSwap/skillswap/controller/UserController.java:55-76 | 404 exactly for an unknown id. 200 with the DTO exactly under the visibility rule. Otherwise 403 with "This profile is private". |
| UserController.PrivateProfileOnlyForOwnerOrAdmin | src/main/java/com/SkillsSwap/skillswap/controller/UserController.java:62-72 | A private profile opens if and only if the caller is its owner or an admin. An admin can always open it. |
| UserController.CurrentProfile | src/main/java/com/SkillsSwap/skillswap/controller/UserController.java:78-89 | 404 exactly when the caller has no user row. Otherwise 200 with the caller's own profile. |
| UserController.UpdateProfileEffect | src/main/java/com/SkillsSwap/skillswap/controller/UserController.java:91-119 | This is the corrected endpoint. Only the caller's row changes. Its five editable fields take the body's values. Its id, username, admin flag and active flag stay as they were, whatever the body says. The password changes only when a non-empty one is given, and then to its encoding. 404 without a user row. |
| UserController.RawPasswordStored | src/main/java/com/SkillsSwap/skillswap/controller/UserController.java:108-114 | The endpoint as written stores a new password as the raw text of the body. For any encoder that changes its input, this differs from what the corrected endpoint stores. |
| UserController.RawPasswordExample | src/main/java/com/SkillsSwap/skillswap/controller/UserController.java:108-114 | A concrete case: with an encoder that prefixes a tag, bob's new password "secret" is stored untagged. |
| UserController.UpdateUserProfile | src/main/java/com/SkillsSwap/skillswap/controller/UserController.java:91-119 | The endpoint's response and new tables are those of the corrected profile update. |
| UserController.ActivationOutcomes | src/main/java/com/SkillsSwap/skillswap/controller/UserController.java:121-141 | 200 exactly for an admin and a known id, setting only that user's active flag. A non-admin gets 403. An unknown id gives 400 carrying the not-found exception. Nothing else changes. |
| UserController.ActivateUser | src/main/java/com/SkillsSwap/skillswap/controller/UserController.java:132-141 | The activation endpoint with true. |
| UserController.DeactivateUser | src/main/java/com/SkillsSwap/skillswap/controller/UserController.java:121-130 | The activation endpoint with false. |
| DataInitializer.EnsureAdmin | src/main/java/com/SkillsSwap/skillswap/config/DataInitializer.java:34-44 | Creating the admin user when missing keeps the table invariant. |
| DataInitializer.EnsureSystem | src/main/java/com/SkillsSwap/skillswap/config/DataInitializer.java:46-60 | The system user is reused when present and created otherwise. The answer names an existing row called "system". |
| DataInitializer.SeedNameStep | src/main/java/com/SkillsSwap/skillswap/config/DataInitializer.java:66-89 | One loop step: a name already present adds nothing. A missing name adds exactly two rows, an offered copy and then a wanted copy, both approved, owned by the system user and described as system-generated. |
| DataInitializer.SeedNamesFrame | src/main/java/com/SkillsSwap/skillswap/config/DataInitializer.java:66-90 | The loop changes no existing row and no other table. It adds two rows per missing name, under consecutive fresh ids. |
| DataInitializer.SeedNamesNewRows | src/main/java/com/SkillsSwap/skillswap/config/DataInitializer.java:66-90 | Every row the loop adds is an approved seeded copy of one of the names, owned by the system user. |
| DataInitializer.SeedNamesCovers | src/main/java/com/SkillsSwap/skillswap/config/DataInitializer.java:66-90 | Every missing name gains both an offered and a wanted copy. |
| DataInitializer.SeedNamesSkipsPresent | src/main/java/com/SkillsSwap/skillswap/config/DataInitializer.java:67 | When every name is already present, the loop adds nothing. |
| DataInitializer.EnsureUsersEffect | src/main/java/com/SkillsSwap/skillswap/config/DataInitializer.java:34-60 | Afterwards both "admin" and "system" exist, and a newly created admin is an admin. No existing user changes, and no other table changes. |
| DataInitializer.EnsureAdminEffect | src/main/java/com/SkillsSwap/skillswap/config/DataInitializer.java:34-44 | Afterwards "admin" exists, and it is an admin when this step created it. Every existing user is kept, and no other table changes. |
| DataInitializer.EnsureSystemEffect | src/main/java/com/SkillsSwap/skillswap/config/DataInitializer.java:46-60 | The user returned is the stored "system" user, created only when missing. Every existing user is kept, and no other table changes. |
| DataInitializer.SeedEffect | src/main/java/com/SkillsSwap/skillswap/config/DataInitializer.java:19-90 | After the runner, every predefined name is an approved skill name. No existing user or skill has changed. Every new skill is an approved, system-owned seeded row. |
| DataInitializer.SeedIdempotent | src/main/java/com/SkillsSwap/skillswap/config/DataInitializer.java:29-90 | A second run adds nothing: the runner is idempotent. |
| DataInitializer.EnsureUsers | src/main/java/com/SkillsSwap/skillswap/config/DataInitializer.java:34-60 | The method's new tables and system user are those of the two user steps. |
| DataInitializer.SeedPredefined | src/main/java/com/SkillsSwap/skillswap/config/DataInitializer.java:62-90 | The loop method's new tables are those of the seeding function over the names, checked against the names present before the loop. |
| DataInitializer.InitData | src/main/java/com/SkillsSwap/skillswap/config/DataInitializer.java:29-90 | The runner's new tables are those of the whole seeding function. |
| SwapRecords.FindById | frontend/src/pages/SwapRequestDetail.jsx:107 | A record is found if and only if the list holds one with that id. What is found is a record of the list, and it has that id. |
| SwapRequestDetailPage.FlagsOfLoadedRequest | frontend/src/pages/SwapRequestDetail.jsx:191-193 | For a loaded request, the viewer is the requester, the provider or a participant exactly when the viewer's username is that party's name. With no request loaded, "participant" holds only when nobody is signed in, because both sides of the comparison are undefined. |
| SwapRequestDetailPage.Buttons | frontend/src/pages/SwapRequestDetail.jsx:194-329 | Buttons appear only when the page has loaded, has no error, holds a request, the viewer is a participant, and the request is PENDING or ACCEPTED. |
| SwapRequestDetailPage.ButtonsByRole | frontend/src/pages/SwapRequestDetail.jsx:285-329 | Accept and Reject are offered exactly to the provider of a PENDING request. Complete is offered exactly to either participant of an ACCEPTED request. Cancel is offered exactly to the requester of a PENDING request and to either participant of an ACCEPTED one. |
| SwapRequestDetailPage.MessageFormBesideButtons | frontend/src/pages/SwapRequestDetail.jsx:332-350 | The message form is shown if and only if at least one action button is shown. |
| SwapRequestDetailPage.Responded | frontend/src/pages/SwapRequestDetail.jsx:118-180 | Each of the four handlers stores the record with the action's status and the response date set to now. Every other field is kept. |
| SwapRequestDetailPage.NoButtonsAfterTerminal | frontend/src/pages/SwapRequestDetail.jsx:118-180 | After a button's action, Accept leaves exactly Complete and Cancel to offer. Reject, Complete and Cancel leave no buttons. |
| SwapRequestDetailPage.DetailPage.constructor | frontend/src/pages/SwapRequestDetail.jsx:10-13 | A new page has no request, is loading, has no error and an empty message. |
| SwapRequestDetailPage.DetailPage.Load | frontend/src/pages/SwapRequestDetail.jsx:104-116 | When a record has the route's id, the page holds that record. Otherwise, including when the id does not parse, the error is "Swap request not found". Loading ends either way and the message is kept. |
| SwapRequestDetailPage.DetailPage.Respond | frontend/src/pages/SwapRequestDetail.jsx:118-180 | The page's copy becomes the responded record. Loading, error and message are kept. |
| SwapRequestDetailPage.DetailPage.SendMessage | frontend/src/pages/SwapRequestDetail.jsx:182-189 | A message that is blank after trimming is ignored. Any other message clears the box. Nothing else changes. |
| SwapRequestDetailPage.OfferedActionsAllowed | frontend/src/pages/SwapRequestDetail.jsx:285-329 | Every button shown for a record that mirrors a stored request is an action that the backend's status rule and role rule both accept for that user. |
| SwapRequestDetailPage.ProviderCannotCancelPendingInPage | frontend/src/pages/SwapRequestDetail.jsx:303-310 | The backend lets the provider cancel a PENDING request, but the page offers Cancel on a PENDING request only to the requester. |
| SwapRequestDetailPage.ResponseDateStamping | frontend/src/pages/SwapRequestDetail.jsx:150-178 | Page and backend move a request to the same status. The page stamps a response date for every action. The backend stamps it only for accept and reject, and keeps the old date on complete and cancel. |
| SwapRequestsPage.Filtered | frontend/src/pages/SwapRequests.jsx:99-114 | The shown list is no longer than the list. It holds exactly the records of the list that the active tab keeps. |
| SwapRequestsPage.FilteredIsSublist | frontend/src/pages/SwapRequests.jsx:99-114 | The shown list keeps the records in their order, as a sublist. |
| SwapRequestsPage.StatusTabs | frontend/src/pages/SwapRequests.jsx:105-110 | The pending, accepted and completed tabs each show exactly the records with that status. |
| SwapRequestsPage.PartyTabs | frontend/src/pages/SwapRequests.jsx:101-104 | The sent tab shows exactly the viewer's requests as requester. The received tab shows exactly those as provider. With nobody signed in, both are empty. |
| SwapRequestsPage.OtherTabsShowAll | frontend/src/pages/SwapRequests.jsx:111-112 | Any other tab, 'all' included, shows the whole list unchanged. |
| SwapRequestsPage.ClosedRequestsOffStatusTabs | frontend/src/pages/SwapRequests.jsx:99-114 | A REJECTED or CANCELLED request never appears under a status tab. |
| SwapRequestsPage.ListPage.constructor | frontend/src/pages/SwapRequests.jsx:8-12 | A new page has no requests, is loading, shows tab 'all' and has an empty skill box. |
| SwapRequestsPage.ListPage.Mount | frontend/src/pages/SwapRequests.jsx:88-93 | Mounting loads the fixture list and ends loading. The tab and the skill box are kept. |
| SwapRequestsPage.ListPage.HandleTabChange | frontend/src/pages/SwapRequests.jsx:95-97 | Only the active tab changes. |
| SwapRequestsPage.ListPage.SetRequestSkill | frontend/src/pages/SwapRequests.jsx:137 | Only the skill box changes. |
| SwapRequestsPage.ListPage.HandleRequestSkill | frontend/src/pages/SwapRequests.jsx:116-119 | Requesting a skill clears the box and changes nothing else. |
| SearchPage.SameSkillsAsSeeded | frontend/src/pages/Search.jsx:7-54 | The page's suggestion list is the same list, in the same order, as the skills the backend seeds. |
| SearchPage.MatchingSkills | frontend/src/pages/Search.jsx:74-76 | The matches are no more than the list. They are exactly the skills whose lower-cased name contains the lower-cased term. |
| SearchPage.FirstMatchLeads | frontend/src/pages/Search.jsx:74-76 | The first skill of the list that matches is the first match. |
| SearchPage.Suggestions | frontend/src/pages/Search.jsx:70-79 | A blank term gives no suggestions. Otherwise the suggestions are the first matches, up to five, and all matches when there are at most five. Every suggestion is a predefined skill that matches. |
| SearchPage.OnlyCutByLimit | frontend/src/pages/Search.jsx:77 | A matching skill is missing from the suggestions only when five are already shown. |
| SearchPage.MatchesItself | frontend/src/pages/Search.jsx:74-76 | Every skill matches its own name. |
| SearchPage.CallFor | frontend/src/pages/Search.jsx:96-106 | The scope 'offered' picks the offered-skill search and 'wanted' picks the wanted-skill search. Any other scope picks the unscoped search. The term is passed on unchanged. |
| SearchPage.Page.constructor | frontend/src/pages/Search.jsx:57-79 | The term starts as the skill query parameter, or '' without one. The scope is 'all'. There are no results, no error and no selection. The suggestions are those of the term, which makes them sound. |
| SearchPage.Page.TypeTerm | frontend/src/pages/Search.jsx:153 | Typing sets the term. A changed term recomputes the suggestions. Sound suggestions stay sound, and nothing else changes. |
| SearchPage.Page.SetSearchType | frontend/src/pages/Search.jsx:192-214 | Only the scope changes. |
| SearchPage.Page.HandleSearch | frontend/src/pages/Search.jsx:82-120 | A blank term sets "Please enter a skill to search for" and makes no call. Otherwise exactly one call is made, chosen by the scope. On success the results are replaced, the error is cleared and the address becomes the path plus `?skill=` and the encoded term. On failure the results and the address are kept and the failure message is set. |
| SearchPage.Page.SearchOnLoad | frontend/src/pages/Search.jsx:130-134 | Without a skill parameter nothing happens. With a non-blank one, exactly the search for it is made. |
| SearchPage.Page.SelectSkillAsWritten | frontend/src/pages/Search.jsx:123-127 | As written, picking a skill that differs from the term leaves the suggestions of the picked skill displayed, because the suggestion effect runs again. |
| SearchPage.Page.SelectSkill | frontend/src/pages/Search.jsx:123-127 | Picking a skill sets the term and the selection and closes the suggestion list. |
| SearchPage.SelectionRefillsSuggestions | frontend/src/pages/Search.jsx:70-79 | Every non-blank predefined skill has suggestions of its own, so the list does not close when it is picked. |
| SearchPage.PickingJavaReopens | frontend/src/pages/Search.jsx:123-127 | Concretely, the suggestions of "Java" are non-empty and begin with "Java". |
| JsValues.Get | frontend/src/services/authService.js:12-14 | Reading a property that is missing gives undefined. A present property gives its value. |
| JsValues.ToJsString | frontend/src/services/authService.js:10 | A string stored in localStorage is kept as it is. |
| SessionJson.ParseStringify | frontend/src/services/authService.js:48-51 | JSON.parse of the JSON.stringify text of a session user gives that user back. Undefined members are dropped. Strings, numbers, booleans and null survive. |
| AuthResponses.Body | src/main/java/com/SkillsSwap/skillswap/dto/AuthResponse.java:38-52 | The serialised answer has exactly the members token, username, userId and admin. It has no id and no isAdmin member. |
| AuthResponses.AsWrittenLosesIdAndAdmin | frontend/src/services/authService.js:11-15 | The session user the client builds from a server answer has an undefined id and a falsy admin flag. Only the username comes through. |
| AuthResponses.AsWrittenStoresOnlyUsername | frontend/src/services/authService.js:11-15 | As written, the stored session text is the object with the username alone. |
| AuthResponses.SessionUserOfReadsResponse | src/main/java/com/SkillsSwap/skillswap/dto/AuthResponse.java:14-19 | Read under the names the server writes, the session user carries the user's id, username and admin flag. The flag is truthy exactly for admins. |
| AuthService.Stored | frontend/src/services/authService.js:9-16 | An answer with a truthy token adds exactly the token and the stringified session user. An answer without one leaves the storage as it was. Every other key is kept. This reads the answer under the names the server writes, which is the corrected reader of Findings row 4. |
| AuthService.Removed | frontend/src/services/authService.js:42-45 | Logout removes both session keys. Every other key is kept and none is added. |
| AuthService.CurrentUserIn | frontend/src/services/authService.js:48-51 | There is no user exactly when no non-empty user text is stored. The user returned is the parse of the stored text. Text that does not parse throws. |
| AuthService.AdminFlag | frontend/src/services/authService.js:76-79 | With no stored user the flag is null, which is falsy. A truthy flag comes only from a stored user whose isAdmin is truthy. |
| AuthService.CheckToken | frontend/src/services/authService.js:54-73 | There are four outcomes. No token: nothing is stored. Undecodable: the decoder rejects the token. Expired: exp times 1000 is earlier than now in milliseconds. Valid: otherwise, where a token without exp never expires. Each outcome holds if and only if its condition does. |
| AuthService.ExpiryInstantIsValid | frontend/src/services/authService.js:63 | A token is still valid at the very second its exp names, and expired one millisecond later. |
| AuthService.ExpiryIsPermanent | frontend/src/services/authService.js:63 | A token that has expired stays expired at every later time. |
| AuthService.StoredUserReadsBack | frontend/src/services/authService.js:48-51 | After an answer with a token is stored, getCurrentUser gives back the very session user stored, and isAdmin gives its flag. This reads the answer under the names the server writes, which is the corrected reader of Findings row 4. |
| AuthService.LogoutForgetsSession | frontend/src/services/authService.js:42-45 | After logout there is no token and no user, and isAdmin is null. |
| AuthService.Session.constructor | frontend/src/services/authService.js:4 | The session object wraps the given storage. |
| AuthService.Session.Login | frontend/src/services/authService.js:6-21 | The answer is passed back unchanged. The storage is updated by it only when there is an answer. This reads the answer under the names the server writes, which is the corrected reader of Findings row 4. |
| AuthService.Session.Register | frontend/src/services/authService.js:24-39 | The answer is passed back unchanged. The storage is updated by it only when there is an answer. This reads the answer under the names the server writes, which is the corrected reader of Findings row 4. |
| AuthService.Session.Logout | frontend/src/services/authService.js:42-45 | The storage becomes the one without the session keys. |
| AuthService.Session.IsLoggedIn | frontend/src/services/authService.js:54-73 | The result is true exactly for a valid token. An undecodable or expired token logs out. Otherwise the storage is untouched. |
| AuthContext.AdminIsAuthenticated | frontend/src/context/AuthContext.js:85-97 | Whoever is an admin is authenticated. With no user, neither holds. |
| AuthContext.Startup | frontend/src/context/AuthContext.js:16-32 | The user is replaced only after a valid token: by the stored user, or by null when none is stored. A bad or expired token clears the storage and keeps the user. A stored user that cannot be parsed logs out and keeps the user. |
| AuthContext.ReloadKeepsSession | frontend/src/context/AuthContext.js:16-32 | After a login with an unexpired token, a reload signs the same session user back in and keeps the storage. |
| AuthContext.Provider.constructor | frontend/src/context/AuthContext.js:11-12 | The context starts with no user and loading. |
| AuthContext.Provider.CheckLoggedIn | frontend/src/context/AuthContext.js:16-32 | The user and the storage become the start-up check's result, and loading ends. |
| AuthContext.Provider.Login | frontend/src/context/AuthContext.js:35-53 | The result is true exactly when the server answered. The user then becomes the session user of the answer and the storage is updated. A failure keeps both. Loading ends. This reads the answer under the names the server writes, which is the corrected reader of Findings row 4. |
| AuthContext.Provider.Register | frontend/src/context/AuthContext.js:56-74 | It behaves as login does, on the register answer. This reads the answer under the names the server writes, which is the corrected reader of Findings row 4. |
| AuthContext.Provider.Logout | frontend/src/context/AuthContext.js:77-82 | The session keys are removed and the user becomes null, so it is neither authenticated nor admin. The result is navigation to /login. |
| AuthContext.SignedInFromAnswer | frontend/src/context/AuthContext.js:39-43 | A server answer authenticates its user. That user is an admin if and only if the server says so. |
| AuthContext.AsWrittenNeverAdmin | frontend/src/context/AuthContext.js:39-43 | As written, no server answer ever makes the context's user an admin. |
| ProtectedRoutes.ProtectedRoute | frontend/src/components/ProtectedRoute.jsx:6-20 | The spinner shows exactly while loading. The outlet is rendered if and only if loading is done and the user is authenticated. Otherwise the route redirects to /login. |
| ProtectedRoutes.AdminRoute | frontend/src/components/ProtectedRoute.jsx:23-37 | The spinner shows exactly while loading. The outlet is rendered if and only if loading is done and the user is an authenticated admin. Otherwise the route redirects to /. |
| ProtectedRoutes.AdminImpliesProtected | frontend/src/components/ProtectedRoute.jsx:23-37 | Whoever the admin route admits, the protected route admits too. |
| ProtectedRoutes.AsWrittenAdminShutOut | frontend/src/components/ProtectedRoute.jsx:36 | As written, a user signed in from a server answer is never let through the admin route, admins included. |
| ProtectedRoutes.AdminPagesForServerAdmins | frontend/src/components/ProtectedRoute.jsx:36 | With the answer read correctly, after loading the admin route admits exactly the users the server marks as admins. |
| FormRules.FirstError | frontend/src/pages/Register.js:70-76 | A field has no error if and only if every rule passes. Otherwise its error is the message of the first rule that fails. |
| FormRules.RequiredMinLength | frontend/src/pages/Register.js:145-151 | A required field with a minimum length passes exactly when it is at least that long. An empty value shows the required message. A short value shows the length message. |
| LoginPage.SubmittableIff | frontend/src/pages/Login.jsx:60-88 | The form submits if and only if the username is non-empty and the password has at least six characters. Each field shows the right message: an empty username, an empty password, or a short password. |
| LoginPage.RedirectTarget | frontend/src/pages/Login.jsx:15 | The target is never empty. It is the path the user came from, when there is one, and / otherwise. |
| LoginPage.Page.constructor | frontend/src/pages/Login.jsx:11-12 | A new page is not loading and has no errors. |
| LoginPage.Page.BeginSubmit | frontend/src/pages/Login.jsx:20-21 | Submitting sets loading and clears the error, which disables the button. |
| LoginPage.Page.Submit | frontend/src/pages/Login.jsx:19-33 | The field errors are shown. An invalid form changes nothing else. A valid one signs in through the context and navigates to the redirect target only when sign-in succeeded. Loading ends and the page error stays empty. This reads the answer under the names the server writes, which is the corrected reader of Findings row 4. |
| RegisterPage.SubmittableIff | frontend/src/pages/Register.js:68-172 | The form submits if and only if all of the following hold: the username has at least three characters; the name and the availability are given; the password has at least six characters; the confirmation equals it. A non-empty confirmation that differs shows "Passwords do not match". |
| RegisterPage.AvailabilityIsAChoice | frontend/src/pages/Register.js:121-130 | On an accepted form, an availability taken from the select is one of its four real choices. |
| RegisterPage.PayloadOf | frontend/src/pages/Register.js:22-30 | The body carries the typed username, password, name and availability. The location is '' when left out. The photo is empty and the profile is public. |
| RegisterPage.Page.constructor | frontend/src/pages/Register.js:10-11 | A new page is not loading and has no errors. |
| RegisterPage.Page.Submit | frontend/src/pages/Register.js:16-41 | The field errors are shown. An invalid form sends nothing. A valid one sends exactly that body through the context's register and navigates to / only on success. Loading ends. This reads the answer under the names the server writes, which is the corrected reader of Findings row 4. |
| ProfilePage.Round | frontend/src/pages/Profile.jsx:103 | Math.round gives the nearest integer: the rating lies within half a unit of it, and a half rounds up. |
| ProfilePage.FilledCount | frontend/src/pages/Profile.jsx:68-74 | A rating fills at most five stars. |
| ProfilePage.RenderStars | frontend/src/pages/Profile.jsx:66-76 | There are exactly five stars. Star i is filled if and only if i is at most the rating. The filled stars are the first ones. |
| ProfilePage.FilledStarsArePrefix | frontend/src/pages/Profile.jsx:68-74 | The filled-star rule is the same as filling a prefix whose length is the rating's whole part, kept between 0 and 5. |
| ProfilePage.HeaderRounding | frontend/src/pages/Profile.jsx:103 | The header rounds half up. An average of 3.5 shows four stars, 3.49 shows three, and 0 shows none. |
| ProfilePage.TargetUserId | frontend/src/pages/Profile.jsx:27 | The target is the route id when one is given. Otherwise it is the signed-in user's id, or null when nobody is signed in. |
| ProfilePage.Fetched | frontend/src/pages/Profile.jsx:29-60 | Without a target nothing changes. Skills are set only after the user loaded. The rating changes only after the feedback answered. |
| ProfilePage.AllAnswered | frontend/src/pages/Profile.jsx:36-53 | When every request answers, the page shows each answer, and 0 for a null rating. |
| ProfilePage.WhoseProfile | frontend/src/pages/Profile.jsx:36-39 | A route id loads that user by id. Without one, the caller's own profile is loaded. |
| ProfilePage.FailureStopsTheChain | frontend/src/pages/Profile.jsx:42-57 | When the offered-skills request throws, nothing after it is set. |
| ProfilePage.AsWrittenOwnProfileNeverLoads | frontend/src/pages/Profile.jsx:27-33 | As written, a signed-in user's own profile page, which has no route id, never has a target, so it never loads. |
| ProfilePage.OwnProfileLoads | frontend/src/pages/Profile.jsx:27-33 | With the answer read correctly, the own profile has a target exactly when the user's id is not 0. |
| ProfilePage.PreviewOf | frontend/src/pages/Profile.jsx:155-216 | A preview shows the first entries, up to the limit. "View all" appears exactly when the list is longer than the limit. |
| ProfilePage.PreviewHidesOnlyWithViewAll | frontend/src/pages/Profile.jsx:155-216 | The shown entries followed by the hidden ones are the list. Something is hidden if and only if "View all" appears. |
| ProfilePage.Page.constructor | frontend/src/pages/Profile.jsx:12-19 | A new page has no user, no lists, a rating of 0, is loading and shows the overview tab. |
| ProfilePage.Page.FetchData | frontend/src/pages/Profile.jsx:21-64 | The page's data becomes the fetch result. Loading ends and the tab is kept. |
| ProfilePage.Page.Overview | frontend/src/pages/Profile.jsx:155-216 | The overview shows at most five offered skills, at most five wanted skills and at most three feedback entries, each as a preview. |
| ProfilePage.Page.SetActiveTab | frontend/src/pages/Profile.jsx:114-131 | Only the tab changes. |
| MySkillsPage.OfferedSkills | frontend/src/pages/MySkills.jsx:137 | The offered column holds exactly the offered skills of the list. It treats the skill as the typed record, which is the corrected reading of Findings row 6. |
| MySkillsPage.WantedSkills | frontend/src/pages/MySkills.jsx:138 | The wanted column holds exactly the skills that are not offered. It treats the skill as the typed record, which is the corrected reading of Findings row 6. |
| MySkillsPage.PartitionComplete | frontend/src/pages/MySkills.jsx:137-138 | Together the two columns are the list, as a multiset. |
| MySkillsPage.PartitionDisjoint | frontend/src/pages/MySkills.jsx:137-138 | No skill is in both columns, and their lengths add up to the list's length. |
| MySkillsPage.Appended | frontend/src/pages/MySkills.jsx:92 | An added skill goes at the end, and the earlier entries are kept. |
| MySkillsPage.ReplacedById | frontend/src/pages/MySkills.jsx:102-104 | The length is kept. Each entry with the updated skill's id becomes the updated skill, and the others are kept. |
| MySkillsPage.RemovedById | frontend/src/pages/MySkills.jsx:126 | The result holds exactly the entries whose id differs from the deleted one. |
| MySkillsPage.RemovedKeepsOrder | frontend/src/pages/MySkills.jsx:126 | The remaining entries keep their order, and their number of copies, as a sublist. |
| MySkillsPage.ReplaceUnknownIsIdentity | frontend/src/pages/MySkills.jsx:102-104 | An update whose id is on no entry leaves the list unchanged. |
| MySkillsPage.WithInput | frontend/src/pages/MySkills.jsx:44-50 | A change event sets exactly the field it names. The name keeps at most its first 30 characters and the description its first 200, as the fields' maxLength does (MySkills.jsx:267, 282). The radios set the offered flag. |
| MySkillsPage.TypedFieldsFit | frontend/src/pages/MySkills.jsx:259-283 | Typing never makes the name longer than 30 characters or the description longer than 200. Text that fits is taken as it is. |
| MySkillsPage.EditForm | frontend/src/pages/MySkills.jsx:65-74 | The edit form carries the skill's id, name and offered flag, and its description or ''. It treats the skill as the typed record, which is the corrected reading of Findings row 6. |
| MySkillsPage.PayloadOf | frontend/src/pages/MySkills.jsx:85-90 | The body carries the form's name, description and offered flag, and the caller's id. It treats the skill as the typed record, which is the corrected reading of Findings row 6. |
| MySkillsPage.PayloadObjectAsWritten | frontend/src/pages/MySkills.jsx:85-100 | As written, the sent body holds the type under "isOffered" and has no "offered" member. |
| MySkillsPage.AsWrittenSavesWanted | frontend/src/pages/MySkills.jsx:85-100 | As written, the server binds every added or saved skill as a wanted one, whatever the form says. |
| MySkillsPage.PayloadBinds | frontend/src/pages/MySkills.jsx:85-100 | Sent under the name the server binds, the skill the server reads has the form's name, description and type, and the caller's id. |
| MySkillsPage.AsWrittenListsNoOffered | frontend/src/pages/MySkills.jsx:137-138 | As written, the offered group of every fetched list is empty, and every entry reads as not approved, so each carries the pending badge (MySkills.jsx:180). |
| MySkillsPage.OfferedOnWireIsTyped | frontend/src/pages/MySkills.jsx:137 | Filtering the received objects on "offered" gives exactly the offered group of the typed list, in order. |
| MySkillsPage.AsWrittenNeverFetches | frontend/src/pages/MySkills.jsx:38-40 | As written, a user signed in from a server answer has no id, so the page never fetches their skills. |
| MySkillsPage.FetchesForSignedInUser | frontend/src/pages/MySkills.jsx:38-40 | With the answer read correctly, the page fetches exactly when the user's id is not 0. |
| MySkillsPage.Page.constructor | frontend/src/pages/MySkills.jsx:8-20 | A new page has no skills and no error, is loading, and shows no form. The form is empty, in add mode. |
| MySkillsPage.Page.FetchSkills | frontend/src/pages/MySkills.jsx:23-41 | Without a user id nothing changes. Otherwise the fetched list replaces the skills and clears the error, or the load error is set and the skills are kept. Loading ends and the form is untouched. It treats the skill as the typed record, which is the corrected reading of Findings row 6. |
| MySkillsPage.Page.HandleInputChange | frontend/src/pages/MySkills.jsx:44-50 | Only the form changes, by the input. |
| MySkillsPage.Page.HandleAddSkill | frontend/src/pages/MySkills.jsx:53-62 | Nothing changes while loading, since the Add Skill button is then disabled (MySkills.jsx:147). Otherwise the empty form is shown in add mode. The list, loading and error are kept. |
| MySkillsPage.Page.HandleEditSkill | frontend/src/pages/MySkills.jsx:65-74 | The skill's form is shown in edit mode. The list, loading and error are kept. |
| MySkillsPage.Page.HandleSubmit | frontend/src/pages/MySkills.jsx:77-115 | Nothing changes while loading, since the Save button is then disabled (MySkills.jsx:326), or when the required name is empty (MySkills.jsx:266). Otherwise the form's body is sent, to add or update by the mode. On success the server's skill is appended or replaces the entries with its id, the form closes and the error clears. On failure the list and the form stay and the save error is set. Loading ends. |
| MySkillsPage.Page.Cancel | frontend/src/pages/MySkills.jsx:315-322 | Cancel closes the form unless loading disables it. Nothing else changes. |
| MySkillsPage.Page.HandleDeleteSkill | frontend/src/pages/MySkills.jsx:118-134 | Unconfirmed, nothing changes. Confirmed, a success drops the entries with that id and clears the error, and a failure keeps the list and sets the delete error. Loading ends. |

## Left out

- Floating point. The average rating (`FeedbackRepository.AverageRating`, `FeedbackController.RatingOfUser`) is the exact real quotient of the ratings' sum by their count, not a `Double`. In the profile page, `Math.round` is the nearest integer with halves rounded up, and `toFixed` is not modelled.
- Clocks. `LocalDateTime.now()`, `Date.now()` and `new Date().toISOString()` are parameters. Server time is an integer, and client time is milliseconds or an ISO-8601 string.
- Foreign calls. These are parameters: the password encoder, `jwtDecode` (a partial function from the token to its claims), and every HTTP request the client makes (answer or throw).
- The Spring machinery. Security, transactions, Bean Validation and JPA are not modelled. The repositories are an in-memory, single-threaded store, and the validation annotations are predicates. Concurrent requests are not modelled.
- Persistence-context aliasing. It is modelled only where it changes an outcome, in `SkillController.UpdateEndpointSharedInstance`. Elsewhere a loaded row is a value copy that the service writes back.
- Swap-request skills. A swap-request row holds copies of its two skills as they were when it was created. In the source these are references to the skill rows, so a later edit of a skill shows through the request there but not in the model.
- Query delegates. The service and controller methods that only return a repository query (`getAll…`, `findBy…` pass-throughs) are covered by the repository functions and the controller listings, not by separate members.
- Ordering. Repository queries return sets of keys. Result order and duplicate rows of a join are not modelled, except for the client lists, which keep their order.
- Text matching. SQL `LIKE` and the database collation are plain substring containment. `findByNameContainingIgnoreCase` and the client lower-case only ASCII letters. String lengths count characters, not UTF-16 code units.
- JSON. `JSON.parse` is modelled for the flat objects that `JSON.stringify` writes for the session user. Any other stored text counts as throwing.
- Status enums. The client compares a status string, modelled as the five-value enum it is compared with.
- UserDTO.java is not part of this model. The user DTO's fields follow what `UserController` reads and writes.
- The client's service modules (`skillService`, `swapRequestService`, `feedbackService`, `userService`) are pass-throughs. The pages take the requests they make as parameters. Their URLs are not reconciled with the backend routes.
- AuthController and JwtTokenProvider are not modelled. `AuthResponses` models only the JSON body of the answer. Registration through that controller is `UserService.RegisterUser`.
- AdminController, DatabaseConfig and the App, Navbar, Footer and Home files are not modelled. They delegate, do I/O or only render.
- Side effects. `alert`, `toast`, `console`, `window.confirm` (a boolean input) and navigation (a returned path) are outside the model. JSX rendering and styling are not modelled beyond the decisions listed above.
- Loading states in flight. Each async handler is modelled as one step from its start to its `finally`. The intermediate render with loading true is not modelled.
- Fixtures. The dummy request lists of the two swap-request pages are parameters, not their literal contents.
- The page error of the sign-in and sign-up pages is never set, because the context's login and register catch every failure. Their `catch` branches are therefore not modelled.
- SwapRequestDetailPage.DetailPage.Respond: requires a loaded request, which the buttons that call it guarantee.
- MySkillsPage.Page.HandleSubmit: takes the caller's `user.id` as a parameter rather than reading the context.
- MySkillsPage.Page.HandleDeleteSkill: takes the confirm dialog's answer as a parameter.
- Search: `history.pushState` is modelled as the page's `url` field. The search form's default browser submit is not modelled.
- AuthService.Stored: reads the sign-in answer under the names the server writes (`userId`, `admin`), not the `id` and `isAdmin` the client reads as written. The as-written reader is `AuthResponses.SessionUserOfAsWritten` (Findings row 4).
- AuthService.StoredUserReadsBack: reads the sign-in answer under the names the server writes (`userId`, `admin`), not the `id` and `isAdmin` the client reads as written. The as-written reader is `AuthResponses.SessionUserOfAsWritten` (Findings row 4).
- AuthService.Session.Login: reads the sign-in answer under the names the server writes (`userId`, `admin`), not the `id` and `isAdmin` the client reads as written. The as-written reader is `AuthResponses.SessionUserOfAsWritten` (Findings row 4).
- AuthService.Session.Register: reads the sign-in answer under the names the server writes (`userId`, `admin`), not the `id` and `isAdmin` the client reads as written. The as-written reader is `AuthResponses.SessionUserOfAsWritten` (Findings row 4).
- AuthContext.Provider.Login: reads the sign-in answer under the names the server writes (`userId`, `admin`), not the `id` and `isAdmin` the client reads as written. The as-written reader is `AuthResponses.SessionUserOfAsWritten` (Findings row 4).
- AuthContext.Provider.Register: reads the sign-in answer under the names the server writes (`userId`, `admin`), not the `id` and `isAdmin` the client reads as written. The as-written reader is `AuthResponses.SessionUserOfAsWritten` (Findings row 4).
- LoginPage.Page.Submit: reads the sign-in answer under the names the server writes (`userId`, `admin`), not the `id` and `isAdmin` the client reads as written. The as-written reader is `AuthResponses.SessionUserOfAsWritten` (Findings row 4).
- RegisterPage.Page.Submit: reads the sign-in answer under the names the server writes (`userId`, `admin`), not the `id` and `isAdmin` the client reads as written. The as-written reader is `AuthResponses.SessionUserOfAsWritten` (Findings row 4).
- MySkillsPage.OfferedSkills: works over the typed skill record, as if the client read and sent the members the server uses (`offered`, `approved`). As written it uses `isOffered` and `isApproved`, which `MySkillsPage.AsWrittenListsNoOffered` and `MySkillsPage.AsWrittenSavesWanted` model (Findings rows 6 and 7).
- MySkillsPage.WantedSkills: works over the typed skill record, as if the client read and sent the members the server uses (`offered`, `approved`). As written it uses `isOffered` and `isApproved`, which `MySkillsPage.AsWrittenListsNoOffered` and `MySkillsPage.AsWrittenSavesWanted` model (Findings rows 6 and 7).
- MySkillsPage.EditForm: works over the typed skill record, as if the client read and sent the members the server uses (`offered`, `approved`). As written it uses `isOffered` and `isApproved`, which `MySkillsPage.AsWrittenListsNoOffered` and `MySkillsPage.AsWrittenSavesWanted` model (Findings rows 6 and 7).
- MySkillsPage.PayloadOf: works over the typed skill record, as if the client read and sent the members the server uses (`offered`, `approved`). As written it uses `isOffered` and `isApproved`, which `MySkillsPage.AsWrittenListsNoOffered` and `MySkillsPage.AsWrittenSavesWanted` model (Findings rows 6 and 7).
- MySkillsPage.Page.FetchSkills: works over the typed skill record, as if the client read and sent the members the server uses (`offered`, `approved`). As written it uses `isOffered` and `isApproved`, which `MySkillsPage.AsWrittenListsNoOffered` and `MySkillsPage.AsWrittenSavesWanted` model (Findings rows 6 and 7).
- MySkillsPage.Page.HandleEditSkill: works over the typed skill record, as if the client read and sent the members the server uses (`offered`, `approved`). As written it uses `isOffered` and `isApproved`, which `MySkillsPage.AsWrittenListsNoOffered` and `MySkillsPage.AsWrittenSavesWanted` model (Findings rows 6 and 7).
- MySkillsPage.Page.HandleSubmit: works over the typed skill record, as if the client read and sent the members the server uses (`offered`, `approved`). As written it uses `isOffered` and `isApproved`, which `MySkillsPage.AsWrittenListsNoOffered` and `MySkillsPage.AsWrittenSavesWanted` model (Findings rows 6 and 7).
- MySkillsPage.WithInput: models `maxLength` as cutting typed or pasted text to the limit. A longer value set by the page itself, such as an edited skill's name, is not cut.
- Search results. The results list's Offered/Wanted label (`frontend/src/pages/Search.jsx:276-284`) is rendering and is not modelled. As written it reads `skill.isOffered` and so shows every result as wanted (`SkillWire.AsWrittenFlagsUndefined`).
- JSON binding. `SkillWire.Bind` takes only a boolean member for a flag, a number for an id and a string for a text field. Jackson's other coercions are not modelled.

## Findings

| source | as written | input that shows it | evidently intended | confidence | as-written member | corrected member |
|---|---|---|---|---|---|---|
| src/main/java/com/SkillsSwap/skillswap/controller/SkillController.java:172-187 | The controller edits the managed skill in place, then passes it to `SkillService.updateSkill`. That method loads the same managed instance again, so its wanted-to-offered check compares the edited skill with itself. | alice's approved wanted skill "Chess" is turned into an offered skill. It stays approved and is listed by the offered-skill search with no review. | Turning a wanted skill into an offered one sends it back for approval, as `SkillService.java:91-93` says. | not executed | SkillController.SharedInstanceExample | SkillController.UpdateKeepsModeration |
| src/main/java/com/SkillsSwap/skillswap/controller/UserController.java:108-114 | A new password from the profile body is stored as it was typed. | bob sets the password "secret". The row holds "secret", while registration stores encoded passwords. | Store the encoder's output, as registration does in `UserService.java:31`. | not executed | UserController.RawPasswordExample | UserController.UpdateProfileEffect |
| frontend/src/pages/Search.jsx:123-127 | `handleSkillSelect` clears the suggestions. Then the changed term re-runs the suggestion effect, which fills them again. | The term is "Ja" and "Java" is picked. The list then shows the suggestions for "Java", led by "Java" itself. | Picking a suggestion closes the list. | not executed | SearchPage.PickingJavaReopens | SearchPage.Page.SelectSkill |
| frontend/src/services/authService.js:11-15 | The client reads `id` and `isAdmin` from the sign-in answer. The server writes them as `userId` and `admin`. | Any answer, e.g. one for the seeded admin. The stored user has no id and a falsy admin flag. So the admin route never admits anyone, My Skills never fetches, and one's own profile never loads. | Read the members the server writes. | not executed | AuthResponses.AsWrittenLosesIdAndAdmin | AuthResponses.SessionUserOfReadsResponse |
| src/main/java/com/SkillsSwap/skillswap/repository/UserRepository.java:20-24 | The "offered" and "wanted" user searches join over the same `Skill.user` mapping and never filter on `isOffered`, so they are the same query. | A public user who only wants "Chess" is returned by the offered-skill search for "Chess". | Each search keeps only skills of its own type. | not executed | UserRepository.WanterFoundAsOfferer | UserRepository.FindBySkillsOfTypeContaining |
| frontend/src/pages/MySkills.jsx:137-138 | The page groups and badges skills by `skill.isOffered` and `skill.isApproved`. Jackson writes these properties as `offered` and `approved`, after the `isOffered()` and `isApproved()` getters (`src/main/java/com/SkillsSwap/skillswap/dto/SkillDTO.java:66-71`, `src/main/java/com/SkillsSwap/skillswap/dto/SkillDTO.java:90-95`). | alice has an approved offered skill "Java". My Skills shows it under the wanted skills, marked Pending Approval, and the offered column is empty for everyone. | Read the members the server writes. | not executed | MySkillsPage.AsWrittenListsNoOffered | MySkillsPage.OfferedOnWireIsTyped |
| frontend/src/pages/MySkills.jsx:85-100 | The add and update bodies send the type as `isOffered`. Jackson binds the flag only from `offered`, through `setOffered`, and ignores the unknown member. | alice adds "Java" with "I offer this skill" checked. The server stores a wanted skill. | Send the type under the name the server binds. | not executed | MySkillsPage.AsWrittenSavesWanted | MySkillsPage.PayloadBinds |
