/**
 * The profile page: whose profile it shows, the chain of requests that
 * fills it, the star row, and the overview's shortened lists. The requests
 * are parameters, each yielding its answer or None when it throws; a
 * throwing request ends the chain, keeping what the earlier ones set.
 */
module ProfilePage {
  import opened Wrappers
  import opened JsValues
  import opened SessionJson
  import opened AuthResponses
  import opened SkillDto
  import opened FeedbackDto

  const StarCount := 5
  const SkillPreviewLimit := 5
  const FeedbackPreviewLimit := 3

  // ------------------------------------------------------------------ stars

  /** Math.round: the nearest integer, a half rounded up. */
  function Round(x: real): (n: int)
    ensures n as real - 0.5 <= x < n as real + 0.5
  {
    (x + 0.5).Floor
  }

  /** How many of the five stars a rating fills: its whole part, kept between 0 and 5. */
  function FilledCount(rating: real): (k: nat)
    ensures k <= StarCount
  {
    if rating < 1.0 then 0 else if rating >= 5.0 then 5 else rating.Floor
  }

  /** renderStars: five stars, star i (from 1) filled when i <= rating. */
  method RenderStars(rating: real) returns (stars: seq<bool>)
    ensures |stars| == StarCount
    ensures forall i :: 0 <= i < StarCount ==> (stars[i] <==> (i + 1) as real <= rating)
    ensures forall i :: 0 <= i < StarCount ==> (stars[i] <==> i < FilledCount(rating))
  {
    stars := [];
    var i := 1;
    while i <= 5
      invariant 1 <= i <= 6
      invariant |stars| == i - 1
      invariant forall j :: 0 <= j < |stars| ==> (stars[j] <==> (j + 1) as real <= rating)
    {
      if i as real <= rating {
        stars := stars + [true];
      } else {
        stars := stars + [false];
      }
      i := i + 1;
    }
    FilledStarsArePrefix(rating, stars);
  }

  /** The filled stars are the first FilledCount ones. */
  lemma FilledStarsArePrefix(rating: real, stars: seq<bool>)
    requires |stars| == StarCount
    requires forall i :: 0 <= i < StarCount ==> (stars[i] <==> (i + 1) as real <= rating)
    ensures forall i :: 0 <= i < StarCount ==> (stars[i] <==> i < FilledCount(rating))
  {
    if 1.0 <= rating < 5.0 {
      assert rating.Floor as real <= rating < rating.Floor as real + 1.0;
    }
  }

  /** The header shows the rating rounded: 3.5 fills four stars, 3.49 three. */
  lemma HeaderRounding()
    ensures FilledCount(Round(3.5) as real) == 4 && FilledCount(Round(3.49) as real) == 3
    ensures FilledCount(Round(0.0) as real) == 0
  {
    assert Round(3.5) == 4;
    assert Round(3.49) == 3;
  }

  // --------------------------------------------------------- target and fetch

  /** `id || (currentUser ? currentUser.id : null)`: the route id, else the signed-in user's id. */
  function TargetUserId(routeId: Option<string>, currentUser: Option<SessionUser>): (t: JsValue)
    ensures routeId.Some? && routeId.value != "" ==> t == Str(routeId.value) && Truthy(t)
    ensures !(routeId.Some? && routeId.value != "") ==>
      t == (if currentUser.Some? then currentUser.value.id else Null)
    ensures routeId.None? && currentUser.None? ==> !Truthy(t)
  {
    if routeId.Some? && routeId.value != "" then Str(routeId.value)
    else if currentUser.Some? then currentUser.value.id
    else Null
  }

  /** The requests the page makes. The rating answer is None for a null or missing average. */
  datatype ProfileApi = ProfileApi(
    userById: JsValue -> Option<JsObject>,
    currentProfile: Option<JsObject>,
    offeredOf: JsValue -> Option<seq<SkillDTO>>,
    wantedOf: JsValue -> Option<seq<SkillDTO>>,
    feedbackOf: JsValue -> Option<seq<FeedbackDTO>>,
    ratingOf: JsValue -> Option<Option<real>>)

  /** What the page shows. */
  datatype ProfileData = ProfileData(
    user: Option<JsObject>, offered: seq<SkillDTO>, wanted: seq<SkillDTO>,
    feedback: seq<FeedbackDTO>, rating: real)

  /**
   * fetchData: nothing without a target. Otherwise the user (by id when the
   * route names one, else the caller's own profile), then the offered
   * skills, the wanted skills, the feedback and the rating (0 for a null
   * average), each set as it arrives; the first request that throws ends it.
   */
  function Fetched(d: ProfileData, routeId: Option<string>, currentUser: Option<SessionUser>, api: ProfileApi)
    : (r: ProfileData)
    ensures !Truthy(TargetUserId(routeId, currentUser)) ==> r == d
    ensures r.offered != d.offered ==> r.user.Some?
    ensures r.rating != d.rating ==>
      (api.feedbackOf(TargetUserId(routeId, currentUser)).Some?
       && r.feedback == api.feedbackOf(TargetUserId(routeId, currentUser)).value)
  {
    var t := TargetUserId(routeId, currentUser);
    if !Truthy(t) then d
    else
      var u := if routeId.Some? && routeId.value != "" then api.userById(t) else api.currentProfile;
      if u.None? then d
      else
        var d1 := d.(user := Some(u.value));
        var off := api.offeredOf(t);
        if off.None? then d1
        else
          var d2 := d1.(offered := off.value);
          var want := api.wantedOf(t);
          if want.None? then d2
          else
            var d3 := d2.(wanted := want.value);
            var fb := api.feedbackOf(t);
            if fb.None? then d3
            else
              var d4 := d3.(feedback := fb.value);
              var rate := api.ratingOf(t);
              if rate.None? then d4 else d4.(rating := rate.value.GetOr(0.0))
  }

  /** When every request answers, the page shows each answer, and a null rating as 0. */
  lemma AllAnswered(d: ProfileData, routeId: Option<string>, currentUser: Option<SessionUser>, api: ProfileApi)
    requires Truthy(TargetUserId(routeId, currentUser))
    requires var t := TargetUserId(routeId, currentUser);
      (if routeId.Some? && routeId.value != "" then api.userById(t) else api.currentProfile).Some?
      && api.offeredOf(t).Some? && api.wantedOf(t).Some?
      && api.feedbackOf(t).Some? && api.ratingOf(t).Some?
    ensures var t := TargetUserId(routeId, currentUser);
      Fetched(d, routeId, currentUser, api) == ProfileData(
        if routeId.Some? && routeId.value != "" then api.userById(t) else api.currentProfile,
        api.offeredOf(t).value, api.wantedOf(t).value, api.feedbackOf(t).value,
        if api.ratingOf(t).value.Some? then api.ratingOf(t).value.value else 0.0)
  {
  }

  /** A route id loads that user; without one the page loads the caller's own profile. */
  lemma WhoseProfile(d: ProfileData, routeId: Option<string>, currentUser: Option<SessionUser>, api: ProfileApi)
    requires Truthy(TargetUserId(routeId, currentUser))
    ensures var r := Fetched(d, routeId, currentUser, api);
      routeId.Some? && routeId.value != "" ==>
        r.user == (if api.userById(Str(routeId.value)).Some? then api.userById(Str(routeId.value)) else d.user)
    ensures var r := Fetched(d, routeId, currentUser, api);
      !(routeId.Some? && routeId.value != "") ==>
        r.user == (if api.currentProfile.Some? then api.currentProfile else d.user)
  {
  }

  /** A request that throws leaves everything after it as it was. */
  lemma FailureStopsTheChain(d: ProfileData, routeId: Option<string>, currentUser: Option<SessionUser>, api: ProfileApi)
    requires api.offeredOf(TargetUserId(routeId, currentUser)).None?
    ensures var r := Fetched(d, routeId, currentUser, api);
      r.offered == d.offered && r.wanted == d.wanted && r.feedback == d.feedback && r.rating == d.rating
  {
  }

  /** As written, a signed-in user's own profile (no route id) never loads: the stored id is undefined. */
  lemma AsWrittenOwnProfileNeverLoads(r: AuthResponse)
    ensures !Truthy(TargetUserId(None, Some(SessionUserOfAsWritten(Body(r)))))
  {
    AsWrittenLosesIdAndAdmin(r);
  }

  /** Reading the server's names, the own profile loads for every user id but 0. */
  lemma OwnProfileLoads(r: AuthResponse)
    ensures Truthy(TargetUserId(None, Some(SessionUserOf(Body(r))))) <==> r.userId != 0
  {
    SessionUserOfReadsResponse(r);
  }

  // --------------------------------------------------------------- overview

  /** A list cut for the overview, and whether the "View all" button shows. */
  datatype Preview<T> = Preview(shown: seq<T>, viewAll: bool)

  function PreviewOf<T>(list: seq<T>, limit: nat): (p: Preview<T>)
    ensures |p.shown| == (if |list| < limit then |list| else limit)
    ensures p.shown == list[..|p.shown|]
    ensures p.viewAll <==> |list| > limit
  {
    if |list| <= limit then Preview(list, false) else Preview(list[..limit], true)
  }

  /** Nothing is hidden without a "View all" button, and the shown entries followed by the hidden ones are the list. */
  lemma {:induction false} PreviewHidesOnlyWithViewAll<T>(list: seq<T>, limit: nat)
    ensures var p := PreviewOf(list, limit);
      p.shown + list[|p.shown|..] == list && (list[|p.shown|..] != [] <==> p.viewAll)
  {
    var p := PreviewOf(list, limit);
    assert list[..|p.shown|] + list[|p.shown|..] == list;
  }

  class Page {
    var user: Option<JsObject>
    var offeredSkills: seq<SkillDTO>
    var wantedSkills: seq<SkillDTO>
    var feedback: seq<FeedbackDTO>
    var rating: real
    var loading: bool
    var activeTab: string

    constructor ()
      ensures user == None && offeredSkills == [] && wantedSkills == [] && feedback == []
      ensures rating == 0.0 && loading && activeTab == "overview"
    {
      user := None;
      offeredSkills := [];
      wantedSkills := [];
      feedback := [];
      rating := 0.0;
      loading := true;
      activeTab := "overview";
    }

    function Data(): ProfileData
      reads this
    {
      ProfileData(user, offeredSkills, wantedSkills, feedback, rating)
    }

    /** The fetch effect; loading is false afterwards, whatever happened. */
    method FetchData(routeId: Option<string>, currentUser: Option<SessionUser>, api: ProfileApi)
      modifies this
      ensures Data() == Fetched(old(Data()), routeId, currentUser, api)
      ensures !loading && activeTab == old(activeTab)
    {
      loading := true;
      var userId := TargetUserId(routeId, currentUser);
      if !Truthy(userId) {
        loading := false;
        return;
      }
      var userData := if routeId.Some? && routeId.value != "" then api.userById(userId) else api.currentProfile;
      if userData.None? {
        loading := false;
        return;
      }
      user := Some(userData.value);
      var offered := api.offeredOf(userId);
      if offered.None? {
        loading := false;
        return;
      }
      offeredSkills := offered.value;
      var wanted := api.wantedOf(userId);
      if wanted.None? {
        loading := false;
        return;
      }
      wantedSkills := wanted.value;
      var fb := api.feedbackOf(userId);
      if fb.None? {
        loading := false;
        return;
      }
      feedback := fb.value;
      var ratingData := api.ratingOf(userId);
      if ratingData.Some? {
        rating := ratingData.value.GetOr(0.0);
      }
      loading := false;
    }

    /** The overview tab's three shortened lists. */
    function Overview(): (r: (Preview<SkillDTO>, Preview<SkillDTO>, Preview<FeedbackDTO>))
      reads this
      ensures r.0 == PreviewOf(offeredSkills, SkillPreviewLimit) && |r.0.shown| <= 5
      ensures r.1 == PreviewOf(wantedSkills, SkillPreviewLimit) && |r.1.shown| <= 5
      ensures r.2 == PreviewOf(feedback, FeedbackPreviewLimit) && |r.2.shown| <= 3
    {
      (PreviewOf(offeredSkills, SkillPreviewLimit), PreviewOf(wantedSkills, SkillPreviewLimit),
       PreviewOf(feedback, FeedbackPreviewLimit))
    }

    method SetActiveTab(tab: string)
      modifies this
      ensures activeTab == tab && Data() == old(Data()) && loading == old(loading)
    {
      activeTab := tab;
    }
  }
}
