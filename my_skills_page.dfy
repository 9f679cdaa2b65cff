/**
 * The "My Skills" page: the signed-in user's skill list, the add and edit
 * form, and the local list updates after each call to the skill service.
 * The service calls are parameters: each yields the server's answer, or
 * None (false for delete) when the call throws.
 */
module MySkillsPage {
  import opened Wrappers
  import opened SkillDto
  import opened Sublists
  import opened JsValues
  import opened SessionJson
  import opened AuthResponses
  import SkillWire

  const LoadFailedMessage := "Failed to load skills. Please try again later."
  const SaveFailedMessage := "Failed to save skill. Please try again."
  const DeleteFailedMessage := "Failed to delete skill. Please try again."

  // ------------------------------------------------------- the list updates

  /** The offered skills, in list order. */
  function OfferedSkills(skills: seq<SkillDTO>): (r: seq<SkillDTO>)
    ensures forall s :: s in r <==> s in skills && s.isOffered
  {
    if skills == [] then []
    else (if skills[0].isOffered then [skills[0]] else []) + OfferedSkills(skills[1..])
  }

  /** The wanted skills, in list order. */
  function WantedSkills(skills: seq<SkillDTO>): (r: seq<SkillDTO>)
    ensures forall s :: s in r <==> s in skills && !s.isOffered
  {
    if skills == [] then []
    else (if !skills[0].isOffered then [skills[0]] else []) + WantedSkills(skills[1..])
  }

  /** The two groups together hold every entry, duplicates included. */
  lemma {:induction false} PartitionComplete(skills: seq<SkillDTO>)
    ensures multiset(OfferedSkills(skills)) + multiset(WantedSkills(skills)) == multiset(skills)
  {
    if skills != [] {
      var head, tail := skills[0], skills[1..];
      PartitionComplete(tail);
      assert skills == [head] + tail;
      if head.isOffered {
        assert OfferedSkills(skills) == [head] + OfferedSkills(tail);
        assert WantedSkills(skills) == WantedSkills(tail);
      } else {
        assert OfferedSkills(skills) == OfferedSkills(tail);
        assert WantedSkills(skills) == [head] + WantedSkills(tail);
      }
    }
  }

  /** The groups share no entry, and their sizes add up to the list's. */
  lemma PartitionDisjoint(skills: seq<SkillDTO>)
    ensures forall s :: !(s in OfferedSkills(skills) && s in WantedSkills(skills))
    ensures |OfferedSkills(skills)| + |WantedSkills(skills)| == |skills|
  {
    PartitionComplete(skills);
    assert |multiset(OfferedSkills(skills)) + multiset(WantedSkills(skills))| == |multiset(skills)|;
  }

  /** After an add: the returned skill at the end, every earlier entry where it was. */
  function Appended(skills: seq<SkillDTO>, added: SkillDTO): (r: seq<SkillDTO>)
    ensures |r| == |skills| + 1 && r[|skills|] == added
    ensures r[..|skills|] == skills
  {
    skills + [added]
  }

  /** After an edit: `skills.map(s => s.id === updated.id ? updated : s)`. */
  function ReplacedById(skills: seq<SkillDTO>, updated: SkillDTO): (r: seq<SkillDTO>)
    ensures |r| == |skills|
    ensures forall i :: 0 <= i < |r| ==> r[i] == if skills[i].id == updated.id then updated else skills[i]
  {
    if skills == [] then [] else [if skills[0].id == updated.id then updated else skills[0]] + ReplacedById(skills[1..], updated)
  }

  /** After a delete: `skills.filter(s => s.id !== id)`. */
  function RemovedById(skills: seq<SkillDTO>, id: Option<int>): (r: seq<SkillDTO>)
    ensures forall s :: s in r <==> s in skills && s.id != id
    ensures |r| <= |skills|
  {
    if skills == [] then []
    else (if skills[0].id != id then [skills[0]] else []) + RemovedById(skills[1..], id)
  }

  /** A delete drops exactly the entries carrying the id, and keeps the others in their order and number. */
  lemma RemovedKeepsOrder(skills: seq<SkillDTO>, id: Option<int>)
    ensures IsSublist(RemovedById(skills, id), skills)
    ensures forall s: SkillDTO :: s.id != id ==> multiset(RemovedById(skills, id))[s] == multiset(skills)[s]
  {
    RemovedIsSublist(skills, id);
    forall s: SkillDTO | s.id != id ensures multiset(RemovedById(skills, id))[s] == multiset(skills)[s] {
      RemovedKeepsCount(skills, id, s);
    }
  }

  lemma {:induction false} RemovedIsSublist(skills: seq<SkillDTO>, id: Option<int>)
    ensures IsSublist(RemovedById(skills, id), skills)
    decreases |skills|
  {
    if skills != [] {
      RemovedIsSublist(skills[1..], id);
      var rest := RemovedById(skills[1..], id);
      if skills[0].id != id {
        assert RemovedById(skills, id) == [skills[0]] + rest;
        assert ([skills[0]] + rest)[1..] == rest;
      } else {
        assert RemovedById(skills, id) == rest;
      }
    }
  }

  lemma {:induction false} RemovedKeepsCount(skills: seq<SkillDTO>, id: Option<int>, s: SkillDTO)
    requires s.id != id
    ensures multiset(RemovedById(skills, id))[s] == multiset(skills)[s]
    decreases |skills|
  {
    if skills != [] {
      RemovedKeepsCount(skills[1..], id, s);
      var rest := RemovedById(skills[1..], id);
      assert skills == [skills[0]] + skills[1..];
      if skills[0].id != id {
        assert RemovedById(skills, id) == [skills[0]] + rest;
      } else {
        assert RemovedById(skills, id) == rest;
      }
    }
  }

  /** Replacing keeps the length, and an edit whose id matches nothing changes nothing. */
  lemma ReplaceUnknownIsIdentity(skills: seq<SkillDTO>, updated: SkillDTO)
    requires forall i :: 0 <= i < |skills| ==> skills[i].id != updated.id
    ensures ReplacedById(skills, updated) == skills
  {
  }

  // ----------------------------------------------------------------- the form

  datatype FormMode = AddMode | EditMode

  /** The form's currentSkill. */
  datatype FormSkill = FormSkill(id: Option<int>, name: string, description: string, isOffered: bool)

  /** An input event: text fields carry their value, the checkbox its checked state. */
  datatype FieldInput = NameInput(name: string) | DescriptionInput(description: string) | OfferedInput(checked: bool)

  /** The fields' maxLength: the browser keeps no more than this many characters of what is typed or pasted. */
  const NameMaxLength := 30
  const DescriptionMaxLength := 200

  function Clip(text: string, max: nat): (r: string)
    ensures |r| <= max && r <= text
    ensures |text| <= max ==> r == text
  {
    if |text| <= max then text else text[..max]
  }

  /**
   * handleInputChange: the named field takes the input's value, which the
   * browser has cut to the field's maxLength; the radios set the type.
   */
  function WithInput(f: FormSkill, input: FieldInput): (r: FormSkill)
    ensures input.NameInput? ==> r == f.(name := Clip(input.name, NameMaxLength))
    ensures input.DescriptionInput? ==> r == f.(description := Clip(input.description, DescriptionMaxLength))
    ensures input.OfferedInput? ==> r == f.(isOffered := input.checked)
  {
    match input
    case NameInput(n) => f.(name := Clip(n, NameMaxLength))
    case DescriptionInput(d) => f.(description := Clip(d, DescriptionMaxLength))
    case OfferedInput(c) => f.(isOffered := c)
  }

  /** Typed text never makes a field longer than its maxLength, and a field that fits takes the text as it is. */
  lemma TypedFieldsFit(f: FormSkill, input: FieldInput)
    requires |f.name| <= NameMaxLength && |f.description| <= DescriptionMaxLength
    ensures |WithInput(f, input).name| <= NameMaxLength && |WithInput(f, input).description| <= DescriptionMaxLength
    ensures input.NameInput? && |input.name| <= NameMaxLength ==> WithInput(f, input).name == input.name
  {
  }

  /**
   * The browser fires the submit only when the required name is not empty;
   * a name of blanks satisfies `required`, so only the server refuses it.
   */
  predicate Submittable(f: FormSkill)
  {
    f.name != ""
  }

  /** The empty form handleAddSkill opens: no id, empty text, offered. */
  const EmptyForm := FormSkill(None, "", "", true)

  /** The form handleEditSkill opens: the skill's fields, a null description shown as ''. */
  function EditForm(s: SkillDTO): (f: FormSkill)
    ensures f.id == s.id && f.isOffered == s.isOffered && f.name == s.name.GetOr("")
    ensures f.description == if s.description.Some? then s.description.value else ""
  {
    FormSkill(s.id, s.name.GetOr(""), s.description.GetOr(""), s.isOffered)
  }

  /** The body sent to the add and update calls. */
  datatype SkillPayload = SkillPayload(name: string, description: string, isOffered: bool, userId: JsValue)

  function PayloadOf(f: FormSkill, userId: JsValue): (p: SkillPayload)
    ensures p.name == f.name && p.description == f.description && p.isOffered == f.isOffered && p.userId == userId
  {
    SkillPayload(f.name, f.description, f.isOffered, userId)
  }

  // --------------------------------------------------------------- the wire

  /** The request body as written: the type under the key "isOffered". */
  function PayloadObjectAsWritten(p: SkillPayload): (o: JsObject)
    ensures Get(o, "offered") == Undefined && Get(o, "isOffered") == Bool(p.isOffered)
  {
    map["name" := Str(p.name), "description" := Str(p.description), "isOffered" := Bool(p.isOffered), "userId" := p.userId]
  }

  /** The request body under the name the server binds. */
  function PayloadObject(p: SkillPayload): (o: JsObject)
    ensures Get(o, "offered") == Bool(p.isOffered)
  {
    map["name" := Str(p.name), "description" := Str(p.description), "offered" := Bool(p.isOffered), "userId" := p.userId]
  }

  /** As written the server never sees the type: every skill added or saved from the form is a wanted one. */
  lemma AsWrittenSavesWanted(f: FormSkill, userId: JsValue)
    ensures !SkillWire.Bind(PayloadObjectAsWritten(PayloadOf(f, userId))).isOffered
  {
  }

  /** Sent under the server's name, the bound skill has the form's name, description and type. */
  lemma PayloadBinds(f: FormSkill, userId: JsValue)
    ensures var d := SkillWire.Bind(PayloadObject(PayloadOf(f, userId)));
      d.isOffered == f.isOffered && d.name == Some(f.name) && d.description == Some(f.description)
      && d.userId == SkillWire.BindNum(userId)
  {
  }

  /**
   * `skills.filter(skill => skill.isOffered)` as written, over the objects
   * the server sends: the skills whose object passes, in list order.
   */
  function OfferedAsWritten(skills: seq<SkillDTO>): seq<SkillDTO>
  {
    if skills == [] then []
    else
      var head := skills[0];
      (if Truthy(Get(SkillWire.Body(head), "isOffered")) then [head] else []) + OfferedAsWritten(skills[1..])
  }

  /** The same filter on the member the server writes, "offered". */
  function OfferedOnWire(skills: seq<SkillDTO>): seq<SkillDTO>
  {
    if skills == [] then []
    else
      var head := skills[0];
      (if Truthy(Get(SkillWire.Body(head), "offered")) then [head] else []) + OfferedOnWire(skills[1..])
  }

  /**
   * As written the offered group of every fetched list is empty, and every
   * entry reads as not approved, so each one carries the pending badge.
   */
  lemma {:induction false} AsWrittenListsNoOffered(skills: seq<SkillDTO>)
    ensures OfferedAsWritten(skills) == []
    ensures forall i | 0 <= i < |skills| :: !Truthy(Get(SkillWire.Body(skills[i]), "isApproved"))
  {
    if skills != [] {
      AsWrittenListsNoOffered(skills[1..]);
      SkillWire.AsWrittenFlagsUndefined(skills[0]);
    }
  }

  /** Filtering on "offered" is the page's offered group: the fix restores the list the page means. */
  lemma {:induction false} OfferedOnWireIsTyped(skills: seq<SkillDTO>)
    ensures OfferedOnWire(skills) == OfferedSkills(skills)
  {
    if skills != [] {
      OfferedOnWireIsTyped(skills[1..]);
      SkillWire.WireFlagsReadBack(skills[0]);
    }
  }

  /** `user?.id` is truthy. */
  predicate HasUserId(user: Option<SessionUser>)
  {
    user.Some? && Truthy(user.value.id)
  }

  /** As written, the signed-in user read from a server answer has no id, so the list is never fetched. */
  lemma AsWrittenNeverFetches(r: AuthResponse)
    ensures !HasUserId(Some(SessionUserOfAsWritten(Body(r))))
  {
    AsWrittenLosesIdAndAdmin(r);
  }

  /** Reading the server's names, the list is fetched for every user id but 0. */
  lemma FetchesForSignedInUser(r: AuthResponse)
    ensures HasUserId(Some(SessionUserOf(Body(r)))) <==> r.userId != 0
  {
    SessionUserOfReadsResponse(r);
  }

  // ------------------------------------------------------------------ the page

  class Page {
    var skills: seq<SkillDTO>
    var loading: bool
    var error: Option<string>
    var showForm: bool
    var formMode: FormMode
    var currentSkill: FormSkill

    constructor ()
      ensures skills == [] && loading && error == None && !showForm && formMode == AddMode && currentSkill == EmptyForm
    {
      skills := [];
      loading := true;
      error := None;
      showForm := false;
      formMode := AddMode;
      currentSkill := EmptyForm;
    }

    /** The fetch effect: only for a user with an id; the list or the load error; loading ends. */
    method FetchSkills(user: Option<SessionUser>, fetch: JsValue -> Option<seq<SkillDTO>>)
      modifies this
      ensures !HasUserId(user) ==> unchanged(this)
      ensures HasUserId(user) ==>
        var answer := fetch(user.value.id);
        !loading
        && (answer.Some? ==> skills == answer.value && error == None)
        && (answer.None? ==> skills == old(skills) && error == Some(LoadFailedMessage))
      ensures showForm == old(showForm) && formMode == old(formMode) && currentSkill == old(currentSkill)
    {
      if !HasUserId(user) {
        return;
      }
      loading := true;
      var data := fetch(user.value.id);
      if data.Some? {
        skills := data.value;
        error := None;
      } else {
        error := Some(LoadFailedMessage);
      }
      loading := false;
    }

    method HandleInputChange(input: FieldInput)
      modifies this
      ensures currentSkill == WithInput(old(currentSkill), input)
      ensures skills == old(skills) && loading == old(loading) && error == old(error)
      ensures showForm == old(showForm) && formMode == old(formMode)
    {
      currentSkill := WithInput(currentSkill, input);
    }

    /** handleAddSkill: the empty form, in add mode, shown; the Add Skill button is disabled while loading. */
    method HandleAddSkill()
      modifies this
      ensures old(loading) ==> unchanged(this)
      ensures !old(loading) ==> currentSkill == EmptyForm && formMode == AddMode && showForm
      ensures skills == old(skills) && loading == old(loading) && error == old(error)
    {
      if loading {
        return;
      }
      currentSkill := EmptyForm;
      formMode := AddMode;
      showForm := true;
    }

    /** handleEditSkill: the skill's form, in edit mode, shown. */
    method HandleEditSkill(s: SkillDTO)
      modifies this
      ensures currentSkill == EditForm(s) && formMode == EditMode && showForm
      ensures skills == old(skills) && loading == old(loading) && error == old(error)
    {
      currentSkill := FormSkill(s.id, s.name.GetOr(""), s.description.GetOr(""), s.isOffered);
      formMode := EditMode;
      showForm := true;
    }

    /**
     * The Cancel button: it closes the form unless it is disabled, which it
     * is while loading. Nothing else changes.
     */
    method Cancel()
      modifies this
      ensures showForm == (old(showForm) && old(loading))
      ensures skills == old(skills) && loading == old(loading) && error == old(error)
      ensures formMode == old(formMode) && currentSkill == old(currentSkill)
    {
      if !loading {
        showForm := false;
      }
    }

    /**
     * handleSubmit, reached only when the form may be sent: the Save button
     * is disabled while loading, and the browser keeps back a form whose
     * required name is empty; otherwise nothing changes. It adds or updates
     * by the form's mode. On success the list takes the server's skill
     * (appended, or replacing the entries with its id), the form closes and
     * the error clears; on failure the list and the form stay and the save
     * error is set. Loading is false afterwards.
     */
    method HandleSubmit(userId: JsValue,
                        add: SkillPayload -> Option<SkillDTO>,
                        update: (Option<int>, SkillPayload) -> Option<SkillDTO>)
      modifies this
      ensures old(loading) || !Submittable(old(currentSkill)) ==> unchanged(this)
      ensures !old(loading) && Submittable(old(currentSkill)) ==>
        var payload := PayloadOf(old(currentSkill), userId);
        var answer := if old(formMode) == AddMode then add(payload) else update(old(currentSkill).id, payload);
        (answer.Some? ==>
           skills == (if old(formMode) == AddMode then Appended(old(skills), answer.value)
                      else ReplacedById(old(skills), answer.value))
           && !showForm && error == None)
        && (answer.None? ==> skills == old(skills) && showForm == old(showForm) && error == Some(SaveFailedMessage))
        && !loading
      ensures formMode == old(formMode) && currentSkill == old(currentSkill)
    {
      if loading || !Submittable(currentSkill) {
        return;
      }
      loading := true;
      var payload := SkillPayload(currentSkill.name, currentSkill.description, currentSkill.isOffered, userId);
      var answer;
      if formMode == AddMode {
        answer := add(payload);
        if answer.Some? {
          skills := skills + [answer.value];
        }
      } else {
        answer := update(currentSkill.id, payload);
        if answer.Some? {
          skills := ReplacedById(skills, answer.value);
        }
      }
      if answer.Some? {
        showForm := false;
        error := None;
      } else {
        error := Some(SaveFailedMessage);
      }
      loading := false;
    }

    /**
     * handleDeleteSkill: nothing at all unless confirmed; then the entries
     * with that id are dropped on success, or the delete error is set on
     * failure. Loading is false afterwards.
     */
    method HandleDeleteSkill(id: Option<int>, confirmed: bool, delete: Option<int> -> bool)
      modifies this
      ensures !confirmed ==> unchanged(this)
      ensures confirmed ==>
        !loading
        && (delete(id) ==> skills == RemovedById(old(skills), id) && error == None)
        && (!delete(id) ==> skills == old(skills) && error == Some(DeleteFailedMessage))
      ensures showForm == old(showForm) && formMode == old(formMode) && currentSkill == old(currentSkill)
    {
      if !confirmed {
        return;
      }
      loading := true;
      if delete(id) {
        skills := RemovedById(skills, id);
        error := None;
      } else {
        error := Some(DeleteFailedMessage);
      }
      loading := false;
    }
  }
}
