/**
 * SkillService: adding, updating, deleting and moderating skills. Each
 * operation is specified by a function from the tables before the call to the
 * outcome and the tables after it; the methods perform the same steps on the
 * store.
 */
module SkillService {
  import opened Wrappers
  import opened Entities
  import opened Errors
  import opened Store
  import SkillRepository

  type Outcome = Result<Skill, ServiceError>

  /** A void operation: None when it returns normally, the exception otherwise. */
  type Completion = Option<ServiceError>

  /** getSkillById: the row, or a not-found exception. */
  function GetSkillById(skills: map<int, Skill>, id: int): (r: Outcome)
    ensures r.Ok? <==> id in skills
    ensures r.Ok? ==> r.value == skills[id]
    ensures r.Err? ==> r.error == NotFound("Skill", "id", id)
  {
    if id in skills then Ok(skills[id]) else Err(NotFound("Skill", "id", id))
  }

  // --------------------------------------------------------------------- add

  /** addSkill: the skill is given its owner, and only an offered skill waits for approval. */
  function Add(t: Tables, name: string, description: Option<string>, isOffered: bool, userId: int): (Outcome, Tables)
  {
    if userId !in t.users then (Err(NotFound("User", "id", userId)), t)
    else
      var s := Skill(t.nextSkillId, name, description, isOffered, RefOf(t.users[userId]), !isOffered);
      (Ok(s), t.(skills := t.skills[t.nextSkillId := s], nextSkillId := t.nextSkillId + 1))
  }

  /**
   * An unknown user changes nothing; otherwise exactly one row is added under
   * the next id, owned by the user, carrying the given fields, approved
   * exactly when it is a wanted skill.
   */
  lemma AddEffect(t: Tables, name: string, description: Option<string>, isOffered: bool, userId: int)
    requires WellFormed(t)
    ensures var (r, t') := Add(t, name, description, isOffered, userId);
      (r.Err? <==> userId !in t.users)
      && (r.Err? ==> r.error == NotFound("User", "id", userId) && t' == t)
      && (r.Ok? ==>
            WellFormed(t')
            && t.nextSkillId !in t.skills && t'.skills.Keys == t.skills.Keys + {t.nextSkillId}
            && t'.skills[t.nextSkillId] == r.value && r.value.id == t.nextSkillId
            && r.value.owner.id == userId && r.value.owner.username == t.users[userId].username
            && r.value.name == name && r.value.description == description && r.value.isOffered == isOffered
            && (r.value.isApproved <==> !isOffered)
            && (forall k | k in t.skills :: t'.skills[k] == t.skills[k])
            && t'.users == t.users && t'.swaps == t.swaps && t'.feedback == t.feedback)
  {
    if userId in t.users {
      var s := Skill(t.nextSkillId, name, description, isOffered, RefOf(t.users[userId]), !isOffered);
      SkillRowAdded(t, s);
    }
  }

  method AddSkill(db: Db, name: string, description: Option<string>, isOffered: bool, userId: int)
    returns (r: Outcome)
    requires db.Valid()
    modifies db
    ensures db.Valid()
    ensures (r, db.State()) == Add(old(db.State()), name, description, isOffered, userId)
  {
    if userId !in db.users {
      return Err(NotFound("User", "id", userId));
    }
    var user := db.users[userId];
    // new Skill(): no id until it is saved, approved by default
    var skill := Skill(0, name, description, isOffered, RefOf(user), true);
    if skill.isOffered {
      skill := skill.(isApproved := false);
    } else {
      skill := skill.(isApproved := true);
    }
    var saved := db.InsertSkill(skill);
    r := Ok(saved);
  }

  // ------------------------------------------------------------------ update

  /**
   * The row updateSkill writes: name, description and type come from the
   * incoming skill; turning a wanted skill into an offered one withdraws its
   * approval.
   */
  function Revised(existing: Skill, incoming: Skill): Skill
  {
    var approved := if !existing.isOffered && incoming.isOffered then false else existing.isApproved;
    existing.(name := incoming.name, description := incoming.description, isApproved := approved,
              isOffered := incoming.isOffered)
  }

  /**
   * An update keeps the row's id and owner, takes the three editable fields
   * from the incoming skill, never grants approval, and withdraws it exactly
   * when a wanted skill becomes offered.
   */
  lemma RevisedApproval(existing: Skill, incoming: Skill)
    ensures var u := Revised(existing, incoming);
      u.id == existing.id && u.owner == existing.owner
      && u.name == incoming.name && u.description == incoming.description && u.isOffered == incoming.isOffered
      && (u.isApproved ==> existing.isApproved)
      && (!existing.isOffered && incoming.isOffered ==> !u.isApproved)
      && (!(!existing.isOffered && incoming.isOffered) ==> u.isApproved == existing.isApproved)
  {
  }

  /** Re-sending a skill as it is stored changes nothing; re-sending an update is a no-op. */
  lemma RevisedIdempotent(existing: Skill, incoming: Skill)
    ensures Revised(existing, existing) == existing
    ensures Revised(Revised(existing, incoming), incoming) == Revised(existing, incoming)
  {
  }

  /** updateSkill: the stored row of the incoming skill's id is revised, or a not-found exception. */
  function Update(t: Tables, skill: Skill): (Outcome, Tables)
  {
    if skill.id !in t.skills then (Err(NotFound("Skill", "id", skill.id)), t)
    else
      var u := Revised(t.skills[skill.id], skill);
      (Ok(u), t.(skills := t.skills[skill.id := u]))
  }

  lemma UpdateEffect(t: Tables, skill: Skill)
    requires WellFormed(t)
    ensures var (r, t') := Update(t, skill);
      (r.Err? <==> skill.id !in t.skills)
      && (r.Err? ==> r.error == NotFound("Skill", "id", skill.id) && t' == t)
      && (r.Ok? ==> WellFormed(t') && r.value == Revised(t.skills[skill.id], skill)
                    && t' == t.(skills := t.skills[skill.id := r.value]))
  {
  }

  method UpdateSkill(db: Db, skill: Skill) returns (r: Outcome)
    requires db.Valid()
    modifies db
    ensures db.Valid()
    ensures (r, db.State()) == Update(old(db.State()), skill)
  {
    if skill.id !in db.skills {
      return Err(NotFound("Skill", "id", skill.id));
    }
    var existing := db.skills[skill.id];
    existing := existing.(name := skill.name, description := skill.description);
    if !existing.isOffered && skill.isOffered {
      existing := existing.(isApproved := false);
    }
    existing := existing.(isOffered := skill.isOffered);
    db.SaveSkill(existing);
    r := Ok(existing);
  }

  // ------------------------------------------------------------------ delete

  /** Some swap request refers to the skill as its requested or offered skill. */
  predicate InUse(t: Tables, id: int)
  {
    exists k :: k in t.swaps && (t.swaps[k].requestedSkill.id == id || t.swaps[k].offeredSkill.id == id)
  }

  /**
   * deleteSkill: a not-found exception for an unknown id; a skill a swap
   * request refers to cannot be removed, so the commit fails.
   */
  function Delete(t: Tables, id: int): (Completion, Tables)
  {
    if id !in t.skills then (Some(NotFound("Skill", "id", id)), t)
    else if InUse(t, id) then (Some(ConstraintViolation("swap_requests", id)), t)
    else (None, t.(skills := t.skills - {id}))
  }

  /** A deletion removes exactly the one row, and only a row no swap request refers to. */
  lemma DeleteEffect(t: Tables, id: int)
    requires WellFormed(t)
    ensures var (r, t') := Delete(t, id);
      WellFormed(t')
      && (r.None? <==> id in t.skills && !InUse(t, id))
      && (r.Some? ==> t' == t)
      && (r.None? ==> t'.skills.Keys == t.skills.Keys - {id} && id !in t'.skills
                      && (forall k | k in t'.skills :: t'.skills[k] == t.skills[k])
                      && t'.users == t.users && t'.swaps == t.swaps && t'.feedback == t.feedback)
  {
  }

  method DeleteSkill(db: Db, id: int) returns (r: Completion)
    requires db.Valid()
    modifies db
    ensures db.Valid()
    ensures (r, db.State()) == Delete(old(db.State()), id)
  {
    if id !in db.skills {
      return Some(NotFound("Skill", "id", id));
    }
    var rows := db.SwapRows();
    assert forall k | k in db.swaps :: rows[k].requestedSkill == db.swaps[k].requestedSkill
                                       && rows[k].offeredSkill == db.swaps[k].offeredSkill;
    if exists k :: k in rows && (rows[k].requestedSkill.id == id || rows[k].offeredSkill.id == id) {
      return Some(ConstraintViolation("swap_requests", id));
    }
    db.DeleteSkill(id);
    r := None;
  }

  // -------------------------------------------------------------- moderation

  /** approveSkill (approved = true) and rejectSkill (approved = false). */
  function SetApproval(t: Tables, id: int, approved: bool): (Completion, Tables)
  {
    if id !in t.skills then (Some(NotFound("Skill", "id", id)), t)
    else (None, t.(skills := t.skills[id := t.skills[id].(isApproved := approved)]))
  }

  /**
   * Moderation of a known skill sets its flag and nothing else; the pending
   * list then holds it exactly when it was rejected. Moderating twice is the
   * same as moderating once, and the later decision wins.
   */
  lemma SetApprovalEffect(t: Tables, id: int, approved: bool, later: bool)
    requires WellFormed(t)
    ensures var (r, t') := SetApproval(t, id, approved);
      WellFormed(t')
      && (r.Some? <==> id !in t.skills)
      && (r.Some? ==> r.value == NotFound("Skill", "id", id) && t' == t)
      && (r.None? ==> t'.skills.Keys == t.skills.Keys && t'.skills[id].isApproved == approved
                      && t'.skills[id] == t.skills[id].(isApproved := approved)
                      && (forall k | k in t.skills && k != id :: t'.skills[k] == t.skills[k])
                      && (id in SkillRepository.FindByIsApproved(t'.skills, false) <==> !approved)
                      && t'.users == t.users && t'.swaps == t.swaps && t'.feedback == t.feedback)
      && SetApproval(t', id, approved) == (r, t')
      && SetApproval(t', id, later) == SetApproval(t, id, later)
  {
    if id in t.skills {
      SkillRowRewrite(t, id, t.skills[id].(isApproved := approved));
    }
    SetApprovalTwice(t, id, approved, later);
  }

  /** Moderation overwrites the flag: a repeat changes nothing, and only the later decision counts. */
  lemma SetApprovalTwice(t: Tables, id: int, approved: bool, later: bool)
    ensures var (r, t') := SetApproval(t, id, approved);
      SetApproval(t', id, approved) == (r, t') && SetApproval(t', id, later) == SetApproval(t, id, later)
  {
    if id in t.skills {
      var t' := SetApproval(t, id, approved).1;
      assert t'.skills[id := t'.skills[id].(isApproved := approved)] == t'.skills;
      assert t'.skills[id := t'.skills[id].(isApproved := later)] == t.skills[id := t.skills[id].(isApproved := later)];
    }
  }

  method SetSkillApproval(db: Db, id: int, approved: bool) returns (r: Completion)
    requires db.Valid()
    modifies db
    ensures db.Valid()
    ensures (r, db.State()) == SetApproval(old(db.State()), id, approved)
  {
    if id !in db.skills {
      return Some(NotFound("Skill", "id", id));
    }
    var skill := db.skills[id];
    skill := skill.(isApproved := approved);
    db.SaveSkill(skill);
    r := None;
  }

  method ApproveSkill(db: Db, id: int) returns (r: Completion)
    requires db.Valid()
    modifies db
    ensures db.Valid()
    ensures (r, db.State()) == SetApproval(old(db.State()), id, true)
  {
    r := SetSkillApproval(db, id, true);
  }

  method RejectSkill(db: Db, id: int) returns (r: Completion)
    requires db.Valid()
    modifies db
    ensures db.Valid()
    ensures (r, db.State()) == SetApproval(old(db.State()), id, false)
  {
    r := SetSkillApproval(db, id, false);
  }
}
