/**
 * The database behind the repositories: one table per entity, each keyed by
 * its IDENTITY id, and the id generators. Users, skills and feedback are held
 * as row values; swap requests are held as the managed entity objects that
 * findById hands out, so a service that updates one through its setters
 * updates the stored row.
 */
module Store {
  import opened Wrappers
  import opened Entities
  import opened SwapRequests

  /** A snapshot of every table and generator. */
  datatype Tables = Tables(
    users: map<int, User>,
    skills: map<int, Skill>,
    swaps: map<int, SwapView>,
    feedback: map<int, Feedback>,
    nextUserId: int,
    nextSkillId: int,
    nextSwapId: int,
    nextFeedbackId: int)

  /** Usernames are unique (the column is declared unique). */
  predicate UniqueUsernames(users: map<int, User>)
  {
    forall a, b | a in users && b in users && users[a].username == users[b].username :: a == b
  }

  /** A reference to a user names a row of the user table (a non-null foreign key). */
  predicate RefersTo(users: map<int, User>, r: UserRef)
  {
    r.id in users && users[r.id].username == r.username
  }

  /**
   * Every row sits under its own id, ids stay below their generator, usernames
   * are unique, the user, skill and swap-request foreign keys resolve, and
   * every stored rating lies in 1..5.
   */
  predicate WellFormed(t: Tables)
  {
    (forall k | k in t.users :: t.users[k].id == k && k < t.nextUserId)
    && (forall k | k in t.skills :: t.skills[k].id == k && k < t.nextSkillId && RefersTo(t.users, t.skills[k].owner))
    && (forall k | k in t.swaps :: t.swaps[k].id == Some(k) && k < t.nextSwapId
          && RefersTo(t.users, t.swaps[k].requester) && RefersTo(t.users, t.swaps[k].provider)
          && t.swaps[k].requestedSkill.id in t.skills && t.swaps[k].offeredSkill.id in t.skills)
    && (forall k | k in t.feedback :: t.feedback[k].id == k && k < t.nextFeedbackId
          && RefersTo(t.users, t.feedback[k].reviewer) && RefersTo(t.users, t.feedback[k].recipient)
          && t.feedback[k].swapRequestId in t.swaps && 1 <= t.feedback[k].rating <= 5)
    && UniqueUsernames(t.users)
  }

  /** Growing the user table, without renaming anyone, keeps every foreign key resolving. */
  lemma UserTableGrowth(t: Tables, users: map<int, User>, nextUserId: int)
    requires WellFormed(t)
    requires forall k | k in t.users :: k in users && users[k].username == t.users[k].username
    requires forall k | k in users :: users[k].id == k && k < nextUserId
    requires UniqueUsernames(users)
    ensures WellFormed(t.(users := users, nextUserId := nextUserId))
  {
    forall r | RefersTo(t.users, r) ensures RefersTo(users, r) { }
  }

  /** Adding a user under the next id, with a username no one holds, keeps the tables well formed. */
  lemma UserRowAdded(t: Tables, u: User)
    requires WellFormed(t) && u.id == t.nextUserId
    requires forall k | k in t.users :: t.users[k].username != u.username
    ensures t.nextUserId !in t.users
    ensures WellFormed(t.(users := t.users[t.nextUserId := u], nextUserId := t.nextUserId + 1))
  {
    UserTableGrowth(t, t.users[t.nextUserId := u], t.nextUserId + 1);
  }

  /** Rewriting one user row, with its id and username kept, keeps the tables well formed. */
  lemma UserRowRewrite(t: Tables, id: int, u: User)
    requires WellFormed(t) && id in t.users && u.id == id && u.username == t.users[id].username
    ensures WellFormed(t.(users := t.users[id := u]))
  {
    UserTableGrowth(t, t.users[id := u], t.nextUserId);
  }

  /** Rewriting one skill row, with its id and owner kept, keeps the tables well formed. */
  lemma SkillRowRewrite(t: Tables, id: int, s: Skill)
    requires WellFormed(t) && id in t.skills && s.id == id && s.owner == t.skills[id].owner
    ensures WellFormed(t.(skills := t.skills[id := s]))
  {
  }

  /** Rewriting one swap row, with its id, parties and skills kept, keeps the tables well formed. */
  lemma SwapRowRewrite(t: Tables, id: int, v: SwapView)
    requires WellFormed(t) && id in t.swaps
    requires v.id == t.swaps[id].id && v.requester == t.swaps[id].requester && v.provider == t.swaps[id].provider
    requires v.requestedSkill == t.swaps[id].requestedSkill && v.offeredSkill == t.swaps[id].offeredSkill
    ensures WellFormed(t.(swaps := t.swaps[id := v]))
  {
  }

  /** Adding a row under the next swap id, with its parties and skills present, keeps the tables well formed. */
  lemma SwapRowAdded(t: Tables, v: SwapView)
    requires WellFormed(t) && v.id == Some(t.nextSwapId)
    requires RefersTo(t.users, v.requester) && RefersTo(t.users, v.provider)
    requires v.requestedSkill.id in t.skills && v.offeredSkill.id in t.skills
    ensures t.nextSwapId !in t.swaps
    ensures WellFormed(t.(swaps := t.swaps[t.nextSwapId := v], nextSwapId := t.nextSwapId + 1))
  {
  }

  /** Adding a row under the next skill id, owned by a stored user, keeps the tables well formed. */
  lemma SkillRowAdded(t: Tables, s: Skill)
    requires WellFormed(t) && s.id == t.nextSkillId && RefersTo(t.users, s.owner)
    ensures t.nextSkillId !in t.skills
    ensures WellFormed(t.(skills := t.skills[t.nextSkillId := s], nextSkillId := t.nextSkillId + 1))
  {
  }

  function EmptyTables(): (t: Tables)
    ensures WellFormed(t)
  {
    Tables(map[], map[], map[], map[], 1, 1, 1, 1)
  }

  /** The rows a table of managed swap-request objects holds: depends on those objects only. */
  function RowsOf(m: map<int, SwapRequest>): map<int, SwapView>
    reads m.Values
  {
    map k | k in m :: m[k].View()
  }

  class Db {
    var users: map<int, User>
    var skills: map<int, Skill>
    var swaps: map<int, SwapRequest>
    var feedback: map<int, Feedback>
    var nextUserId: int
    var nextSkillId: int
    var nextSwapId: int
    var nextFeedbackId: int

    function SwapRows(): map<int, SwapView>
      reads this, swaps.Values
    {
      RowsOf(swaps)
    }

    function State(): Tables
      reads this, swaps.Values
    {
      Tables(users, skills, SwapRows(), feedback, nextUserId, nextSkillId, nextSwapId, nextFeedbackId)
    }

    ghost predicate Valid()
      reads this, swaps.Values
    {
      WellFormed(State())
    }

    /** Two keys of a valid store never share an entity object. */
    lemma DistinctEntities(a: int, b: int)
      requires Valid() && a in swaps && b in swaps && a != b
      ensures swaps[a] != swaps[b]
    {
      assert SwapRows()[a].id == Some(a) && SwapRows()[b].id == Some(b);
    }

    constructor ()
      ensures Valid() && State() == EmptyTables()
    {
      users, skills, swaps, feedback := map[], map[], map[], map[];
      nextUserId, nextSkillId, nextSwapId, nextFeedbackId := 1, 1, 1, 1;
    }

    /** save() of a new user: the generator supplies its id. */
    method InsertUser(u: User) returns (saved: User)
      requires Valid()
      requires forall k | k in users :: users[k].username != u.username
      modifies this
      ensures Valid()
      ensures saved == u.(id := old(nextUserId))
      ensures State() == old(State()).(users := old(users)[saved.id := saved], nextUserId := old(nextUserId) + 1)
    {
      saved := u.(id := nextUserId);
      UserTableGrowth(State(), users[nextUserId := saved], nextUserId + 1);
      users := users[nextUserId := saved];
      nextUserId := nextUserId + 1;
      assert RowsOf(swaps) == old(RowsOf(swaps));
    }

    /** save() of a loaded user: its row is overwritten. */
    method SaveUser(u: User)
      requires Valid() && u.id in users && u.username == users[u.id].username
      modifies this
      ensures Valid()
      ensures State() == old(State()).(users := old(users)[u.id := u])
    {
      UserTableGrowth(State(), users[u.id := u], nextUserId);
      users := users[u.id := u];
      assert RowsOf(swaps) == old(RowsOf(swaps));
    }

    method InsertSkill(s: Skill) returns (saved: Skill)
      requires Valid() && RefersTo(users, s.owner)
      modifies this
      ensures Valid()
      ensures saved == s.(id := old(nextSkillId))
      ensures State() == old(State()).(skills := old(skills)[saved.id := saved], nextSkillId := old(nextSkillId) + 1)
    {
      saved := s.(id := nextSkillId);
      skills := skills[nextSkillId := saved];
      nextSkillId := nextSkillId + 1;
      assert RowsOf(swaps) == old(RowsOf(swaps));
    }

    method SaveSkill(s: Skill)
      requires Valid() && s.id in skills && RefersTo(users, s.owner)
      modifies this
      ensures Valid()
      ensures State() == old(State()).(skills := old(skills)[s.id := s])
    {
      skills := skills[s.id := s];
      assert RowsOf(swaps) == old(RowsOf(swaps));
    }

    /** deleteById: the swap-request foreign keys forbid removing a skill a request refers to. */
    method DeleteSkill(id: int)
      requires Valid()
      requires forall k | k in swaps :: swaps[k].requestedSkill.id != id && swaps[k].offeredSkill.id != id
      modifies this
      ensures Valid()
      ensures State() == old(State()).(skills := old(skills) - {id})
    {
      skills := skills - {id};
      assert RowsOf(swaps) == old(RowsOf(swaps));
    }

    /** findById on the swap table: the managed entity itself. */
    method FindSwapById(id: int) returns (r: Option<SwapRequest>)
      requires Valid()
      ensures r.Some? <==> id in swaps
      ensures r.Some? ==> r.value == swaps[id]
    {
      r := if id in swaps then Some(swaps[id]) else None;
    }

    /** save() of a new swap request: the generator supplies its id and the object becomes managed. */
    method InsertSwap(r: SwapRequest)
      requires Valid() && r.id == None
      requires r !in swaps.Values && RefersTo(users, r.requester) && RefersTo(users, r.provider)
      requires r.requestedSkill.id in skills && r.offeredSkill.id in skills
      modifies this, r
      ensures Valid()
      ensures r.View() == old(r.View()).(id := Some(old(nextSwapId)))
      ensures State() == old(State()).(swaps := old(SwapRows())[old(nextSwapId) := r.View()], nextSwapId := old(nextSwapId) + 1)
    {
      ghost var t := State();
      ghost var rows := SwapRows();
      r.SetId(Some(nextSwapId));
      swaps := swaps[nextSwapId := r];
      nextSwapId := nextSwapId + 1;
      forall k | k in old(swaps) ensures swaps[k].View() == rows[k] {
        assert old(swaps)[k] != r;
      }
      assert SwapRows() == rows[t.nextSwapId := r.View()];
      assert State() == t.(swaps := rows[t.nextSwapId := r.View()], nextSwapId := t.nextSwapId + 1);
      SwapRowAdded(t, r.View());
    }

    method InsertFeedback(f: Feedback) returns (saved: Feedback)
      requires Valid() && RefersTo(users, f.reviewer) && RefersTo(users, f.recipient) && f.swapRequestId in swaps
      requires 1 <= f.rating <= 5
      modifies this
      ensures Valid()
      ensures saved == f.(id := old(nextFeedbackId))
      ensures State() == old(State()).(feedback := old(feedback)[saved.id := saved], nextFeedbackId := old(nextFeedbackId) + 1)
    {
      saved := f.(id := nextFeedbackId);
      feedback := feedback[nextFeedbackId := saved];
      nextFeedbackId := nextFeedbackId + 1;
      assert RowsOf(swaps) == old(RowsOf(swaps));
    }

    method DeleteFeedback(id: int)
      requires Valid()
      modifies this
      ensures Valid()
      ensures State() == old(State()).(feedback := old(feedback) - {id})
    {
      feedback := feedback - {id};
      assert RowsOf(swaps) == old(RowsOf(swaps));
    }
  }
}
