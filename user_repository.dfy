/** The user queries, over the user table (and the skill table for the two joins). */
module UserRepository {
  import opened Wrappers
  import opened Text
  import opened Entities
  import opened Store

  /** findByUsername: the row with that username, which is unique. */
  function FindByUsername(users: map<int, User>, username: string): (r: Option<User>)
    requires UniqueUsernames(users)
    ensures r.Some? ==> r.value.username == username && exists k :: k in users && users[k] == r.value
    ensures r.None? ==> forall k | k in users :: users[k].username != username
  {
    if exists k :: k in users && users[k].username == username then
      var k :| k in users && users[k].username == username; Some(users[k])
    else None
  }

  /** With unique usernames, looking up a stored user's name finds that very row. */
  lemma {:induction false} FindsTheOwner(users: map<int, User>, k: int)
    requires UniqueUsernames(users) && k in users
    ensures FindByUsername(users, users[k].username) == Some(users[k])
  {
    var r := FindByUsername(users, users[k].username);
    assert r.Some?;
    var j :| j in users && users[j] == r.value;
  }

  predicate ExistsByUsername(users: map<int, User>, username: string)
  {
    exists k :: k in users && users[k].username == username
  }

  /** existsByUsername holds exactly when findByUsername finds a row. */
  lemma ExistsIffFound(users: map<int, User>, username: string)
    requires UniqueUsernames(users)
    ensures ExistsByUsername(users, username) <==> FindByUsername(users, username).Some?
  {
  }

  function FindByIsPublicTrueAndIsActiveTrue(users: map<int, User>): set<int>
  {
    set k | k in users && users[k].isPublic && users[k].isActive
  }

  function FindByIsAdmin(users: map<int, User>, isAdmin: bool): set<int>
  {
    set k | k in users && users[k].isAdmin == isAdmin
  }

  /**
   * The rows of `User u JOIN u.offeredSkills s WHERE s.name LIKE %term% AND
   * u.isPublic AND u.isActive`: one (user id, skill id) pair per matching
   * skill, so a user with several matching skills is listed once per skill.
   * Both collections of User are mapped by the same Skill.user column, so the
   * join ranges over all of the user's skills, offered or wanted.
   */
  function FindByOfferedSkillsContaining(users: map<int, User>, skills: map<int, Skill>, term: string): set<(int, int)>
  {
    set k | k in skills && skills[k].owner.id in users && Contains(skills[k].name, term)
                        && users[skills[k].owner.id].isPublic && users[skills[k].owner.id].isActive
          :: (skills[k].owner.id, k)
  }

  /** The wanted-skills join, over the same mapping. */
  function FindByWantedSkillsContaining(users: map<int, User>, skills: map<int, Skill>, term: string): set<(int, int)>
  {
    set k | k in skills && skills[k].owner.id in users && Contains(skills[k].name, term)
                        && users[skills[k].owner.id].isPublic && users[skills[k].owner.id].isActive
          :: (skills[k].owner.id, k)
  }

  /** Every user the join returns is public and active and owns a skill whose name contains the term. */
  lemma JoinedUsersQualify(users: map<int, User>, skills: map<int, Skill>, term: string, row: (int, int))
    requires row in FindByOfferedSkillsContaining(users, skills, term)
    ensures row.0 in FindByIsPublicTrueAndIsActiveTrue(users)
    ensures row.1 in skills && skills[row.1].owner.id == row.0 && Contains(skills[row.1].name, term)
  {
  }

  /**
   * The evidently intended skill-name user search: the join restricted to
   * the user's skills of one type, offered (isOffered = true) or wanted.
   */
  function FindBySkillsOfTypeContaining(users: map<int, User>, skills: map<int, Skill>, term: string, isOffered: bool)
    : (r: set<(int, int)>)
    ensures forall row | row in r :: row.1 in skills && skills[row.1].isOffered == isOffered
                                     && skills[row.1].owner.id == row.0 && Contains(skills[row.1].name, term)
                                     && row.0 in FindByIsPublicTrueAndIsActiveTrue(users)
  {
    set k | k in skills && skills[k].owner.id in users && skills[k].isOffered == isOffered
                        && Contains(skills[k].name, term)
                        && users[skills[k].owner.id].isPublic && users[skills[k].owner.id].isActive
          :: (skills[k].owner.id, k)
  }

  /**
   * As written the offered and wanted searches are the same query, and each
   * is the union of the two typed searches, which never share a row.
   */
  lemma SearchesIgnoreSkillType(users: map<int, User>, skills: map<int, Skill>, term: string)
    ensures FindByOfferedSkillsContaining(users, skills, term) == FindByWantedSkillsContaining(users, skills, term)
    ensures FindByOfferedSkillsContaining(users, skills, term)
         == FindBySkillsOfTypeContaining(users, skills, term, true) + FindBySkillsOfTypeContaining(users, skills, term, false)
    ensures FindBySkillsOfTypeContaining(users, skills, term, true) * FindBySkillsOfTypeContaining(users, skills, term, false) == {}
  {
    var all := FindByOfferedSkillsContaining(users, skills, term);
    var off := FindBySkillsOfTypeContaining(users, skills, term, true);
    var want := FindBySkillsOfTypeContaining(users, skills, term, false);
    forall row | row in all ensures row in off + want {
      var k :| k in skills && skills[k].owner.id in users && Contains(skills[k].name, term)
               && users[skills[k].owner.id].isPublic && users[skills[k].owner.id].isActive
               && row == (skills[k].owner.id, k);
      if skills[k].isOffered { assert row in off; } else { assert row in want; }
    }
  }

  /**
   * A public user who only wants Chess is returned by the offered-skill
   * search as written, and not by the typed search for offered skills.
   */
  lemma WanterFoundAsOfferer()
    ensures var alice := User(1, "alice", "x", "Alice", None, None, "Weekends", true, false, true);
      var chess := Skill(1, "Chess", None, false, RefOf(alice), true);
      (1, 1) in FindByOfferedSkillsContaining(map[1 := alice], map[1 := chess], "Chess")
      && FindBySkillsOfTypeContaining(map[1 := alice], map[1 := chess], "Chess", true) == {}
  {
    var alice := User(1, "alice", "x", "Alice", None, None, "Weekends", true, false, true);
    var chess := Skill(1, "Chess", None, false, RefOf(alice), true);
    var users, skills := map[1 := alice], map[1 := chess];
    assert OccursAt(chess.name, "Chess", 0);
    assert 1 in skills && skills[1].owner.id in users && Contains(skills[1].name, "Chess");
    assert (skills[1].owner.id, 1) in FindByOfferedSkillsContaining(users, skills, "Chess");
  }
}
