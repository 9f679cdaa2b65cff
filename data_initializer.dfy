/**
 * DataInitializer: the start-up runner that creates the admin and system
 * users when missing and seeds an offered and a wanted copy of every
 * predefined skill whose name is not yet among the approved skill names.
 */
module DataInitializer {
  import opened Wrappers
  import opened Entities
  import opened Store
  import UserRepository
  import SkillRepository
  import UserService

  const PredefinedSkills: seq<string> := [
    "Java", "React", "HTML", "CSS", "JavaScript", "Python", "C", "C++", "C#",
    "PHP", "Ruby", "Swift", "Kotlin", "Go", "Rust", "TypeScript", "Angular",
    "Vue.js", "Node.js", "Express.js", "Django", "Flask", "Spring", "Hibernate"]
    + ["SQL", "MongoDB", "PostgreSQL", "MySQL", "Firebase", "AWS", "Docker",
    "Kubernetes", "Git", "DevOps", "Machine Learning", "Artificial Intelligence",
    "Data Science", "Blockchain", "UI/UX Design", "Graphic Design", "Photography",
    "Video Editing", "Content Writing", "Digital Marketing", "SEO", "Social Media Marketing"]

  const SeedPrefix := "System-generated skill: "

  /** A fresh User: public, active and not an admin until told otherwise; no id until saved. */
  function NewUser(): User
  {
    User(0, "", "", "", None, None, "", true, false, true)
  }

  function AdminUser(encode: UserService.Encoder): User
  {
    NewUser().(name := "Admin User", username := "admin", password := encode("admin123"), isAdmin := true,
               availability := "Always")
  }

  function SystemUser(encode: UserService.Encoder): User
  {
    NewUser().(name := "System", username := "system", password := encode("system123"), availability := "Always")
  }

  /** A seeded skill, approved and owned by the system user; no id until saved. */
  function SeedSkill(name: string, isOffered: bool, owner: UserRef): Skill
  {
    Skill(0, name, Some(SeedPrefix + name), isOffered, owner, true)
  }

  /** save() of a new user or skill: the generator supplies the id. */
  function InsertUserRow(t: Tables, u: User): Tables
  {
    t.(users := t.users[t.nextUserId := u.(id := t.nextUserId)], nextUserId := t.nextUserId + 1)
  }

  function InsertSkillRow(t: Tables, s: Skill): Tables
  {
    t.(skills := t.skills[t.nextSkillId := s.(id := t.nextSkillId)], nextSkillId := t.nextSkillId + 1)
  }

  /** Inserting a user whose username is free keeps the tables well formed. */
  lemma InsertUserRowWellFormed(t: Tables, u: User)
    requires WellFormed(t) && !UserRepository.ExistsByUsername(t.users, u.username)
    ensures WellFormed(InsertUserRow(t, u))
  {
    var t' := InsertUserRow(t, u);
    UserTableGrowth(t, t'.users, t'.nextUserId);
  }

  /** The admin user is created only when no user is called "admin". */
  function EnsureAdmin(t: Tables, encode: UserService.Encoder): (r: Tables)
    requires WellFormed(t)
    ensures WellFormed(r)
  {
    if UserRepository.FindByUsername(t.users, "admin").None? then
      InsertUserRowWellFormed(t, AdminUser(encode));
      InsertUserRow(t, AdminUser(encode))
    else t
  }

  /** The system user is created when missing and otherwise reused. */
  function EnsureSystem(t: Tables, encode: UserService.Encoder): (r: (UserRef, Tables))
    requires WellFormed(t)
    ensures WellFormed(r.1) && RefersTo(r.1.users, r.0) && r.0.username == "system"
  {
    match UserRepository.FindByUsername(t.users, "system")
    case Some(u) => (RefOf(u), t)
    case None =>
      InsertUserRowWellFormed(t, SystemUser(encode));
      var t' := InsertUserRow(t, SystemUser(encode));
      (RefOf(t'.users[t.nextUserId]), t')
  }

  /** The loop body for one name: a name already present is skipped, otherwise both copies are saved. */
  function SeedName(t: Tables, name: string, existing: set<string>, owner: UserRef): Tables
  {
    if name in existing then t
    else InsertSkillRow(InsertSkillRow(t, SeedSkill(name, true, owner)), SeedSkill(name, false, owner))
  }

  /** The loop over a prefix of the predefined names. */
  function SeedNames(t: Tables, names: seq<string>, existing: set<string>, owner: UserRef): Tables
    decreases |names|
  {
    if names == [] then t
    else SeedName(SeedNames(t, names[..|names| - 1], existing, owner), names[|names| - 1], existing, owner)
  }

  /** The whole runner: users first, then one look at the names, then the loop. */
  function Seed(t: Tables, encode: UserService.Encoder): Tables
    requires WellFormed(t)
  {
    var t1 := EnsureAdmin(t, encode);
    var (system, t2) := EnsureSystem(t1, encode);
    SeedNames(t2, PredefinedSkills, SkillRepository.ApprovedNames(t2.skills), system)
  }

  /** How many of the names are missing, and so seeded. */
  function MissingCount(names: seq<string>, existing: set<string>): nat
    decreases |names|
  {
    if names == [] then 0
    else MissingCount(names[..|names| - 1], existing) + (if names[|names| - 1] in existing then 0 else 1)
  }

  /** The rows seeding may add: approved, owned by the system user, described by the prefix and the name. */
  predicate IsSeededRow(s: Skill, names: seq<string>, existing: set<string>, owner: UserRef)
  {
    s.isApproved && s.owner == owner && s.name in names && s.name !in existing
    && s.description == Some(SeedPrefix + s.name)
  }

  /** Saving a skill of a known owner keeps the tables well formed and touches only the skill table. */
  lemma InsertSkillRowWellFormed(t: Tables, s: Skill)
    requires WellFormed(t) && RefersTo(t.users, s.owner)
    ensures WellFormed(InsertSkillRow(t, s))
  {
  }

  /** One step of the loop: the tables grow by both copies of a missing name, and by nothing otherwise. */
  lemma SeedNameStep(p: Tables, n: string, existing: set<string>, owner: UserRef)
    requires WellFormed(p) && RefersTo(p.users, owner)
    ensures var r := SeedName(p, n, existing, owner);
      WellFormed(r)
      && r.users == p.users && r.swaps == p.swaps && r.feedback == p.feedback && r.nextUserId == p.nextUserId
      && r.nextSkillId == p.nextSkillId + (if n in existing then 0 else 2)
      && (forall k | k in p.skills :: k in r.skills && r.skills[k] == p.skills[k])
      && (forall k | k in r.skills && k !in p.skills :: p.nextSkillId <= k < r.nextSkillId)
      && (forall k | p.nextSkillId <= k < r.nextSkillId :: k in r.skills && k !in p.skills
                     && r.skills[k].isApproved && r.skills[k].owner == owner && r.skills[k].name == n
                     && r.skills[k].description == Some(SeedPrefix + n))
      && (n !in existing ==> r.skills[p.nextSkillId].isOffered && !r.skills[p.nextSkillId + 1].isOffered)
  {
    if n !in existing {
      var q := InsertSkillRow(p, SeedSkill(n, true, owner));
      InsertSkillRowWellFormed(p, SeedSkill(n, true, owner));
      InsertSkillRowWellFormed(q, SeedSkill(n, false, owner));
    }
  }

  /**
   * Seeding leaves every other table and every existing skill as it was and
   * adds two rows per missing name, under consecutive fresh ids.
   */
  lemma {:induction false} SeedNamesFrame(t: Tables, names: seq<string>, existing: set<string>, owner: UserRef)
    requires WellFormed(t) && RefersTo(t.users, owner)
    ensures var r := SeedNames(t, names, existing, owner);
      WellFormed(r)
      && r.users == t.users && r.swaps == t.swaps && r.feedback == t.feedback && r.nextUserId == t.nextUserId
      && r.nextSkillId == t.nextSkillId + 2 * MissingCount(names, existing)
      && (forall k | k in t.skills :: k in r.skills && r.skills[k] == t.skills[k])
      && (forall k | k in r.skills && k !in t.skills :: t.nextSkillId <= k < r.nextSkillId)
      && (forall k | t.nextSkillId <= k < r.nextSkillId :: k in r.skills && k !in t.skills)
    decreases |names|
  {
    if names != [] {
      var init := names[..|names| - 1];
      SeedNamesFrame(t, init, existing, owner);
      SeedNameStep(SeedNames(t, init, existing, owner), names[|names| - 1], existing, owner);
    }
  }

  /** Every row seeding adds is a seeded row. */
  lemma {:induction false} SeedNamesNewRows(t: Tables, names: seq<string>, existing: set<string>, owner: UserRef)
    requires WellFormed(t) && RefersTo(t.users, owner)
    ensures var r := SeedNames(t, names, existing, owner);
      forall k | k in r.skills && k !in t.skills :: IsSeededRow(r.skills[k], names, existing, owner)
    decreases |names|
  {
    if names != [] {
      var init := names[..|names| - 1];
      var n := names[|names| - 1];
      SeedNamesNewRows(t, init, existing, owner);
      SeedNamesFrame(t, init, existing, owner);
      var p := SeedNames(t, init, existing, owner);
      SeedNameStep(p, n, existing, owner);
      var r := SeedNames(t, names, existing, owner);
      forall k | k in r.skills && k !in t.skills ensures IsSeededRow(r.skills[k], names, existing, owner) {
        if k in p.skills {
          assert IsSeededRow(p.skills[k], init, existing, owner);
          assert p.skills[k].name in names;
        } else {
          assert r.skills[k].name == n && n !in existing;
        }
      }
    }
  }

  /** A row of `r` that `t` lacks is a copy of skill `n` of the given type. */
  predicate HasNewCopy(t: Tables, r: Tables, n: string, isOffered: bool)
  {
    exists k :: k in r.skills && k !in t.skills && r.skills[k].name == n && r.skills[k].isOffered == isOffered
  }

  /** A new copy made before a step is still new after it, since the step changes no existing row. */
  lemma NewCopyKept(t: Tables, p: Tables, r: Tables, n: string, isOffered: bool)
    requires HasNewCopy(t, p, n, isOffered)
    requires forall k | k in p.skills :: k in r.skills && r.skills[k] == p.skills[k]
    ensures HasNewCopy(t, r, n, isOffered)
  {
    var k :| k in p.skills && k !in t.skills && p.skills[k].name == n && p.skills[k].isOffered == isOffered;
    assert r.skills[k] == p.skills[k];
  }

  /** Every missing name gains an offered and a wanted copy. */
  lemma {:induction false} SeedNamesCovers(t: Tables, names: seq<string>, existing: set<string>, owner: UserRef)
    requires WellFormed(t) && RefersTo(t.users, owner)
    ensures var r := SeedNames(t, names, existing, owner);
      forall n | n in names && n !in existing :: HasNewCopy(t, r, n, true) && HasNewCopy(t, r, n, false)
    decreases |names|
  {
    if names != [] {
      var init := names[..|names| - 1];
      var last := names[|names| - 1];
      SeedNamesCovers(t, init, existing, owner);
      SeedNamesFrame(t, init, existing, owner);
      var p := SeedNames(t, init, existing, owner);
      SeedNameStep(p, last, existing, owner);
      var r := SeedNames(t, names, existing, owner);
      forall n | n in names && n !in existing ensures HasNewCopy(t, r, n, true) && HasNewCopy(t, r, n, false) {
        if n == last {
          var a := p.nextSkillId;
          assert a in r.skills && a !in t.skills && r.skills[a].name == n && r.skills[a].isOffered;
          assert a + 1 in r.skills && a + 1 !in t.skills && r.skills[a + 1].name == n && !r.skills[a + 1].isOffered;
        } else {
          assert n in init by {
            var i :| 0 <= i < |names| && names[i] == n;
            assert init[i] == n;
          }
          NewCopyKept(t, p, r, n, true);
          NewCopyKept(t, p, r, n, false);
        }
      }
    }
  }

  /** When every name is already present the loop adds nothing. */
  lemma {:induction false} SeedNamesSkipsPresent(t: Tables, names: seq<string>, existing: set<string>, owner: UserRef)
    requires forall n | n in names :: n in existing
    ensures SeedNames(t, names, existing, owner) == t
    decreases |names|
  {
    if names != [] {
      assert forall x | x in names[..|names| - 1] :: x in names;
      SeedNamesSkipsPresent(t, names[..|names| - 1], existing, owner);
    }
  }

  /** The admin step: "admin" then exists, is an admin when created here, and every other row is kept. */
  lemma {:induction false} EnsureAdminEffect(t: Tables, encode: UserService.Encoder)
    requires WellFormed(t)
    ensures var t1 := EnsureAdmin(t, encode);
      UserRepository.FindByUsername(t1.users, "admin").Some?
      && (UserRepository.FindByUsername(t.users, "admin").None? ==> UserRepository.FindByUsername(t1.users, "admin").value.isAdmin)
      && (forall k | k in t.users :: k in t1.users && t1.users[k] == t.users[k])
      && t1.skills == t.skills && t1.swaps == t.swaps && t1.feedback == t.feedback
  {
    var t1 := EnsureAdmin(t, encode);
    if UserRepository.FindByUsername(t.users, "admin").None? {
      assert t.nextUserId !in t.users;
      UserRepository.FindsTheOwner(t1.users, t.nextUserId);
    }
  }

  /** The system step: the answer is the stored "system" user, and every other row is kept. */
  lemma {:induction false} EnsureSystemEffect(t: Tables, encode: UserService.Encoder)
    requires WellFormed(t)
    ensures var (system, t2) := EnsureSystem(t, encode);
      system.id in t2.users
      && UserRepository.FindByUsername(t2.users, "system") == Some(t2.users[system.id])
      && (forall k | k in t.users :: k in t2.users && t2.users[k] == t.users[k])
      && t2.skills == t.skills && t2.swaps == t.swaps && t2.feedback == t.feedback
  {
    var (system, t2) := EnsureSystem(t, encode);
    if UserRepository.FindByUsername(t.users, "system").None? {
      assert t.nextUserId !in t.users;
    }
    UserRepository.FindsTheOwner(t2.users, system.id);
  }

  /**
   * The user steps: afterwards both "admin" and "system" exist, a newly
   * created admin is an admin, and no user, skill or other row that existed
   * is changed.
   */
  lemma {:induction false} EnsureUsersEffect(t: Tables, encode: UserService.Encoder)
    requires WellFormed(t)
    ensures var t1 := EnsureAdmin(t, encode);
      var (system, t2) := EnsureSystem(t1, encode);
      UserRepository.FindByUsername(t2.users, "admin").Some?
      && UserRepository.FindByUsername(t2.users, "system") == Some(t2.users[system.id])
      && (UserRepository.FindByUsername(t.users, "admin").None? ==> UserRepository.FindByUsername(t2.users, "admin").value.isAdmin)
      && (forall k | k in t.users :: k in t2.users && t2.users[k] == t.users[k])
      && t2.skills == t.skills && t2.swaps == t.swaps && t2.feedback == t.feedback
  {
    EnsureAdminEffect(t, encode);
    var t1 := EnsureAdmin(t, encode);
    EnsureSystemEffect(t1, encode);
    var (system, t2) := EnsureSystem(t1, encode);
    var admin := UserRepository.FindByUsername(t1.users, "admin").value;
    var j :| j in t1.users && t1.users[j] == admin;
    UserRepository.FindsTheOwner(t2.users, j);
  }

  /**
   * After the runner every predefined name is an approved skill name, no
   * skill that existed is changed, and every new skill is an approved seeded
   * row owned by the system user.
   */
  lemma SeedEffect(t: Tables, encode: UserService.Encoder)
    requires WellFormed(t)
    ensures var r := Seed(t, encode);
      WellFormed(r)
      && UserRepository.FindByUsername(r.users, "admin").Some?
      && UserRepository.FindByUsername(r.users, "system").Some?
      && (UserRepository.FindByUsername(t.users, "admin").None? ==> UserRepository.FindByUsername(r.users, "admin").value.isAdmin)
      && (forall k | k in t.users :: k in r.users && r.users[k] == t.users[k])
      && (forall k | k in t.skills :: k in r.skills && r.skills[k] == t.skills[k])
      && (forall n | n in PredefinedSkills :: n in SkillRepository.ApprovedNames(r.skills))
      && (forall k | k in r.skills && k !in t.skills ::
            r.skills[k].isApproved && r.skills[k].owner.username == "system" && r.skills[k].name in PredefinedSkills
            && r.skills[k].description == Some(SeedPrefix + r.skills[k].name))
      && r.swaps == t.swaps && r.feedback == t.feedback
  {
    EnsureUsersEffect(t, encode);
    var t1 := EnsureAdmin(t, encode);
    var (system, t2) := EnsureSystem(t1, encode);
    var existing := SkillRepository.ApprovedNames(t2.skills);
    SeedNamesFrame(t2, PredefinedSkills, existing, system);
    SeedNamesNewRows(t2, PredefinedSkills, existing, system);
    SeedNamesCovers(t2, PredefinedSkills, existing, system);
    var r := SeedNames(t2, PredefinedSkills, existing, system);
    forall n | n in PredefinedSkills ensures n in SkillRepository.ApprovedNames(r.skills) {
      if n in existing {
        var k :| k in t2.skills && t2.skills[k].isApproved && t2.skills[k].name == n;
        assert r.skills[k] == t2.skills[k];
      } else {
        assert HasNewCopy(t2, r, n, true);
        var k :| k in r.skills && k !in t2.skills && r.skills[k].name == n && r.skills[k].isOffered;
        assert IsSeededRow(r.skills[k], PredefinedSkills, existing, system);
      }
    }
  }
  /** A second run adds no user and no skill: the runner is idempotent. */
  lemma SeedIdempotent(t: Tables, encode: UserService.Encoder)
    requires WellFormed(t)
    ensures WellFormed(Seed(t, encode)) && Seed(Seed(t, encode), encode) == Seed(t, encode)
  {
    SeedEffect(t, encode);
    var r := Seed(t, encode);
    assert EnsureAdmin(r, encode) == r;
    var (system, r2) := EnsureSystem(r, encode);
    assert r2 == r;
    SeedNamesSkipsPresent(r, PredefinedSkills, SkillRepository.ApprovedNames(r.skills), system);
  }

  /** The two user steps of the runner, on the store; the answer is the system user. */
  method EnsureUsers(db: Db, encode: UserService.Encoder) returns (systemUser: User)
    requires db.Valid()
    modifies db
    ensures db.Valid()
    ensures (RefOf(systemUser), db.State()) == EnsureSystem(EnsureAdmin(old(db.State()), encode), encode)
  {
    if UserRepository.FindByUsername(db.users, "admin").None? {
      var adminUser := NewUser();
      adminUser := adminUser.(name := "Admin User");
      adminUser := adminUser.(username := "admin");
      adminUser := adminUser.(password := encode("admin123"));
      adminUser := adminUser.(isAdmin := true);
      adminUser := adminUser.(availability := "Always");
      var _ := db.InsertUser(adminUser);
    }
    var systemUserOpt := UserRepository.FindByUsername(db.users, "system");
    if systemUserOpt.None? {
      systemUser := NewUser();
      systemUser := systemUser.(name := "System");
      systemUser := systemUser.(username := "system");
      systemUser := systemUser.(password := encode("system123"));
      systemUser := systemUser.(availability := "Always");
      systemUser := db.InsertUser(systemUser);
    } else {
      systemUser := systemUserOpt.value;
    }
  }

  /** The loop over the predefined names (`names`), against the names present before it. */
  method SeedPredefined(db: Db, owner: UserRef, existing: set<string>, names: seq<string>)
    requires db.Valid() && RefersTo(db.users, owner)
    modifies db
    ensures db.Valid()
    ensures db.State() == SeedNames(old(db.State()), names, existing, owner)
  {
    ghost var t0 := db.State();
    var i := 0;
    while i < |names|
      invariant 0 <= i <= |names|
      invariant db.Valid() && db.users == t0.users
      invariant db.State() == SeedNames(t0, names[..i], existing, owner)
    {
      var skillName := names[i];
      if skillName !in existing {
        var offeredSkill := Skill(0, skillName, Some(SeedPrefix + skillName), true, owner, true);
        var _ := db.InsertSkill(offeredSkill);
        var wantedSkill := Skill(0, skillName, Some(SeedPrefix + skillName), false, owner, true);
        var _ := db.InsertSkill(wantedSkill);
      }
      assert names[..i + 1][..i] == names[..i];
      i := i + 1;
    }
    assert names[..i] == names;
  }

  /** The runner itself. */
  method InitData(db: Db, encode: UserService.Encoder)
    requires db.Valid()
    modifies db
    ensures db.Valid()
    ensures db.State() == Seed(old(db.State()), encode)
  {
    var systemUser := EnsureUsers(db, encode);
    // existingSkillNames.contains(n) is membership in the approved names
    var existing := SkillRepository.ApprovedNames(db.skills);
    SeedPredefined(db, RefOf(systemUser), existing, PredefinedSkills);
  }
}
