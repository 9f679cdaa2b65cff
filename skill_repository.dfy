/**
 * The skill queries. Each row query is the set of keys of the rows it
 * returns; the distinct-names query is a sorted list of names.
 */
module SkillRepository {
  import opened Text
  import opened Entities

  type Rows = map<int, Skill>

  function FindByUser(rows: Rows, userId: int): set<int>
  {
    set k | k in rows && rows[k].owner.id == userId
  }

  function FindByUserAndIsOffered(rows: Rows, userId: int, isOffered: bool): set<int>
  {
    set k | k in rows && rows[k].owner.id == userId && rows[k].isOffered == isOffered
  }

  function FindByNameContainingIgnoreCase(rows: Rows, name: string): set<int>
  {
    set k | k in rows && ContainsIgnoreCase(rows[k].name, name)
  }

  /** `name LIKE %?1% AND isOffered = ?2 AND isApproved = true`: only approved skills are searched. */
  function FindByNameContainingAndIsOffered(rows: Rows, name: string, isOffered: bool): set<int>
  {
    set k | k in rows && Contains(rows[k].name, name) && rows[k].isOffered == isOffered && rows[k].isApproved
  }

  function FindByIsApproved(rows: Rows, isApproved: bool): set<int>
  {
    set k | k in rows && rows[k].isApproved == isApproved
  }

  function ApprovedNames(rows: Rows): set<string>
  {
    set k | k in rows && rows[k].isApproved :: rows[k].name
  }

  ghost predicate IsLeast(m: string, names: set<string>)
  {
    m in names && forall x | x in names :: StrLe(m, x)
  }

  lemma {:induction false} LeastExists(names: set<string>) returns (m: string)
    requires names != {}
    ensures IsLeast(m, names)
    decreases |names|
  {
    if forall x :: x !in names {
      assert false;
    }
    var x :| x in names;
    if names == {x} {
      StrLeReflexive(x);
      m := x;
    } else {
      var rest := names - {x};
      var m' := LeastExists(rest);
      StrLeTotal(x, m');
      if StrLe(x, m') {
        m := x;
        StrLeReflexive(x);
        forall y | y in names ensures StrLe(m, y) {
          if y != x {
            StrLeTransitive(x, m', y);
          }
        }
      } else {
        m := m';
        forall y | y in names ensures StrLe(m, y) {
          if y == x {
          }
        }
      }
    }
  }

  lemma {:induction false} StrLeReflexive(a: string)
    ensures StrLe(a, a)
    decreases |a|
  {
    if a != [] {
      StrLeReflexive(a[1..]);
    }
  }

  lemma SomeLeast(names: set<string>)
    requires names != {}
    ensures exists m :: IsLeast(m, names)
  {
    var m := LeastExists(names);
  }

  ghost function Least(names: set<string>): (m: string)
    requires names != {}
    ensures IsLeast(m, names)
  {
    SomeLeast(names);
    var m :| IsLeast(m, names); m
  }

  /** Strictly ascending in character-code order: sorted and free of duplicates. */
  ghost predicate StrictlyAscending(s: seq<string>)
  {
    forall i, j | 0 <= i < j < |s| :: StrLe(s[i], s[j]) && s[i] != s[j]
  }

  /** A set of names listed in ascending order. */
  ghost function Ascending(names: set<string>): (r: seq<string>)
    ensures StrictlyAscending(r)
    ensures forall x :: x in r <==> x in names
    ensures |r| == |names|
    decreases |names|
  {
    if names == {} then []
    else
      var m := Least(names);
      var rest := Ascending(names - {m});
      var r := [m] + rest;
      forall i, j | 0 <= i < j < |r| ensures StrLe(r[i], r[j]) && r[i] != r[j] {
        assert r[j] == rest[j - 1] && rest[j - 1] in rest;
        if i > 0 {
          assert r[i] == rest[i - 1];
        }
      }
      r
  }

  /** `SELECT DISTINCT s.name ... WHERE s.isApproved = true ORDER BY s.name`. */
  ghost function FindAllDistinctSkillNames(rows: Rows): seq<string>
  {
    Ascending(ApprovedNames(rows))
  }

  /**
   * The names list holds each approved skill's name exactly once, in
   * ascending order, and nothing else.
   */
  lemma DistinctNamesAreApprovedNames(rows: Rows, name: string)
    ensures StrictlyAscending(FindAllDistinctSkillNames(rows))
    ensures name in FindAllDistinctSkillNames(rows) <==> exists k :: k in rows && rows[k].isApproved && rows[k].name == name
    ensures |FindAllDistinctSkillNames(rows)| <= |rows|
  {
    var names := ApprovedNames(rows);
    if name in names {
      var k :| k in rows && rows[k].isApproved && rows[k].name == name;
    }
    NamesBounded(rows);
  }

  lemma {:induction false} NamesBounded(rows: Rows)
    ensures |ApprovedNames(rows)| <= |rows|
    decreases |rows|
  {
    if rows != map[] {
      if forall x :: x !in rows {
        assert false;
      }
      var k :| k in rows;
      var rest := rows - {k};
      assert |rest| == |rows| - 1 by {
        assert rest.Keys == rows.Keys - {k};
      }
      NamesBounded(rest);
      assert ApprovedNames(rows) <= ApprovedNames(rest) + {rows[k].name} by {
        forall x | x in ApprovedNames(rows) ensures x in ApprovedNames(rest) + {rows[k].name} {
          var j :| j in rows && rows[j].isApproved && rows[j].name == x;
          if j != k {
            assert j in rest;
          }
        }
      }
      SubsetCard(ApprovedNames(rows), ApprovedNames(rest) + {rows[k].name});
    } else {
      assert ApprovedNames(rows) == {};
    }
  }

  lemma SubsetCard(a: set<string>, b: set<string>)
    requires a <= b
    ensures |a| <= |b|
  {
    assert b == a + (b - a);
  }

  /** A user's offered and wanted skills split their skills in two. */
  lemma OfferedAndWantedPartitionUser(rows: Rows, userId: int)
    ensures FindByUserAndIsOffered(rows, userId, true) + FindByUserAndIsOffered(rows, userId, false) == FindByUser(rows, userId)
    ensures FindByUserAndIsOffered(rows, userId, true) * FindByUserAndIsOffered(rows, userId, false) == {}
  {
    forall k ensures k in FindByUserAndIsOffered(rows, userId, true) + FindByUserAndIsOffered(rows, userId, false)
                     <==> k in FindByUser(rows, userId) {
    }
  }

  /** Every skill is either approved or pending, never both. */
  lemma ApprovalPartition(rows: Rows)
    ensures FindByIsApproved(rows, true) + FindByIsApproved(rows, false) == rows.Keys
    ensures FindByIsApproved(rows, true) * FindByIsApproved(rows, false) == {}
  {
    forall k ensures k in FindByIsApproved(rows, true) + FindByIsApproved(rows, false) <==> k in rows.Keys {
    }
  }

  /**
   * The offered/wanted name search returns approved skills only, and only
   * skills that the case-insensitive search also returns.
   */
  lemma TypedSearchIsNarrower(rows: Rows, name: string, isOffered: bool)
    ensures FindByNameContainingAndIsOffered(rows, name, isOffered) <= FindByNameContainingIgnoreCase(rows, name)
    ensures FindByNameContainingAndIsOffered(rows, name, isOffered) <= FindByIsApproved(rows, true)
    ensures FindByNameContainingAndIsOffered(rows, name, true) * FindByNameContainingAndIsOffered(rows, name, false) == {}
  {
    forall k | k in FindByNameContainingAndIsOffered(rows, name, isOffered)
      ensures k in FindByNameContainingIgnoreCase(rows, name)
    {
      ContainsIsCaseInsensitive(rows[k].name, name);
    }
  }
}
