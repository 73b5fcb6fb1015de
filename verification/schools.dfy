/**
 * The schools page: a coordinator sees their own school, everyone else all
 * schools; the name search; and only the administrator may add a school.
 */
module SchoolsPage {
  import opened Wrappers
  import opened Seqs
  import opened Text
  import opened Auth
  import opened SampleData
  import opened Scope

  /** `schools`: the coordinator's own school, or every school. */
  function VisibleSchools(user: Option<User>, schools: seq<School>): (r: seq<School>)
    ensures IsSubsequence(r, schools)
    ensures !IsRole(user, Coordenador) ==> r == schools
    ensures IsRole(user, Coordenador) ==> forall s {:trigger s in r} :: s in r <==> s in schools && user.value.schoolId == Some(s.id)
  {
    CoordinatorScoped(user, SchoolIdOf, schools)
  }

  function NameMatches(searchTerm: string): School -> bool
  {
    (s: School) => Matches(s.name, searchTerm)
  }

  /** `filteredSchools`: the visible schools whose name contains the search term, ignoring case. */
  function FilteredSchools(user: Option<User>, searchTerm: string, schools: seq<School>): (r: seq<School>)
    ensures IsSubsequence(r, VisibleSchools(user, schools))
    ensures forall s {:trigger s in r} :: s in r <==> s in VisibleSchools(user, schools) && Matches(s.name, searchTerm)
  {
    Filter(NameMatches(searchTerm), VisibleSchools(user, schools))
  }

  /** With distinct school ids a coordinator sees at most one school, and none without a school. */
  lemma CoordinatorSeesOneSchool(user: Option<User>, schools: seq<School>)
    requires IsRole(user, Coordenador)
    requires forall p, q :: 0 <= p < q < |schools| ==> schools[p].id != schools[q].id
    ensures |VisibleSchools(user, schools)| <= 1
    ensures user.value.schoolId.None? ==> VisibleSchools(user, schools) == []
  {
    if user.value.schoolId.Some? {
      DistinctKeysAtMostOne(SchoolIdOf, schools, user.value.schoolId.value);
    }
  }

  /** The sample coordinator sees exactly Escola Municipal Centro. */
  lemma SampleCoordinatorSchool()
    ensures VisibleSchools(Some(SampleUsers[2]), Schools) == [Schools[0]]
  {
    var p := KeyIs(SchoolIdOf, "escola-1");
    assert p(Schools[0]) == (SchoolIdOf(Schools[0]) == "escola-1");
    assert p(Schools[1]) == (SchoolIdOf(Schools[1]) == "escola-1");
    assert Schools[1].id[7] != "escola-1"[7];
    FilterKeep(KeyIs(SchoolIdOf, "escola-1"), Schools);
    FilterDrop(KeyIs(SchoolIdOf, "escola-1"), Schools[1..]);
    FilterNone(KeyIs(SchoolIdOf, "escola-1"), Schools[2..]);
    assert Schools[1..][1..] == Schools[2..];
  }

  /** The "Nova Escola" button: the administrator only. */
  predicate CanCreateSchool(user: Option<User>)
  {
    IsRole(user, Admin)
  }

  /** The page's rule agrees with the `manageSchools` entry of the permission table. */
  lemma CanCreateSchoolMatchesTable(user: Option<User>)
    ensures CanCreateSchool(user) <==> user.Some? && HasPermission(user.value.role, ManageSchools)
  {
  }
}
