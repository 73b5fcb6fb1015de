/**
 * The classes page: the classes a user may see, the search and school
 * filters, each card's student count, and who may manage classes.
 */
module ClassesPage {
  import opened Wrappers
  import opened Seqs
  import opened Text
  import opened Auth
  import opened SampleData
  import opened Scope

  /** The body of the `filteredClasses` callback. */
  predicate ClassShown(searchTerm: string, selectedSchool: string, c: Class)
  {
    Matches(c.name, searchTerm) && (selectedSchool == "all" || c.schoolId == selectedSchool)
  }

  function ClassShownBy(searchTerm: string, selectedSchool: string): Class -> bool
  {
    (c: Class) => ClassShown(searchTerm, selectedSchool, c)
  }

  /** `filteredClasses`: the available classes passing the search and the school selection. */
  function FilteredClasses(user: Option<User>, searchTerm: string, selectedSchool: string, classes: seq<Class>): (r: seq<Class>)
    ensures IsSubsequence(r, AvailableClasses(user, classes))
    ensures forall c {:trigger c in r} :: c in r <==>
      (c in AvailableClasses(user, classes) && Matches(c.name, searchTerm) && (selectedSchool == "all" || c.schoolId == selectedSchool))
  {
    Filter(ClassShownBy(searchTerm, selectedSchool), AvailableClasses(user, classes))
  }

  /** No search and "all" schools lists every available class. */
  lemma NoFilterShowsAll(user: Option<User>, classes: seq<Class>)
    ensures FilteredClasses(user, "", "all", classes) == AvailableClasses(user, classes)
  {
    forall c | c in AvailableClasses(user, classes) ensures ClassShown("", "all", c) {
      EmptyTermMatchesAll(c.name);
    }
    FilterAll(ClassShownBy("", "all"), AvailableClasses(user, classes));
  }

  /** A card's student count: `SAMPLE_STUDENTS.filter((s) => s.classId === classItem.id).length`. */
  function StudentCount(c: Class, students: seq<Student>): (n: nat)
    ensures n <= |students|
    ensures n == 0 <==> forall s :: s in students ==> s.classId != c.id
    ensures n == |KeyPositions(ClassOfStudent, c.id, students)|
  {
    var own := WithKey(ClassOfStudent, c.id, students);
    WithKeyCountsPositions(ClassOfStudent, c.id, students);
    NoMembersEmpty(own);
    assert forall s :: s in students && s.classId == c.id ==> s in own;
    |own|
  }

  /** Every sample class card shows ten students. */
  lemma SampleCardsShowTen(c: Class)
    requires c in Classes
    ensures StudentCount(c, GenerateStudents(Classes)) == StudentsPerClass
  {
    StaticIdsDistinct();
    var j :| 0 <= j < |Classes| && Classes[j] == c;
    TenStudentsPerClass(Classes, j);
  }

  /** The school selector is offered to the administrator and the general coordinator only. */
  predicate SchoolSelectorShown(user: Option<User>)
  {
    IsRole(user, Admin) || IsRole(user, CoordenadorGeral)
  }

  lemma SchoolSelectorMatchesTable(user: Option<User>)
    ensures SchoolSelectorShown(user) <==> user.Some? && HasPermission(user.value.role, ViewAllSchools)
  {
  }

  /** `canManageClasses`: the administrator and both coordinators. */
  predicate CanManageClasses(user: Option<User>)
  {
    IsRole(user, Admin) || IsRole(user, CoordenadorGeral) || IsRole(user, Coordenador)
  }

  /** The page's rule agrees with the `manageClasses` entry of the permission table. */
  lemma CanManageClassesMatchesTable(user: Option<User>)
    ensures CanManageClasses(user) <==> user.Some? && HasPermission(user.value.role, ManageClasses)
  {
  }
}
