/**
 * The teachers page: the teachers a user may see (a coordinator only those
 * of their school), the search and school filters, and each card's class count.
 */
module TeachersPage {
  import opened Wrappers
  import opened Seqs
  import opened Text
  import opened Auth
  import opened SampleData
  import opened Scope

  /** `availableTeachers`. */
  function AvailableTeachers(user: Option<User>, teachers: seq<Teacher>): (r: seq<Teacher>)
    ensures IsSubsequence(r, teachers)
    ensures !IsRole(user, Coordenador) ==> r == teachers
    ensures IsRole(user, Coordenador) ==> forall t {:trigger t in r} :: t in r <==> t in teachers && user.value.schoolId == Some(t.schoolId)
  {
    CoordinatorScoped(user, SchoolOfTeacher, teachers)
  }

  predicate TeacherShown(searchTerm: string, selectedSchool: string, t: Teacher)
  {
    Matches(t.name, searchTerm) && (selectedSchool == "all" || t.schoolId == selectedSchool)
  }

  function TeacherShownBy(searchTerm: string, selectedSchool: string): Teacher -> bool
  {
    (t: Teacher) => TeacherShown(searchTerm, selectedSchool, t)
  }

  /** `filteredTeachers`. */
  function FilteredTeachers(user: Option<User>, searchTerm: string, selectedSchool: string, teachers: seq<Teacher>): (r: seq<Teacher>)
    ensures IsSubsequence(r, AvailableTeachers(user, teachers))
    ensures forall t {:trigger t in r} :: t in r <==>
      (t in AvailableTeachers(user, teachers) && Matches(t.name, searchTerm) && (selectedSchool == "all" || t.schoolId == selectedSchool))
  {
    Filter(TeacherShownBy(searchTerm, selectedSchool), AvailableTeachers(user, teachers))
  }

  lemma NoFilterShowsAll(user: Option<User>, teachers: seq<Teacher>)
    ensures FilteredTeachers(user, "", "all", teachers) == AvailableTeachers(user, teachers)
  {
    forall t | t in AvailableTeachers(user, teachers) ensures TeacherShown("", "all", t) {
      EmptyTermMatchesAll(t.name);
    }
    FilterAll(TeacherShownBy("", "all"), AvailableTeachers(user, teachers));
  }

  /** A card's class count: the classes whose `teacherId` is the teacher's id. */
  function ClassCount(t: Teacher, classes: seq<Class>): (n: nat)
    ensures n <= |classes|
    ensures n == 0 <==> forall c :: c in classes ==> c.teacherId != t.id
    ensures n == |KeyPositions(TeacherOfClass, t.id, classes)|
  {
    var own := WithKey(TeacherOfClass, t.id, classes);
    WithKeyCountsPositions(TeacherOfClass, t.id, classes);
    NoMembersEmpty(own);
    assert forall c :: c in classes && c.teacherId == t.id ==> c in own;
    |own|
  }

  /** Every sample teacher teaches exactly one sample class. */
  lemma SampleTeachersTeachOne(t: Teacher)
    requires t in Teachers
    ensures ClassCount(t, Classes) == 1
  {
    ClassTeachersDistinct();
    DistinctKeysAtMostOne(TeacherOfClass, Classes, t.id);
    var k :| 0 <= k < |Teachers| && Teachers[k] == t;
    TeacherOfClassAt(k);
    assert Classes[k] in WithKey(TeacherOfClass, t.id, Classes);
  }

  /** `canManageTeachers`: the administrator and both coordinators. */
  predicate CanManageTeachers(user: Option<User>)
  {
    IsRole(user, Admin) || IsRole(user, CoordenadorGeral) || IsRole(user, Coordenador)
  }

  lemma CanManageTeachersExactly(user: Option<User>)
    ensures CanManageTeachers(user) <==> user.Some? && user.value.role != Professor
  {
  }
}
