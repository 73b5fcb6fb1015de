/**
 * The students page: the students a user may see, the search, class and
 * school filters, the first twenty results, and who may add a student.
 */
module StudentsPage {
  import opened Wrappers
  import opened Seqs
  import opened Text
  import opened Auth
  import opened SampleData
  import opened Scope

  /** Results listed at most. */
  const PageSize: nat := 20

  /**
   * `availableStudents`: a coordinator's and a teacher's students are those
   * of their available classes; everyone else sees every student.
   */
  function AvailableStudents(user: Option<User>, classes: seq<Class>, students: seq<Student>): (r: seq<Student>)
    ensures IsSubsequence(r, students)
    ensures !IsRole(user, Coordenador) && !IsRole(user, Professor) ==> r == students
    ensures IsRole(user, Coordenador) || IsRole(user, Professor) ==>
      forall s {:trigger s in r} :: s in r <==> s in students && exists c :: c in AvailableClasses(user, classes) && c.id == s.classId
  {
    if IsRole(user, Coordenador) || IsRole(user, Professor) then
      InClasses(ClassOfStudent, AvailableClasses(user, classes), students)
    else
      assert students[..|students|] == students;
      PrefixIsSubsequence(students, |students|);
      students
  }

  /** The school of a student's class, looked up by id (`studentClass?.schoolId`). */
  function SchoolOfStudent(s: Student, classes: seq<Class>): (r: Option<string>)
    ensures r.Some? ==> exists c :: c in classes && c.id == s.classId && c.schoolId == r.value
    ensures r.None? <==> forall c :: c in classes ==> c.id != s.classId
    ensures r.Some? ==> exists i :: (0 <= i < |classes| && classes[i].id == s.classId && classes[i].schoolId == r.value &&
      forall j :: 0 <= j < i ==> classes[j].id != s.classId)
  {
    match FindFirst((c: Class) => c.id == s.classId, classes)
    case None => None
    case Some(c) => Some(c.schoolId)
  }

  /** The body of the `filteredStudents` callback. */
  predicate Shown(searchTerm: string, selectedClass: string, selectedSchool: string, classes: seq<Class>, s: Student)
  {
    Matches(s.name, searchTerm) &&
    (selectedClass == "all" || s.classId == selectedClass) &&
    (selectedSchool == "all" || SchoolOfStudent(s, classes) == Some(selectedSchool))
  }

  function ShownBy(searchTerm: string, selectedClass: string, selectedSchool: string, classes: seq<Class>): Student -> bool
  {
    s => Shown(searchTerm, selectedClass, selectedSchool, classes, s)
  }

  /** `filteredStudents`. */
  function FilteredStudents(user: Option<User>, searchTerm: string, selectedClass: string, selectedSchool: string,
                            classes: seq<Class>, students: seq<Student>): (r: seq<Student>)
    ensures IsSubsequence(r, AvailableStudents(user, classes, students))
    ensures forall s {:trigger s in r} :: s in r <==>
      (s in AvailableStudents(user, classes, students) && Shown(searchTerm, selectedClass, selectedSchool, classes, s))
  {
    Filter(ShownBy(searchTerm, selectedClass, selectedSchool, classes), AvailableStudents(user, classes, students))
  }

  /** With an empty search and both selections at "all", nothing is filtered out. */
  lemma NoFilterShowsAll(user: Option<User>, classes: seq<Class>, students: seq<Student>)
    ensures FilteredStudents(user, "", "all", "all", classes, students) == AvailableStudents(user, classes, students)
  {
    var avail := AvailableStudents(user, classes, students);
    forall s | s in avail ensures Shown("", "all", "all", classes, s) {
      EmptyTermMatchesAll(s.name);
    }
    FilterAll(ShownBy("", "all", "all", classes), avail);
  }

  /** A listed student of a selected school belongs to a class of that school. */
  lemma SchoolFilterSound(user: Option<User>, searchTerm: string, selectedClass: string, selectedSchool: string,
                          classes: seq<Class>, students: seq<Student>, s: Student)
    requires selectedSchool != "all"
    requires s in FilteredStudents(user, searchTerm, selectedClass, selectedSchool, classes, students)
    ensures exists c :: c in classes && c.id == s.classId && c.schoolId == selectedSchool
  {
  }

  /** The list: `filteredStudents.slice(0, 20)`, and whether the "showing 20 of n" note appears. */
  datatype Listing = Listing(rows: seq<Student>, total: nat, truncated: bool)

  function List(filtered: seq<Student>): (r: Listing)
    ensures |r.rows| == if |filtered| <= PageSize then |filtered| else PageSize
    ensures forall i :: 0 <= i < |r.rows| ==> r.rows[i] == filtered[i]
    ensures r.total == |filtered|
    ensures r.truncated <==> |r.rows| < |filtered|
  {
    Listing(Take(filtered, PageSize), |filtered|, |filtered| > PageSize)
  }

  /** `canManageStudents`: the administrator and both coordinators. */
  predicate CanManageStudents(user: Option<User>)
  {
    IsRole(user, Admin) || IsRole(user, CoordenadorGeral) || IsRole(user, Coordenador)
  }

  /** The page's rule agrees with the `manageStudents` entry of the permission table. */
  lemma CanManageStudentsMatchesTable(user: Option<User>)
    ensures CanManageStudents(user) <==> user.Some? && HasPermission(user.value.role, ManageStudents)
  {
  }
}
