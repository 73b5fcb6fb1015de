/**
 * The grades page: the students and grades of the selected class, the
 * subject filter, the class average, the numbers of students at or above and
 * below 7.0, and the per-student rows with their approval badge.
 */
module GradesPage {
  import opened Wrappers
  import opened Seqs
  import opened Auth
  import opened SampleData
  import opened Scope
  import opened Stats
  import opened Metrics

  /** `classGrades`: the grades whose class is the selection (not guarded against no selection). */
  function ClassGrades(selectedClass: string, grades: seq<Grade>): (r: seq<Grade>)
    ensures forall g {:trigger g in r} :: g in r <==> g in grades && g.classId == selectedClass
    ensures IsSubsequence(r, grades)
  {
    WithKey(ClassOfGrade, selectedClass, grades)
  }

  /** `filteredGrades`: the class's grades of the selected subject, or all of them for "all". */
  function FilteredGrades(selectedSubject: string, classGrades: seq<Grade>): (r: seq<Grade>)
    ensures selectedSubject == "all" ==> r == classGrades
    ensures forall g {:trigger g in r} :: g in r <==> g in classGrades && (selectedSubject == "all" || g.subject == selectedSubject)
  {
    if selectedSubject == "all" then classGrades else WithKey(SubjectOfGrade, selectedSubject, classGrades)
  }

  predicate AtLeastSeven(avg: real) { avg >= 7.0 }
  predicate BelowSeven(avg: real) { avg < 7.0 }

  /** The summary cards of the page. */
  datatype Summary = Summary(classAverage: real, above: nat, below: nat)

  /**
   * `classAverage`, `aboveAverage` and `belowAverage`: the displayed mean of
   * the filtered grades, and how many of the class's students have an exact
   * mean over the filtered grades at or above 7 and below 7.
   */
  function BuildSummary(selectedClass: string, selectedSubject: string, students: seq<Student>, grades: seq<Grade>): (r: Summary)
    ensures r.above == Count(AtLeastSeven, StudentAverages(ClassStudents(selectedClass, students),
                                                          FilteredGrades(selectedSubject, ClassGrades(selectedClass, grades))))
    ensures r.below == Count(BelowSeven, StudentAverages(ClassStudents(selectedClass, students),
                                                         FilteredGrades(selectedSubject, ClassGrades(selectedClass, grades))))
    ensures r.above + r.below == |ClassStudents(selectedClass, students)|
    ensures selectedClass == "" ==> r.above == 0 && r.below == 0
    ensures r.classAverage == DisplayAverage(FilteredGrades(selectedSubject, ClassGrades(selectedClass, grades)))
  {
    var filtered := FilteredGrades(selectedSubject, ClassGrades(selectedClass, grades));
    var avgs := StudentAverages(ClassStudents(selectedClass, students), filtered);
    CountComplement(AtLeastSeven, BelowSeven, avgs);
    Summary(DisplayAverage(filtered), Count(AtLeastSeven, avgs), Count(BelowSeven, avgs))
  }

  /** Students with no grade in the filtered set count below 7. */
  lemma UngradedCountBelow(selectedClass: string, selectedSubject: string, students: seq<Student>, grades: seq<Grade>)
    requires forall g :: g in grades ==> g.classId != selectedClass
    ensures BuildSummary(selectedClass, selectedSubject, students, grades).above == 0
    ensures BuildSummary(selectedClass, selectedSubject, students, grades).classAverage == 0.0
  {
    var filtered := FilteredGrades(selectedSubject, ClassGrades(selectedClass, grades));
    var avgs := StudentAverages(ClassStudents(selectedClass, students), filtered);
    NoMembersEmpty(filtered);
    FilterNone(AtLeastSeven, avgs);
  }

  /** One row of the table. */
  datatype Row = Row(studentId: string, name: string, average: real, approved: bool)

  /**
   * The row of a student: the displayed mean of all the student's grades in
   * the class (the subject filter does not apply), "0.0" without grades, and
   * the "Aprovado" badge when that displayed mean is at least 7.
   */
  function StudentRow(s: Student, classGrades: seq<Grade>): (row: Row)
    ensures row.studentId == s.id && row.name == s.name
    ensures row.average == DisplayAverage(GradesOfStudent(classGrades, s.id))
    ensures row.approved <==> row.average >= ApprovalCutoff
    ensures (forall g :: g in classGrades ==> g.studentId != s.id) ==> row.average == 0.0 && !row.approved
  {
    var own := GradesOfStudent(classGrades, s.id);
    assert (forall g :: g in classGrades ==> g.studentId != s.id) ==> own == [] by {
      if forall g :: g in classGrades ==> g.studentId != s.id {
        FilterNone(KeyIs(StudentOfGrade, s.id), classGrades);
      }
    }
    var avg := DisplayAverage(own);
    Row(s.id, s.name, avg, avg >= ApprovalCutoff)
  }

  /** The rows: one per student of the class, in order. */
  function Rows(selectedClass: string, students: seq<Student>, grades: seq<Grade>): (rows: seq<Row>)
    ensures |rows| == |ClassStudents(selectedClass, students)|
    ensures forall i :: 0 <= i < |rows| ==>
      rows[i] == StudentRow(ClassStudents(selectedClass, students)[i], ClassGrades(selectedClass, grades))
  {
    var cs := ClassStudents(selectedClass, students);
    seq(|cs|, i requires 0 <= i < |cs| => StudentRow(cs[i], ClassGrades(selectedClass, grades)))
  }

  /**
   * The row badge and the summary cards can disagree only near the cutoff: an
   * exact mean of 7 or more is always approved, and an approved row has an
   * exact mean of at least 6.95.
   */
  lemma BadgeAgreesWithExactMean(s: Student, classGrades: seq<Grade>)
    requires exists g :: g in classGrades && g.studentId == s.id
    ensures StudentAverage(classGrades, s.id) >= ApprovalCutoff ==> StudentRow(s, classGrades).approved
    ensures StudentRow(s, classGrades).approved ==> StudentAverage(classGrades, s.id) >= 6.95
  {
    var own := GradesOfStudent(classGrades, s.id);
    var g :| g in classGrades && g.studentId == s.id;
    assert g in own;
    if StudentAverage(classGrades, s.id) >= ApprovalCutoff {
      OneDecimalKeepsPass(GradeAverage(own));
    }
    if StudentRow(s, classGrades).approved {
      OneDecimalPassMeansNearPass(GradeAverage(own));
    }
  }

  /** `grade = studentGrades.find((g) => g.subject === subject)`: the cell of one subject. */
  function Cell(studentGrades: seq<Grade>, subject: string): (r: Option<Grade>)
    ensures r.None? <==> forall g :: g in studentGrades ==> g.subject != subject
    ensures r.Some? ==> r.value in studentGrades && r.value.subject == subject
    ensures r.Some? ==> exists i :: (0 <= i < |studentGrades| && studentGrades[i] == r.value &&
      forall j :: 0 <= j < i ==> studentGrades[j].subject != subject)
  {
    FindFirst((g: Grade) => g.subject == subject, studentGrades)
  }

  /** `canManageGrades`: the teacher, the coordinator and the administrator. */
  predicate CanManageGrades(user: Option<User>)
  {
    IsRole(user, Professor) || IsRole(user, Coordenador) || IsRole(user, Admin)
  }

  /** Everyone signed in except the general coordinator may manage grades. */
  lemma CanManageGradesExactly(user: Option<User>)
    ensures CanManageGrades(user) <==> user.Some? && user.value.role != CoordenadorGeral
  {
  }
}
