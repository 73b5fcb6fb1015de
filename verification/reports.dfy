/**
 * The reports page: the classes in scope after the role and school
 * selection, and the figures computed over them (totals, attendance rate,
 * grade average, approval rate, and the per-class and per-subject tables).
 * Unlike the other pages, the reports page narrows only a coordinator; a
 * teacher sees the whole network here.
 */
module Reports {
  import opened Wrappers
  import opened Seqs
  import opened Auth
  import opened SampleData
  import opened Scope
  import opened Stats
  import opened Metrics

  /**
   * The school filter in effect. A coordinator's selection is overwritten on
   * every render with their school, or "all" when they have none.
   */
  function EffectiveSchool(user: Option<User>, selected: string): (r: string)
    ensures !IsRole(user, Coordenador) ==> r == selected
    ensures IsRole(user, Coordenador) && Truthy(user.value.schoolId) ==> r == user.value.schoolId.value
    ensures IsRole(user, Coordenador) && !Truthy(user.value.schoolId) ==> r == "all"
  {
    if IsRole(user, Coordenador) then
      if Truthy(user.value.schoolId) then user.value.schoolId.value else "all"
    else selected
  }

  /** `filteredClasses`: the available classes, narrowed to the school in effect unless it is "all". */
  function FilteredClasses(user: Option<User>, selected: string, classes: seq<Class>): (r: seq<Class>)
    ensures IsSubsequence(r, classes)
    ensures forall c {:trigger c in r} :: c in r <==>
      (c in CoordinatorScoped(user, SchoolOfClass, classes) && (EffectiveSchool(user, selected) == "all" || c.schoolId == EffectiveSchool(user, selected)))
  {
    var available := CoordinatorScoped(user, SchoolOfClass, classes);
    var school := EffectiveSchool(user, selected);
    if school == "all" then available
    else
      var r := WithKey(SchoolOfClass, school, available);
      SubsequenceTransitive(r, available, classes);
      r
  }

  /** Everything the page displays. */
  datatype Report = Report(
    totalStudents: nat,
    totalClasses: nat,
    attendanceRate: int,
    averageGrade: real,
    approvalRate: int,
    classPerformance: seq<ClassRow>,
    subjectPerformance: seq<SubjectRow>)

  /**
   * The page's figures over the classes in scope: students, attendance
   * records and grades are those whose class is in scope.
   */
  function BuildReport(user: Option<User>, selected: string, classes: seq<Class>, students: seq<Student>,
                       records: seq<Attendance>, grades: seq<Grade>): (rep: Report)
    ensures rep.totalClasses == |FilteredClasses(user, selected, classes)|
    ensures rep.totalStudents == |InClasses(ClassOfStudent, FilteredClasses(user, selected, classes), students)|
    ensures 0 <= rep.attendanceRate <= 100 && 0 <= rep.approvalRate <= 100
    ensures |rep.classPerformance| == rep.totalClasses
    ensures rep.attendanceRate == AttendanceRate(InClasses(ClassOfRecord, FilteredClasses(user, selected, classes), records))
    ensures rep.averageGrade == DisplayAverage(InClasses(ClassOfGrade, FilteredClasses(user, selected, classes), grades))
    ensures rep.approvalRate == ApprovalRate(InClasses(ClassOfStudent, FilteredClasses(user, selected, classes), students),
                                             InClasses(ClassOfGrade, FilteredClasses(user, selected, classes), grades))
    ensures rep.classPerformance == ClassRows(FilteredClasses(user, selected, classes), students, grades, records)
    ensures rep.subjectPerformance == SubjectRows(InClasses(ClassOfGrade, FilteredClasses(user, selected, classes), grades))
    ensures rep.totalClasses == 0 ==>
      (rep.totalStudents == 0 && rep.attendanceRate == 0 && rep.averageGrade == 0.0 &&
       rep.approvalRate == 0 && rep.subjectPerformance == [])
  {
    var scope := FilteredClasses(user, selected, classes);
    var inScope := InClasses(ClassOfStudent, scope, students);
    var relevantRecords := InClasses(ClassOfRecord, scope, records);
    var relevantGrades := InClasses(ClassOfGrade, scope, grades);
    assert |scope| == 0 ==> inScope == [] && relevantRecords == [] && relevantGrades == [] by {
      if |scope| == 0 {
        InNoClasses(ClassOfStudent, students);
        InNoClasses(ClassOfRecord, records);
        InNoClasses(ClassOfGrade, grades);
      }
    }
    Report(
      |inScope|,
      |scope|,
      AttendanceRate(relevantRecords),
      DisplayAverage(relevantGrades),
      ApprovalRate(inScope, relevantGrades),
      ClassRows(scope, students, grades, records),
      SubjectRows(relevantGrades))
  }

  /** Every class in a coordinator's report belongs to their school; without a school the report is empty. */
  lemma CoordinatorReportConfined(user: Option<User>, selected: string, classes: seq<Class>)
    requires IsRole(user, Coordenador)
    ensures forall c :: c in FilteredClasses(user, selected, classes) ==> Some(c.schoolId) == user.value.schoolId
    ensures user.value.schoolId.None? ==> FilteredClasses(user, selected, classes) == []
  {
  }

  /** A coordinator's own selection never matters. */
  lemma CoordinatorSelectionIgnored(user: Option<User>, a: string, b: string, classes: seq<Class>)
    requires IsRole(user, Coordenador)
    ensures FilteredClasses(user, a, classes) == FilteredClasses(user, b, classes)
  {
  }

  /** Anyone but a coordinator who selects "all" gets every class. */
  lemma AllSchoolsMeansAllClasses(user: Option<User>, classes: seq<Class>)
    requires !IsRole(user, Coordenador)
    ensures FilteredClasses(user, "all", classes) == classes
  {
  }

  /** Students counted in the per-class table, added up. */
  function RowStudents(rows: seq<ClassRow>): nat
  {
    if |rows| == 0 then 0 else RowStudents(rows[..|rows| - 1]) + rows[|rows| - 1].students
  }

  lemma {:induction false} RowStudentsAreGroupSizes(classes: seq<Class>, students: seq<Student>, grades: seq<Grade>, records: seq<Attendance>)
    ensures RowStudents(ClassRows(classes, students, grades, records)) == GroupSizesSum(ClassOfStudent, ClassIds(classes), students)
    decreases |classes|
  {
    if |classes| > 0 {
      var n := |classes| - 1;
      RowStudentsAreGroupSizes(classes[..n], students, grades, records);
      assert ClassRows(classes, students, grades, records)[..n] == ClassRows(classes[..n], students, grades, records);
      assert ClassIds(classes)[..n] == ClassIds(classes[..n]);
    }
  }

  /**
   * With distinct class ids, the per-class student counts add up to the
   * headline number of students.
   */
  lemma ClassRowsAddUpToTotal(user: Option<User>, selected: string, classes: seq<Class>, students: seq<Student>,
                              records: seq<Attendance>, grades: seq<Grade>)
    requires forall p, q :: 0 <= p < q < |classes| ==> classes[p].id != classes[q].id
    ensures RowStudents(BuildReport(user, selected, classes, students, records, grades).classPerformance)
      == BuildReport(user, selected, classes, students, records, grades).totalStudents
  {
    var scope := FilteredClasses(user, selected, classes);
    SubsequenceKeepsDistinct(ClassIdOf, scope, classes);
    RowStudentsAreGroupSizes(scope, students, grades, records);
    GroupSizesPartition(ClassOfStudent, ClassIds(scope), students);
  }

  /** On the sample data, every row of the per-class table shows ten students. */
  lemma SampleRowsShowTen(user: Option<User>, selected: string, records: seq<Attendance>, grades: seq<Grade>, i: nat)
    requires i < |FilteredClasses(user, selected, Classes)|
    ensures BuildReport(user, selected, Classes, GenerateStudents(Classes), records, grades).classPerformance[i].students == StudentsPerClass
  {
    var scope := FilteredClasses(user, selected, Classes);
    StaticIdsDistinct();
    SubsequenceMembers(scope, Classes);
    assert scope[i] in Classes;
    var j :| 0 <= j < |Classes| && Classes[j] == scope[i];
    TenStudentsPerClass(Classes, j);
  }
}
