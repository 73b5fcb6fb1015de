/**
 * The school coordinator's dashboard: the coordinator's school, its classes,
 * students and teachers, its attendance rate, the per-exam averages of its
 * classes with the latest exam's general average as headline, and the
 * per-class chart. The viewer's school is `user?.schoolId`, absent when there
 * is no user or the account has no school.
 */
module CoordinatorDashboard {
  import opened Wrappers
  import opened Seqs
  import opened SampleData
  import opened Scope
  import opened Metrics
  import opened Reports
  import opened Exams

  /** `SAMPLE_SCHOOLS.find((s) => s.id === user?.schoolId)`. */
  function SchoolOf(schoolId: Option<string>, schools: seq<School>): (r: Option<School>)
    ensures r.None? <==> forall s :: s in schools ==> schoolId != Some(s.id)
    ensures r.Some? ==> r.value in schools && schoolId == Some(r.value.id)
    ensures r.Some? ==> exists i :: (0 <= i < |schools| && schools[i] == r.value &&
      forall j :: 0 <= j < i ==> schoolId != Some(schools[j].id))
  {
    FindFirst((s: School) => schoolId == Some(s.id), schools)
  }

  /** `schoolClasses`: the classes of the viewer's school. */
  function SchoolClasses(schoolId: Option<string>, classes: seq<Class>): (r: seq<Class>)
    ensures forall c {:trigger c in r} :: c in r <==> c in classes && schoolId == Some(c.schoolId)
    ensures IsSubsequence(r, classes)
  {
    WithOptionalKey(SchoolOfClass, schoolId, classes)
  }

  /** The predicate `(result) => schoolClasses.some((c) => c.id === result.classId)`. */
  function InSchool(schoolId: Option<string>, classes: seq<Class>): ExamResult -> bool
  {
    KeyAmong(ClassOfResult, ClassIds(SchoolClasses(schoolId, classes)))
  }

  /** `schoolPerformanceData`: one entry per exam over the results of the school's classes. */
  function SchoolExamTable(schoolId: Option<string>, classes: seq<Class>, exams: seq<Exam>,
                           results: seq<ExamResult>, sc: Scorer): (rows: seq<ExamRow>)
    ensures |rows| == |exams|
    ensures forall i :: 0 <= i < |exams| ==> rows[i].exam == exams[i].name
    ensures forall i :: 0 <= i < |exams| ==>
      rows[i] == AggregateRow(exams[i], ExamResults(exams[i], InSchool(schoolId, classes), results), sc)
  {
    ExamTable(exams, InSchool(schoolId, classes), results, sc)
  }

  /**
   * The results behind an exam's entry are exactly that exam's results from a
   * class of the viewer's school.
   */
  lemma SchoolExamTableCountsOwnResults(schoolId: Option<string>, classes: seq<Class>, exam: Exam,
                                        results: seq<ExamResult>, x: ExamResult)
    ensures x in ExamResults(exam, InSchool(schoolId, classes), results) <==>
      x in results && x.examId == exam.id && exists c :: c in classes && c.id == x.classId && schoolId == Some(c.schoolId)
  {
    var own := SchoolClasses(schoolId, classes);
    assert InSchool(schoolId, classes) == KeyAmong(ClassOfResult, ClassIds(own));
    assert KeyAmong(ClassOfResult, ClassIds(own))(x) == (ClassOfResult(x) in ClassIds(own));
    if x.classId in ClassIds(own) {
      var c :| c in own && c.id == x.classId;
      assert c in classes && schoolId == Some(c.schoolId);
    }
    if exists c :: c in classes && c.id == x.classId && schoolId == Some(c.schoolId) {
      var c :| c in classes && c.id == x.classId && schoolId == Some(c.schoolId);
      assert c in own;
    }
  }

  /** Without a school id no result is in scope, so every exam shows zeros. */
  lemma NoSchoolZeroTable(classes: seq<Class>, exams: seq<Exam>, results: seq<ExamResult>, sc: Scorer)
    ensures forall i :: 0 <= i < |exams| ==> SchoolExamTable(None, classes, exams, results, sc)[i] == ZeroRow(exams[i].name)
  {
    forall i | 0 <= i < |exams| ensures ExamResults(exams[i], InSchool(None, classes), results) == [] {
      var own := ExamResults(exams[i], InSchool(None, classes), results);
      NoMembersEmpty(own);
    }
  }

  /** `attRate`: the attendance rate over the records of the school's classes. */
  function SchoolAttendanceRate(schoolId: Option<string>, classes: seq<Class>, records: seq<Attendance>): (rate: int)
    ensures 0 <= rate <= 100
    ensures rate == AttendanceRate(InClasses(ClassOfRecord, SchoolClasses(schoolId, classes), records))
    ensures schoolId.None? ==> rate == 0
  {
    var own := SchoolClasses(schoolId, classes);
    assert schoolId.None? ==> own == [] by {
      NoMembersEmpty(own);
    }
    InNoClasses(ClassOfRecord, records);
    AttendanceRate(InClasses(ClassOfRecord, own, records))
  }

  /** What the dashboard shows once the school is found. */
  datatype Overview = Overview(
    school: School,
    classes: nat,
    students: nat,
    teachers: nat,
    attendanceRate: int,
    latestAverage: real,
    examRows: seq<ExamRow>,
    classRows: seq<ClassRow>)

  /**
   * The dashboard: `None` ("Escola não encontrada") when no school has the
   * viewer's school id, otherwise the figures of that school.
   */
  function Dashboard(schoolId: Option<string>, schools: seq<School>, classes: seq<Class>, teachers: seq<Teacher>,
                     students: seq<Student>, records: seq<Attendance>, grades: seq<Grade>,
                     exams: seq<Exam>, results: seq<ExamResult>, sc: Scorer): (r: Option<Overview>)
    ensures r.None? <==> forall s :: s in schools ==> schoolId != Some(s.id)
    ensures r.Some? ==> r.value.school in schools && schoolId == Some(r.value.school.id)
    ensures r.Some? ==>
      (r.value.classes == |SchoolClasses(schoolId, classes)| &&
       r.value.classes == |r.value.classRows| &&
       r.value.students == |InClasses(ClassOfStudent, SchoolClasses(schoolId, classes), students)| &&
       r.value.teachers == |WithOptionalKey(SchoolOfTeacher, schoolId, teachers)| &&
       0 <= r.value.attendanceRate <= 100 &&
       |r.value.examRows| == |exams| &&
       r.value.latestAverage == LatestGeneral(r.value.examRows))
    ensures r.Some? ==>
      (r.value.attendanceRate == SchoolAttendanceRate(schoolId, classes, records) &&
       r.value.examRows == SchoolExamTable(schoolId, classes, exams, results, sc) &&
       r.value.classRows == ClassRows(SchoolClasses(schoolId, classes), students, grades, records))
  {
    match SchoolOf(schoolId, schools)
    case None => None
    case Some(school) =>
      var own := SchoolClasses(schoolId, classes);
      var rows := SchoolExamTable(schoolId, classes, exams, results, sc);
      Some(Overview(
        school,
        |own|,
        |InClasses(ClassOfStudent, own, students)|,
        |WithOptionalKey(SchoolOfTeacher, schoolId, teachers)|,
        SchoolAttendanceRate(schoolId, classes, records),
        LatestGeneral(rows),
        rows,
        ClassRows(own, students, grades, records)))
  }

  /** A coordinator without a school never sees the dashboard. */
  lemma NoSchoolNotFound(schools: seq<School>, classes: seq<Class>, teachers: seq<Teacher>,
                         students: seq<Student>, records: seq<Attendance>, grades: seq<Grade>,
                         exams: seq<Exam>, results: seq<ExamResult>, sc: Scorer)
    ensures Dashboard(None, schools, classes, teachers, students, records, grades, exams, results, sc).None?
  {
  }

  /**
   * With distinct class ids, the students in the per-class chart add up to the
   * headline number of students.
   */
  lemma ChartAddsUpToTotal(schoolId: Option<string>, schools: seq<School>, classes: seq<Class>, teachers: seq<Teacher>,
                           students: seq<Student>, records: seq<Attendance>, grades: seq<Grade>,
                           exams: seq<Exam>, results: seq<ExamResult>, sc: Scorer)
    requires forall p, q :: 0 <= p < q < |classes| ==> classes[p].id != classes[q].id
    requires Dashboard(schoolId, schools, classes, teachers, students, records, grades, exams, results, sc).Some?
    ensures RowStudents(Dashboard(schoolId, schools, classes, teachers, students, records, grades, exams, results, sc).value.classRows)
      == Dashboard(schoolId, schools, classes, teachers, students, records, grades, exams, results, sc).value.students
  {
    var own := SchoolClasses(schoolId, classes);
    SubsequenceKeepsDistinct(ClassIdOf, own, classes);
    RowStudentsAreGroupSizes(own, students, grades, records);
    GroupSizesPartition(ClassOfStudent, ClassIds(own), students);
  }

  /** The headline average is the last exam's general entry (0.0 without exams). */
  lemma HeadlineIsLatestExam(schoolId: Option<string>, classes: seq<Class>, exams: seq<Exam>,
                             results: seq<ExamResult>, sc: Scorer)
    ensures |exams| == 0 ==> LatestGeneral(SchoolExamTable(schoolId, classes, exams, results, sc)) == 0.0
    ensures |exams| > 0 ==>
      (LatestGeneral(SchoolExamTable(schoolId, classes, exams, results, sc))
       == SchoolExamTable(schoolId, classes, exams, results, sc)[|exams| - 1].general)
  {
    if |exams| > 0 {
      LatestGeneralIsLastEntry(exams, InSchool(schoolId, classes), results, sc);
    }
  }

  /** On the sample data every bar of the per-class chart shows ten students. */
  lemma SampleBarsShowTen(schoolId: Option<string>, grades: seq<Grade>, records: seq<Attendance>, i: nat)
    requires i < |SchoolClasses(schoolId, Classes)|
    ensures ClassRows(SchoolClasses(schoolId, Classes), GenerateStudents(Classes), grades, records)[i].students == StudentsPerClass
  {
    var own := SchoolClasses(schoolId, Classes);
    StaticIdsDistinct();
    SubsequenceMembers(own, Classes);
    assert own[i] in Classes;
    var j :| 0 <= j < |Classes| && Classes[j] == own[i];
    TenStudentsPerClass(Classes, j);
  }
}
