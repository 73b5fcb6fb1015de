/**
 * The performance page ("Desempenho Detalhado"): a class selector scoped by
 * role, a student selector for the chosen class, the per-exam chart of the
 * chosen student or class, and the per-criterion charts of a chosen student.
 */
module PerformancePage {
  import opened Wrappers
  import opened Seqs
  import opened Stats
  import opened Auth
  import opened SampleData
  import opened Scope
  import opened Exams

  /**
   * `availableClasses` of this page: a coordinator's school's classes, the
   * classes whose teacher id is the teacher's own account id, or all classes.
   */
  function PerformanceClasses(user: Option<User>, classes: seq<Class>): (r: seq<Class>)
    ensures IsSubsequence(r, classes)
    ensures !IsRole(user, Coordenador) && !IsRole(user, Professor) ==> r == classes
    ensures IsRole(user, Coordenador) ==>
      forall c {:trigger c in r} :: c in r <==> c in classes && user.value.schoolId == Some(c.schoolId)
    ensures IsRole(user, Professor) ==>
      forall c {:trigger c in r} :: c in r <==> c in classes && c.teacherId == user.value.id
  {
    if IsRole(user, Coordenador) then WithOptionalKey(SchoolOfClass, user.value.schoolId, classes)
    else if IsRole(user, Professor) then WithKey(TeacherOfClass, user.value.id, classes)
    else
      assert IsSubsequence(classes, classes) by { PrefixIsSubsequence(classes, |classes|); assert classes[..|classes|] == classes; }
      classes
  }

  /**
   * The sample teacher account has id "4" while the sample classes name their
   * teachers "prof-1" to "prof-6", so the teacher is offered no class here,
   * unlike on the pages that scope by the account's class list.
   */
  lemma SampleTeacherOfferedNoClass()
    ensures PerformanceClasses(Some(SampleUsers[3]), Classes) == []
    ensures AvailableClasses(Some(SampleUsers[3]), Classes) != []
  {
    var r := PerformanceClasses(Some(SampleUsers[3]), Classes);
    NoMembersEmpty(r);
    assert Classes[0] in AvailableClasses(Some(SampleUsers[3]), Classes);
  }

  /** The chart: a student's entries, else the class's entries, else nothing. */
  function PerformanceData(selectedClass: string, selectedStudent: string, exams: seq<Exam>,
                           results: seq<ExamResult>, sc: Scorer): (rows: seq<ExamRow>)
    ensures selectedStudent != "" ==> rows == StudentTable(selectedStudent, exams, results, sc)
    ensures selectedStudent == "" && selectedClass != "" ==> rows == ExamTable(exams, KeyIs(ClassOfResult, selectedClass), results, sc)
    ensures selectedStudent == "" && selectedClass == "" ==> rows == []
    ensures selectedStudent != "" || selectedClass != "" ==> |rows| == |exams|
  {
    if selectedStudent != "" then StudentTable(selectedStudent, exams, results, sc)
    else if selectedClass != "" then ExamTable(exams, KeyIs(ClassOfResult, selectedClass), results, sc)
    else []
  }

  /** In the class view an exam's entry averages exactly that exam's results from the selected class. */
  lemma ClassViewCountsClassResults(selectedClass: string, exam: Exam, results: seq<ExamResult>, x: ExamResult)
    ensures x in ExamResults(exam, KeyIs(ClassOfResult, selectedClass), results) <==>
      x in results && x.examId == exam.id && x.classId == selectedClass
  {
    var p := KeyIs(ClassOfResult, selectedClass);
    assert p(x) == (ClassOfResult(x) == selectedClass);
  }

  /**
   * The "Todos os alunos" option sets the student to "all", which the page
   * treats as a student id: with no result under that id, every entry is zero.
   */
  lemma AllStudentsOptionShowsZeros(selectedClass: string, exams: seq<Exam>, results: seq<ExamResult>, sc: Scorer)
    requires forall x :: x in results ==> x.studentId != "all"
    ensures forall i :: 0 <= i < |exams| ==> PerformanceData(selectedClass, "all", exams, results, sc)[i] == ZeroRow(exams[i].name)
  {
    StudentWithoutResultsGetsZeros("all", exams, results, sc);
  }

  /** A student's entries do not depend on the selected class. */
  lemma StudentViewIgnoresClass(a: string, b: string, student: string, exams: seq<Exam>, results: seq<ExamResult>, sc: Scorer)
    requires student != ""
    ensures PerformanceData(a, student, exams, results, sc) == PerformanceData(b, student, exams, results, sc)
  {
  }

  datatype Subject = Portugues | Matematica

  /** `PORTUGUESE_CRITERIA` and `MATH_CRITERIA`: the criterion keys each subject charts. */
  const PortugueseCriteria: seq<string> := ["criterio1", "criterio2", "criterio3", "criterio4", "criterio5", "criterio6"]
  const MathCriteria: seq<string> := ["criterio1", "criterio2", "criterio3", "criterio4"]

  function CriteriaOf(r: ExamResult, subject: Subject): map<string, real>
  {
    match subject
    case Portugues => r.portugueseCriteria
    case Matematica => r.mathCriteria
  }

  datatype CriteriaPoint = CriteriaPoint(exam: string, value: real)

  /**
   * The point of one exam: 0 without a result, otherwise the criterion's score
   * rounded to one decimal. A result lacking the criterion makes the page
   * fail (`undefined.toFixed`), which is `None` here.
   */
  function PointOf(exam: Exam, result: Option<ExamResult>, subject: Subject, key: string): (p: Option<CriteriaPoint>)
    ensures p.None? <==> result.Some? && key !in CriteriaOf(result.value, subject)
    ensures p.Some? ==> p.value.exam == exam.name
    ensures result.None? ==> p == Some(CriteriaPoint(exam.name, 0.0))
    ensures p.Some? && result.Some? ==>
      CriteriaOf(result.value, subject)[key] - 0.05 < p.value.value <= CriteriaOf(result.value, subject)[key] + 0.05
    ensures p.Some? ==> IsTenths(p.value.value)
  {
    match result
    case None => Some(CriteriaPoint(exam.name, 0.0))
    case Some(r) =>
      var scores := CriteriaOf(r, subject);
      if key in scores then Some(CriteriaPoint(exam.name, OneDecimal(scores[key]))) else None
  }

  /** The student has a score for the criterion in every exam they have a result for. */
  predicate CriterionRecorded(student: string, subject: Subject, key: string, exams: seq<Exam>, results: seq<ExamResult>)
  {
    forall i :: 0 <= i < |exams| && StudentResult(student, exams[i], results).Some? ==>
      key in CriteriaOf(StudentResult(student, exams[i], results).value, subject)
  }

  /** The criterion is recorded for a list of exams iff it is for all but the last and for the last one. */
  lemma CriterionRecordedSnoc(student: string, subject: Subject, key: string, exams: seq<Exam>, results: seq<ExamResult>)
    requires |exams| > 0
    ensures CriterionRecorded(student, subject, key, exams, results) <==>
      (CriterionRecorded(student, subject, key, exams[..|exams| - 1], results) &&
       PointOf(exams[|exams| - 1], StudentResult(student, exams[|exams| - 1], results), subject, key).Some?)
  {
    var n := |exams| - 1;
    if CriterionRecorded(student, subject, key, exams, results) {
      assert forall i :: 0 <= i < n ==> exams[..n][i] == exams[i];
    }
    if CriterionRecorded(student, subject, key, exams[..n], results) &&
       PointOf(exams[n], StudentResult(student, exams[n], results), subject, key).Some? {
      forall i | 0 <= i < |exams| && StudentResult(student, exams[i], results).Some?
        ensures key in CriteriaOf(StudentResult(student, exams[i], results).value, subject)
      {
        if i < n { assert exams[..n][i] == exams[i]; }
      }
    }
  }

  /** One point per exam, in exam order; `None` when some point would fail. */
  function CriteriaPoints(student: string, subject: Subject, key: string, exams: seq<Exam>,
                          results: seq<ExamResult>): (r: Option<seq<CriteriaPoint>>)
    ensures r.Some? <==> CriterionRecorded(student, subject, key, exams, results)
    ensures r.Some? ==> |r.value| == |exams|
    ensures r.Some? ==> forall i :: 0 <= i < |exams| ==>
      Some(r.value[i]) == PointOf(exams[i], StudentResult(student, exams[i], results), subject, key)
  {
    if |exams| == 0 then Some([])
    else
      var n := |exams| - 1;
      var front := CriteriaPoints(student, subject, key, exams[..n], results);
      var last := PointOf(exams[n], StudentResult(student, exams[n], results), subject, key);
      CriterionRecordedSnoc(student, subject, key, exams, results);
      if front.Some? && last.Some? then Some(front.value + [last.value]) else None
  }

  /**
   * `getCriteriaData`: no points until a student is selected, otherwise one
   * point per exam.
   */
  function CriteriaData(selectedStudent: string, subject: Subject, key: string, exams: seq<Exam>,
                        results: seq<ExamResult>): (r: Option<seq<CriteriaPoint>>)
    ensures selectedStudent == "" ==> r == Some([])
    ensures selectedStudent != "" ==> r == CriteriaPoints(selectedStudent, subject, key, exams, results)
  {
    if selectedStudent == "" then Some([]) else CriteriaPoints(selectedStudent, subject, key, exams, results)
  }

  /**
   * A student without any result gets a zero point for every exam, whatever
   * the criterion.
   */
  lemma NoResultsZeroPoints(student: string, subject: Subject, key: string, exams: seq<Exam>, results: seq<ExamResult>)
    requires forall x :: x in results ==> x.studentId != student
    ensures CriteriaPoints(student, subject, key, exams, results).Some?
    ensures forall i :: 0 <= i < |exams| ==>
      CriteriaPoints(student, subject, key, exams, results).value[i] == CriteriaPoint(exams[i].name, 0.0)
  {
  }

  /**
   * The selections of the page. A student can only be chosen once a class is
   * (the student selector is rendered only then), and choosing a class clears
   * the student.
   */
  class PerformanceSelection {
    var selectedClass: string
    var selectedStudent: string

    predicate Valid()
      reads this
    {
      selectedStudent != "" ==> selectedClass != ""
    }

    constructor()
      ensures selectedClass == "" && selectedStudent == ""
      ensures Valid()
    {
      selectedClass := "";
      selectedStudent := "";
    }

    /** The class selector's `onValueChange`. */
    method ChangeClass(value: string)
      modifies this
      ensures selectedClass == value && selectedStudent == ""
      ensures Valid()
    {
      selectedClass := value;
      selectedStudent := "";
    }

    /** The student selector's `onValueChange`. */
    method ChangeStudent(value: string)
      requires Valid() && selectedClass != ""
      modifies this
      ensures selectedStudent == value && selectedClass == old(selectedClass)
      ensures Valid()
    {
      selectedStudent := value;
    }

    /** The chart for the current selections. */
    function Chart(exams: seq<Exam>, results: seq<ExamResult>, sc: Scorer): (rows: seq<ExamRow>)
      reads this
      requires Valid()
      ensures rows == PerformanceData(selectedClass, selectedStudent, exams, results, sc)
      ensures rows == [] ==> selectedClass == "" || |exams| == 0
    {
      PerformanceData(selectedClass, selectedStudent, exams, results, sc)
    }
  }

  /** After a class is chosen, the chart is the class view of that class. */
  method ChooseClassShowsClassView(sel: PerformanceSelection, value: string, exams: seq<Exam>,
                                   results: seq<ExamResult>, sc: Scorer) returns (rows: seq<ExamRow>)
    requires value != ""
    modifies sel
    ensures rows == ExamTable(exams, KeyIs(ClassOfResult, value), results, sc)
  {
    sel.ChangeClass(value);
    rows := sel.Chart(exams, results, sc);
  }
}
