/**
 * The figures the reports page and the dashboards compute from attendance and
 * grade records: present/absent counts and the attendance rate, grade
 * averages (exact, and as displayed with one decimal), per-student averages
 * and the approval rate, and the per-class and per-subject tables.
 */
module Metrics {
  import opened Seqs
  import opened Stats
  import opened SampleData

  // ---------------------------------------------------------------------------
  // Attendance

  predicate IsPresent(a: Attendance) { a.present }
  predicate IsAbsent(a: Attendance) { !a.present }

  /** `records.filter((a) => a.present).length`. */
  function PresentCount(records: seq<Attendance>): (n: nat)
    ensures n <= |records|
  {
    Count(IsPresent, records)
  }

  /** `records.filter((a) => !a.present).length`. */
  function AbsentCount(records: seq<Attendance>): (n: nat)
    ensures n <= |records|
  {
    Count(IsAbsent, records)
  }

  /** Every record is counted exactly once, as present or as absent. */
  lemma PresentAbsentPartition(records: seq<Attendance>)
    ensures PresentCount(records) + AbsentCount(records) == |records|
  {
    CountComplement(IsPresent, IsAbsent, records);
  }

  /**
   * `records.length > 0 ? Math.round(present / records.length * 100) : 0`:
   * a whole percentage, 0 without records, 100 when everyone was present.
   */
  function AttendanceRate(records: seq<Attendance>): (rate: int)
    ensures 0 <= rate <= 100
    ensures |records| == 0 ==> rate == 0
    ensures |records| > 0 ==> rate == Round(PresentCount(records) as real / |records| as real * 100.0)
    ensures (forall a :: a in records ==> a.present) ==> rate == (if |records| > 0 then 100 else 0)
    ensures (forall a :: a in records ==> !a.present) ==> rate == 0
  {
    assert (forall a :: a in records ==> a.present) ==> PresentCount(records) == |records| by {
      if forall a :: a in records ==> a.present { FilterAll(IsPresent, records); }
    }
    assert (forall a :: a in records ==> !a.present) ==> PresentCount(records) == 0 by {
      if forall a :: a in records ==> !a.present { FilterNone(IsPresent, records); }
    }
    if |records| > 0 then Percent(PresentCount(records), |records|) else 0
  }

  // ---------------------------------------------------------------------------
  // Grades

  /** `grades.map((g) => g.value)`. */
  function Values(grades: seq<Grade>): (r: seq<int>)
    ensures |r| == |grades|
    ensures forall i :: 0 <= i < |grades| ==> r[i] == grades[i].value
  {
    seq(|grades|, i requires 0 <= i < |grades| => grades[i].value)
  }

  /** `grades.length > 0 ? sum / grades.length : 0`: the exact mean, 0 without grades. */
  function GradeAverage(grades: seq<Grade>): (avg: real)
    ensures |grades| == 0 ==> avg == 0.0
  {
    if |grades| > 0 then Mean(Values(grades)) else 0.0
  }

  /**
   * `grades.length > 0 ? mean.toFixed(1) : "0.0"`: the mean as displayed, to
   * the nearest tenth, and "0.0" without grades.
   */
  function DisplayAverage(grades: seq<Grade>): (avg: real)
    ensures |grades| == 0 ==> avg == 0.0
    ensures |grades| > 0 ==> GradeAverage(grades) - 0.05 < avg <= GradeAverage(grades) + 0.05
    ensures IsTenths(avg)
  {
    if |grades| > 0 then OneDecimal(GradeAverage(grades)) else 0.0
  }

  /** The grade values, indexed like the grades, lie above `lo` when every grade does. */
  lemma ValuesAtLeast(grades: seq<Grade>, lo: int)
    requires forall g :: g in grades ==> lo <= g.value
    ensures forall i :: 0 <= i < |Values(grades)| ==> lo <= Values(grades)[i]
  {
    forall i | 0 <= i < |grades| ensures lo <= grades[i].value {
      assert grades[i] in grades;
    }
  }

  lemma ValuesAtMost(grades: seq<Grade>, hi: int)
    requires forall g :: g in grades ==> g.value <= hi
    ensures forall i :: 0 <= i < |Values(grades)| ==> Values(grades)[i] <= hi
  {
    forall i | 0 <= i < |grades| ensures grades[i].value <= hi {
      assert grades[i] in grades;
    }
  }

  /** A non-empty average, exact or displayed, lies between any bounds of the grade values. */
  lemma AverageBounds(grades: seq<Grade>, lo: int, hi: int)
    requires |grades| > 0
    requires forall g :: g in grades ==> lo <= g.value <= hi
    ensures lo as real <= GradeAverage(grades) <= hi as real
    ensures lo as real <= DisplayAverage(grades) <= hi as real
  {
    ValuesAtLeast(grades, lo);
    ValuesAtMost(grades, hi);
    MeanAtLeast(Values(grades), lo);
    MeanAtMost(Values(grades), hi);
    OneDecimalWithin(GradeAverage(grades), lo, hi);
  }

  /** `grades.filter((g) => g.studentId === studentId)`. */
  function GradesOfStudent(grades: seq<Grade>, studentId: string): (r: seq<Grade>)
    ensures forall g {:trigger g in r} :: g in r <==> g in grades && g.studentId == studentId
    ensures IsSubsequence(r, grades)
  {
    WithKey(StudentOfGrade, studentId, grades)
  }

  /** A student's average over the given grades; 0 for a student without grades. */
  function StudentAverage(grades: seq<Grade>, studentId: string): (avg: real)
    ensures (forall g :: g in grades ==> g.studentId != studentId) ==> avg == 0.0
  {
    var own := GradesOfStudent(grades, studentId);
    assert (forall g :: g in grades ==> g.studentId != studentId) ==> |own| == 0 by {
      if |own| > 0 { assert own[0] in own; }
    }
    GradeAverage(own)
  }

  /** A student without grades counts as failing. */
  lemma NoGradesFails(grades: seq<Grade>, studentId: string)
    requires forall g :: g in grades ==> g.studentId != studentId
    ensures !IsPassing(StudentAverage(grades, studentId))
  {
  }

  /** `students.map((s) => average of s's grades)`. */
  function StudentAverages(students: seq<Student>, grades: seq<Grade>): (r: seq<real>)
    ensures |r| == |students|
    ensures forall i :: 0 <= i < |students| ==> r[i] == StudentAverage(grades, students[i].id)
  {
    seq(|students|, i requires 0 <= i < |students| => StudentAverage(grades, students[i].id))
  }

  /** The approval rate of the students over the given grades (cutoff 7.0). */
  function ApprovalRate(students: seq<Student>, grades: seq<Grade>): (rate: int)
    ensures 0 <= rate <= 100
    ensures |students| == 0 ==> rate == 0
    ensures |students| > 0 ==> rate == Round(Count(IsPassing, StudentAverages(students, grades)) as real / |students| as real * 100.0)
  {
    ApprovalRateOf(StudentAverages(students, grades))
  }

  /** When every grade is below 7, nobody is approved. */
  lemma ApprovalRateAllFailing(students: seq<Student>, grades: seq<Grade>)
    requires forall g :: g in grades ==> g.value < 7
    ensures ApprovalRate(students, grades) == 0
  {
    var avgs := StudentAverages(students, grades);
    forall i | 0 <= i < |avgs| ensures avgs[i] < ApprovalCutoff {
      var own := GradesOfStudent(grades, students[i].id);
      if |own| > 0 {
        assert own[0] in own;
        ValuesAtMost(own, 6);
        MeanAtMost(Values(own), 6);
      }
    }
  }

  /** When every student has a grade and every grade is at least 7, everybody is approved. */
  lemma ApprovalRateAllPassing(students: seq<Student>, grades: seq<Grade>)
    requires |students| > 0
    requires forall g :: g in grades ==> 7 <= g.value
    requires forall s :: s in students ==> exists g :: g in grades && g.studentId == s.id
    ensures ApprovalRate(students, grades) == 100
  {
    var avgs := StudentAverages(students, grades);
    forall i | 0 <= i < |avgs| ensures avgs[i] >= ApprovalCutoff {
      assert students[i] in students;
      var own := GradesOfStudent(grades, students[i].id);
      var g :| g in grades && g.studentId == students[i].id;
      assert g in own;
      ValuesAtLeast(own, 7);
      MeanAtLeast(Values(own), 7);
    }
  }

  /**
   * One more student never lowers the approval rate if their average passes
   * and never raises it if it fails.
   */
  lemma ApprovalRateMonotoneInStudents(students: seq<Student>, s: Student, grades: seq<Grade>)
    ensures IsPassing(StudentAverage(grades, s.id)) ==> ApprovalRate(students + [s], grades) >= ApprovalRate(students, grades)
    ensures !IsPassing(StudentAverage(grades, s.id)) ==> ApprovalRate(students + [s], grades) <= ApprovalRate(students, grades)
  {
    assert StudentAverages(students + [s], grades) == StudentAverages(students, grades) + [StudentAverage(grades, s.id)];
    ApprovalRateMonotone(StudentAverages(students, grades), StudentAverage(grades, s.id));
  }

  // ---------------------------------------------------------------------------
  // Per-class and per-subject tables

  /** A row of the per-class tables. */
  datatype ClassRow = ClassRow(classId: string, name: string, students: nat, average: real, attendance: int)

  /** The row of one class: its students, its displayed grade average and its attendance rate. */
  function ClassRowOf(c: Class, students: seq<Student>, grades: seq<Grade>, records: seq<Attendance>): (row: ClassRow)
    ensures row.classId == c.id && row.name == c.name
    ensures row.students == |WithKey(ClassOfStudent, c.id, students)|
    ensures 0 <= row.attendance <= 100
    ensures row.average == DisplayAverage(WithKey(ClassOfGrade, c.id, grades))
    ensures row.attendance == AttendanceRate(WithKey(ClassOfRecord, c.id, records))
    ensures (forall g :: g in grades ==> g.classId != c.id) ==> row.average == 0.0
    ensures (forall a :: a in records ==> a.classId != c.id) ==> row.attendance == 0
  {
    var own := WithKey(ClassOfGrade, c.id, grades);
    var att := WithKey(ClassOfRecord, c.id, records);
    assert (forall g :: g in grades ==> g.classId != c.id) ==> |own| == 0 by {
      if |own| > 0 { assert own[0] in own; }
    }
    assert (forall a :: a in records ==> a.classId != c.id) ==> |att| == 0 by {
      if |att| > 0 { assert att[0] in att; }
    }
    ClassRow(c.id, c.name, |WithKey(ClassOfStudent, c.id, students)|, DisplayAverage(own), AttendanceRate(att))
  }

  /** `classes.map(...)`: one row per class, in class order. */
  function ClassRows(classes: seq<Class>, students: seq<Student>, grades: seq<Grade>, records: seq<Attendance>): (rows: seq<ClassRow>)
    ensures |rows| == |classes|
    ensures forall i :: 0 <= i < |classes| ==> rows[i] == ClassRowOf(classes[i], students, grades, records)
  {
    seq(|classes|, i requires 0 <= i < |classes| => ClassRowOf(classes[i], students, grades, records))
  }

  /** `grades.map((g) => g.subject)`. */
  function SubjectNames(grades: seq<Grade>): (names: seq<string>)
    ensures |names| == |grades|
    ensures forall i :: 0 <= i < |grades| ==> names[i] == grades[i].subject
  {
    seq(|grades|, i requires 0 <= i < |grades| => grades[i].subject)
  }

  /** `Array.from(new Set(grades.map((g) => g.subject)))`. */
  function SubjectsOf(grades: seq<Grade>): (r: seq<string>)
    ensures NoDuplicates(r)
    ensures forall x :: x in r <==> exists g :: g in grades && g.subject == x
  {
    var names := SubjectNames(grades);
    assert forall x :: x in names <==> exists g :: g in grades && g.subject == x by {
      forall x ensures x in names <==> exists g :: g in grades && g.subject == x {
        if exists g :: g in grades && g.subject == x {
          var g :| g in grades && g.subject == x;
          var k :| 0 <= k < |grades| && grades[k] == g;
          assert names[k] == x;
        }
      }
    }
    Dedup(names)
  }

  /**
   * The subjects are listed in order of first appearance: some grade of an
   * earlier subject comes before every grade of a later one.
   */
  lemma SubjectsInOrderOfFirstAppearance(grades: seq<Grade>)
    ensures forall i, j, k :: 0 <= i < j < |SubjectsOf(grades)| && 0 <= k < |grades| && grades[k].subject == SubjectsOf(grades)[j] ==>
      exists m :: 0 <= m < k && grades[m].subject == SubjectsOf(grades)[i]
  {
    var names := SubjectNames(grades);
    var r := SubjectsOf(grades);
    DedupOrder(names);
    forall i, j, k | 0 <= i < j < |r| && 0 <= k < |grades| && grades[k].subject == r[j]
      ensures exists m :: 0 <= m < k && grades[m].subject == r[i]
    {
      assert names[k] == r[j];
      var m :| 0 <= m < k && names[..k][m] == r[i];
      assert grades[m].subject == r[i];
    }
  }

  datatype SubjectRow = SubjectRow(subject: string, average: real)

  /**
   * One row per distinct subject, in order of first appearance; each average
   * is taken over that subject's grades only, which are never empty.
   */
  function SubjectRows(grades: seq<Grade>): (rows: seq<SubjectRow>)
    ensures |rows| == |SubjectsOf(grades)|
    ensures forall i :: 0 <= i < |rows| ==>
      rows[i].subject == SubjectsOf(grades)[i] &&
      |WithKey(SubjectOfGrade, rows[i].subject, grades)| > 0 &&
      rows[i].average == DisplayAverage(WithKey(SubjectOfGrade, rows[i].subject, grades))
  {
    var subjects := SubjectsOf(grades);
    assert forall i :: 0 <= i < |subjects| ==> |WithKey(SubjectOfGrade, subjects[i], grades)| > 0 by {
      forall i | 0 <= i < |subjects| ensures |WithKey(SubjectOfGrade, subjects[i], grades)| > 0 {
        assert subjects[i] in subjects;
        var g :| g in grades && g.subject == subjects[i];
        assert g in WithKey(SubjectOfGrade, subjects[i], grades);
      }
    }
    seq(|subjects|, i requires 0 <= i < |subjects| =>
      SubjectRow(subjects[i], DisplayAverage(WithKey(SubjectOfGrade, subjects[i], grades))))
  }
}
