/**
 * The entities of the school network and the sample data set every page reads:
 * the static school, class, teacher and transfer tables, and the generated
 * students (10 per class), attendance (20 days per student), grades (four
 * subjects per student) and enrollments (one per student).
 *
 * Entities keep their id, their foreign keys and the attributes some page
 * computes with. `Math.random()` and today's date are parameters: `draw(k, i)`
 * is the random number drawn for record `i` of student `k`, and `dates(i)` the
 * ISO date `i` days before today.
 */
module SampleData {
  import opened Seqs
  import opened Text

  datatype StudentStatus = Active | Transferred | Inactive
  datatype EnrollmentStatus = Ongoing | Completed | Cancelled
  datatype TransferStatus = Pending | Approved | Rejected

  datatype School = School(id: string, name: string)
  datatype Class = Class(id: string, name: string, schoolId: string, teacherId: string)
  datatype Teacher = Teacher(id: string, name: string, schoolId: string)
  datatype Student = Student(id: string, name: string, classId: string, enrollmentDate: string, status: StudentStatus)
  datatype Attendance = Attendance(id: string, studentId: string, classId: string, date: string, present: bool)
  datatype Grade = Grade(id: string, studentId: string, classId: string, subject: string, value: int, maxValue: int, period: string)
  datatype Enrollment = Enrollment(id: string, studentId: string, classId: string, enrollmentDate: string, status: EnrollmentStatus)
  datatype Transfer = Transfer(id: string, studentId: string, fromClassId: string, toClassId: string, status: TransferStatus)

  // Keys the pages filter and group by.
  function SchoolIdOf(s: School): string { s.id }
  function ClassIdOf(c: Class): string { c.id }
  function SchoolOfClass(c: Class): string { c.schoolId }
  function TeacherOfClass(c: Class): string { c.teacherId }
  function SchoolOfTeacher(t: Teacher): string { t.schoolId }
  function ClassOfStudent(s: Student): string { s.classId }
  function ClassOfRecord(a: Attendance): string { a.classId }
  function ClassOfGrade(g: Grade): string { g.classId }
  function StudentOfGrade(g: Grade): string { g.studentId }
  function SubjectOfGrade(g: Grade): string { g.subject }
  function ClassOfEnrollment(e: Enrollment): string { e.classId }

  /** `classes.map((c) => c.id)`: `classes.some((c) => c.id === id)` is `id in ClassIds(classes)`. */
  function ClassIds(classes: seq<Class>): (ids: seq<string>)
    ensures |ids| == |classes|
    ensures forall i :: 0 <= i < |classes| ==> ids[i] == classes[i].id
    ensures forall id :: id in ids <==> exists c :: c in classes && c.id == id
  {
    if |classes| == 0 then []
    else
      var n := |classes| - 1;
      var ids := ClassIds(classes[..n]) + [classes[n].id];
      assert forall id :: id in ids <==> exists c :: c in classes && c.id == id by {
        forall id ensures id in ids <==> exists c :: c in classes && c.id == id {
          if id in ids {
            var k :| 0 <= k < |ids| && ids[k] == id;
            assert classes[k] in classes;
          }
          if exists c :: c in classes && c.id == id {
            var c :| c in classes && c.id == id;
            var k :| 0 <= k < |classes| && classes[k] == c;
            assert ids[k] == id;
          }
        }
      }
      ids
  }

  const Schools: seq<School> := [
    School("escola-1", "Escola Municipal Centro"),
    School("escola-2", "Escola Municipal Jardim")
  ]

  const Classes: seq<Class> := [
    Class("turma-1", "5º Ano A", "escola-1", "prof-1"),
    Class("turma-2", "5º Ano B", "escola-1", "prof-2"),
    Class("turma-3", "6º Ano A", "escola-1", "prof-3"),
    Class("turma-4", "4º Ano A", "escola-2", "prof-4"),
    Class("turma-5", "5º Ano A", "escola-2", "prof-5"),
    Class("turma-6", "6º Ano A", "escola-2", "prof-6")
  ]

  const Teachers: seq<Teacher> := [
    Teacher("prof-1", "Ana Silva", "escola-1"),
    Teacher("prof-2", "Carlos Santos", "escola-1"),
    Teacher("prof-3", "Beatriz Costa", "escola-1"),
    Teacher("prof-4", "Daniel Oliveira", "escola-2"),
    Teacher("prof-5", "Eduarda Lima", "escola-2"),
    Teacher("prof-6", "Fernando Alves", "escola-2")
  ]

  const Transfers: seq<Transfer> := [
    Transfer("transfer-1", "student-1", "turma-1", "turma-2", Approved),
    Transfer("transfer-2", "student-15", "turma-2", "turma-3", Pending)
  ]

  /** The subjects every student is graded in, in grading order. */
  const Subjects: seq<string> := ["Matemática", "Português", "Ciências", "História"]

  const StudentsPerClass: nat := 10
  const AttendanceDays: nat := 20
  const EnrollmentDate: string := "2024-02-01"
  const GradingPeriod: string := "1º Bimestre"
  const MaxGrade: int := 10

  // ---------------------------------------------------------------------------
  // Students

  /** Student `i` of the class at index `j`: number `10 * j + i + 1`. */
  function MakeStudent(j: nat, c: Class, i: nat): Student
  {
    var n := NatToString(StudentsPerClass * j + i + 1);
    Student("student-" + n, "Aluno " + n, c.id, EnrollmentDate, Active)
  }

  /** `SAMPLE_STUDENTS`: ten students per class, class by class. */
  function GenerateStudents(classes: seq<Class>): (r: seq<Student>)
    ensures |r| == StudentsPerClass * |classes|
  {
    FlatTabulate(classes, StudentsPerClass, MakeStudent)
  }

  /** The student at class index `j`, position `i` has number `10j + i + 1` and that class's id. */
  lemma StudentAt(classes: seq<Class>, j: nat, i: nat)
    requires j < |classes| && i < StudentsPerClass
    ensures StudentsPerClass * j + i < |GenerateStudents(classes)|
    ensures GenerateStudents(classes)[StudentsPerClass * j + i].id == "student-" + NatToString(StudentsPerClass * j + i + 1)
    ensures GenerateStudents(classes)[StudentsPerClass * j + i].classId == classes[j].id
  {
    FlatTabulateAt(classes, StudentsPerClass, MakeStudent, j, i);
  }

  /** The student at position `k` of the list is number `k + 1`. */
  lemma StudentIdAt(classes: seq<Class>, k: nat)
    requires k < |GenerateStudents(classes)|
    ensures GenerateStudents(classes)[k].id == "student-" + NatToString(k + 1)
    ensures GenerateStudents(classes)[k].classId == classes[k / StudentsPerClass].id
  {
    StudentAt(classes, k / StudentsPerClass, k % StudentsPerClass);
  }

  /** Generated student ids are pairwise distinct. */
  lemma StudentIdsDistinct(classes: seq<Class>)
    ensures forall p, q :: 0 <= p < q < |GenerateStudents(classes)| ==>
      GenerateStudents(classes)[p].id != GenerateStudents(classes)[q].id
  {
    var r := GenerateStudents(classes);
    forall p, q | 0 <= p < q < |r| ensures r[p].id != r[q].id {
      StudentIdAt(classes, p);
      StudentIdAt(classes, q);
      if r[p].id == r[q].id {
        PrefixedNumeralInjective("student-", p + 1, q + 1);
      }
    }
  }

  /** Every generated student is active and enrolled on 2024-02-01. */
  lemma StudentsActive(classes: seq<Class>)
    ensures forall s :: s in GenerateStudents(classes) ==> s.status == Active && s.enrollmentDate == EnrollmentDate
  {
    var r := GenerateStudents(classes);
    forall s | s in r ensures s.status == Active && s.enrollmentDate == EnrollmentDate {
      var k :| 0 <= k < |r| && r[k] == s;
      FlatTabulateFrom(classes, StudentsPerClass, MakeStudent, k);
    }
  }

  /** Every generated student belongs to one of the classes it was generated from. */
  lemma StudentsInKnownClasses(classes: seq<Class>)
    ensures forall s :: s in GenerateStudents(classes) ==> exists c :: c in classes && c.id == s.classId
  {
    var r := GenerateStudents(classes);
    forall s | s in r ensures exists c :: c in classes && c.id == s.classId {
      var k :| 0 <= k < |r| && r[k] == s;
      StudentIdAt(classes, k);
      assert classes[k / StudentsPerClass] in classes;
    }
  }

  /** The ten students generated for the class at index `j`. */
  function StudentBlock(j: nat, c: Class): (r: seq<Student>)
    ensures |r| == StudentsPerClass
    ensures forall x :: x in r ==> x.classId == c.id
  {
    seq(StudentsPerClass, i requires 0 <= i < StudentsPerClass => MakeStudent(j, c, i))
  }

  lemma GenerateStudentsSnoc(classes: seq<Class>)
    requires |classes| > 0
    ensures GenerateStudents(classes) ==
      GenerateStudents(classes[..|classes| - 1]) + StudentBlock(|classes| - 1, classes[|classes| - 1])
  {
  }

  /** A block holds ten students of its class and none of any other. */
  lemma StudentBlockCount(j: nat, c: Class, k: string)
    ensures |WithKey(ClassOfStudent, k, StudentBlock(j, c))| == if c.id == k then StudentsPerClass else 0
  {
    if c.id == k {
      FilterAll(KeyIs(ClassOfStudent, k), StudentBlock(j, c));
    } else {
      FilterNone(KeyIs(ClassOfStudent, k), StudentBlock(j, c));
    }
  }

  /** Each listed class contributes ten students: a class id listed `m` times has `10 * m` students. */
  lemma {:induction false} StudentsPerClassCount(classes: seq<Class>, k: string)
    ensures |WithKey(ClassOfStudent, k, GenerateStudents(classes))| == StudentsPerClass * Count(KeyIs(ClassIdOf, k), classes)
    decreases |classes|
  {
    if |classes| == 0 {
      FilterNone(KeyIs(ClassOfStudent, k), GenerateStudents(classes));
    } else {
      var n := |classes| - 1;
      var front := classes[..n];
      GenerateStudentsSnoc(classes);
      FilterConcat(KeyIs(ClassOfStudent, k), GenerateStudents(front), StudentBlock(n, classes[n]));
      StudentsPerClassCount(front, k);
      StudentBlockCount(n, classes[n], k);
      assert classes == front + [classes[n]];
      CountSnoc(KeyIs(ClassIdOf, k), front, classes[n]);
    }
  }

  /** With distinct class ids, every class has exactly ten students. */
  lemma TenStudentsPerClass(classes: seq<Class>, j: nat)
    requires forall p, q :: 0 <= p < q < |classes| ==> classes[p].id != classes[q].id
    requires j < |classes|
    ensures |WithKey(ClassOfStudent, classes[j].id, GenerateStudents(classes))| == StudentsPerClass
  {
    StudentsPerClassCount(classes, classes[j].id);
    DistinctKeysAtMostOne(ClassIdOf, classes, classes[j].id);
    assert classes[j] in WithKey(ClassIdOf, classes[j].id, classes);
  }

  // ---------------------------------------------------------------------------
  // Attendance

  /** `Math.random() > 0.1`. */
  predicate Present(draw: real)
  {
    draw > 0.1
  }

  /** The record of student `k` for the day `i` days before today. */
  function AttendanceMaker(dates: nat -> string, draw: (nat, nat) -> real): (nat, Student, nat) -> Attendance
  {
    (k: nat, s: Student, i: nat) =>
      Attendance("attendance-" + s.id + "-" + NatToString(i), s.id, s.classId, dates(i), Present(draw(k, i)))
  }

  /** `SAMPLE_ATTENDANCE`: twenty daily records per student, student by student. */
  function GenerateAttendance(students: seq<Student>, dates: nat -> string, draw: (nat, nat) -> real): (r: seq<Attendance>)
    ensures |r| == AttendanceDays * |students|
  {
    FlatTabulate(students, AttendanceDays, AttendanceMaker(dates, draw))
  }

  /** Record `i` of student `k` is that student's, in their class, for day `i`, present iff the draw exceeds 0.1. */
  lemma AttendanceAt(students: seq<Student>, dates: nat -> string, draw: (nat, nat) -> real, k: nat, i: nat)
    requires k < |students| && i < AttendanceDays
    ensures AttendanceDays * k + i < |GenerateAttendance(students, dates, draw)|
    ensures var a := GenerateAttendance(students, dates, draw)[AttendanceDays * k + i];
      a.studentId == students[k].id && a.classId == students[k].classId && a.date == dates(i) &&
      (a.present <==> draw(k, i) > 0.1)
  {
    FlatTabulateAt(students, AttendanceDays, AttendanceMaker(dates, draw), k, i);
  }

  function DateOf(a: Attendance): string { a.date }

  /** The twenty records generated for student `k`. */
  function AttendanceBlock(dates: nat -> string, draw: (nat, nat) -> real, k: nat, s: Student): (r: seq<Attendance>)
    ensures |r| == AttendanceDays
    ensures forall x :: x in r ==> x.classId == s.classId
    ensures forall i :: 0 <= i < AttendanceDays ==> r[i].date == dates(i)
  {
    var r := seq(AttendanceDays, i requires 0 <= i < AttendanceDays => AttendanceMaker(dates, draw)(k, s, i));
    assert forall i :: 0 <= i < AttendanceDays ==> r[i].classId == s.classId && r[i].date == dates(i) by {
      forall i | 0 <= i < AttendanceDays ensures r[i].classId == s.classId && r[i].date == dates(i) {
        assert r[i] == AttendanceMaker(dates, draw)(k, s, i);
        assert r[i] == Attendance("attendance-" + s.id + "-" + NatToString(i), s.id, s.classId, dates(i), Present(draw(k, i)));
      }
    }
    r
  }

  lemma GenerateAttendanceSnoc(students: seq<Student>, dates: nat -> string, draw: (nat, nat) -> real)
    requires |students| > 0
    ensures GenerateAttendance(students, dates, draw) ==
      GenerateAttendance(students[..|students| - 1], dates, draw) +
      AttendanceBlock(dates, draw, |students| - 1, students[|students| - 1])
  {
  }

  /** Every attendance record carries the class of the student it belongs to. */
  lemma AttendanceCarriesClass(students: seq<Student>, dates: nat -> string, draw: (nat, nat) -> real)
    ensures forall a :: a in GenerateAttendance(students, dates, draw) ==>
      exists s :: s in students && a.studentId == s.id && a.classId == s.classId
  {
    var r := GenerateAttendance(students, dates, draw);
    forall a | a in r ensures exists s :: s in students && a.studentId == s.id && a.classId == s.classId {
      var k :| 0 <= k < |r| && r[k] == a;
      FlatTabulateFrom(students, AttendanceDays, AttendanceMaker(dates, draw), k);
      var j, i :| 0 <= j < |students| && 0 <= i < AttendanceDays && a == AttendanceMaker(dates, draw)(j, students[j], i);
      assert students[j] in students;
    }
  }

  // ---------------------------------------------------------------------------
  // Grades

  /** `Math.floor(Math.random() * 4) + 6`. */
  function GradeValue(draw: real): (v: int)
    ensures 0.0 <= draw < 1.0 ==> 6 <= v <= 9
  {
    (draw * 4.0).Floor + 6
  }

  /** The name of subject `i` (the generator only asks for `i < 4`). */
  function SubjectName(i: nat): string
  {
    if i < |Subjects| then Subjects[i] else ""
  }

  /** Grade `i` of student `k`: subject `i` of the list, the student's class, value from the draw. */
  function GradeMaker(draw: (nat, nat) -> real): (nat, Student, nat) -> Grade
  {
    (k: nat, s: Student, i: nat) =>
      Grade("grade-" + s.id + "-" + NatToString(i), s.id, s.classId, SubjectName(i),
            GradeValue(draw(k, i)), MaxGrade, GradingPeriod)
  }

  /** `SAMPLE_GRADES`: one grade per subject per student, student by student. */
  function GenerateGrades(students: seq<Student>, draw: (nat, nat) -> real): (r: seq<Grade>)
    ensures |r| == |Subjects| * |students|
  {
    FlatTabulate(students, |Subjects|, GradeMaker(draw))
  }

  /** Grade `i` of student `k` is that student's grade in subject `i`, in the student's class. */
  lemma GradeAt(students: seq<Student>, draw: (nat, nat) -> real, k: nat, i: nat)
    requires k < |students| && i < |Subjects|
    ensures |Subjects| * k + i < |GenerateGrades(students, draw)|
    ensures var g := GenerateGrades(students, draw)[|Subjects| * k + i];
      g.studentId == students[k].id && g.classId == students[k].classId && g.subject == Subjects[i] &&
      g.value == GradeValue(draw(k, i)) && g.maxValue == MaxGrade && g.period == GradingPeriod
  {
    FlatTabulateAt(students, |Subjects|, GradeMaker(draw), k, i);
    assert SubjectName(i) == Subjects[i];
  }

  /**
   * With draws in [0, 1) every grade is an integer between 6 and 9 out of 10:
   * the generator never produces a 10.
   */
  lemma GradeValuesInRange(students: seq<Student>, draw: (nat, nat) -> real)
    requires forall k, i :: 0.0 <= draw(k, i) < 1.0
    ensures forall g :: g in GenerateGrades(students, draw) ==>
      6 <= g.value <= 9 && g.value < g.maxValue == MaxGrade && g.subject in Subjects
  {
    var r := GenerateGrades(students, draw);
    forall g | g in r ensures 6 <= g.value <= 9 && g.value < g.maxValue == MaxGrade && g.subject in Subjects {
      var k :| 0 <= k < |r| && r[k] == g;
      FlatTabulateFrom(students, |Subjects|, GradeMaker(draw), k);
      var j, i :| 0 <= j < |students| && 0 <= i < |Subjects| && g == GradeMaker(draw)(j, students[j], i);
      assert g.subject == SubjectName(i) == Subjects[i];
      assert g.value == GradeValue(draw(j, i)) && 0.0 <= draw(j, i) < 1.0;
    }
  }

  /** Every grade carries the class of the student it belongs to. */
  lemma GradesCarryClass(students: seq<Student>, draw: (nat, nat) -> real)
    ensures forall g :: g in GenerateGrades(students, draw) ==>
      exists s :: s in students && g.studentId == s.id && g.classId == s.classId
  {
    var r := GenerateGrades(students, draw);
    forall g | g in r ensures exists s :: s in students && g.studentId == s.id && g.classId == s.classId {
      var k :| 0 <= k < |r| && r[k] == g;
      FlatTabulateFrom(students, |Subjects|, GradeMaker(draw), k);
      var j, i :| 0 <= j < |students| && 0 <= i < |Subjects| && g == GradeMaker(draw)(j, students[j], i);
      assert students[j] in students;
    }
  }

  // ---------------------------------------------------------------------------
  // Enrollments

  function MakeEnrollment(s: Student): Enrollment
  {
    Enrollment("enrollment-" + s.id, s.id, s.classId, s.enrollmentDate, Ongoing)
  }

  /** `SAMPLE_ENROLLMENTS`: one active enrollment per student, in student order. */
  function GenerateEnrollments(students: seq<Student>): (r: seq<Enrollment>)
    ensures |r| == |students|
    ensures forall k :: 0 <= k < |r| ==>
      r[k].studentId == students[k].id && r[k].classId == students[k].classId &&
      r[k].enrollmentDate == students[k].enrollmentDate && r[k].status == Ongoing
  {
    seq(|students|, k requires 0 <= k < |students| => MakeEnrollment(students[k]))
  }

  /** Enrollments and students correspond one to one when student ids are distinct. */
  lemma EnrollmentsOneToOne(students: seq<Student>)
    requires forall p, q :: 0 <= p < q < |students| ==> students[p].id != students[q].id
    ensures forall p, q :: 0 <= p < q < |GenerateEnrollments(students)| ==>
      GenerateEnrollments(students)[p].studentId != GenerateEnrollments(students)[q].studentId
  {
  }

  // ---------------------------------------------------------------------------
  // The static tables

  /** Class, school and teacher ids are pairwise distinct. */
  lemma StaticIdsDistinct()
    ensures forall p, q :: 0 <= p < q < |Classes| ==> Classes[p].id != Classes[q].id
    ensures forall p, q :: 0 <= p < q < |Schools| ==> Schools[p].id != Schools[q].id
    ensures forall p, q :: 0 <= p < q < |Teachers| ==> Teachers[p].id != Teachers[q].id
  {
  }

  /** Every class names an existing school and an existing teacher of that school. */
  lemma ClassReferencesResolve()
    ensures forall c :: c in Classes ==> exists s :: s in Schools && s.id == c.schoolId
    ensures forall c :: c in Classes ==> exists t :: t in Teachers && t.id == c.teacherId && t.schoolId == c.schoolId
  {
    forall c | c in Classes ensures exists s :: s in Schools && s.id == c.schoolId {
      if c.schoolId == "escola-1" { assert Schools[0] in Schools; } else { assert Schools[1] in Schools; }
    }
    forall c | c in Classes ensures exists t :: t in Teachers && t.id == c.teacherId && t.schoolId == c.schoolId {
      var k :| 0 <= k < |Classes| && Classes[k] == c;
      assert Teachers[k] in Teachers;
    }
  }

  /** Every teacher works at an existing school. */
  lemma TeacherReferencesResolve()
    ensures forall t :: t in Teachers ==> exists s :: s in Schools && s.id == t.schoolId
  {
    forall t | t in Teachers ensures exists s :: s in Schools && s.id == t.schoolId {
      if t.schoolId == "escola-1" { assert Schools[0] in Schools; } else { assert Schools[1] in Schools; }
    }
  }

  /** No two sample classes share a teacher. */
  lemma ClassTeachersDistinct()
    ensures forall p, q :: 0 <= p < q < |Classes| ==> TeacherOfClass(Classes[p]) != TeacherOfClass(Classes[q])
  {
  }

  /** The sample class at index `k` is taught by the sample teacher at index `k`. */
  lemma TeacherOfClassAt(k: nat)
    requires k < |Teachers|
    ensures k < |Classes| && Classes[k].teacherId == Teachers[k].id
  {
  }

  /** The sample transfers move a student between two classes of the same school. */
  lemma TransfersStayInSchool()
    ensures forall t :: t in Transfers ==>
      exists a, b :: a in Classes && b in Classes && a.id == t.fromClassId && b.id == t.toClassId && a.schoolId == b.schoolId
  {
    forall t | t in Transfers ensures
      exists a, b :: a in Classes && b in Classes && a.id == t.fromClassId && b.id == t.toClassId && a.schoolId == b.schoolId
    {
      if t == Transfers[0] {
        assert Classes[0] in Classes && Classes[1] in Classes;
      } else {
        assert Classes[1] in Classes && Classes[2] in Classes;
      }
    }
  }
}
