/**
 * The attendance page: the records of the selected class on the selected
 * date, the present and absent counts, the attendance rate over the class's
 * students, and each student's status (absent when no record exists).
 */
module AttendancePage {
  import opened Wrappers
  import opened Seqs
  import opened Auth
  import opened SampleData
  import opened Scope
  import opened Stats
  import opened Metrics

  /** The predicate `(a) => a.classId === selectedClass && a.date === selectedDate`. */
  function OnDay(classId: string, date: string): Attendance -> bool
  {
    (a: Attendance) => a.classId == classId && a.date == date
  }

  /** `attendanceRecords`: the class's records of that day. */
  function DayRecords(selectedClass: string, date: string, records: seq<Attendance>): (r: seq<Attendance>)
    ensures forall a {:trigger a in r} :: a in r <==> a in records && a.classId == selectedClass && a.date == date
    ensures IsSubsequence(r, records)
  {
    Filter(OnDay(selectedClass, date), records)
  }

  /** The three summary cards. */
  datatype Summary = Summary(rate: int, present: nat, absent: nat, students: nat)

  /**
   * `presentCount`, `absentCount` and `attendanceRate`: the rate divides the
   * day's present records by the number of the class's students (0 with no
   * students).
   */
  function BuildSummary(selectedClass: string, date: string, students: seq<Student>, records: seq<Attendance>): (r: Summary)
    ensures r.students == |ClassStudents(selectedClass, students)|
    ensures r.present == PresentCount(DayRecords(selectedClass, date, records))
    ensures r.absent == AbsentCount(DayRecords(selectedClass, date, records))
    ensures r.present + r.absent == |DayRecords(selectedClass, date, records)|
    ensures r.students > 0 ==> r.rate == Round(r.present as real / r.students as real * 100.0)
    ensures r.rate >= 0
    ensures r.students == 0 ==> r.rate == 0
    ensures r.present <= r.students ==> r.rate <= 100
    ensures 0 < r.students == r.present ==> r.rate == 100
  {
    var day := DayRecords(selectedClass, date, records);
    var n := |ClassStudents(selectedClass, students)|;
    PresentAbsentPartition(day);
    Summary(if n > 0 then Percent(PresentCount(day), n) else 0, PresentCount(day), AbsentCount(day), n)
  }

  /** No class selected: no students, so a rate of 0. */
  lemma NoClassNoRate(date: string, students: seq<Student>, records: seq<Attendance>)
    ensures BuildSummary("", date, students, records).students == 0
    ensures BuildSummary("", date, students, records).rate == 0
  {
  }

  /**
   * `attendance?.present ?? false`: a student's status on the day is that of
   * their first record of the day, absent without one.
   */
  function IsPresentOn(day: seq<Attendance>, studentId: string): (b: bool)
    ensures b <==> exists i :: (0 <= i < |day| && day[i].studentId == studentId && day[i].present &&
      forall j :: 0 <= j < i ==> day[j].studentId != studentId)
    ensures b ==> exists a :: a in day && a.studentId == studentId && a.present
    ensures (forall a :: a in day ==> a.studentId != studentId) ==> !b
  {
    match FindFirst((a: Attendance) => a.studentId == studentId, day)
    case None =>
      assert forall i :: 0 <= i < |day| ==> day[i] in day;
      false
    case Some(a) =>
      var i :| 0 <= i < |day| && day[i] == a && forall j :: 0 <= j < i ==> day[j].studentId != studentId;
      assert forall m :: (0 <= m < |day| && day[m].studentId == studentId &&
        forall j :: 0 <= j < m ==> day[j].studentId != studentId) ==> m == i;
      a.present
  }

  /** `canManageAttendance`: the teacher, the coordinator and the administrator. */
  predicate CanManageAttendance(user: Option<User>)
  {
    IsRole(user, Professor) || IsRole(user, Coordenador) || IsRole(user, Admin)
  }

  lemma CanManageAttendanceExactly(user: Option<User>)
    ensures CanManageAttendance(user) <==> user.Some? && user.value.role != CoordenadorGeral
  {
  }

  /** Within one student's block, at most one record falls on a given date when the dates are distinct. */
  lemma BlockDayCount(dates: nat -> string, draw: (nat, nat) -> real, k: nat, s: Student, c: string, d: string)
    requires forall i, j :: 0 <= i < j < AttendanceDays ==> dates(i) != dates(j)
    ensures Count(OnDay(c, d), AttendanceBlock(dates, draw, k, s)) <= (if s.classId == c then 1 else 0)
  {
    var block := AttendanceBlock(dates, draw, k, s);
    if s.classId == c {
      FilterCongruent(OnDay(c, d), KeyIs(DateOf, d), block);
      DistinctKeysAtMostOne(DateOf, block, d);
    } else {
      FilterNone(OnDay(c, d), block);
    }
  }

  /**
   * In the generated records, a class has at most one record per student on
   * any date, because the twenty generated dates are distinct.
   */
  lemma {:induction false} AtMostOneRecordPerStudent(students: seq<Student>, dates: nat -> string, draw: (nat, nat) -> real, c: string, d: string)
    requires forall i, j :: 0 <= i < j < AttendanceDays ==> dates(i) != dates(j)
    ensures |DayRecords(c, d, GenerateAttendance(students, dates, draw))| <= |WithKey(ClassOfStudent, c, students)|
    decreases |students|
  {
    if |students| == 0 {
      FilterNone(OnDay(c, d), GenerateAttendance(students, dates, draw));
    } else {
      var n := |students| - 1;
      var front := students[..n];
      GenerateAttendanceSnoc(students, dates, draw);
      FilterConcat(OnDay(c, d), GenerateAttendance(front, dates, draw), AttendanceBlock(dates, draw, n, students[n]));
      AtMostOneRecordPerStudent(front, dates, draw, c, d);
      BlockDayCount(dates, draw, n, students[n], c, d);
      assert students == front + [students[n]];
      CountSnoc(KeyIs(ClassOfStudent, c), front, students[n]);
    }
  }

  /** On the generated records the page's attendance rate never exceeds 100%. */
  lemma SampleRateAtMostHundred(selectedClass: string, date: string, students: seq<Student>, dates: nat -> string, draw: (nat, nat) -> real)
    requires forall i, j :: 0 <= i < j < AttendanceDays ==> dates(i) != dates(j)
    ensures 0 <= BuildSummary(selectedClass, date, students, GenerateAttendance(students, dates, draw)).rate <= 100
  {
    var records := GenerateAttendance(students, dates, draw);
    var day := DayRecords(selectedClass, date, records);
    if selectedClass == "" {
    } else {
      AtMostOneRecordPerStudent(students, dates, draw, selectedClass, date);
      PresentAbsentPartition(day);
    }
  }
}
