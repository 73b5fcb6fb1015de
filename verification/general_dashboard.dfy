/**
 * The general coordinator's dashboard: network totals, the rounded number of
 * students per class, and one comparison card per school with its class and
 * student counts.
 */
module GeneralDashboard {
  import opened Wrappers
  import opened Seqs
  import opened Stats
  import opened SampleData
  import opened Scope

  /**
   * "Média de Alunos/Turma": `Math.round(students / classes)`. Without classes
   * the division has no number to show (`NaN` or `Infinity`), so it is absent.
   */
  function StudentsPerClassFigure(students: nat, classes: nat): (r: Option<int>)
    ensures r.None? <==> classes == 0
    ensures r.Some? ==> r.value as real - 0.5 <= students as real / classes as real < r.value as real + 0.5
  {
    if classes == 0 then None else Some(Round(students as real / classes as real))
  }

  /** When every class has the same number of students, the figure is that number. */
  lemma EvenClassesShowTheirSize(k: nat, classes: nat)
    requires classes > 0
    ensures StudentsPerClassFigure(k * classes, classes) == Some(k)
  {
    assert (k * classes) as real / classes as real == k as real;
    RoundInt(k);
  }

  /** On the sample data the figure is 10. */
  lemma SampleFigureIsTen()
    ensures StudentsPerClassFigure(|GenerateStudents(Classes)|, |Classes|) == Some(StudentsPerClass)
  {
    EvenClassesShowTheirSize(StudentsPerClass, |Classes|);
  }

  /** A "Comparativo por Escola" card. */
  datatype SchoolCard = SchoolCard(schoolId: string, name: string, classes: nat, students: nat)

  /** The card of one school: its classes, and the students of those classes. */
  function SchoolCardOf(school: School, classes: seq<Class>, students: seq<Student>): (card: SchoolCard)
    ensures card.schoolId == school.id && card.name == school.name
    ensures card.classes == |WithKey(SchoolOfClass, school.id, classes)|
    ensures card.students == |InClasses(ClassOfStudent, WithKey(SchoolOfClass, school.id, classes), students)|
  {
    var own := WithKey(SchoolOfClass, school.id, classes);
    SchoolCard(school.id, school.name, |own|, |InClasses(ClassOfStudent, own, students)|)
  }

  /** One card per school, in school order. */
  function SchoolCards(schools: seq<School>, classes: seq<Class>, students: seq<Student>): (cards: seq<SchoolCard>)
    ensures |cards| == |schools|
    ensures forall i :: 0 <= i < |schools| ==> cards[i] == SchoolCardOf(schools[i], classes, students)
  {
    seq(|schools|, i requires 0 <= i < |schools| => SchoolCardOf(schools[i], classes, students))
  }

  /** `schools.map((s) => s.id)`. */
  function SchoolIds(schools: seq<School>): (ids: seq<string>)
    ensures |ids| == |schools|
    ensures forall i :: 0 <= i < |schools| ==> ids[i] == schools[i].id
  {
    seq(|schools|, i requires 0 <= i < |schools| => schools[i].id)
  }

  /** The class counts of the cards, added up. */
  function CardClasses(cards: seq<SchoolCard>): nat
  {
    if |cards| == 0 then 0 else CardClasses(cards[..|cards| - 1]) + cards[|cards| - 1].classes
  }

  lemma {:induction false} CardClassesAreGroupSizes(schools: seq<School>, classes: seq<Class>, students: seq<Student>)
    ensures CardClasses(SchoolCards(schools, classes, students)) == GroupSizesSum(SchoolOfClass, SchoolIds(schools), classes)
    decreases |schools|
  {
    if |schools| > 0 {
      var n := |schools| - 1;
      CardClassesAreGroupSizes(schools[..n], classes, students);
      assert SchoolCards(schools, classes, students)[..n] == SchoolCards(schools[..n], classes, students);
      assert SchoolIds(schools)[..n] == SchoolIds(schools[..n]);
    }
  }

  /**
   * When school ids are distinct and every class belongs to a listed school,
   * the cards' class counts add up to the "Total de Turmas" figure.
   */
  lemma CardsCoverAllClasses(schools: seq<School>, classes: seq<Class>, students: seq<Student>)
    requires forall p, q :: 0 <= p < q < |schools| ==> schools[p].id != schools[q].id
    requires forall c :: c in classes ==> exists s :: s in schools && s.id == c.schoolId
    ensures CardClasses(SchoolCards(schools, classes, students)) == |classes|
  {
    var ids := SchoolIds(schools);
    assert NoDuplicates(ids);
    forall c | c in classes ensures SchoolOfClass(c) in ids {
      var s :| s in schools && s.id == c.schoolId;
      var k :| 0 <= k < |schools| && schools[k] == s;
      assert ids[k] == c.schoolId;
    }
    CardClassesAreGroupSizes(schools, classes, students);
    GroupSizesPartition(SchoolOfClass, ids, classes);
    AllKeysAmong(SchoolOfClass, ids, classes);
  }

  /** On the sample data the two school cards list all six classes between them. */
  lemma SampleCardsCoverAllClasses(students: seq<Student>)
    ensures CardClasses(SchoolCards(Schools, Classes, students)) == |Classes|
  {
    StaticIdsDistinct();
    ClassReferencesResolve();
    CardsCoverAllClasses(Schools, Classes, students);
  }
}
