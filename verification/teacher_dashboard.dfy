/**
 * The teacher's dashboard: the classes listed in the teacher's account, the
 * students of those classes, and one card per class with its student count.
 */
module TeacherDashboard {
  import opened Wrappers
  import opened Seqs
  import opened Auth
  import opened SampleData
  import opened Scope

  /** `user?.classIds`: absent without a user. */
  function ClassIdsOf(user: Option<User>): Option<seq<string>>
  {
    if user.Some? then user.value.classIds else None
  }

  /** `teacherClasses`: the classes whose id the account lists. */
  function TeacherClasses(user: Option<User>, classes: seq<Class>): (r: seq<Class>)
    ensures forall c {:trigger c in r} :: c in r <==>
      c in classes && user.Some? && user.value.classIds.Some? && c.id in user.value.classIds.value
    ensures IsSubsequence(r, classes)
  {
    ClassesListed(ClassIdsOf(user), classes)
  }

  /** `teacherStudents`: the students of those classes. */
  function TeacherStudents(user: Option<User>, classes: seq<Class>, students: seq<Student>): (r: seq<Student>)
    ensures forall s {:trigger s in r} :: s in r ==>
      s in students && user.Some? && user.value.classIds.Some? && s.classId in user.value.classIds.value
    ensures forall s :: s in students && (exists c :: c in TeacherClasses(user, classes) && c.id == s.classId) ==> s in r
    ensures IsSubsequence(r, students)
  {
    InClasses(ClassOfStudent, TeacherClasses(user, classes), students)
  }

  /** A "Minhas Turmas" card: the class and its number of students. */
  datatype ClassCard = ClassCard(classId: string, name: string, students: nat)

  /** One card per class of the teacher, in class order. */
  function ClassCards(user: Option<User>, classes: seq<Class>, students: seq<Student>): (cards: seq<ClassCard>)
    ensures |cards| == |TeacherClasses(user, classes)|
    ensures forall i :: 0 <= i < |cards| ==>
      (cards[i].classId == TeacherClasses(user, classes)[i].id &&
       cards[i].name == TeacherClasses(user, classes)[i].name &&
       cards[i].students == |WithKey(ClassOfStudent, cards[i].classId, students)|)
  {
    var own := TeacherClasses(user, classes);
    seq(|own|, i requires 0 <= i < |own| => ClassCard(own[i].id, own[i].name, |WithKey(ClassOfStudent, own[i].id, students)|))
  }

  /** The card counts, added up. */
  function CardStudents(cards: seq<ClassCard>): nat
  {
    if |cards| == 0 then 0 else CardStudents(cards[..|cards| - 1]) + cards[|cards| - 1].students
  }

  lemma {:induction false} CardStudentsAreGroupSizes(own: seq<Class>, students: seq<Student>, cards: seq<ClassCard>)
    requires |cards| == |own|
    requires forall i :: 0 <= i < |own| ==> cards[i].students == |WithKey(ClassOfStudent, own[i].id, students)|
    ensures CardStudents(cards) == GroupSizesSum(ClassOfStudent, ClassIds(own), students)
    decreases |own|
  {
    if |own| > 0 {
      var n := |own| - 1;
      CardStudentsAreGroupSizes(own[..n], students, cards[..n]);
      assert ClassIds(own)[..n] == ClassIds(own[..n]);
    }
  }

  /**
   * With distinct class ids, the card counts add up to the "Total de Alunos"
   * figure.
   */
  lemma CardsAddUpToTotal(user: Option<User>, classes: seq<Class>, students: seq<Student>)
    requires forall p, q :: 0 <= p < q < |classes| ==> classes[p].id != classes[q].id
    ensures CardStudents(ClassCards(user, classes, students)) == |TeacherStudents(user, classes, students)|
  {
    var own := TeacherClasses(user, classes);
    SubsequenceKeepsDistinct(ClassIdOf, own, classes);
    CardStudentsAreGroupSizes(own, students, ClassCards(user, classes, students));
    GroupSizesPartition(ClassOfStudent, ClassIds(own), students);
  }

  /** A teacher account without a class list sees no class and no student. */
  lemma NoClassListSeesNothing(user: Option<User>, classes: seq<Class>, students: seq<Student>)
    requires user.None? || user.value.classIds.None?
    ensures TeacherClasses(user, classes) == [] && TeacherStudents(user, classes, students) == []
  {
    NoMembersEmpty(TeacherClasses(user, classes));
    InNoClasses(ClassOfStudent, students);
  }

  /** Cards of which every one shows the same count `k` add up to `k` per card. */
  lemma {:induction false} UniformCards(cards: seq<ClassCard>, k: nat)
    requires forall i :: 0 <= i < |cards| ==> cards[i].students == k
    ensures CardStudents(cards) == k * |cards|
    decreases |cards|
  {
    if |cards| > 0 {
      UniformCards(cards[..|cards| - 1], k);
    }
  }

  /**
   * On the sample data every card shows ten students, so the teacher has ten
   * students per listed class.
   */
  lemma SampleTenPerClass(user: Option<User>)
    ensures forall i :: 0 <= i < |ClassCards(user, Classes, GenerateStudents(Classes))| ==>
      ClassCards(user, Classes, GenerateStudents(Classes))[i].students == StudentsPerClass
    ensures |TeacherStudents(user, Classes, GenerateStudents(Classes))| == StudentsPerClass * |TeacherClasses(user, Classes)|
  {
    var own := TeacherClasses(user, Classes);
    var cards := ClassCards(user, Classes, GenerateStudents(Classes));
    StaticIdsDistinct();
    SubsequenceMembers(own, Classes);
    forall i | 0 <= i < |cards| ensures cards[i].students == StudentsPerClass {
      assert own[i] in Classes;
      var j :| 0 <= j < |Classes| && Classes[j] == own[i];
      TenStudentsPerClass(Classes, j);
    }
    UniformCards(cards, StudentsPerClass);
    CardsAddUpToTotal(user, Classes, GenerateStudents(Classes));
  }
}
