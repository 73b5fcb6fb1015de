/**
 * Role scoping shared by the pages: a coordinator is confined to the classes,
 * teachers and schools of the school they coordinate, a teacher to the
 * classes listed in their account; the administrator, the general
 * coordinator and a signed-out visitor see everything.
 */
module Scope {
  import opened Wrappers
  import opened Seqs
  import opened Auth
  import opened SampleData

  /**
   * `s.filter((x) => key(x) === user.schoolId)`: an absent school id equals
   * no string key, so nothing is kept.
   */
  function WithOptionalKey<T(!new)>(key: T -> string, k: Option<string>, s: seq<T>): (r: seq<T>)
    ensures forall x {:trigger x in r} :: x in r <==> x in s && k == Some(key(x))
    ensures IsSubsequence(r, s)
    ensures k.None? ==> r == []
  {
    match k
    case None =>
      assert s[..0] == [];
      PrefixIsSubsequence(s, 0);
      []
    case Some(id) => WithKey(key, id, s)
  }

  predicate IsRole(user: Option<User>, role: Role)
  {
    user.Some? && user.value.role == role
  }

  /**
   * `user?.role === "coordenador" ? s.filter((x) => key(x) === user.schoolId) : s`:
   * a coordinator keeps the records of their school, everyone else all of them.
   */
  function CoordinatorScoped<T(!new)>(user: Option<User>, key: T -> string, s: seq<T>): (r: seq<T>)
    ensures IsSubsequence(r, s)
    ensures !IsRole(user, Coordenador) ==> r == s
    ensures IsRole(user, Coordenador) ==> forall x {:trigger x in r} :: x in r <==> x in s && user.value.schoolId == Some(key(x))
  {
    if IsRole(user, Coordenador) then WithOptionalKey(key, user.value.schoolId, s)
    else
      assert s[..|s|] == s;
      PrefixIsSubsequence(s, |s|);
      s
  }

  /** `SAMPLE_CLASSES.filter((c) => user.classIds?.includes(c.id))`: none without a list. */
  function ClassesListed(classIds: Option<seq<string>>, classes: seq<Class>): (r: seq<Class>)
    ensures forall c {:trigger c in r} :: c in r <==> c in classes && classIds.Some? && c.id in classIds.value
    ensures IsSubsequence(r, classes)
  {
    match classIds
    case None =>
      assert classes[..0] == [];
      PrefixIsSubsequence(classes, 0);
      []
    case Some(ids) => WithKeyAmong(ClassIdOf, ids, classes)
  }

  /**
   * `availableClasses` of the classes, students, grades and attendance pages:
   * the coordinator's school's classes, the teacher's listed classes, or all.
   */
  function AvailableClasses(user: Option<User>, classes: seq<Class>): (r: seq<Class>)
    ensures IsSubsequence(r, classes)
    ensures !IsRole(user, Coordenador) && !IsRole(user, Professor) ==> r == classes
    ensures IsRole(user, Coordenador) ==>
      forall c {:trigger c in r} :: c in r <==> c in classes && user.value.schoolId == Some(c.schoolId)
    ensures IsRole(user, Professor) ==>
      forall c {:trigger c in r} :: c in r <==> c in classes && user.value.classIds.Some? && c.id in user.value.classIds.value
  {
    if IsRole(user, Coordenador) then WithOptionalKey(SchoolOfClass, user.value.schoolId, classes)
    else if IsRole(user, Professor) then ClassesListed(user.value.classIds, classes)
    else
      assert IsSubsequence(classes, classes) by { PrefixIsSubsequence(classes, |classes|); assert classes[..|classes|] == classes; }
      classes
  }

  /** `records.filter((x) => classes.some((c) => c.id === x.classId))`. */
  function InClasses<T(!new)>(classOf: T -> string, classes: seq<Class>, s: seq<T>): (r: seq<T>)
    ensures forall x {:trigger x in r} :: x in r <==> x in s && exists c :: c in classes && c.id == classOf(x)
    ensures IsSubsequence(r, s)
  {
    WithKeyAmong(classOf, ClassIds(classes), s)
  }

  /** No classes, no records. */
  lemma InNoClasses<T(!new)>(classOf: T -> string, s: seq<T>)
    ensures InClasses(classOf, [], s) == []
  {
    FilterNone(KeyAmong(classOf, ClassIds([])), s);
  }

  /** `classStudents` of the grades and attendance pages: none until a class is selected. */
  function ClassStudents(selectedClass: string, students: seq<Student>): (r: seq<Student>)
    ensures selectedClass == "" ==> r == []
    ensures selectedClass != "" ==> forall s {:trigger s in r} :: s in r <==> s in students && s.classId == selectedClass
  {
    if selectedClass == "" then [] else WithKey(ClassOfStudent, selectedClass, students)
  }

  /** The records of the classes a user may see never leave those classes. */
  lemma InClassesOfAvailable<T(!new)>(classOf: T -> string, user: Option<User>, classes: seq<Class>, s: seq<T>, x: T)
    requires x in InClasses(classOf, AvailableClasses(user, classes), s)
    ensures x in s
    ensures IsRole(user, Coordenador) ==> exists c :: c in classes && c.id == classOf(x) && user.value.schoolId == Some(c.schoolId)
    ensures IsRole(user, Professor) ==> user.value.classIds.Some? && classOf(x) in user.value.classIds.value
  {
  }

  /** A coordinator without a school, or a teacher without a class list, sees no class. */
  lemma UnassignedSeesNoClass(user: Option<User>, classes: seq<Class>)
    requires (IsRole(user, Coordenador) && user.value.schoolId.None?) || (IsRole(user, Professor) && user.value.classIds.None?)
    ensures AvailableClasses(user, classes) == []
  {
  }

  /** The sample teacher sees exactly the classes turma-1 and turma-2. */
  lemma SampleTeacherClasses()
    ensures forall c :: c in AvailableClasses(Some(SampleUsers[3]), Classes) <==> c in Classes && c.id in ["turma-1", "turma-2"]
  {
  }

  /** The sample coordinator sees exactly the classes of escola-1. */
  lemma SampleCoordinatorClasses()
    ensures forall c :: c in AvailableClasses(Some(SampleUsers[2]), Classes) <==> c in Classes && c.schoolId == "escola-1"
  {
  }
}
