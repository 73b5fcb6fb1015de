/**
 * The enrollments page: the enrollments and transfers a user may see, the
 * first fifteen enrollments, and the status badges.
 */
module EnrollmentsPage {
  import opened Wrappers
  import opened Seqs
  import opened Auth
  import opened SampleData
  import opened Scope

  /** Enrollments listed at most. */
  const PageSize: nat := 15

  /** `schoolClasses` of a coordinator. */
  function SchoolClasses(user: Option<User>, classes: seq<Class>): (r: seq<Class>)
    ensures forall c {:trigger c in r} :: c in r <==> c in classes && user.Some? && user.value.schoolId == Some(c.schoolId)
  {
    if user.Some? then WithOptionalKey(SchoolOfClass, user.value.schoolId, classes) else []
  }

  /** `availableEnrollments`: a coordinator's are those of their school's classes. */
  function AvailableEnrollments(user: Option<User>, classes: seq<Class>, enrollments: seq<Enrollment>): (r: seq<Enrollment>)
    ensures IsSubsequence(r, enrollments)
    ensures !IsRole(user, Coordenador) ==> r == enrollments
    ensures IsRole(user, Coordenador) ==> forall e {:trigger e in r} :: e in r <==>
      (e in enrollments && exists c :: c in classes && c.id == e.classId && user.value.schoolId == Some(c.schoolId))
  {
    if IsRole(user, Coordenador) then InClasses(ClassOfEnrollment, SchoolClasses(user, classes), enrollments)
    else
      assert enrollments[..|enrollments|] == enrollments;
      PrefixIsSubsequence(enrollments, |enrollments|);
      enrollments
  }

  /** The predicate `(t) => ids contains t.fromClassId or t.toClassId`. */
  function Touches(ids: seq<string>): Transfer -> bool
  {
    (t: Transfer) => t.fromClassId in ids || t.toClassId in ids
  }

  /** `availableTransfers`: a coordinator's are those leaving or entering a class of their school. */
  function AvailableTransfers(user: Option<User>, classes: seq<Class>, transfers: seq<Transfer>): (r: seq<Transfer>)
    ensures IsSubsequence(r, transfers)
    ensures !IsRole(user, Coordenador) ==> r == transfers
    ensures IsRole(user, Coordenador) ==> forall t {:trigger t in r} :: t in r <==>
      (t in transfers && exists c :: c in SchoolClasses(user, classes) && (c.id == t.fromClassId || c.id == t.toClassId))
  {
    if IsRole(user, Coordenador) then Filter(Touches(ClassIds(SchoolClasses(user, classes))), transfers)
    else
      assert transfers[..|transfers|] == transfers;
      PrefixIsSubsequence(transfers, |transfers|);
      transfers
  }

  /** The listed enrollments: the first fifteen. */
  function ListedEnrollments(available: seq<Enrollment>): (r: seq<Enrollment>)
    ensures |r| == if |available| <= PageSize then |available| else PageSize
    ensures forall i :: 0 <= i < |r| ==> r[i] == available[i]
  {
    Take(available, PageSize)
  }

  /** The enrollment badge: "active" is "Ativa", "completed" "Concluída", anything else "Cancelada". */
  function EnrollmentLabel(status: EnrollmentStatus): (text: string)
    ensures |text| > 0
  {
    match status
    case Ongoing => "Ativa"
    case Completed => "Concluída"
    case Cancelled => "Cancelada"
  }

  /** The transfer badge: "approved" is "Aprovada", "pending" "Pendente", anything else "Rejeitada". */
  function TransferLabel(status: TransferStatus): (text: string)
    ensures |text| > 0
  {
    match status
    case Approved => "Aprovada"
    case Pending => "Pendente"
    case Rejected => "Rejeitada"
  }

  /** The badges tell every status apart. */
  lemma LabelsDistinct(a: EnrollmentStatus, b: EnrollmentStatus, x: TransferStatus, y: TransferStatus)
    ensures a != b ==> EnrollmentLabel(a) != EnrollmentLabel(b)
    ensures x != y ==> TransferLabel(x) != TransferLabel(y)
  {
  }

  /** `canManage`: the administrator and both coordinators. */
  predicate CanManage(user: Option<User>)
  {
    IsRole(user, Admin) || IsRole(user, CoordenadorGeral) || IsRole(user, Coordenador)
  }

  lemma CanManageExactly(user: Option<User>)
    ensures CanManage(user) <==> user.Some? && user.value.role != Professor
  {
  }

  /** A coordinator without a school sees no enrollment and no transfer. */
  lemma UnassignedCoordinatorSeesNothing(user: Option<User>, classes: seq<Class>, enrollments: seq<Enrollment>, transfers: seq<Transfer>)
    requires IsRole(user, Coordenador) && user.value.schoolId.None?
    ensures AvailableEnrollments(user, classes, enrollments) == []
    ensures AvailableTransfers(user, classes, transfers) == []
  {
    NoMembersEmpty(AvailableEnrollments(user, classes, enrollments));
    NoMembersEmpty(AvailableTransfers(user, classes, transfers));
  }

  /** The sample coordinator of escola-1 sees both sample transfers, which stay within that school. */
  lemma SampleCoordinatorSeesBothTransfers()
    ensures AvailableTransfers(Some(SampleUsers[2]), Classes, Transfers) == Transfers
  {
    var user := Some(SampleUsers[2]);
    assert Classes[0] in SchoolClasses(user, Classes);
    assert Classes[1] in SchoolClasses(user, Classes);
    FilterAll(Touches(ClassIds(SchoolClasses(user, Classes))), Transfers);
  }
}
