/**
 * Roles, users and the role-based permission table: `PERMISSIONS`,
 * `hasPermission`, `getRoleLabel` and the four sample accounts.
 */
module Auth {
  import opened Wrappers

  datatype Role = Admin | CoordenadorGeral | Coordenador | Professor

  /**
   * A signed-in account. A coordinator carries the school they coordinate,
   * a teacher the classes they teach; both fields are optional.
   */
  datatype User = User(
    id: string,
    name: string,
    email: string,
    role: Role,
    schoolId: Option<string>,
    classIds: Option<seq<string>>)

  /** JavaScript truthiness of an optional string such as `user.schoolId`: present and non-empty. */
  predicate Truthy(s: Option<string>)
  {
    s.Some? && s.value != ""
  }

  datatype Permission =
    | ViewAllSchools
    | ManageSchools
    | ManageUsers
    | ViewAllClasses
    | ManageClasses
    | ViewAllStudents
    | ManageStudents
    | ViewReports

  /** The role's key as stored in the user record (`user.role`). */
  function RoleKey(role: Role): string
  {
    match role
    case Admin => "admin"
    case CoordenadorGeral => "coordenador_geral"
    case Coordenador => "coordenador"
    case Professor => "professor"
  }

  lemma RoleKeysDistinct(a: Role, b: Role)
    requires a != b
    ensures RoleKey(a) != RoleKey(b)
  {
  }

  /** `PERMISSIONS`: for each role, the value of each of the eight permissions. */
  const Permissions: map<Role, map<Permission, bool>> := map[
    Admin := map[
      ViewAllSchools := true, ManageSchools := true, ManageUsers := true, ViewAllClasses := true,
      ManageClasses := true, ViewAllStudents := true, ManageStudents := true, ViewReports := true],
    CoordenadorGeral := map[
      ViewAllSchools := true, ManageSchools := false, ManageUsers := false, ViewAllClasses := true,
      ManageClasses := true, ViewAllStudents := true, ManageStudents := true, ViewReports := true],
    Coordenador := map[
      ViewAllSchools := false, ManageSchools := false, ManageUsers := false, ViewAllClasses := false,
      ManageClasses := true, ViewAllStudents := false, ManageStudents := true, ViewReports := true],
    Professor := map[
      ViewAllSchools := false, ManageSchools := false, ManageUsers := false, ViewAllClasses := false,
      ManageClasses := false, ViewAllStudents := false, ManageStudents := false, ViewReports := false]
  ]

  /** `hasPermission`: the table entry, and `false` for an entry the table lacks. */
  function HasPermission(role: Role, p: Permission): (b: bool)
    ensures b <==> role in Permissions && p in Permissions[role] && Permissions[role][p]
  {
    if role in Permissions && p in Permissions[role] then Permissions[role][p] else false
  }

  /** The table is total: every role has an entry for every permission. */
  lemma PermissionTableTotal(role: Role, p: Permission)
    ensures role in Permissions && p in Permissions[role]
    ensures HasPermission(role, p) == Permissions[role][p]
  {
  }

  /** The administrator holds every permission. */
  lemma AdminHoldsAll(p: Permission)
    ensures HasPermission(Admin, p)
  {
  }

  /** A teacher holds no permission. */
  lemma ProfessorHoldsNone(p: Permission)
    ensures !HasPermission(Professor, p)
  {
  }

  /** Only the administrator may manage schools and users. */
  lemma OnlyAdminManagesSchoolsAndUsers(role: Role)
    ensures HasPermission(role, ManageSchools) <==> role == Admin
    ensures HasPermission(role, ManageUsers) <==> role == Admin
  {
  }

  /** Reports, class management and student management are denied to teachers only. */
  lemma DeniedOnlyToProfessor(role: Role, p: Permission)
    requires p in {ViewReports, ManageClasses, ManageStudents}
    ensures !HasPermission(role, p) <==> role == Professor
  {
  }

  /** Viewing everything is reserved to the administrator and the general coordinator. */
  lemma ViewAllOnlyForNetworkRoles(role: Role, p: Permission)
    requires p in {ViewAllSchools, ViewAllClasses, ViewAllStudents}
    ensures HasPermission(role, p) <==> role == Admin || role == CoordenadorGeral
  {
  }

  /** `getRoleLabel`. */
  function RoleLabel(role: Role): (text: string)
    ensures |text| > 0
  {
    match role
    case Admin => "Administrador"
    case CoordenadorGeral => "Coordenador Geral"
    case Coordenador => "Coordenador"
    case Professor => "Professor"
  }

  /** The four roles have four different labels. */
  lemma RoleLabelsDistinct(a: Role, b: Role)
    requires a != b
    ensures RoleLabel(a) != RoleLabel(b)
  {
  }

  /** `SAMPLE_USERS`: one account per role. */
  const SampleUsers: seq<User> := [
    User("1", "Admin Sistema", "admin@escolaa.com.br", Admin, None, None),
    User("2", "Maria Coordenadora Geral", "maria.geral@escolaa.com.br", CoordenadorGeral, None, None),
    User("3", "Jo√£o Coordenador", "joao.coord@escolaa.com.br", Coordenador, Some("escola-1"), None),
    User("4", "Ana Professora", "ana.prof@escolaa.com.br", Professor, None, Some(["turma-1", "turma-2"]))
  ]

  /** Sample emails (the login keys) are pairwise distinct, and so are the ids. */
  lemma SampleUsersDistinct()
    ensures forall p, q :: 0 <= p < q < |SampleUsers| ==> SampleUsers[p].email != SampleUsers[q].email
    ensures forall p, q :: 0 <= p < q < |SampleUsers| ==> SampleUsers[p].id != SampleUsers[q].id
  {
  }

  /** The sample coordinator has a school and the sample teacher a non-empty list of classes. */
  lemma SampleUsersWellFormed()
    ensures forall u :: u in SampleUsers && u.role == Coordenador ==> u.schoolId.Some?
    ensures forall u :: u in SampleUsers && u.role == Professor ==> u.classIds.Some? && |u.classIds.value| > 0
  {
  }
}
