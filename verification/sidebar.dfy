/**
 * The dashboard sidebar: the nine navigation entries and the role filter that
 * decides which of them a signed-in user sees. The filter switches on the
 * role's stored key, so an account whose role is none of the four known keys
 * falls to the `default` branch.
 */
module Sidebar {
  import opened Wrappers
  import opened Seqs
  import opened Auth

  datatype NavItem = NavItem(title: string, href: string)

  const Home: NavItem := NavItem("Dashboard", "/dashboard")

  /** `navItems`, in menu order. */
  const NavItems: seq<NavItem> := [
    Home,
    NavItem("Escolas", "/dashboard/schools"),
    NavItem("Turmas", "/dashboard/classes"),
    NavItem("Professores", "/dashboard/teachers"),
    NavItem("Alunos", "/dashboard/students"),
    NavItem("Frequência", "/dashboard/attendance"),
    NavItem("Notas", "/dashboard/grades"),
    NavItem("Avaliações", "/dashboard/assessments"),
    NavItem("Desempenho", "/dashboard/performance")
  ]

  /** The pages a teacher may open besides the dashboard. */
  const TeacherPages: seq<string> := ["/dashboard/classes", "/dashboard/students", "/dashboard/attendance", "/dashboard/grades"]

  /** The body of the `navItems.filter` callback. */
  predicate Visible(roleKey: string, schoolId: Option<string>, item: NavItem)
  {
    if item.href == "/dashboard" then true
    else if roleKey == "admin" || roleKey == "coordenador_geral" then true
    else if roleKey == "coordenador" then item.href != "/dashboard/schools" || Truthy(schoolId)
    else if roleKey == "professor" then item.href in TeacherPages
    else false
  }

  /** `filteredNavItems` for a role key and an optional school. */
  function VisibleItems(roleKey: string, schoolId: Option<string>): (r: seq<NavItem>)
    ensures IsSubsequence(r, NavItems)
    ensures forall item :: item in r <==> item in NavItems && Visible(roleKey, schoolId, item)
  {
    Filter((item: NavItem) => Visible(roleKey, schoolId, item), NavItems)
  }

  /** The sidebar: nothing without a user, otherwise the entries the user's role may see. */
  function SidebarItems(user: Option<User>): (r: Option<seq<NavItem>>)
    ensures r.None? <==> user.None?
    ensures r.Some? ==> r.value == VisibleItems(RoleKey(user.value.role), user.value.schoolId)
  {
    match user
    case None => None
    case Some(u) => Some(VisibleItems(RoleKey(u.role), u.schoolId))
  }

  /** The Dashboard entry is shown to every role, first. */
  lemma DashboardAlwaysFirst(roleKey: string, schoolId: Option<string>)
    ensures |VisibleItems(roleKey, schoolId)| > 0 && VisibleItems(roleKey, schoolId)[0] == Home
  {
  }

  /** The administrator and the general coordinator see all nine entries. */
  lemma NetworkRolesSeeAll(roleKey: string, schoolId: Option<string>)
    requires roleKey == "admin" || roleKey == "coordenador_geral"
    ensures VisibleItems(roleKey, schoolId) == NavItems
  {
    FilterAll((item: NavItem) => Visible(roleKey, schoolId, item), NavItems);
  }

  /** A coordinator with a school sees everything; without one, everything but Escolas. */
  lemma CoordinatorSees(schoolId: Option<string>)
    ensures Truthy(schoolId) ==> VisibleItems("coordenador", schoolId) == NavItems
    ensures !Truthy(schoolId) ==> VisibleItems("coordenador", schoolId) == [Home] + NavItems[2..]
  {
    var p := (item: NavItem) => Visible("coordenador", schoolId, item);
    if Truthy(schoolId) {
      FilterAll(p, NavItems);
    } else {
      FilterSkipsSecond(p, NavItems);
    }
  }

  /** Keeping all but the second element of a list. */
  lemma FilterSkipsSecond(p: NavItem -> bool, items: seq<NavItem>)
    requires |items| >= 2 && p(items[0]) && !p(items[1])
    requires forall k :: 2 <= k < |items| ==> p(items[k])
    ensures Filter(p, items) == [items[0]] + items[2..]
  {
    FilterStep(p, items);
    FilterStep(p, items[1..]);
    assert items[1..][1..] == items[2..];
    FilterAll(p, items[2..]);
  }

  /** A teacher sees exactly Dashboard, Turmas, Alunos, Frequência and Notas. */
  lemma TeacherSees(schoolId: Option<string>)
    ensures VisibleItems("professor", schoolId) == [Home, NavItems[2], NavItems[4], NavItems[5], NavItems[6]]
  {
    var p := (item: NavItem) => Visible("professor", schoolId, item);
    FilterTeacherPattern(p, NavItems);
  }

  /** Filtering nine items by a predicate that holds at positions 0, 2, 4, 5 and 6 only. */
  lemma FilterTeacherPattern(p: NavItem -> bool, items: seq<NavItem>)
    requires |items| == 9
    requires p(items[0]) && !p(items[1]) && p(items[2]) && !p(items[3]) && p(items[4])
    requires p(items[5]) && p(items[6]) && !p(items[7]) && !p(items[8])
    ensures Filter(p, items) == [items[0], items[2], items[4], items[5], items[6]]
  {
    var s := items;
    assert Filter(p, s[7..]) == [] by {
      FilterNone(p, s[7..]);
    }
    assert Filter(p, s[4..]) == [s[4], s[5], s[6]] by {
      FilterKeep(p, s[4..]);
      FilterKeep(p, s[5..]);
      FilterKeep(p, s[6..]);
      assert s[4..][1..] == s[5..];
      assert s[5..][1..] == s[6..];
      assert s[6..][1..] == s[7..];
    }
    assert Filter(p, s[2..]) == [s[2], s[4], s[5], s[6]] by {
      FilterKeep(p, s[2..]);
      FilterDrop(p, s[3..]);
      assert s[2..][1..] == s[3..];
      assert s[3..][1..] == s[4..];
    }
    FilterKeep(p, s);
    FilterDrop(p, s[1..]);
    assert s[1..][1..] == s[2..];
  }

  /** A role key that is none of the four known roles sees the Dashboard only. */
  lemma UnknownRoleSeesHomeOnly(roleKey: string, schoolId: Option<string>)
    requires roleKey !in {"admin", "coordenador_geral", "coordenador", "professor"}
    ensures VisibleItems(roleKey, schoolId) == [Home]
  {
    FilterNone((item: NavItem) => Visible(roleKey, schoolId, item), NavItems[1..]);
  }
}
