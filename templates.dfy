/** The page routes: which template a browser request renders, or where it is
    redirected, given what the session holds under 'user'. */
module Templates {
  import opened Common
  import JuniorUstad
  import JuniorUstadh

  /** What the session may hold under 'user': a dictionary (string values), or a
      value of another type, known only by its truthiness. */
  datatype SessionValue = Dict(entries: map<string, string>) | Other(truthy: bool)

  /** Python truthiness of the stored value: a dictionary is true when it is not empty. */
  predicate Truthy(v: SessionValue) {
    match v
    case Dict(entries) => |entries| > 0
    case Other(truthy) => truthy
  }

  /** `session['user'].get('role')` on a dictionary. */
  function RoleEntry(entries: map<string, string>): Option<string> {
    if "role" in entries then Some(entries["role"]) else None
  }

  /** The role a session role string names, if any. */
  function RoleNamed(s: string): (r: Option<Role>)
    ensures r.Some? ==> r.value.Name() == s
    ensures r.None? ==> forall role: Role :: role.Name() != s
  {
    if s == "student" then Some(Student)
    else if s == "teacher" then Some(Teacher)
    else if s == "junior_ustadh" then Some(JuniorUstadh)
    else if s == "super_user" then Some(SuperUser)
    else None
  }

  datatype Template =
    | Landing | Login | TestFeeSave | TestJuniorUstad
    | StudentDashboard | TeacherDashboard | JuniorUstadhDashboard | SuperUserDashboard
    | Management | ManagementSimple
  {
    function FileName(): (f: string)
      ensures |f| > 5 && f[|f| - 5..] == ".html"
    {
      match this
      case Landing => "index.html"
      case Login => "login.html"
      case TestFeeSave => "test_fee_save.html"
      case TestJuniorUstad => "test_junior_ustad.html"
      case StudentDashboard => "dashboard_student_new.html"
      case TeacherDashboard => "dashboard_teacher.html"
      case JuniorUstadhDashboard => "dashboard_junior_ustad.html"
      case SuperUserDashboard => "dashboard_super_admin_simple.html"
      case Management => "junior_ustad_management.html"
      case ManagementSimple => "junior_ustad_simple.html"
    }
  }

  /** Distinct templates render distinct files. */
  lemma FileNamesDistinct(t1: Template, t2: Template)
    ensures t1.FileName() == t2.FileName() <==> t1 == t2
  {
  }

  /** The dashboard of each role. */
  function DashboardOf(r: Role): (t: Template)
    ensures t != Landing && t != Management && t != ManagementSimple
  {
    match r
    case Student => StudentDashboard
    case Teacher => TeacherDashboard
    case JuniorUstadh => JuniorUstadhDashboard
    case SuperUser => SuperUserDashboard
  }

  /** Every role has a dashboard of its own. */
  lemma DashboardsDistinct(r1: Role, r2: Role)
    ensures DashboardOf(r1) == DashboardOf(r2) <==> r1 == r2
    ensures DashboardOf(r1).FileName() == DashboardOf(r2).FileName() <==> r1 == r2
  {
  }

  /** A render, a redirect, or the server error an uncaught exception gives. */
  datatype Page = Render(template: Template) | RedirectToLogin | RedirectToIndex | ServerError

  /** The page together with whether the handler cleared the session. */
  datatype Response = Response(page: Page, clearsSession: bool)

  /** GET /: the dashboard of a recognised role, else the landing page. A stored
      value that is truthy but not a dictionary makes `.get` raise inside the
      `try`; the session is then cleared and the landing page shown. */
  function Index(user: Option<SessionValue>): (r: Response)
    ensures r.page.Render?
    ensures r.clearsSession <==> user.Some? && user.value.Other? && user.value.truthy
    ensures r.page != Render(Landing) <==>
      user.Some? && user.value.Dict? && RoleEntry(user.value.entries).Some? &&
      RoleNamed(RoleEntry(user.value.entries).value).Some?
    ensures r.page != Render(Landing) ==>
      r.page == Render(DashboardOf(RoleNamed(RoleEntry(user.value.entries).value).value))
  {
    if user.None? || !Truthy(user.value) then Response(Render(Landing), false)
    else
      match user.value
      case Other(_) => Response(Render(Landing), true)
      case Dict(entries) =>
        var role := RoleEntry(entries);
        if role.Some? && RoleNamed(role.value).Some? then
          Response(Render(DashboardOf(RoleNamed(role.value).value)), false)
        else
          Response(Render(Landing), false)
  }

  /** A session whose user dictionary carries the role's name reaches that role's dashboard. */
  lemma IndexRoutesEachRole(entries: map<string, string>, role: Role)
    requires "role" in entries && entries["role"] == role.Name()
    ensures Index(Some(Dict(entries))) == Response(Render(DashboardOf(role)), false)
  {
    RoleNamesDistinct(role, RoleNamed(role.Name()).value);
  }

  /** The four direct dashboard routes /student, /teacher, /junior-ustadh and
      /super, each given by the role it serves. Outside the `try` of GET /, a
      stored value that is not a dictionary makes `.get` raise uncaught. */
  function DashboardRoute(route: Role, user: Option<SessionValue>): (r: Response)
    ensures !r.clearsSession
    ensures user.None? <==> r.page == RedirectToLogin
    ensures user.Some? && user.value.Other? <==> r.page == ServerError
    ensures r.page.Render? <==>
      user.Some? && user.value.Dict? && RoleEntry(user.value.entries) == Some(route.Name())
    ensures r.page.Render? ==> r.page.template == DashboardOf(route)
  {
    if user.None? then Response(RedirectToLogin, false)
    else
      match user.value
      case Other(_) => Response(ServerError, false)
      case Dict(entries) =>
        if RoleEntry(entries) != Some(route.Name()) then Response(RedirectToIndex, false)
        else Response(Render(DashboardOf(route)), false)
  }

  /** A direct dashboard route renders exactly what GET / renders for the same
      session, and GET / sending a session to a dashboard means that dashboard's
      direct route renders it too. */
  lemma {:induction false} DirectRoutesAgreeWithIndex(route: Role, user: Option<SessionValue>)
    ensures DashboardRoute(route, user).page.Render? ==> Index(user) == DashboardRoute(route, user)
    ensures Index(user).page == Render(DashboardOf(route)) ==> DashboardRoute(route, user) == Index(user)
  {
    if user.Some? && user.value.Dict? && RoleEntry(user.value.entries) == Some(route.Name()) {
      var entries := user.value.entries;
      assert "role" in entries;
      IndexRoutesEachRole(entries, route);
    }
    if Index(user).page == Render(DashboardOf(route)) {
      var other := RoleNamed(RoleEntry(user.value.entries).value).value;
      DashboardsDistinct(other, route);
    }
  }

  /** `user_role in ['super_user', 'teacher']`. */
  predicate ManagementRole(role: Option<string>) {
    role == Some("super_user") || role == Some("teacher")
  }

  /** /junior-ustad-management and /junior-ustad-simple: the page renders for a
      super user or a teacher; other roles go to the index, no session to login. */
  function ManagementRoute(page: Template, user: Option<SessionValue>): (r: Response)
    requires page == Management || page == ManagementSimple
    ensures !r.clearsSession
    ensures user.None? <==> r.page == RedirectToLogin
    ensures user.Some? && user.value.Other? <==> r.page == ServerError
    ensures r.page.Render? <==>
      user.Some? && user.value.Dict? && ManagementRole(RoleEntry(user.value.entries))
    ensures r.page.Render? ==> r.page.template == page
  {
    if user.None? then Response(RedirectToLogin, false)
    else
      match user.value
      case Other(_) => Response(ServerError, false)
      case Dict(entries) =>
        if !ManagementRole(RoleEntry(entries)) then Response(RedirectToIndex, false)
        else Response(Render(page), false)
  }

  /** The management pages admit exactly the roles both account APIs admit. */
  lemma ManagementRolesMatchGuards(role: Role)
    ensures ManagementRole(Some(role.Name())) <==> JuniorUstad.AdminRole(role)
    ensures ManagementRole(Some(role.Name())) <==> JuniorUstadh.TeacherRole(role)
  {
  }

  /** The request paths of the page routes. */
  datatype Path =
    | Root | LoginPage | DashboardPage | TestFeeSavePage | TestJuniorUstadPage
    | StudentPage | TeacherPage | JuniorUstadhPage | SuperPage
    | ManagementPage | ManagementSimplePage

  /** The handler each path runs. */
  function Route(path: Path, user: Option<SessionValue>): (r: Response)
    ensures path == DashboardPage ==> r == Response(RedirectToIndex, false)
    ensures path == LoginPage ==> r == Response(Render(Login), false)
    ensures path == TestFeeSavePage ==> r == Response(Render(TestFeeSave), false)
    ensures path == TestJuniorUstadPage ==> r == Response(Render(TestJuniorUstad), false)
    ensures r.clearsSession ==> path == Root
  {
    match path
    case Root => Index(user)
    case LoginPage => Response(Render(Login), false)
    case DashboardPage => Response(RedirectToIndex, false)
    case TestFeeSavePage => Response(Render(TestFeeSave), false)
    case TestJuniorUstadPage => Response(Render(TestJuniorUstad), false)
    case StudentPage => DashboardRoute(Student, user)
    case TeacherPage => DashboardRoute(Teacher, user)
    case JuniorUstadhPage => DashboardRoute(JuniorUstadh, user)
    case SuperPage => DashboardRoute(SuperUser, user)
    case ManagementPage => ManagementRoute(Management, user)
    case ManagementSimplePage => ManagementRoute(ManagementSimple, user)
  }

  /** /login, /dashboard, /test-fee-save and /test-junior-ustad do not look at the session. */
  lemma UnguardedPagesIgnoreSession(path: Path, u1: Option<SessionValue>, u2: Option<SessionValue>)
    requires path in {LoginPage, DashboardPage, TestFeeSavePage, TestJuniorUstadPage}
    ensures Route(path, u1) == Route(path, u2)
  {
  }

  /** Without a session every guarded page sends the browser to login, and GET /
      shows the landing page. */
  lemma NoSessionMeansLogin(path: Path)
    ensures path == Root ==> Route(path, None) == Response(Render(Landing), false)
    ensures path !in {Root, LoginPage, DashboardPage, TestFeeSavePage, TestJuniorUstadPage} ==>
      Route(path, None).page == RedirectToLogin
  {
  }
}
