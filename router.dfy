/**
 * The route table of the application: which screens exist for which session, where the root
 * path sends each role, and which navigation bar is shown. Paths are lists of segments:
 * "/" is [], "/admin/users" is ["admin", "users"].
 */
module Router {
  import opened Common
  import opened Session

  type Path = seq<string>

  /** One segment of a route pattern: a literal, or a `:param` that matches any non-empty segment. */
  datatype Seg = Lit(name: string) | Param

  datatype Screen =
    | Landing | Catalog | Preview | LoginScreen | RegisterScreen | ProfileScreen
    | RegisterTeacherScreen | UsersScreen | CategoriesScreen
    | TeacherCoursesScreen | ContentEditorScreen | EnrolledStudentsScreen
    | MyCoursesScreen | ViewerScreen | TestScreen

  datatype Route = Route(pattern: seq<Seg>, screen: Screen)

  /** The closed form of the role string, as the route table and the landing switch compare it. */
  datatype Role = Anonymous | Admin | Teacher | Student | Unrecognised

  /** No session is `Anonymous`; otherwise the role string is compared exactly with the three names. */
  function ClassifyRole(session: Option<SessionData>): (r: Role)
    ensures r == Anonymous <==> session.None?
    ensures r == Admin <==> session.Some? && RoleOf(session) == "ADMIN"
    ensures r == Teacher <==> session.Some? && RoleOf(session) == "TEACHER"
    ensures r == Student <==> session.Some? && RoleOf(session) == "STUDENT"
  {
    if session.None? then Anonymous
    else match RoleOf(session)
      case "ADMIN" => Admin
      case "TEACHER" => Teacher
      case "STUDENT" => Student
      case _ => Unrecognised
  }

  predicate SegMatches(s: Seg, segment: string)
  {
    match s
    case Lit(name) => segment == name
    case Param => segment != ""
  }

  /** A pattern matches a path of the same length whose segments match one by one. */
  predicate Matches(pattern: seq<Seg>, path: Path)
  {
    |pattern| == |path| && MatchesFrom(pattern, path)
  }

  /** The segments of two sequences of equal length match pairwise. */
  predicate MatchesFrom(pattern: seq<Seg>, path: Path)
    requires |pattern| == |path|
  {
    pattern == [] || (SegMatches(pattern[0], path[0]) && MatchesFrom(pattern[1..], path[1..]))
  }

  const PublicRoutes: seq<Route> := [
    Route([], Landing),
    Route([Lit("courses")], Catalog),
    Route([Lit("course"), Param, Lit("preview")], Preview)]

  const AuthRoutes: seq<Route> := [
    Route([Lit("login")], LoginScreen),
    Route([Lit("register")], RegisterScreen)]

  const ProfileRoute: Route := Route([Lit("profile")], ProfileScreen)

  const AdminRoutes: seq<Route> := [
    Route([Lit("registerteacher")], RegisterTeacherScreen),
    Route([Lit("admin"), Lit("users")], UsersScreen),
    Route([Lit("admin"), Lit("categories")], CategoriesScreen)]

  const TeacherRoutes: seq<Route> := [
    Route([Lit("teacher"), Lit("courses")], TeacherCoursesScreen),
    Route([Lit("teacher"), Lit("course"), Param, Lit("content")], ContentEditorScreen),
    Route([Lit("teacher"), Lit("course"), Param, Lit("students")], EnrolledStudentsScreen)]

  const StudentRoutes: seq<Route> := [
    Route([Lit("student"), Lit("my-courses")], MyCoursesScreen),
    Route([Lit("student"), Lit("course"), Param, Lit("view")], ViewerScreen),
    Route([Lit("test")], TestScreen)]

  function RoleRoutes(r: Role): seq<Route>
  {
    match r
    case Admin => AdminRoutes
    case Teacher => TeacherRoutes
    case Student => StudentRoutes
    case _ => []
  }

  /** The routes registered for a session, before the final catch-all. */
  function Routes(session: Option<SessionData>): seq<Route>
  {
    PublicRoutes
    + (if session.None? then AuthRoutes else [ProfileRoute] + RoleRoutes(ClassifyRole(session)))
  }

  /** The first route whose pattern matches the path. */
  function Lookup(rs: seq<Route>, path: Path): Option<Screen>
  {
    if rs == [] then None
    else if Matches(rs[0].pattern, path) then Some(rs[0].screen)
    else Lookup(rs[1..], path)
  }

  /** A found screen belongs to a route of the list whose pattern matches; nothing found means no route matches. */
  lemma {:induction false} LookupFound(rs: seq<Route>, path: Path)
    ensures Lookup(rs, path).Some? ==>
      exists i | 0 <= i < |rs| :: rs[i].screen == Lookup(rs, path).value && Matches(rs[i].pattern, path)
    ensures Lookup(rs, path).None? ==> forall i | 0 <= i < |rs| :: !Matches(rs[i].pattern, path)
  {
    if rs != [] && !Matches(rs[0].pattern, path) {
      LookupFound(rs[1..], path);
      assert forall i | 1 <= i < |rs| :: rs[i] == rs[1..][i - 1];
      if Lookup(rs, path).Some? {
        var j :| 0 <= j < |rs[1..]| && rs[1..][j].screen == Lookup(rs, path).value && Matches(rs[1..][j].pattern, path);
        assert rs[j + 1] == rs[1..][j];
      }
    }
  }

  lemma {:induction false} LookupAppend(a: seq<Route>, b: seq<Route>, path: Path)
    ensures Lookup(a + b, path) == if Lookup(a, path).Some? then Lookup(a, path) else Lookup(b, path)
  {
    if a == [] {
      assert a + b == b;
    } else {
      assert (a + b)[0] == a[0] && (a + b)[1..] == a[1..] + b;
      LookupAppend(a[1..], b, path);
    }
  }

  /** What the router renders: a registered screen, or the catch-all redirect to "/". */
  datatype Element = Show(screen: Screen) | RedirectHome

  function Resolve(session: Option<SessionData>, path: Path): Element
  {
    match Lookup(Routes(session), path)
    case Some(s) => Show(s)
    case None => RedirectHome
  }

  /** Where a screen is registered: for everyone, only without a session, for every session, or for one role. */
  predicate Available(session: Option<SessionData>, s: Screen)
  {
    match s
    case Landing | Catalog | Preview => true
    case LoginScreen | RegisterScreen => session.None?
    case ProfileScreen => session.Some?
    case RegisterTeacherScreen | UsersScreen | CategoriesScreen => ClassifyRole(session) == Admin
    case TeacherCoursesScreen | ContentEditorScreen | EnrolledStudentsScreen => ClassifyRole(session) == Teacher
    case MyCoursesScreen | ViewerScreen | TestScreen => ClassifyRole(session) == Student
  }

  /** A path that reaches a screen whenever it is available, parameters filled with "1". */
  function SamplePath(s: Screen): Path
  {
    match s
    case Landing => []
    case Catalog => ["courses"]
    case Preview => ["course", "1", "preview"]
    case LoginScreen => ["login"]
    case RegisterScreen => ["register"]
    case ProfileScreen => ["profile"]
    case RegisterTeacherScreen => ["registerteacher"]
    case UsersScreen => ["admin", "users"]
    case CategoriesScreen => ["admin", "categories"]
    case TeacherCoursesScreen => ["teacher", "courses"]
    case ContentEditorScreen => ["teacher", "course", "1", "content"]
    case EnrolledStudentsScreen => ["teacher", "course", "1", "students"]
    case MyCoursesScreen => ["student", "my-courses"]
    case ViewerScreen => ["student", "course", "1", "view"]
    case TestScreen => ["test"]
  }

  lemma RouteScreensAvailable(session: Option<SessionData>, i: nat)
    requires i < |Routes(session)|
    ensures Available(session, Routes(session)[i].screen)
  {
    var rs := Routes(session);
    if i >= |PublicRoutes| {
      var rest := if session.None? then AuthRoutes else [ProfileRoute] + RoleRoutes(ClassifyRole(session));
      assert rs[i] == rest[i - |PublicRoutes|];
    }
  }

  /**
   * The sample path of each screen is matched by that screen's route and, when the screen is
   * not public, by no public route and not by the profile route.
   */
  lemma PublicSamples(s: Screen)
    requires s in {Landing, Catalog, Preview}
    ensures Lookup(PublicRoutes, SamplePath(s)) == Some(s)
  {
    match s
    case Landing =>
      assert Lookup(PublicRoutes, SamplePath(Landing)) == Some(Landing);
    case Catalog =>
      assert Lookup(PublicRoutes, SamplePath(Catalog)) == Some(Catalog);
    case Preview =>
      assert Lookup(PublicRoutes, SamplePath(Preview)) == Some(Preview);
  }

  lemma AuthSamples(s: Screen)
    requires s in {LoginScreen, RegisterScreen}
    ensures Lookup(PublicRoutes, SamplePath(s)) == None
    ensures Lookup(AuthRoutes, SamplePath(s)) == Some(s)
  {
    match s
    case LoginScreen =>
      assert Lookup(PublicRoutes, SamplePath(LoginScreen)) == None;
      assert Lookup(AuthRoutes, SamplePath(LoginScreen)) == Some(LoginScreen);
    case RegisterScreen =>
      assert Lookup(PublicRoutes, SamplePath(RegisterScreen)) == None;
      assert Lookup(AuthRoutes, SamplePath(RegisterScreen)) == Some(RegisterScreen);
  }

  lemma AdminSamples(s: Screen)
    requires s in {RegisterTeacherScreen, UsersScreen, CategoriesScreen}
    ensures Lookup(PublicRoutes, SamplePath(s)) == None
    ensures Lookup([ProfileRoute], SamplePath(s)) == None
    ensures Lookup(AdminRoutes, SamplePath(s)) == Some(s)
  {
    AdminSamplesMissShared(s);
    match s
    case RegisterTeacherScreen => assert Lookup(AdminRoutes, SamplePath(RegisterTeacherScreen)) == Some(RegisterTeacherScreen);
    case UsersScreen => assert Lookup(AdminRoutes, SamplePath(UsersScreen)) == Some(UsersScreen);
    case CategoriesScreen => assert Lookup(AdminRoutes, SamplePath(CategoriesScreen)) == Some(CategoriesScreen);
  }

  lemma AdminSamplesMissShared(s: Screen)
    requires s in {RegisterTeacherScreen, UsersScreen, CategoriesScreen}
    ensures Lookup(PublicRoutes, SamplePath(s)) == None
    ensures Lookup([ProfileRoute], SamplePath(s)) == None
  {
    match s
    case RegisterTeacherScreen =>
      assert Lookup(PublicRoutes, SamplePath(RegisterTeacherScreen)) == None;
      assert Lookup([ProfileRoute], SamplePath(RegisterTeacherScreen)) == None;
    case UsersScreen =>
      assert Lookup(PublicRoutes, SamplePath(UsersScreen)) == None;
      assert Lookup([ProfileRoute], SamplePath(UsersScreen)) == None;
    case CategoriesScreen =>
      assert Lookup(PublicRoutes, SamplePath(CategoriesScreen)) == None;
      assert Lookup([ProfileRoute], SamplePath(CategoriesScreen)) == None;
  }

  lemma TeacherSamples(s: Screen)
    requires s in {TeacherCoursesScreen, ContentEditorScreen, EnrolledStudentsScreen}
    ensures Lookup(PublicRoutes, SamplePath(s)) == None
    ensures Lookup([ProfileRoute], SamplePath(s)) == None
    ensures Lookup(TeacherRoutes, SamplePath(s)) == Some(s)
  {
    TeacherSamplesMissShared(s);
    match s
    case TeacherCoursesScreen => TeacherCoursesSample();
    case ContentEditorScreen => ContentEditorSample();
    case EnrolledStudentsScreen => EnrolledStudentsSample();
  }

  lemma TeacherCoursesSample()
    ensures Lookup(TeacherRoutes, SamplePath(TeacherCoursesScreen)) == Some(TeacherCoursesScreen)
  {
    assert Matches(TeacherRoutes[0].pattern, ["teacher", "courses"]);
  }

  lemma ContentEditorSample()
    ensures Lookup(TeacherRoutes, SamplePath(ContentEditorScreen)) == Some(ContentEditorScreen)
  {
    var p: Path := ["teacher", "course", "1", "content"];
    assert !Matches(TeacherRoutes[0].pattern, p);
    assert Matches(TeacherRoutes[1].pattern, p);
  }

  lemma EnrolledStudentsSample()
    ensures Lookup(TeacherRoutes, SamplePath(EnrolledStudentsScreen)) == Some(EnrolledStudentsScreen)
  {
    var p: Path := ["teacher", "course", "1", "students"];
    assert !Matches(TeacherRoutes[0].pattern, p);
    assert !Matches(TeacherRoutes[1].pattern, p);
    assert TeacherRoutes[1..][1..] == TeacherRoutes[2..];
    assert Matches(TeacherRoutes[2].pattern, p);
  }

  lemma TeacherSamplesMissShared(s: Screen)
    requires s in {TeacherCoursesScreen, ContentEditorScreen, EnrolledStudentsScreen}
    ensures Lookup(PublicRoutes, SamplePath(s)) == None
    ensures Lookup([ProfileRoute], SamplePath(s)) == None
  {
    match s
    case TeacherCoursesScreen =>
      assert Lookup(PublicRoutes, SamplePath(TeacherCoursesScreen)) == None;
      assert Lookup([ProfileRoute], SamplePath(TeacherCoursesScreen)) == None;
    case ContentEditorScreen =>
      assert Lookup(PublicRoutes, SamplePath(ContentEditorScreen)) == None;
      assert Lookup([ProfileRoute], SamplePath(ContentEditorScreen)) == None;
    case EnrolledStudentsScreen =>
      assert Lookup(PublicRoutes, SamplePath(EnrolledStudentsScreen)) == None;
      assert Lookup([ProfileRoute], SamplePath(EnrolledStudentsScreen)) == None;
  }

  lemma StudentSamples(s: Screen)
    requires s in {MyCoursesScreen, ViewerScreen, TestScreen}
    ensures Lookup(PublicRoutes, SamplePath(s)) == None
    ensures Lookup([ProfileRoute], SamplePath(s)) == None
    ensures Lookup(StudentRoutes, SamplePath(s)) == Some(s)
  {
    StudentSamplesMissShared(s);
    match s
    case MyCoursesScreen => MyCoursesSample();
    case ViewerScreen => ViewerSample();
    case TestScreen => TestSample();
  }

  lemma MyCoursesSample()
    ensures Lookup(StudentRoutes, SamplePath(MyCoursesScreen)) == Some(MyCoursesScreen)
  {
    assert Matches(StudentRoutes[0].pattern, ["student", "my-courses"]);
  }

  lemma ViewerSample()
    ensures Lookup(StudentRoutes, SamplePath(ViewerScreen)) == Some(ViewerScreen)
  {
    var p: Path := ["student", "course", "1", "view"];
    assert !Matches(StudentRoutes[0].pattern, p);
    assert Matches(StudentRoutes[1].pattern, p);
  }

  lemma TestSample()
    ensures Lookup(StudentRoutes, SamplePath(TestScreen)) == Some(TestScreen)
  {
    var p: Path := ["test"];
    assert !Matches(StudentRoutes[0].pattern, p);
    assert !Matches(StudentRoutes[1].pattern, p);
    assert StudentRoutes[1..][1..] == StudentRoutes[2..];
    assert Matches(StudentRoutes[2].pattern, p);
  }

  lemma StudentSamplesMissShared(s: Screen)
    requires s in {MyCoursesScreen, ViewerScreen, TestScreen}
    ensures Lookup(PublicRoutes, SamplePath(s)) == None
    ensures Lookup([ProfileRoute], SamplePath(s)) == None
  {
    match s
    case MyCoursesScreen =>
      assert Lookup(PublicRoutes, SamplePath(MyCoursesScreen)) == None;
      assert Lookup([ProfileRoute], SamplePath(MyCoursesScreen)) == None;
    case ViewerScreen =>
      assert Lookup(PublicRoutes, SamplePath(ViewerScreen)) == None;
      assert Lookup([ProfileRoute], SamplePath(ViewerScreen)) == None;
    case TestScreen =>
      assert Lookup(PublicRoutes, SamplePath(TestScreen)) == None;
      assert Lookup([ProfileRoute], SamplePath(TestScreen)) == None;
  }

  lemma ProfileSample()
    ensures Lookup(PublicRoutes, SamplePath(ProfileScreen)) == None
    ensures Lookup([ProfileRoute], SamplePath(ProfileScreen)) == Some(ProfileScreen)
  {
  }

  lemma SamplePathResolves(session: Option<SessionData>, s: Screen)
    requires Available(session, s)
    ensures Resolve(session, SamplePath(s)) == Show(s)
  {
    var p := SamplePath(s);
    var role := ClassifyRole(session);
    var rest := if session.None? then AuthRoutes else [ProfileRoute] + RoleRoutes(role);
    LookupAppend(PublicRoutes, rest, p);
    if s in {Landing, Catalog, Preview} {
      PublicSamples(s);
    } else if s in {LoginScreen, RegisterScreen} {
      AuthSamples(s);
    } else {
      LookupAppend([ProfileRoute], RoleRoutes(role), p);
      if s == ProfileScreen {
        ProfileSample();
      } else if role == Admin {
        AdminSamples(s);
      } else if role == Teacher {
        TeacherSamples(s);
      } else {
        StudentSamples(s);
      }
    }
  }

  /**
   * A screen can be reached by some path exactly when it is available to the session:
   * "/login" and "/register" only without a session, "/profile" for every session, and each
   * role's group of screens only when the role string equals that role's name.
   */
  lemma ExposedIffAvailable(session: Option<SessionData>, s: Screen)
    ensures (exists path :: Resolve(session, path) == Show(s)) <==> Available(session, s)
  {
    if exists path :: Resolve(session, path) == Show(s) {
      var path :| Resolve(session, path) == Show(s);
      LookupFound(Routes(session), path);
      var i :| 0 <= i < |Routes(session)| && Routes(session)[i].screen == s && Matches(Routes(session)[i].pattern, path);
      RouteScreensAvailable(session, i);
    }
    if Available(session, s) {
      SamplePathResolves(session, s);
    }
  }

  /** "/", "/courses" and "/course/:courseId/preview" exist for every session. */
  lemma PublicRoutesAlwaysExist(session: Option<SessionData>, courseId: string)
    requires courseId != ""
    ensures Resolve(session, []) == Show(Landing)
    ensures Resolve(session, ["courses"]) == Show(Catalog)
    ensures Resolve(session, ["course", courseId, "preview"]) == Show(Preview)
  {
    var rest := if session.None? then AuthRoutes else [ProfileRoute] + RoleRoutes(ClassifyRole(session));
    var preview: Path := ["course", courseId, "preview"];
    assert Lookup(PublicRoutes, []) == Some(Landing);
    assert Lookup(PublicRoutes, ["courses"]) == Some(Catalog) by {
      assert !Matches(PublicRoutes[0].pattern, ["courses"]);
    }
    assert Lookup(PublicRoutes, preview) == Some(Preview) by {
      var pattern := PublicRoutes[2].pattern;
      assert pattern[1..] == [Param, Lit("preview")] && pattern[1..][1..] == [Lit("preview")];
      assert preview[1..] == [courseId, "preview"] && preview[1..][1..] == ["preview"];
      assert Matches(pattern[1..][1..], preview[1..][1..]);
      assert Matches(pattern, preview);
      assert !Matches(PublicRoutes[1].pattern, preview) by {
        assert preview[1..][1..] != [];
      }
      var tail := PublicRoutes[1..];
      assert tail[0] == PublicRoutes[1] && tail[1..] == [PublicRoutes[2]];
      assert Lookup(tail[1..], preview) == Some(Preview);
      assert Lookup(tail, preview) == Some(Preview);
    }
    LookupAppend(PublicRoutes, rest, []);
    LookupAppend(PublicRoutes, rest, ["courses"]);
    LookupAppend(PublicRoutes, rest, preview);
  }

  /** What the element at "/" does. */
  datatype LandingAction = ShowCatalog | RedirectTo(target: Path, clearSession: bool)

  /** `LandingRedirect`: the catalog without a session, the role's home page, or log out. */
  function LandingRedirect(session: Option<SessionData>): (a: LandingAction)
    ensures a == ShowCatalog <==> session.None?
    ensures a.RedirectTo? && a.clearSession <==> ClassifyRole(session) == Unrecognised
    ensures ClassifyRole(session) == Admin ==> a == RedirectTo(["admin", "users"], false)
    ensures ClassifyRole(session) == Teacher ==> a == RedirectTo(["teacher", "courses"], false)
    ensures ClassifyRole(session) == Student ==> a == RedirectTo(["student", "my-courses"], false)
    ensures ClassifyRole(session) == Unrecognised ==> a.target == ["login"]
  {
    match ClassifyRole(session)
    case Anonymous => ShowCatalog
    case Admin => RedirectTo(["admin", "users"], false)
    case Teacher => RedirectTo(["teacher", "courses"], false)
    case Student => RedirectTo(["student", "my-courses"], false)
    case Unrecognised => RedirectTo(["login"], true)
  }

  /** Every landing redirect of a recognised role goes to a screen that role can see. */
  lemma LandingTargetsAreRegistered(session: Option<SessionData>)
    requires ClassifyRole(session) in {Admin, Teacher, Student}
    ensures LandingRedirect(session).RedirectTo?
    ensures Resolve(session, LandingRedirect(session).target).Show?
  {
    match ClassifyRole(session)
    case Admin => SamplePathResolves(session, UsersScreen);
    case Teacher => SamplePathResolves(session, TeacherCoursesScreen);
    case Student => SamplePathResolves(session, MyCoursesScreen);
  }

  datatype NavBarKind = PrivateNavBar | PublicNavBar

  /** `session ? <NavBar /> : <PublicNavBar />` */
  function NavBarFor(session: Option<SessionData>): (k: NavBarKind)
    ensures k == PrivateNavBar <==> session.Some?
  {
    if session.Some? then PrivateNavBar else PublicNavBar
  }

  /** One step of the browser on a path: render a screen, or go elsewhere (possibly clearing the session). */
  datatype Step = Rendered(screen: Screen) | Goto(target: Path)

  /** Visiting a path with the route table computed from what storage currently holds. */
  function Visit(st: Stored, path: Path): (Stored, Step)
  {
    var session := ReadSession(st);
    match Resolve(session, path)
    case RedirectHome => (st, Goto([]))
    case Show(Landing) =>
      (match LandingRedirect(session)
       case ShowCatalog => (st, Rendered(Catalog))
       case RedirectTo(t, clear) => (if clear then Absent else st, Goto(t)))
    case Show(s) => (st, Rendered(s))
  }

  /**
   * The catch-all: a path is sent back to "/" exactly when no route of the session's table
   * matches it, and then storage is left as it was.
   */
  lemma {:induction false} UnregisteredGoesHome(st: Stored, path: Path)
    ensures Resolve(ReadSession(st), path) == RedirectHome
      <==> forall i | 0 <= i < |Routes(ReadSession(st))| :: !Matches(Routes(ReadSession(st))[i].pattern, path)
    ensures Resolve(ReadSession(st), path) == RedirectHome ==> Visit(st, path) == (st, Goto([]))
  {
    LookupFound(Routes(ReadSession(st)), path);
  }

  /** With a session whose role is not one of the three names, "/admin/users" is unregistered and leads back to "/". */
  lemma UnknownRoleBouncedFromAdmin(s: SessionData)
    requires ClassifyRole(Some(s)) == Unrecognised
    ensures Visit(Holds(s), ["admin", "users"]) == (Holds(s), Goto([]))
  {
    var p: Path := ["admin", "users"];
    LookupAppend(PublicRoutes, [ProfileRoute], p);
    assert [ProfileRoute] + RoleRoutes(Unrecognised) == [ProfileRoute];
    AdminSamplesMissShared(UsersScreen);
  }

  /** With a session whose role is not one of the three names, "/" clears storage and goes to "/login". */
  lemma UnknownRoleLogsOut(s: SessionData)
    requires ClassifyRole(Some(s)) == Unrecognised
    ensures Visit(Holds(s), []) == (Absent, Goto(["login"]))
  {
    PublicRoutesAlwaysExist(Some(s), "1");
  }
}
