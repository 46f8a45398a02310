/** The navigation bar shown to a signed-in user: greeting, role menu and logout. */
module NavBar {
  import opened Common
  import opened Session
  import opened Router

  /** One entry of the menu: its label (`title`), its icon and the path its command navigates to. */
  datatype MenuItem = MenuItem(title: string, icon: string, target: Path)

  const AdminMenu: seq<MenuItem> := [
    MenuItem("Gestionar Usuarios", "pi pi-users", ["admin", "users"]),
    MenuItem("Gestionar Categorías", "pi pi-tags", ["admin", "categories"]),
    MenuItem("Registrar Profesor", "pi pi-user-plus", ["registerteacher"])]

  const TeacherMenu: seq<MenuItem> := [
    MenuItem("Mis Cursos", "pi pi-book", ["teacher", "courses"])]

  const StudentMenu: seq<MenuItem> := [
    MenuItem("Catálogo de Cursos", "pi pi-shopping-cart", ["courses"]),
    MenuItem("Mis Cursos", "pi pi-book", ["student", "my-courses"]),
    MenuItem("Mi Test", "pi pi-file-edit", ["test"])]

  /** The menu of a role string, compared exactly with the three role names. */
  function MenuFor(role: string): seq<MenuItem>
  {
    (if role == "ADMIN" then AdminMenu else [])
    + (if role == "TEACHER" then TeacherMenu else [])
    + (if role == "STUDENT" then StudentMenu else [])
  }

  /** `getMenuItems`: an empty list extended by the block of each role the string equals. */
  method GetMenuItems(role: string) returns (items: seq<MenuItem>)
    ensures items == MenuFor(role)
  {
    items := [];
    if role == "ADMIN" {
      items := items + AdminMenu;
    }
    if role == "TEACHER" {
      items := items + TeacherMenu;
    }
    if role == "STUDENT" {
      items := items + StudentMenu;
    }
  }

  /** Only the three role names get a menu, and each gets its own block of entries. */
  lemma MenuForRoles(role: string)
    ensures MenuFor(role) == [] <==> role !in {"ADMIN", "TEACHER", "STUDENT"}
    ensures role == "ADMIN" ==> MenuFor(role) == AdminMenu
    ensures role == "TEACHER" ==> MenuFor(role) == TeacherMenu
    ensures role == "STUDENT" ==> MenuFor(role) == StudentMenu
  {
  }

  /** Every menu entry of a session's role leads to a path the router registers for that session. */
  lemma MenuTargetsRegistered(session: Option<SessionData>, item: MenuItem)
    requires item in MenuFor(RoleOf(session))
    ensures Resolve(session, item.target).Show?
  {
    var role := RoleOf(session);
    MenuForRoles(role);
    assert session.Some? by {
      assert RoleOf(None) == "";
    }
    if role == "ADMIN" {
      AdminMenuRegistered(session, item);
    } else if role == "TEACHER" {
      assert item == TeacherMenu[0];
      SamplePathResolves(session, TeacherCoursesScreen);
    } else {
      StudentMenuRegistered(session, item);
    }
  }

  lemma AdminMenuRegistered(session: Option<SessionData>, item: MenuItem)
    requires ClassifyRole(session) == Admin && item in AdminMenu
    ensures Resolve(session, item.target).Show?
  {
    if item == AdminMenu[0] {
      SamplePathResolves(session, UsersScreen);
    } else if item == AdminMenu[1] {
      SamplePathResolves(session, CategoriesScreen);
    } else {
      assert item == AdminMenu[2];
      SamplePathResolves(session, RegisterTeacherScreen);
    }
  }

  lemma StudentMenuRegistered(session: Option<SessionData>, item: MenuItem)
    requires ClassifyRole(session) == Student && item in StudentMenu
    ensures Resolve(session, item.target).Show?
  {
    if item == StudentMenu[0] {
      SamplePathResolves(session, Catalog);
    } else if item == StudentMenu[1] {
      SamplePathResolves(session, MyCoursesScreen);
    } else {
      assert item == StudentMenu[2];
      SamplePathResolves(session, TestScreen);
    }
  }

  /** `session?.user?.name || 'Usuario'` */
  function DisplayName(session: Option<SessionData>): (name: string)
    ensures name != ""
    ensures name == "Usuario" <==>
      (session.None? || session.value.user.None? || !Truthy(session.value.user.value.name)
       || session.value.user.value.name.value == "Usuario")
    ensures session.Some? && session.value.user.Some? && Truthy(session.value.user.value.name)
      ==> name == session.value.user.value.name.value
  {
    if session.Some? && session.value.user.Some? then OrDefault(session.value.user.value.name, "Usuario")
    else "Usuario"
  }

  /** What the bar renders: nothing, or the greeting and the menu. */
  datatype NavBarView = Hidden | Bar(userName: string, items: seq<MenuItem>)

  /** Rendering the bar from storage: nothing without a session. */
  method Render(st: Stored) returns (view: NavBarView)
    ensures view.Hidden? <==> !st.Holds?
    ensures view.Bar? ==> view.userName == DisplayName(Some(st.session))
    ensures view.Bar? ==> view.items == MenuFor(RoleOf(Some(st.session)))
  {
    var session := ReadSession(st);
    if session.None? {
      return Hidden;
    }
    var items := GetMenuItems(RoleOf(session));
    view := Bar(DisplayName(session), items);
  }

  /** `handleLogout`: forget the session and load "/login". */
  method HandleLogout(store: SessionStore) returns (target: Path)
    modifies store
    ensures store.stored == Absent
    ensures target == ["login"]
  {
    store.Remove();
    target := ["login"];
  }

  /** After logging out, "/login" is registered again. */
  lemma LogoutReachesLogin()
    ensures Resolve(ReadSession(Absent), ["login"]) == Show(LoginScreen)
  {
    SamplePathResolves(None, LoginScreen);
  }
}
