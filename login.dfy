/** The sign-in form: credential gate, storing the session, and the role-dependent landing page. */
module Login {
  import opened Common
  import opened Session
  import opened Router

  const AdminRole := "ADMIN"
  const StudentRole := "STUDENT"
  const TeacherRole := "TEACHER"

  /** Where a successful sign-in sends the browser, by the upper-cased role string. */
  function LoginTarget(role: string): (t: Option<Path>)
    ensures t.Some? <==> ToUpper(role) == AdminRole || ToUpper(role) == StudentRole || ToUpper(role) == TeacherRole
    ensures ToUpper(role) == AdminRole ==> t == Some(["admin", "users"])
    ensures ToUpper(role) == StudentRole ==> t == Some(["test"])
    ensures ToUpper(role) == TeacherRole ==> t == Some(["teacher", "my-courses"])
  {
    var upper := ToUpper(role);
    if upper == AdminRole then Some(["admin", "users"])
    else if upper == StudentRole then Some(["test"])
    else if upper == TeacherRole then Some(["teacher", "my-courses"])
    else None
  }

  /** "admin" and "ADMIN" both go to "/admin/users". */
  lemma AdminLoginTarget()
    ensures LoginTarget("ADMIN") == LoginTarget("admin") == Some(["admin", "users"])
  {
    ToUpperKeepsUpperAscii(AdminRole);
    UpperCaseAdmin();
  }

  lemma UpperCaseAdmin()
    ensures ToUpper("admin") == AdminRole
  {
    assert ToUpper("admin") == UpperChar('a') + ToUpper("dmin");
    assert ToUpper("dmin") == UpperChar('d') + ToUpper("min");
    assert ToUpper("min") == UpperChar('m') + ToUpper("in");
    assert ToUpper("in") == UpperChar('i') + ToUpper("n");
    assert ToUpper("n") == UpperChar('n') + ToUpper("");
  }

  /** "STUDENT" goes to "/test". */
  lemma StudentLoginTarget()
    ensures LoginTarget("STUDENT") == Some(["test"])
  {
    ToUpperKeepsUpperAscii(StudentRole);
    assert StudentRole != AdminRole;
  }

  /** "TEACHER" goes to "/teacher/my-courses". */
  lemma TeacherLoginTarget()
    ensures LoginTarget("TEACHER") == Some(["teacher", "my-courses"])
  {
    ToUpperKeepsUpperAscii(TeacherRole);
    assert TeacherRole != AdminRole;
    assert TeacherRole != StudentRole by {
      assert TeacherRole[0] != StudentRole[0];
    }
  }

  /** The request body of the sign-in call. */
  datatype Credentials = Credentials(email: string, password: string)

  /** What a sign-in attempt leaves behind: storage, the toast shown, the page loaded, the request sent. */
  datatype LoginEffect = LoginEffect(stored: Stored, toast: Option<Toast>, target: Option<Path>, request: Option<Credentials>)

  const MissingCredentials := Toast(WarnToast, "Advertencia", "Por favor, ingresa tu correo y contraseña.")
  const UnexpectedReply := Toast(ErrorToast, "Error", "Respuesta inesperada del servidor.")
  const NotSecured := Toast(ErrorToast, "Error", "No se pudo asegurar la sesión.")
  const BadUserData := Toast(ErrorToast, "Error", "Los datos del usuario recibidos son incorrectos.")

  function UnknownRole(role: string): Toast
  {
    Toast(ErrorToast, "Error", "Rol \"" + role + "\" no reconocido.")
  }

  const AuthFailedSummary := "Error de Autenticación"
  const InvalidCredentials := "Credenciales inválidas."

  /** The toast of a rejected request: the backend's message, its text, or the default. */
  function AuthFailed(e: HttpError): Toast
  {
    Toast(ErrorToast, AuthFailedSummary, MessageTextOr(e, InvalidCredentials))
  }

  /** After the reply carried data: encrypt and store it, then branch on its role. */
  function AfterData(prior: Stored, data: SessionData, encrypts: bool, request: Credentials): LoginEffect
  {
    if !encrypts then LoginEffect(prior, Some(NotSecured), None, Some(request))
    else
      var role := RoleOf(Some(data));
      if role == "" then LoginEffect(Absent, Some(BadUserData), None, Some(request))
      else
        var t := LoginTarget(role);
        if t.Some? then LoginEffect(Holds(data), None, t, Some(request))
        else LoginEffect(Absent, Some(UnknownRole(role)), None, Some(request))
  }

  /** After the request was sent: the reply decides. */
  function AfterRequest(prior: Stored, reply: Outcome<Option<SessionData>>, encrypts: bool, request: Credentials): LoginEffect
  {
    match reply
    case Failed(e) => LoginEffect(prior, Some(AuthFailed(e)), None, Some(request))
    case Ok(None) => LoginEffect(prior, Some(UnexpectedReply), None, Some(request))
    case Ok(Some(data)) => AfterData(prior, data, encrypts, request)
  }

  /**
   * One submission of the form. `reply` is the outcome of the request (`None` when the
   * response carries no data) and `encrypts` whether encrypting the data succeeded.
   */
  function LoginStep(email: string, password: string, prior: Stored, reply: Outcome<Option<SessionData>>, encrypts: bool): LoginEffect
  {
    if Trim(email) == [] || Trim(password) == [] then
      LoginEffect(prior, Some(MissingCredentials), None, None)
    else
      AfterRequest(prior, reply, encrypts, Credentials(email, password))
  }

  /** What the stored-data step leaves behind, by case. */
  lemma AfterDataFacts(prior: Stored, data: SessionData, encrypts: bool, request: Credentials)
    ensures var eff := AfterData(prior, data, encrypts, request);
      && eff.request == Some(request)
      && (eff.toast.Some? <==> eff.target.None?)
      && (eff.target.Some? <==> encrypts && LoginTarget(RoleOf(Some(data))).Some?)
      && (eff.target.Some? ==> eff.stored == Holds(data) && eff.target == LoginTarget(RoleOf(Some(data))))
      && (encrypts && eff.target.None? ==> eff.stored == Absent)
      && (!encrypts ==> eff.stored == prior)
  {
    if encrypts && RoleOf(Some(data)) == "" {
      assert LoginTarget("").None? by {
        assert ToUpper("") == "";
      }
    }
  }

  /** What the step after the request leaves behind, by case. */
  lemma AfterRequestFacts(prior: Stored, reply: Outcome<Option<SessionData>>, encrypts: bool, request: Credentials)
    ensures var eff := AfterRequest(prior, reply, encrypts, request);
      && eff.request == Some(request)
      && (eff.toast.Some? <==> eff.target.None?)
      && (eff.target.Some? <==> reply.Ok? && reply.value.Some? && encrypts && LoginTarget(RoleOf(reply.value)).Some?)
      && (eff.target.Some? ==> eff.stored == Holds(reply.value.value) && eff.target == LoginTarget(RoleOf(reply.value)))
      && (reply.Ok? && reply.value.Some? && encrypts && eff.target.None? ==> eff.stored == Absent)
      && (eff.stored != prior ==> reply.Ok? && reply.value.Some? && encrypts)
  {
    if reply.Ok? && reply.value.Some? {
      AfterDataFacts(prior, reply.value.value, encrypts, request);
    }
  }

  /** Every submission ends in exactly one of: a toast, or loading a new page. */
  lemma ToastOrNavigation(email: string, password: string, prior: Stored, reply: Outcome<Option<SessionData>>, encrypts: bool)
    ensures var eff := LoginStep(email, password, prior, reply, encrypts);
      eff.toast.Some? <==> eff.target.None?
  {
    if !(Trim(email) == [] || Trim(password) == []) {
      AfterRequestFacts(prior, reply, encrypts, Credentials(email, password));
    }
  }

  /** Nothing is sent unless both fields hold a non-whitespace character. */
  lemma RequestOnlyWithCredentials(email: string, password: string, prior: Stored, reply: Outcome<Option<SessionData>>, encrypts: bool)
    ensures LoginStep(email, password, prior, reply, encrypts).request.Some? <==> !IsBlank(email) && !IsBlank(password)
    ensures LoginStep(email, password, prior, reply, encrypts).request.None? ==>
      LoginStep(email, password, prior, reply, encrypts) == LoginEffect(prior, Some(MissingCredentials), None, None)
  {
    TrimEmptyIffBlank(email);
    TrimEmptyIffBlank(password);
    if !(Trim(email) == [] || Trim(password) == []) {
      AfterRequestFacts(prior, reply, encrypts, Credentials(email, password));
    }
  }

  /**
   * A page is loaded exactly when the reply carried data that could be stored and whose role
   * upper-cases to a known name; the session then stays stored and the page is that role's.
   * When the data was stored but its role is missing or unknown, storage is emptied again.
   */
  lemma NavigationIffRecognisedRole(email: string, password: string, prior: Stored, reply: Outcome<Option<SessionData>>, encrypts: bool)
    ensures var eff := LoginStep(email, password, prior, reply, encrypts);
      eff.target.Some? <==>
        && eff.request.Some? && reply.Ok? && reply.value.Some? && encrypts
        && LoginTarget(RoleOf(reply.value)).Some?
    ensures var eff := LoginStep(email, password, prior, reply, encrypts);
      eff.target.Some? ==> eff.stored == Holds(reply.value.value) && eff.target == LoginTarget(RoleOf(reply.value))
    ensures var eff := LoginStep(email, password, prior, reply, encrypts);
      eff.request.Some? && reply.Ok? && reply.value.Some? && encrypts && eff.target.None? ==> eff.stored == Absent
    ensures var eff := LoginStep(email, password, prior, reply, encrypts);
      eff.stored != prior ==> eff.request.Some? && reply.Ok? && reply.value.Some? && encrypts
  {
    if !(Trim(email) == [] || Trim(password) == []) {
      AfterRequestFacts(prior, reply, encrypts, Credentials(email, password));
    }
  }

  /** The form of the sign-in page. */
  class LoginForm {
    var email: string
    var password: string
    var loading: bool
    var toasts: seq<Toast>

    constructor ()
      ensures email == "" && password == "" && !loading && toasts == []
    {
      email, password, loading, toasts := "", "", false, [];
    }

    /** `handleLogin`; returns the page the browser loads, if any, and the request sent, if any. */
    method HandleLogin(store: SessionStore, reply: Outcome<Option<SessionData>>, encrypts: bool)
      returns (target: Option<Path>, request: Option<Credentials>)
      modifies this, store
      ensures var eff := LoginStep(old(email), old(password), old(store.stored), reply, encrypts);
        && store.stored == eff.stored
        && toasts == old(toasts) + (if eff.toast.Some? then [eff.toast.value] else [])
        && target == eff.target && request == eff.request
      ensures email == old(email) && password == old(password)
      ensures loading == (if request.Some? then false else old(loading))
    {
      if Trim(email) == [] || Trim(password) == [] {
        toasts := toasts + [MissingCredentials];
        return None, None;
      }
      loading := true;
      request := Some(Credentials(email, password));
      target := None;
      match reply {
        case Failed(e) =>
          toasts := toasts + [AuthFailed(e)];
        case Ok(None) =>
          toasts := toasts + [UnexpectedReply];
        case Ok(Some(data)) =>
          if !encrypts {
            toasts := toasts + [NotSecured];
          } else {
            store.Save(data);
            var role := RoleOf(Some(data));
            if role == "" {
              toasts := toasts + [BadUserData];
              store.Remove();
            } else {
              var t := LoginTarget(role);
              if t.Some? {
                target := t;
              } else {
                toasts := toasts + [UnknownRole(role)];
                store.Remove();
              }
            }
          }
      }
      loading := false;
    }
  }

  /**
   * A user whose role is exactly "TEACHER" is sent to "/teacher/my-courses", which the route
   * table does not register: the catch-all returns to "/", which then redirects to
   * "/teacher/courses".
   */
  lemma TeacherLoginDetour(data: SessionData)
    requires RoleOf(Some(data)) == "TEACHER"
    ensures LoginTarget(RoleOf(Some(data))) == Some(["teacher", "my-courses"])
    ensures Visit(Holds(data), ["teacher", "my-courses"]) == (Holds(data), Goto([]))
    ensures Visit(Holds(data), []) == (Holds(data), Goto(["teacher", "courses"]))
  {
    TeacherLoginTarget();
    assert ClassifyRole(Some(data)) == Teacher;
    assert Routes(Some(data)) == PublicRoutes + ([ProfileRoute] + TeacherRoutes);
    TeacherMyCoursesUnregistered();
    assert Resolve(Some(data), ["teacher", "my-courses"]) == RedirectHome;
    PublicRoutesAlwaysExist(Some(data), "1");
  }

  /** No route of a teacher's table matches "/teacher/my-courses". */
  lemma TeacherMyCoursesUnregistered()
    ensures Lookup(PublicRoutes + ([ProfileRoute] + TeacherRoutes), ["teacher", "my-courses"]) == None
  {
    var p: Path := ["teacher", "my-courses"];
    LookupAppend(PublicRoutes, [ProfileRoute] + TeacherRoutes, p);
    LookupAppend([ProfileRoute], TeacherRoutes, p);
    assert Lookup(PublicRoutes, p) == None;
    assert Lookup([ProfileRoute], p) == None;
    assert Lookup(TeacherRoutes, p) == None;
  }

  /** A student is sent to "/test", which is registered for the student role. */
  lemma StudentLoginLandsOnTest(data: SessionData)
    requires RoleOf(Some(data)) == "STUDENT"
    ensures LoginTarget(RoleOf(Some(data))) == Some(["test"])
    ensures Visit(Holds(data), ["test"]) == (Holds(data), Rendered(TestScreen))
  {
    StudentLoginTarget();
    SamplePathResolves(Some(data), TestScreen);
  }

  /**
   * The form accepts a role in any letter case, the route table only the exact upper-case
   * names: a user whose role is "admin" is sent to "/admin/users", which is not registered for
   * them, and "/" then removes the session and sends them to "/login".
   */
  lemma LowerCaseAdminIsLoggedOut(data: SessionData)
    requires RoleOf(Some(data)) == "admin"
    ensures LoginTarget(RoleOf(Some(data))) == Some(["admin", "users"])
    ensures Visit(Holds(data), ["admin", "users"]) == (Holds(data), Goto([]))
    ensures Visit(Holds(data), []) == (Absent, Goto(["login"]))
  {
    AdminLoginTarget();
    assert ClassifyRole(Some(data)) == Unrecognised;
    UnknownRoleBouncedFromAdmin(data);
    UnknownRoleLogsOut(data);
  }
}
