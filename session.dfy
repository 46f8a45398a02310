/**
 * The client-side session: the record the login response carries, what the browser's local
 * storage holds under the 'user' key (seen through decryption), and the role derived from it.
 */
module Session {
  import opened Common

  datatype Rol = Rol(roleEnum: Option<string>)

  /** The user record inside a session; every key may be missing from what the backend sent. */
  datatype User = User(
    id: Option<int>,
    name: Option<string>,
    lastName: Option<string>,
    surname: Option<string>,
    email: Option<string>,
    phone: Option<string>,
    rol: Option<Rol>,
    statusActive: Option<bool>)

  const NoFields := User(None, None, None, None, None, None, None, None)

  /** `{ token, user }` as stored after login. */
  datatype SessionData = SessionData(token: Option<string>, user: Option<User>)

  /**
   * The 'user' key of local storage as the pages see it: missing, present but not decryptable
   * (decryption fails soft to null), or holding a session.
   */
  datatype Stored = Absent | Undecryptable | Holds(session: SessionData)

  /** `encrypted ? decryptData(encrypted) : null` */
  function ReadSession(st: Stored): (r: Option<SessionData>)
    ensures r.Some? <==> st.Holds?
  {
    if st.Holds? then Some(st.session) else None
  }

  /** `session?.user?.rol?.roleEnum || ''` */
  function RoleOf(session: Option<SessionData>): (role: string)
    ensures role != "" <==>
      && session.Some? && session.value.user.Some? && session.value.user.value.rol.Some?
      && Truthy(session.value.user.value.rol.value.roleEnum)
    ensures role != "" ==> Some(role) == session.value.user.value.rol.value.roleEnum
  {
    if session.Some? && session.value.user.Some? && session.value.user.value.rol.Some?
       && session.value.user.value.rol.value.roleEnum.Some?
    then session.value.user.value.rol.value.roleEnum.value
    else ""
  }

  /** `session?.user?.rol?.roleEnum === 'STUDENT'`, the test the public pages use. */
  predicate IsStudent(session: Option<SessionData>)
  {
    RoleOf(session) == "STUDENT"
  }

  /** `session?.user?.id` */
  function UserIdOf(session: Option<SessionData>): Option<int>
  {
    if session.Some? && session.value.user.Some? then session.value.user.value.id else None
  }

  /** The browser's local storage, reduced to the one key the client uses. */
  class SessionStore {
    var stored: Stored

    constructor (initial: Stored)
      ensures stored == initial
    {
      stored := initial;
    }

    /** `localStorage.setItem('user', encryptData(session))`; decrypting it later gives `session` back. */
    method Save(session: SessionData)
      modifies this
      ensures stored == Holds(session)
    {
      stored := Holds(session);
    }

    /** `localStorage.removeItem('user')` */
    method Remove()
      modifies this
      ensures stored == Absent
    {
      stored := Absent;
    }
  }
}
