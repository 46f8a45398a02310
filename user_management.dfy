/** The administrator's user table: loading, editing, and enabling or disabling accounts. */
module UserManagement {
  import opened Common
  import opened Session

  /** `user.statusActive ? 'desactivar' : 'habilitar'` */
  function ActionWord(u: User): (w: string)
    ensures w == "desactivar" <==> u.statusActive == Some(true)
    ensures w == "habilitar" <==> u.statusActive != Some(true)
  {
    if u.statusActive == Some(true) then "desactivar" else "habilitar"
  }

  const LoadFailed := Toast(ErrorToast, "Error", "No se pudieron cargar los usuarios.")
  const LoggedUserFailed := Toast(ErrorToast, "Error", "No se pudo obtener el usuario logueado.")
  const Updated := Toast(SuccessToast, "Éxito", "Usuario actualizado correctamente.")
  const UpdateFailed := Toast(ErrorToast, "Error", "No se pudo actualizar el usuario.")
  const OwnAccount := Toast(WarnToast, "Aviso", "No puedes deshabilitar tu propio usuario.")

  function Toggled(action: string): Toast
  {
    Toast(SuccessToast, "Éxito", "Usuario " + action + " correctamente.")
  }

  function ToggleFailed(action: string): Toast
  {
    Toast(ErrorToast, "Error", "No se pudo " + action + " el usuario.")
  }

  /** The two requests the page sends about one account. */
  datatype UserRequest = UpdateUser(userId: Option<int>, data: User) | DeleteUser(userId: Option<int>)

  class UserTable {
    var users: seq<User>
    var loggedUser: Option<User>
    var loading: bool
    var isModalVisible: bool
    var selectedUser: Option<User>
    var toasts: seq<Toast>
    /** How many times the list has been requested. */
    var listFetches: nat

    constructor ()
      ensures users == [] && loggedUser.None? && loading && !isModalVisible && selectedUser.None?
      ensures toasts == [] && listFetches == 0
    {
      users, loggedUser, loading, isModalVisible, selectedUser := [], None, true, false, None;
      toasts, listFetches := [], 0;
    }

    /**
     * `loggedUser && row.id === loggedUser.id`: the row of the signed-in administrator. It is
     * both the `disabled` flag of the row's toggle button and the guard of `toggleUserStatus`.
     */
    predicate IsOwnRow(row: User)
      reads this
    {
      loggedUser.Some? && row.id == loggedUser.value.id
    }

    /** `fetchUsers` with its outcome: the list is replaced on success, a toast otherwise. */
    method FetchUsers(reply: Outcome<seq<User>>)
      modifies this
      ensures users == (if reply.Ok? then reply.value else old(users))
      ensures toasts == old(toasts) + (if reply.Ok? then [] else [LoadFailed])
      ensures !loading && listFetches == old(listFetches) + 1
      ensures loggedUser == old(loggedUser) && isModalVisible == old(isModalVisible) && selectedUser == old(selectedUser)
    {
      loading := true;
      listFetches := listFetches + 1;
      match reply {
        case Ok(list) => users := list;
        case Failed(_) => toasts := toasts + [LoadFailed];
      }
      loading := false;
    }

    /** `fetchLoggedUser` with its outcome. */
    method FetchLoggedUser(reply: Outcome<User>)
      modifies this
      ensures loggedUser == (if reply.Ok? then Some(reply.value) else old(loggedUser))
      ensures toasts == old(toasts) + (if reply.Ok? then [] else [LoggedUserFailed])
      ensures users == old(users) && loading == old(loading) && listFetches == old(listFetches)
      ensures isModalVisible == old(isModalVisible) && selectedUser == old(selectedUser)
    {
      match reply {
        case Ok(u) => loggedUser := Some(u);
        case Failed(_) => toasts := toasts + [LoggedUserFailed];
      }
    }

    /** `handleEdit` */
    method HandleEdit(u: User)
      modifies this
      ensures selectedUser == Some(u) && isModalVisible
      ensures users == old(users) && loggedUser == old(loggedUser) && loading == old(loading)
      ensures toasts == old(toasts) && listFetches == old(listFetches)
    {
      selectedUser := Some(u);
      isModalVisible := true;
    }

    /** `handleSave`: a success closes the dialog and asks for the list again; a failure changes neither. */
    method HandleSave(userId: Option<int>, data: User, reply: Outcome<()>) returns (request: UserRequest)
      modifies this
      ensures request == UpdateUser(userId, data)
      ensures reply.Ok? ==>
        && !isModalVisible && listFetches == old(listFetches) + 1 && loading
        && toasts == old(toasts) + [Updated]
      ensures reply.Failed? ==>
        && isModalVisible == old(isModalVisible) && listFetches == old(listFetches)
        && loading == old(loading) && toasts == old(toasts) + [UpdateFailed]
      ensures users == old(users) && loggedUser == old(loggedUser) && selectedUser == old(selectedUser)
    {
      request := UpdateUser(userId, data);
      match reply {
        case Ok(_) =>
          isModalVisible := false;
          loading := true;
          listFetches := listFetches + 1;
          toasts := toasts + [Updated];
        case Failed(_) =>
          toasts := toasts + [UpdateFailed];
      }
    }

    /**
     * `toggleUserStatus`: on the administrator's own row only a warning; otherwise the
     * confirmation dialog, and when it is accepted the request. A success asks for the list again.
     */
    method ToggleUserStatus(u: User, accepted: bool, reply: Outcome<()>) returns (request: Option<UserRequest>)
      modifies this
      ensures IsOwnRow(u) ==> request.None? && toasts == old(toasts) + [OwnAccount]
      ensures request.Some? <==> !IsOwnRow(u) && accepted
      ensures request.Some? ==> request.value == DeleteUser(u.id)
      ensures !IsOwnRow(u) && !accepted ==> toasts == old(toasts)
      ensures request.Some? ==>
        toasts == old(toasts) + [if reply.Ok? then Toggled(ActionWord(u)) else ToggleFailed(ActionWord(u))]
      ensures listFetches == old(listFetches) + (if request.Some? && reply.Ok? then 1 else 0)
      ensures loading == (if request.Some? && reply.Ok? then true else old(loading))
      ensures users == old(users) && loggedUser == old(loggedUser)
      ensures isModalVisible == old(isModalVisible) && selectedUser == old(selectedUser)
    {
      if loggedUser.Some? && u.id == loggedUser.value.id {
        toasts := toasts + [OwnAccount];
        return None;
      }
      var action := ActionWord(u);
      if !accepted {
        return None;
      }
      request := Some(DeleteUser(u.id));
      match reply {
        case Ok(_) =>
          loading := true;
          listFetches := listFetches + 1;
          toasts := toasts + [Toggled(action)];
        case Failed(_) =>
          toasts := toasts + [ToggleFailed(action)];
      }
    }
  }
}
