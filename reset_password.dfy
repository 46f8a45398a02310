/** The page that sets a new password from the token of a recovery link. */
module ResetPassword {
  import opened Common
  import opened Validators

  const NoToken := Toast(ErrorToast, "Error", "No se proporcionó un token de recuperación en la URL.")
  const Mismatch := Toast(ErrorToast, "Error de Validación", "Las contraseñas no coinciden.")
  const Weak := Toast(WarnToast, "Contraseña Débil", "La contraseña debe tener al menos 8 caracteres, mayúscula, minúscula, número y símbolo.")
  const ResetDone := Toast(SuccessToast, "Éxito", "Tu contraseña ha sido restablecida. Serás redirigido para iniciar sesión.")
  const LinkExpired := Toast(ErrorToast, "Error", "El enlace de recuperación es inválido o ha expirado. Por favor, solicita uno nuevo.")

  /** The body of the reset request. */
  datatype ResetData = ResetData(token: string, newPassword: string)

  class ResetPasswordPage {
    /** The `token` query parameter, if present. */
    const token: Option<string>
    var newPassword: string
    var confirmPassword: string
    var loading: bool
    var isValidToken: bool
    var toasts: seq<Toast>

    /** Mounting the page: a missing or empty token marks the link invalid at once. */
    constructor (query: Option<string>)
      ensures token == query && newPassword == "" && confirmPassword == "" && !loading
      ensures isValidToken <==> Truthy(query)
      ensures toasts == if Truthy(query) then [] else [NoToken]
    {
      token := query;
      newPassword, confirmPassword, loading := "", "", false;
      isValidToken, toasts := true, [];
      new;
      if !Truthy(token) {
        isValidToken := false;
        toasts := toasts + [NoToken];
      }
    }

    /**
     * `handleReset`: without a token nothing happens; the passwords must agree and then be
     * strong before the token and the new password are sent. A success schedules "/login";
     * a failure marks the link invalid.
     */
    method HandleReset(reply: Outcome<()>) returns (request: Option<ResetData>, redirect: Option<seq<string>>)
      modifies this
      ensures request.Some? <==> Truthy(token) && old(newPassword) == old(confirmPassword) && StrongPassword(old(newPassword))
      ensures request.Some? ==> request.value == ResetData(token.value, old(newPassword))
      ensures redirect.Some? <==> request.Some? && reply.Ok?
      ensures redirect.Some? ==> redirect.value == ["login"]
      ensures !Truthy(token) ==> toasts == old(toasts)
      ensures Truthy(token) && old(newPassword) != old(confirmPassword) ==> toasts == old(toasts) + [Mismatch]
      ensures Truthy(token) && old(newPassword) == old(confirmPassword) && !StrongPassword(old(newPassword)) ==>
        toasts == old(toasts) + [Weak]
      ensures request.Some? ==> toasts == old(toasts) + [if reply.Ok? then ResetDone else LinkExpired]
      ensures isValidToken == (old(isValidToken) && !(request.Some? && reply.Failed?))
      ensures newPassword == old(newPassword) && confirmPassword == old(confirmPassword)
      ensures loading == (if request.Some? then false else old(loading))
    {
      if !Truthy(token) {
        return None, None;
      }
      if newPassword != confirmPassword {
        toasts := toasts + [Mismatch];
        return None, None;
      }
      if !StrongPassword(newPassword) {
        toasts := toasts + [Weak];
        return None, None;
      }
      loading := true;
      request := Some(ResetData(token.value, newPassword));
      match reply {
        case Ok(_) =>
          toasts := toasts + [ResetDone];
          redirect := Some(["login"]);
        case Failed(_) =>
          toasts := toasts + [LinkExpired];
          isValidToken := false;
          redirect := None;
      }
      loading := false;
    }
  }
}
