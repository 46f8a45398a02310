/** The page that asks for a password-recovery link. */
module RequestReset {
  import opened Common
  import opened Validators

  const InvalidEmail := Toast(WarnToast, "Campo Requerido", "Por favor, ingresa un correo electrónico válido.")
  const Requested := Toast(SuccessToast, "Petición Enviada", "Si el correo existe, recibirás un enlace para restablecer tu contraseña.")
  const RequestFailed := Toast(ErrorToast, "Error", "No se pudo procesar la solicitud. Inténtalo de nuevo más tarde.")

  /** `!email.trim() || !/\S+@\S+\.\S+/.test(email)` */
  predicate Rejected(email: string)
  {
    Trim(email) == [] || !ValidEmail(email)
  }

  /** The blank test is subsumed by the pattern: an address is rejected exactly when the pattern fails. */
  lemma RejectedIffInvalid(email: string)
    ensures Rejected(email) <==> !ValidEmail(email)
  {
    TrimEmptyIffBlank(email);
    if ValidEmail(email) {
      ValidEmailNotBlank(email);
    }
  }

  class RequestResetPage {
    var email: string
    var loading: bool
    var toasts: seq<Toast>

    constructor ()
      ensures email == "" && !loading && toasts == []
    {
      email, loading, toasts := "", false, [];
    }

    /** `handleRequest`: sends the address only when it passes the pattern; a success empties the field. */
    method HandleRequest(reply: Outcome<()>) returns (request: Option<string>)
      modifies this
      ensures request.Some? <==> ValidEmail(old(email))
      ensures request.Some? ==> request.value == old(email)
      ensures request.None? ==> email == old(email) && toasts == old(toasts) + [InvalidEmail]
      ensures request.Some? && reply.Ok? ==> email == "" && toasts == old(toasts) + [Requested]
      ensures request.Some? && reply.Failed? ==> email == old(email) && toasts == old(toasts) + [RequestFailed]
      ensures loading == (if request.Some? then false else old(loading))
    {
      // `Rejected(email)`, which `RejectedIffInvalid` reduces to the pattern test alone
      if !ValidEmail(email) {
        toasts := toasts + [InvalidEmail];
        return None;
      }
      loading := true;
      request := Some(email);
      match reply {
        case Ok(_) =>
          toasts := toasts + [Requested];
          email := "";
        case Failed(_) =>
          toasts := toasts + [RequestFailed];
      }
      loading := false;
    }
  }
}
