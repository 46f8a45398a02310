/** The public sign-up form for students. */
module Register {
  import opened Common
  import opened Validators

  datatype StudentForm = StudentForm(name: string, lastName: string, surname: string, email: string, password: string)

  const EmptyStudentForm := StudentForm("", "", "", "", "")

  /** The body of the sign-up request: the form plus the fixed role. */
  datatype StudentPayload = StudentPayload(form: StudentForm, role: string)

  const MissingFields := Toast(WarnToast, "Advertencia", "Por favor, completa todos los campos obligatorios.")
  const SignedUp := Toast(SuccessToast, "¡Registro Exitoso!", "Serás redirigido para iniciar sesión.")

  /** The only check before sending: name, last name, e-mail and password are not blank; the surname is optional. */
  predicate RequiredFilled(f: StudentForm)
  {
    Trim(f.name) != [] && Trim(f.lastName) != [] && Trim(f.email) != [] && Trim(f.password) != []
  }

  lemma RequiredFilledIffNotBlank(f: StudentForm)
    ensures RequiredFilled(f) <==> !IsBlank(f.name) && !IsBlank(f.lastName) && !IsBlank(f.email) && !IsBlank(f.password)
  {
    TrimEmptyIffBlank(f.name);
    TrimEmptyIffBlank(f.lastName);
    TrimEmptyIffBlank(f.email);
    TrimEmptyIffBlank(f.password);
  }

  /**
   * Unlike the teacher form, the student form sends values no pattern checks: a one-character
   * address or password passes it, although neither is a valid address or a strong password.
   */
  lemma SignUpDoesNotValidate(f: StudentForm)
    requires !IsBlank(f.name) && !IsBlank(f.lastName)
    requires |f.email| == 1 && !IsSpace(f.email[0]) && |f.password| == 1 && !IsSpace(f.password[0])
    ensures RequiredFilled(f)
    ensures !ValidEmail(f.email) && !StrongPassword(f.password)
  {
    RequiredFilledIffNotBlank(f);
    assert !IsBlank(f.email) && !IsBlank(f.password);
  }

  class RegisterPage {
    var form: StudentForm
    var loading: bool
    var toasts: seq<Toast>

    constructor ()
      ensures form == EmptyStudentForm && !loading && toasts == []
    {
      form, loading, toasts := EmptyStudentForm, false, [];
    }

    /**
     * `handleRegister`; `redirect` is the navigation to "/login" that a success schedules
     * three seconds later.
     */
    method HandleRegister(reply: Outcome<()>) returns (request: Option<StudentPayload>, redirect: Option<seq<string>>)
      modifies this
      ensures request.Some? <==> RequiredFilled(old(form))
      ensures request.Some? ==> request.value == StudentPayload(old(form), "STUDENT")
      ensures redirect.Some? <==> request.Some? && reply.Ok?
      ensures redirect.Some? ==> redirect.value == ["login"]
      ensures request.None? ==> form == old(form) && toasts == old(toasts) + [MissingFields]
      ensures request.Some? && reply.Ok? ==> form == EmptyStudentForm && toasts == old(toasts) + [SignedUp]
      ensures request.Some? && reply.Failed? ==>
        form == old(form)
        && toasts == old(toasts) + [Toast(ErrorToast, "Error en el Registro", MessageTextOr(reply.error, "Error al registrar. Revisa los datos."))]
      ensures loading == (if request.Some? then false else old(loading))
    {
      if !RequiredFilled(form) {
        toasts := toasts + [MissingFields];
        return None, None;
      }
      loading := true;
      request := Some(StudentPayload(form, "STUDENT"));
      match reply {
        case Ok(_) =>
          toasts := toasts + [SignedUp];
          form := EmptyStudentForm;
          redirect := Some(["login"]);
        case Failed(e) =>
          toasts := toasts + [Toast(ErrorToast, "Error en el Registro", MessageTextOr(e, "Error al registrar. Revisa los datos."))];
          redirect := None;
      }
      loading := false;
    }
  }
}
