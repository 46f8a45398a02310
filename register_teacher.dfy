/** The administrator's form that registers a teacher account. */
module RegisterTeacher {
  import opened Common
  import opened Validators

  datatype TeacherForm = TeacherForm(name: string, lastName: string, surname: string, email: string, phone: string, password: string)

  const EmptyTeacherForm := TeacherForm("", "", "", "", "", "")

  /** The body of the registration request: the form plus the fixed role. */
  datatype TeacherPayload = TeacherPayload(form: TeacherForm, role: string)

  const NameMessage := "El nombre es inválido."
  const LastNameMessage := "El apellido paterno es inválido."
  const SurnameMessage := "El apellido materno es inválido."
  const PhoneMessage := "El teléfono debe tener 10 dígitos."
  const EmailMessage := "El correo no es válido."
  const PasswordMessage := "La contraseña es inválida (mín. 8 caracteres, mayúscula, minúscula, número y símbolo)."

  const FixFields := Toast(ErrorToast, "Error de Validación", "Por favor, corrige los campos marcados.")
  const Registered := Toast(SuccessToast, "Éxito", "Profesor registrado correctamente.")

  /** `validateForm`: one message per field that fails its pattern. */
  function TeacherErrors(f: TeacherForm): (errors: map<Field, string>)
    ensures NameField in errors <==> !ValidPersonName(f.name)
    ensures LastNameField in errors <==> !ValidPersonName(f.lastName)
    ensures SurnameField in errors <==> !ValidPersonName(f.surname)
    ensures PhoneField in errors <==> !ValidPhone(f.phone)
    ensures EmailField in errors <==> !ValidEmail(f.email)
    ensures PasswordField in errors <==> !StrongPassword(f.password)
    ensures errors.Keys <= {NameField, LastNameField, SurnameField, PhoneField, EmailField, PasswordField}
  {
    var e0: map<Field, string> := map[];
    var e1 := if !ValidPersonName(f.name) then e0[NameField := NameMessage] else e0;
    var e2 := if !ValidPersonName(f.lastName) then e1[LastNameField := LastNameMessage] else e1;
    var e3 := if !ValidPersonName(f.surname) then e2[SurnameField := SurnameMessage] else e2;
    var e4 := if !ValidPhone(f.phone) then e3[PhoneField := PhoneMessage] else e3;
    var e5 := if !ValidEmail(f.email) then e4[EmailField := EmailMessage] else e4;
    if !StrongPassword(f.password) then e5[PasswordField := PasswordMessage] else e5
  }

  predicate ValidTeacher(f: TeacherForm)
  {
    ValidPersonName(f.name) && ValidPersonName(f.lastName) && ValidPersonName(f.surname)
    && ValidPhone(f.phone) && ValidEmail(f.email) && StrongPassword(f.password)
  }

  lemma TeacherErrorsEmptyIff(f: TeacherForm)
    ensures |TeacherErrors(f)| == 0 <==> ValidTeacher(f)
  {
    if !ValidTeacher(f) {
      assert TeacherErrors(f) != map[];
    }
  }

  class RegisterTeacherPage {
    var form: TeacherForm
    var loading: bool
    var formErrors: map<Field, string>
    var toasts: seq<Toast>

    constructor ()
      ensures form == EmptyTeacherForm && !loading && formErrors == map[] && toasts == []
    {
      form, loading, formErrors, toasts := EmptyTeacherForm, false, map[], [];
    }

    /**
     * `handleRegister`: nothing is sent while a field is invalid; otherwise the form is sent
     * with the role "TEACHER", and a success empties every field.
     */
    method HandleRegister(reply: Outcome<()>) returns (request: Option<TeacherPayload>)
      modifies this
      ensures formErrors == TeacherErrors(old(form))
      ensures request.Some? <==> ValidTeacher(old(form))
      ensures request.Some? ==> request.value == TeacherPayload(old(form), "TEACHER")
      ensures request.None? ==> form == old(form) && toasts == old(toasts) + [FixFields]
      ensures request.Some? && reply.Ok? ==> form == EmptyTeacherForm && toasts == old(toasts) + [Registered]
      ensures request.Some? && reply.Failed? ==>
        form == old(form)
        && toasts == old(toasts) + [Toast(ErrorToast, "Error", MessageOr(reply.error, "Error al registrar al profesor."))]
      ensures loading == (if request.Some? then false else old(loading))
    {
      formErrors := map[];
      var errors := TeacherErrors(form);
      TeacherErrorsEmptyIff(form);
      if |errors| > 0 {
        formErrors := errors;
        toasts := toasts + [FixFields];
        return None;
      }
      loading := true;
      request := Some(TeacherPayload(form, "TEACHER"));
      match reply {
        case Ok(_) =>
          toasts := toasts + [Registered];
          form := EmptyTeacherForm;
        case Failed(e) =>
          toasts := toasts + [Toast(ErrorToast, "Error", MessageOr(e, "Error al registrar al profesor."))];
      }
      loading := false;
    }
  }
}
