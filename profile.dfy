/** The profile page: editing one's own data and changing one's password. */
module Profile {
  import opened Common
  import opened Session
  import opened Validators

  /** The five editable profile fields. */
  datatype ProfileForm = ProfileForm(name: string, lastName: string, surname: string, email: string, phone: string)

  const EmptyProfileForm := ProfileForm("", "", "", "", "")

  datatype ProfileKey = NameKey | LastNameKey | SurnameKey | EmailKey | PhoneKey

  /** `getInitialUser`: the user of the stored session; nothing when storage holds none. */
  function InitialUser(st: Stored): (u: Option<User>)
    ensures st.Holds? ==> u == st.session.user
    ensures !st.Holds? ==> u.None?
  {
    match st
    case Holds(s) => s.user
    case _ => None
  }

  /** The form filled from a user record, each missing or empty field as "". */
  function FormOf(u: User): (f: ProfileForm)
    ensures Truthy(u.name) ==> f.name == u.name.value
    ensures !Truthy(u.name) ==> f.name == ""
    ensures Truthy(u.lastName) ==> f.lastName == u.lastName.value
    ensures !Truthy(u.lastName) ==> f.lastName == ""
    ensures Truthy(u.surname) ==> f.surname == u.surname.value
    ensures !Truthy(u.surname) ==> f.surname == ""
    ensures Truthy(u.email) ==> f.email == u.email.value
    ensures !Truthy(u.email) ==> f.email == ""
    ensures Truthy(u.phone) ==> f.phone == u.phone.value
    ensures !Truthy(u.phone) ==> f.phone == ""
  {
    ProfileForm(OrDefault(u.name, ""), OrDefault(u.lastName, ""), OrDefault(u.surname, ""),
                OrDefault(u.email, ""), OrDefault(u.phone, ""))
  }

  /** `{ ...session.user, ...profileFormData }`: the five fields replaced, the rest kept. */
  function Merge(u: Option<User>, f: ProfileForm): (m: User)
    ensures m.id == (if u.Some? then u.value.id else None)
    ensures m.rol == (if u.Some? then u.value.rol else None)
    ensures m.statusActive == (if u.Some? then u.value.statusActive else None)
    ensures m.name == Some(f.name) && m.lastName == Some(f.lastName) && m.surname == Some(f.surname)
    ensures m.email == Some(f.email) && m.phone == Some(f.phone)
  {
    var base := if u.Some? then u.value else NoFields;
    base.(name := Some(f.name), lastName := Some(f.lastName), surname := Some(f.surname),
          email := Some(f.email), phone := Some(f.phone))
  }

  /** Filling the form from the merged user gives back the form that was saved. */
  lemma FormOfMerge(u: Option<User>, f: ProfileForm)
    ensures FormOf(Merge(u, f)) == f
  {
  }

  /** Saving the profile keeps the session's role, so the routes it can reach stay the same. */
  lemma MergeKeepsRole(token: Option<string>, u: Option<User>, f: ProfileForm)
    ensures RoleOf(Some(SessionData(token, Some(Merge(u, f))))) == RoleOf(Some(SessionData(token, u)))
    ensures UserIdOf(Some(SessionData(token, Some(Merge(u, f))))) == UserIdOf(Some(SessionData(token, u)))
  {
  }

  // The messages of the two error objects.
  const NameMessage := "El nombre solo puede contener letras y espacios (2-30 caracteres)."
  const LastNameMessage := "El apellido paterno solo puede contener letras y espacios (2-30 caracteres)."
  const SurnameMessage := "El apellido materno solo puede contener letras y espacios (2-30 caracteres)."
  const PhoneMessage := "El teléfono debe tener exactamente 10 dígitos."
  const EmailMessage := "El formato del correo no es válido."
  const NewPasswordMessage := "Contraseña inválida. Debe tener al menos 8 caracteres, mayúscula, minúscula, número y símbolo."
  const ConfirmPasswordMessage := "Las contraseñas no coinciden."

  /** `validateProfileForm`: one message per field that fails its pattern. */
  function ProfileErrors(f: ProfileForm): (errors: map<Field, string>)
    ensures NameField in errors <==> !ValidPersonName(f.name)
    ensures LastNameField in errors <==> !ValidPersonName(f.lastName)
    ensures SurnameField in errors <==> !ValidPersonName(f.surname)
    ensures PhoneField in errors <==> !ValidPhone(f.phone)
    ensures EmailField in errors <==> !ValidEmail(f.email)
    ensures errors.Keys <= {NameField, LastNameField, SurnameField, PhoneField, EmailField}
  {
    var e0: map<Field, string> := map[];
    var e1 := if !ValidPersonName(f.name) then e0[NameField := NameMessage] else e0;
    var e2 := if !ValidPersonName(f.lastName) then e1[LastNameField := LastNameMessage] else e1;
    var e3 := if !ValidPersonName(f.surname) then e2[SurnameField := SurnameMessage] else e2;
    var e4 := if !ValidPhone(f.phone) then e3[PhoneField := PhoneMessage] else e3;
    if !ValidEmail(f.email) then e4[EmailField := EmailMessage] else e4
  }

  predicate ValidProfile(f: ProfileForm)
  {
    ValidPersonName(f.name) && ValidPersonName(f.lastName) && ValidPersonName(f.surname)
    && ValidPhone(f.phone) && ValidEmail(f.email)
  }

  /** The profile form has no errors exactly when every field passes. */
  lemma ProfileErrorsEmptyIff(f: ProfileForm)
    ensures |ProfileErrors(f)| == 0 <==> ValidProfile(f)
  {
    var errors := ProfileErrors(f);
    if !ValidProfile(f) {
      assert errors != map[];
    }
  }

  datatype PasswordForm = PasswordForm(newPassword: string, confirmPassword: string)

  /** `validatePasswordForm`: the strength rule on the new password, and equality with the confirmation. */
  function PasswordErrors(f: PasswordForm): (errors: map<Field, string>)
    ensures NewPasswordField in errors <==> !StrongPassword(f.newPassword)
    ensures ConfirmPasswordField in errors <==> f.newPassword != f.confirmPassword
    ensures errors.Keys <= {NewPasswordField, ConfirmPasswordField}
  {
    var e0: map<Field, string> := map[];
    var e1 := if !StrongPassword(f.newPassword) then e0[NewPasswordField := NewPasswordMessage] else e0;
    if f.newPassword != f.confirmPassword then e1[ConfirmPasswordField := ConfirmPasswordMessage] else e1
  }

  lemma PasswordErrorsEmptyIff(f: PasswordForm)
    ensures |PasswordErrors(f)| == 0 <==> StrongPassword(f.newPassword) && f.newPassword == f.confirmPassword
  {
    if !StrongPassword(f.newPassword) || f.newPassword != f.confirmPassword {
      assert PasswordErrors(f) != map[];
    }
  }

  /** The request of a profile update: the path id and the body. */
  datatype ProfileUpdate = ProfileUpdate(userId: Option<int>, body: ProfileForm)

  const ProfileFixFields := Toast(ErrorToast, "Error de Validación", "Corrige los campos de tu perfil.")
  const ProfileSaved := Toast(SuccessToast, "Éxito", "Tu perfil ha sido actualizado.")
  const PasswordFixFields := Toast(ErrorToast, "Error de Validación", "Corrige los campos de contraseña.")
  const PasswordSaved := Toast(SuccessToast, "Éxito", "Contraseña actualizada.")

  /** The storage and toast after a successful update call, from what storage held. */
  function AfterProfileSaved(st: Stored, f: ProfileForm): (Stored, Toast)
  {
    match st
    case Absent => (Absent, ProfileSaved)
    case Holds(s) => (Holds(SessionData(s.token, Some(Merge(s.user, f)))), ProfileSaved)
    // decryptData fails soft to null; reading `.user` of null throws, and the catch shows its fallback
    case Undecryptable => (Undecryptable, Toast(ErrorToast, "Error", "No se pudo actualizar el perfil."))
  }

  class ProfilePage {
    var user: Option<User>
    var profileForm: ProfileForm
    var profileErrors: map<Field, string>
    var profileLoading: bool
    var passwordForm: PasswordForm
    var passwordErrors: map<Field, string>
    var passwordLoading: bool
    var toasts: seq<Toast>

    /** Mounting the page: the user from storage, and the form filled from it. */
    constructor (st: Stored)
      ensures user == InitialUser(st)
      ensures profileForm == if user.Some? then FormOf(user.value) else EmptyProfileForm
      ensures profileErrors == map[] && passwordErrors == map[] && !profileLoading && !passwordLoading
      ensures passwordForm == PasswordForm("", "") && toasts == []
    {
      user := InitialUser(st);
      profileForm := EmptyProfileForm;
      profileErrors := map[];
      profileLoading := false;
      passwordForm := PasswordForm("", "");
      passwordErrors := map[];
      passwordLoading := false;
      toasts := [];
      new;
      if user.Some? {
        profileForm := FormOf(user.value);
      }
    }

    /** `handleProfileInputChange` */
    method SetProfileField(key: ProfileKey, value: string)
      modifies this
      ensures profileForm == match key
        case NameKey => old(profileForm).(name := value)
        case LastNameKey => old(profileForm).(lastName := value)
        case SurnameKey => old(profileForm).(surname := value)
        case EmailKey => old(profileForm).(email := value)
        case PhoneKey => old(profileForm).(phone := value)
      ensures user == old(user) && passwordForm == old(passwordForm) && toasts == old(toasts)
      ensures profileErrors == old(profileErrors) && passwordErrors == old(passwordErrors)
      ensures profileLoading == old(profileLoading) && passwordLoading == old(passwordLoading)
    {
      match key {
        case NameKey => profileForm := profileForm.(name := value);
        case LastNameKey => profileForm := profileForm.(lastName := value);
        case SurnameKey => profileForm := profileForm.(surname := value);
        case EmailKey => profileForm := profileForm.(email := value);
        case PhoneKey => profileForm := profileForm.(phone := value);
      }
    }

    /**
     * `handleUpdateProfile`, shown only when a user was found. With errors nothing is sent;
     * otherwise the update is sent and, when it succeeds, the stored session and the page's
     * user take the five fields of the form.
     */
    method HandleUpdateProfile(store: SessionStore, reply: Outcome<()>) returns (request: Option<ProfileUpdate>)
      requires user.Some?
      modifies this, store
      ensures profileErrors == ProfileErrors(old(profileForm))
      ensures request.Some? <==> ValidProfile(old(profileForm))
      ensures request.Some? ==> request.value == ProfileUpdate(old(user).value.id, old(profileForm))
      ensures request.None? ==>
        store.stored == old(store.stored) && user == old(user) && toasts == old(toasts) + [ProfileFixFields]
      ensures request.Some? && reply.Failed? ==>
        && store.stored == old(store.stored) && user == old(user)
        && toasts == old(toasts) + [Toast(ErrorToast, "Error", MessageOr(reply.error, "No se pudo actualizar el perfil."))]
      ensures request.Some? && reply.Ok? ==>
        && store.stored == AfterProfileSaved(old(store.stored), old(profileForm)).0
        && toasts == old(toasts) + [AfterProfileSaved(old(store.stored), old(profileForm)).1]
        && user == (if old(store.stored).Holds? then Some(Merge(old(store.stored).session.user, old(profileForm))) else old(user))
      ensures profileForm == old(profileForm) && passwordForm == old(passwordForm)
      ensures passwordErrors == old(passwordErrors) && passwordLoading == old(passwordLoading)
      ensures profileLoading == (if request.Some? then false else old(profileLoading))
    {
      profileErrors := map[];
      var errors := ProfileErrors(profileForm);
      ProfileErrorsEmptyIff(profileForm);
      if |errors| > 0 {
        profileErrors := errors;
        toasts := toasts + [ProfileFixFields];
        return None;
      }
      profileLoading := true;
      request := Some(ProfileUpdate(user.value.id, profileForm));
      match reply {
        case Failed(e) =>
          toasts := toasts + [Toast(ErrorToast, "Error", MessageOr(e, "No se pudo actualizar el perfil."))];
        case Ok(_) =>
          var next := AfterProfileSaved(store.stored, profileForm);
          if store.stored.Holds? {
            var updated := Merge(store.stored.session.user, profileForm);
            store.Save(SessionData(store.stored.session.token, Some(updated)));
            user := Some(updated);
          }
          toasts := toasts + [next.1];
      }
      profileLoading := false;
    }

    /** `handlePasswordInputChange` */
    method SetPasswordField(isConfirmation: bool, value: string)
      modifies this
      ensures passwordForm == if isConfirmation then old(passwordForm).(confirmPassword := value)
                              else old(passwordForm).(newPassword := value)
      ensures user == old(user) && profileForm == old(profileForm) && toasts == old(toasts)
      ensures profileErrors == old(profileErrors) && passwordErrors == old(passwordErrors)
      ensures profileLoading == old(profileLoading) && passwordLoading == old(passwordLoading)
    {
      if isConfirmation {
        passwordForm := passwordForm.(confirmPassword := value);
      } else {
        passwordForm := passwordForm.(newPassword := value);
      }
    }

    /**
     * `handleChangePassword`: sends the new password only when it is strong and confirmed;
     * on success the form is emptied.
     */
    method HandleChangePassword(reply: Outcome<()>) returns (request: Option<string>)
      modifies this
      ensures passwordErrors == PasswordErrors(old(passwordForm))
      ensures request.Some? <==> StrongPassword(old(passwordForm).newPassword)
                                 && old(passwordForm).newPassword == old(passwordForm).confirmPassword
      ensures request.Some? ==> request.value == old(passwordForm).newPassword
      ensures request.None? ==> passwordForm == old(passwordForm) && toasts == old(toasts) + [PasswordFixFields]
      ensures request.Some? && reply.Ok? ==> passwordForm == PasswordForm("", "") && toasts == old(toasts) + [PasswordSaved]
      ensures request.Some? && reply.Failed? ==>
        passwordForm == old(passwordForm)
        && toasts == old(toasts) + [Toast(ErrorToast, "Error", MessageOr(reply.error, "No se pudo actualizar la contraseña."))]
      ensures user == old(user) && profileForm == old(profileForm)
      ensures profileErrors == old(profileErrors) && profileLoading == old(profileLoading)
      ensures passwordLoading == (if request.Some? then false else old(passwordLoading))
    {
      passwordErrors := map[];
      var errors := PasswordErrors(passwordForm);
      PasswordErrorsEmptyIff(passwordForm);
      if |errors| > 0 {
        passwordErrors := errors;
        toasts := toasts + [PasswordFixFields];
        return None;
      }
      passwordLoading := true;
      request := Some(passwordForm.newPassword);
      match reply {
        case Ok(_) =>
          toasts := toasts + [PasswordSaved];
          passwordForm := PasswordForm("", "");
        case Failed(e) =>
          toasts := toasts + [Toast(ErrorToast, "Error", MessageOr(e, "No se pudo actualizar la contraseña."))];
      }
      passwordLoading := false;
    }
  }
}
