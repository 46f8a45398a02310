/** The dialog that creates or edits a course category. */
module CategoryModal {
  import opened Common
  import opened Validators

  /** A category as the dialog holds it; every key may be missing from what the backend sent. */
  datatype Category = Category(id: Option<int>, name: Option<string>, description: Option<string>, enabled: Option<bool>)

  const NewCategory := Category(None, Some(""), Some(""), Some(true))

  /** `category && category.id`: a category with a truthy (present, non-zero) id. */
  predicate IsEditMode(category: Option<Category>)
  {
    category.Some? && category.value.id.Some? && category.value.id.value != 0
  }

  /** The text a pattern test sees for an optional value: a missing one is converted to "undefined". */
  function PatternInput(s: Option<string>): string
  {
    if s.Some? then s.value else "undefined"
  }

  const NameMessage := "El nombre debe tener entre 3 y 100 caracteres (letras, números, espacios, guiones)."
  const DescriptionMessage := "La descripción contiene caracteres inválidos o excede los 255 caracteres."
  const FixFields := Toast(ErrorToast, "Error de Validación", "Corrige los campos marcados.")

  /**
   * `validate`: the name must match its pattern; the description is checked only when it is
   * truthy. The name is tested against the pattern as written, which admits the backslash.
   */
  function CategoryErrors(c: Category): (errors: map<Field, string>)
    ensures NameField in errors <==> !CategoryNameAsWritten(PatternInput(c.name))
    ensures DescriptionField in errors <==> Truthy(c.description) && !ValidCategoryDescription(c.description.value)
    ensures errors.Keys <= {NameField, DescriptionField}
  {
    var e0: map<Field, string> := map[];
    var e1 := if !CategoryNameAsWritten(PatternInput(c.name)) then e0[NameField := NameMessage] else e0;
    if Truthy(c.description) && !ValidCategoryDescription(c.description.value)
    then e1[DescriptionField := DescriptionMessage] else e1
  }

  /** An empty description is never an error, whatever the name. */
  lemma EmptyDescriptionAccepted(c: Category)
    requires c.description == Some("") || c.description.None?
    ensures DescriptionField !in CategoryErrors(c)
    ensures |CategoryErrors(c)| == 0 <==> CategoryNameAsWritten(PatternInput(c.name))
  {
    if !CategoryNameAsWritten(PatternInput(c.name)) {
      assert NameField in CategoryErrors(c);
    }
  }

  /** A category whose name is missing passes the name test, because it is tested as the text "undefined". */
  lemma MissingNamePasses()
    ensures NameField !in CategoryErrors(Category(Some(1), None, None, None))
  {
    assert CategoryNameAsWritten("undefined");
  }

  /**
   * On a name without a backslash the screen's check is the intended one: the name has an
   * error exactly when the described class of letters, digits, spaces and hyphens rejects it.
   */
  lemma NameCheckIntendedWithoutBackslash(c: Category)
    requires forall i | 0 <= i < |PatternInput(c.name)| :: PatternInput(c.name)[i] != '\\'
    ensures NameField in CategoryErrors(c) <==> !ValidCategoryName(PatternInput(c.name))
  {
    ValidCategoryNameIsWrittenWithoutBackslash(PatternInput(c.name));
  }

  /** A name with a backslash, outside the described class, passes the screen's check and is saved. */
  lemma BackslashNameSaved()
    ensures !ValidCategoryName("a\\b")
    ensures |CategoryErrors(Category(None, Some("a\\b"), Some(""), Some(true)))| == 0
  {
    CategoryNameBackslashAccepted();
    EmptyDescriptionAccepted(Category(None, Some("a\\b"), Some(""), Some(true)));
  }

  /** One input of the dialog and the value it carries. */
  datatype CategoryInput = NameInput(name: string) | DescriptionInput(description: string) | EnabledInput(enabled: bool)

  class CategoryDialog {
    var formData: Category
    var formErrors: map<Field, string>
    var toasts: seq<Toast>

    constructor ()
      ensures formData == NewCategory && formErrors == map[] && toasts == []
    {
      formData, formErrors, toasts := NewCategory, map[], [];
    }

    /** The effect on `[category, visible]`: a copy of the category in edit mode, the defaults otherwise. */
    method Open(category: Option<Category>)
      modifies this
      ensures formData == if IsEditMode(category) then category.value else NewCategory
      ensures formErrors == map[] && toasts == old(toasts)
    {
      formData := if IsEditMode(category) then category.value else NewCategory;
      formErrors := map[];
    }

    /** `handleInputChange`: only the named field takes the new value. */
    method HandleInputChange(input: CategoryInput)
      modifies this
      ensures formData == match input
        case NameInput(v) => old(formData).(name := Some(v))
        case DescriptionInput(v) => old(formData).(description := Some(v))
        case EnabledInput(v) => old(formData).(enabled := Some(v))
      ensures formData.id == old(formData).id
      ensures formErrors == old(formErrors) && toasts == old(toasts)
    {
      match input {
        case NameInput(v) => formData := formData.(name := Some(v));
        case DescriptionInput(v) => formData := formData.(description := Some(v));
        case EnabledInput(v) => formData := formData.(enabled := Some(v));
      }
    }

    /** `handleSaveClick`: the form goes to `onSave` exactly when it has no errors; otherwise a toast. */
    method HandleSaveClick() returns (saved: Option<Category>)
      modifies this
      ensures formErrors == CategoryErrors(formData) && formData == old(formData)
      ensures saved.Some? <==> |CategoryErrors(formData)| == 0
      ensures saved.Some? ==> saved.value == formData && toasts == old(toasts)
      ensures saved.None? ==> toasts == old(toasts) + [FixFields]
    {
      formErrors := CategoryErrors(formData);
      if |formErrors| == 0 {
        saved := Some(formData);
      } else {
        toasts := toasts + [FixFields];
        saved := None;
      }
    }
  }
}
