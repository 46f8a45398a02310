/** The teacher's course-content editor: the document being edited and its two dialogs. */
module ContentEditor {
  import opened Common
  import opened CourseContent

  const NameFailed := Toast(ErrorToast, "Error", "No se pudo cargar el nombre del curso.")
  const ModuleTitleBlank := Toast(ErrorToast, "Error", "El título del módulo no puede estar vacío.")
  const ModuleUpdated := Toast(SuccessToast, "Éxito", "Módulo actualizado.")
  const ModuleAdded := Toast(SuccessToast, "Éxito", "Módulo añadido.")
  const ModuleDeleted := Toast(InfoToast, "Eliminado", "El módulo ha sido eliminado.")
  const LessonTitleBlank := Toast(ErrorToast, "Error", "El título de la lección no puede estar vacío.")
  const LessonUpdated := Toast(SuccessToast, "Éxito", "Lección actualizada.")
  const LessonAdded := Toast(SuccessToast, "Éxito", "Lección añadida.")
  const LessonDeleted := Toast(InfoToast, "Eliminada", "La lección ha sido eliminada.")
  const ContentSaved := Toast(SuccessToast, "Éxito", "El contenido del curso ha sido guardado.")
  const ContentNotSaved := Toast(ErrorToast, "Error", "No se pudo guardar el contenido.")

  /** The lesson dialog's form as a lesson fills it: missing `url` and `textContent` become ''. */
  function LessonDataOf(l: Lesson): (d: LessonData)
    ensures d.title == l.title && d.kind == l.kind
    ensures d.url == OrDefault(l.url, "") && d.textContent == OrDefault(l.textContent, "")
  {
    LessonData(l.title, l.kind, OrDefault(l.url, ""), OrDefault(l.textContent, ""))
  }

  /** Saving the form a lesson filled, unedited, changes that lesson only where a key was missing or empty. */
  lemma ReopenAndSaveLesson(l: Lesson)
    requires Truthy(l.url) && Truthy(l.textContent)
    ensures Overwrite(l, LessonDataOf(l)) == l
  {
  }

  /**
   * The modules after the lesson dialog is saved: the edited lesson overwritten, or a new
   * lesson with id `newId` appended; `None` when the edit throws.
   */
  function LessonSaved(ms: seq<CourseModule>, target: Option<string>, current: Option<Lesson>, d: LessonData, newId: string): Option<seq<CourseModule>>
  {
    if current.Some? then EditLesson(ms, target, current.value.id, d)
    else Some(AppendLesson(ms, target, NewLesson(newId, d)))
  }

  /** One input of the lesson dialog; a change of type leaves `url` and `textContent` as they were. */
  datatype LessonInput = TitleInput(title: string) | KindInput(kind: string) | UrlInput(url: string) | TextInput(html: string)

  /** The module dialog: whether it shows, the module it edits, and its title input. */
  datatype ModuleDialog = ModuleDialog(visible: bool, current: Option<CourseModule>, title: string)

  /** The lesson dialog: whether it shows, the lesson it edits, its target module, and its form. */
  datatype LessonDialog = LessonDialog(visible: bool, current: Option<Lesson>, target: Option<string>, data: LessonData)

  /** The page's own fields outside the document and the dialogs. */
  datatype PageFlags = PageFlags(courseName: string, loading: bool, isSaving: bool)

  class Editor {
    var courseName: string
    var modules: seq<CourseModule>
    var loading: bool
    var isSaving: bool
    var moduleModalVisible: bool
    var currentModule: Option<CourseModule>
    var moduleTitle: string
    var lessonModalVisible: bool
    var currentLesson: Option<Lesson>
    var targetModuleId: Option<string>
    var lessonData: LessonData
    var toasts: seq<Toast>

    constructor ()
      ensures courseName == "" && modules == [] && loading && !isSaving
      ensures !moduleModalVisible && currentModule.None? && moduleTitle == ""
      ensures !lessonModalVisible && currentLesson.None? && targetModuleId.None? && lessonData == BlankLesson
      ensures toasts == [] && SaveDisabled()
    {
      courseName, modules, loading, isSaving := "", [], true, false;
      moduleModalVisible, currentModule, moduleTitle := false, None, "";
      lessonModalVisible, currentLesson, targetModuleId, lessonData := false, None, None, BlankLesson;
      toasts := [];
    }

    function ModuleDialogState(): ModuleDialog
      reads this
    {
      ModuleDialog(moduleModalVisible, currentModule, moduleTitle)
    }

    function LessonDialogState(): LessonDialog
      reads this
    {
      LessonDialog(lessonModalVisible, currentLesson, targetModuleId, lessonData)
    }

    function Flags(): PageFlags
      reads this
    {
      PageFlags(courseName, loading, isSaving)
    }

    /** The "save all" button is disabled while loading or saving. */
    predicate SaveDisabled()
      reads this
    {
      loading || isSaving
    }

    /** The course-name request of the load effect. */
    method LoadCourseName(reply: Outcome<string>)
      modifies this
      ensures courseName == (if reply.Ok? then reply.value else old(courseName))
      ensures toasts == old(toasts) + (if reply.Ok? then [] else [NameFailed])
      ensures modules == old(modules) && loading == old(loading) && isSaving == old(isSaving)
      ensures ModuleDialogState() == old(ModuleDialogState()) && LessonDialogState() == old(LessonDialogState())
    {
      match reply {
        case Ok(name) => courseName := name;
        case Failed(_) => toasts := toasts + [NameFailed];
      }
    }

    /** The content request of the load effect: the document is normalised, and loading ends. */
    method LoadContent(reply: Outcome<Option<ContentRecord>>)
      modifies this
      ensures modules == LoadedModules(reply) && !loading
      ensures SaveDisabled() <==> isSaving
      ensures toasts == old(toasts) && courseName == old(courseName) && isSaving == old(isSaving)
      ensures ModuleDialogState() == old(ModuleDialogState()) && LessonDialogState() == old(LessonDialogState())
    {
      modules := LoadedModules(reply);
      loading := false;
    }

    /** `openModuleModal`: the dialog edits the given module, or creates one when there is none. */
    method OpenModuleModal(m: Option<CourseModule>)
      modifies this
      ensures currentModule == m && moduleModalVisible
      ensures moduleTitle == (if m.Some? then m.value.title else "")
      ensures modules == old(modules) && toasts == old(toasts)
      ensures LessonDialogState() == old(LessonDialogState()) && Flags() == old(Flags())
    {
      currentModule := m;
      moduleTitle := if m.Some? then m.value.title else "";
      moduleModalVisible := true;
    }

    /** `hideModuleModal` */
    method HideModuleModal()
      modifies this
      ensures !moduleModalVisible && currentModule.None? && moduleTitle == ""
      ensures modules == old(modules) && toasts == old(toasts)
      ensures LessonDialogState() == old(LessonDialogState()) && Flags() == old(Flags())
    {
      moduleModalVisible, currentModule, moduleTitle := false, None, "";
    }

    method SetModuleTitle(t: string)
      modifies this
      ensures moduleTitle == t
      ensures moduleModalVisible == old(moduleModalVisible) && currentModule == old(currentModule)
      ensures modules == old(modules) && toasts == old(toasts)
      ensures LessonDialogState() == old(LessonDialogState()) && Flags() == old(Flags())
    {
      moduleTitle := t;
    }

    /**
     * `handleSaveModule`. A blank title (`!title.trim()`, which `TrimEmptyIffBlank` shows is
     * `IsBlank`) only shows an error. Otherwise the edited module is
     * renamed (untrimmed), or a new module with id `newId` (a generated UUID) is appended, and the
     * dialog closes.
     */
    method HandleSaveModule(newId: string)
      modifies this
      ensures IsBlank(old(moduleTitle)) ==>
        && modules == old(modules) && toasts == old(toasts) + [ModuleTitleBlank]
        && moduleModalVisible == old(moduleModalVisible) && currentModule == old(currentModule)
        && moduleTitle == old(moduleTitle)
      ensures !IsBlank(old(moduleTitle)) && old(currentModule).Some? ==>
        && modules == RenameModule(old(modules), old(currentModule).value.id, old(moduleTitle))
        && toasts == old(toasts) + [ModuleUpdated]
      ensures !IsBlank(old(moduleTitle)) && old(currentModule).None? ==>
        && modules == AppendModule(old(modules), newId, old(moduleTitle))
        && toasts == old(toasts) + [ModuleAdded]
      ensures !IsBlank(old(moduleTitle)) ==> !moduleModalVisible && currentModule.None? && moduleTitle == ""
      ensures LessonDialogState() == old(LessonDialogState()) && Flags() == old(Flags())
    {
      if IsBlank(moduleTitle) {
        toasts := toasts + [ModuleTitleBlank];
      } else {
        if currentModule.Some? {
          modules := RenameModule(modules, currentModule.value.id, moduleTitle);
          toasts := toasts + [ModuleUpdated];
        } else {
          modules := AppendModule(modules, newId, moduleTitle);
          toasts := toasts + [ModuleAdded];
        }
        moduleModalVisible, currentModule, moduleTitle := false, None, "";
      }
    }

    /** `handleDeleteModule`: no confirmation; the module goes with all its lessons. */
    method HandleDeleteModule(moduleId: string)
      modifies this
      ensures modules == RemoveModule(old(modules), moduleId)
      ensures toasts == old(toasts) + [ModuleDeleted]
      ensures ModuleDialogState() == old(ModuleDialogState()) && LessonDialogState() == old(LessonDialogState())
      ensures Flags() == old(Flags())
    {
      modules := RemoveModule(modules, moduleId);
      toasts := toasts + [ModuleDeleted];
    }

    /** `openLessonModal`: the form takes the lesson's values, or the blank text lesson. */
    method OpenLessonModal(moduleId: string, lesson: Option<Lesson>)
      modifies this
      ensures targetModuleId == Some(moduleId) && currentLesson == lesson && lessonModalVisible
      ensures lessonData == (if lesson.Some? then LessonDataOf(lesson.value) else BlankLesson)
      ensures modules == old(modules) && toasts == old(toasts)
      ensures ModuleDialogState() == old(ModuleDialogState()) && Flags() == old(Flags())
    {
      targetModuleId := Some(moduleId);
      currentLesson := lesson;
      lessonData := if lesson.Some? then LessonDataOf(lesson.value) else BlankLesson;
      lessonModalVisible := true;
    }

    /** `hideLessonModal`: the form keeps its values. */
    method HideLessonModal()
      modifies this
      ensures !lessonModalVisible && targetModuleId.None? && currentLesson.None?
      ensures lessonData == old(lessonData) && modules == old(modules) && toasts == old(toasts)
      ensures ModuleDialogState() == old(ModuleDialogState()) && Flags() == old(Flags())
    {
      lessonModalVisible, targetModuleId, currentLesson := false, None, None;
    }

    /** One input of the lesson dialog changes one key of the form. */
    method SetLessonData(input: LessonInput)
      modifies this
      ensures lessonData == match input
        case TitleInput(v) => old(lessonData).(title := v)
        case KindInput(v) => old(lessonData).(kind := v)
        case UrlInput(v) => old(lessonData).(url := v)
        case TextInput(v) => old(lessonData).(textContent := v)
      ensures lessonModalVisible == old(lessonModalVisible) && currentLesson == old(currentLesson)
      ensures targetModuleId == old(targetModuleId)
      ensures modules == old(modules) && toasts == old(toasts)
      ensures ModuleDialogState() == old(ModuleDialogState()) && Flags() == old(Flags())
    {
      match input {
        case TitleInput(v) => lessonData := lessonData.(title := v);
        case KindInput(v) => lessonData := lessonData.(kind := v);
        case UrlInput(v) => lessonData := lessonData.(url := v);
        case TextInput(v) => lessonData := lessonData.(textContent := v);
      }
    }

    /**
     * `handleSaveLesson`. A blank title (`!lessonData.title.trim()`, as for modules) only shows an error. Editing overwrites the lesson in
     * the target module; adding appends a lesson with id `newId` (a generated UUID). When a target
     * module has no lesson list, editing throws before anything changes.
     */
    method HandleSaveLesson(newId: string)
      modifies this
      ensures IsBlank(old(lessonData).title) ==>
        && modules == old(modules) && toasts == old(toasts) + [LessonTitleBlank]
        && LessonDialogState() == old(LessonDialogState())
      ensures var r := LessonSaved(old(modules), old(targetModuleId), old(currentLesson), old(lessonData), newId);
        !IsBlank(old(lessonData).title) && r.None? ==>
        modules == old(modules) && toasts == old(toasts) && LessonDialogState() == old(LessonDialogState())
      ensures var r := LessonSaved(old(modules), old(targetModuleId), old(currentLesson), old(lessonData), newId);
        !IsBlank(old(lessonData).title) && old(currentLesson).Some? && r.Some? ==>
        && modules == r.value
        && toasts == old(toasts) + [LessonUpdated]
      ensures var r := LessonSaved(old(modules), old(targetModuleId), old(currentLesson), old(lessonData), newId);
        !IsBlank(old(lessonData).title) && old(currentLesson).None? ==>
        && r.Some? && modules == r.value
        && toasts == old(toasts) + [LessonAdded]
      ensures var r := LessonSaved(old(modules), old(targetModuleId), old(currentLesson), old(lessonData), newId);
        !IsBlank(old(lessonData).title) && r.Some? ==>
        !lessonModalVisible && targetModuleId.None? && currentLesson.None?
      ensures lessonData == old(lessonData)
      ensures ModuleDialogState() == old(ModuleDialogState()) && Flags() == old(Flags())
    {
      if IsBlank(lessonData.title) {
        toasts := toasts + [LessonTitleBlank];
      } else {
        var r := LessonSaved(modules, targetModuleId, currentLesson, lessonData, newId);
        if r.Some? {
          modules := r.value;
          if currentLesson.Some? {
            toasts := toasts + [LessonUpdated];
          } else {
            toasts := toasts + [LessonAdded];
          }
          lessonModalVisible, targetModuleId, currentLesson := false, None, None;
        }
      }
    }

    /** `handleDeleteLesson`: no confirmation; throws before anything changes when the module has no lesson list. */
    method HandleDeleteLesson(moduleId: string, lessonId: string)
      modifies this
      ensures var r := RemoveLesson(old(modules), Some(moduleId), lessonId);
        && modules == (if r.Some? then r.value else old(modules))
        && toasts == old(toasts) + (if r.Some? then [LessonDeleted] else [])
      ensures ModuleDialogState() == old(ModuleDialogState()) && LessonDialogState() == old(LessonDialogState())
      ensures Flags() == old(Flags())
    {
      var r := RemoveLesson(modules, Some(moduleId), lessonId);
      if r.Some? {
        modules := r.value;
        toasts := toasts + [LessonDeleted];
      }
    }

    /** `handleSaveContent`: the whole document is sent; the outcome decides the toast. */
    method HandleSaveContent(reply: Outcome<()>) returns (body: seq<CourseModule>)
      modifies this
      ensures body == modules && modules == old(modules) && !isSaving
      ensures SaveDisabled() <==> loading
      ensures toasts == old(toasts) + [if reply.Ok? then ContentSaved else ContentNotSaved]
      ensures courseName == old(courseName) && loading == old(loading)
      ensures ModuleDialogState() == old(ModuleDialogState()) && LessonDialogState() == old(LessonDialogState())
    {
      isSaving := true;
      body := modules;
      toasts := toasts + [if reply.Ok? then ContentSaved else ContentNotSaved];
      isSaving := false;
    }
  }
}
