/**
 * The public preview of a course: its card, its first module as a teaser, the number of
 * modules still locked, and the enrol button.
 */
module CoursePreview {
  import opened Common
  import opened Courses
  import opened CourseContent
  import Session

  const PreviewFailed := Toast(ErrorToast, "Error", "No se pudo cargar la vista previa del curso.")
  const SignInToEnrol := Toast(InfoToast, "Acción Requerida", "Por favor, inicia sesión o crea una cuenta para inscribirte.")
  const EnrolSucceeded := Toast(SuccessToast, "¡Inscripción Exitosa!", "¡Ahora tienes acceso completo al curso!")
  const AlreadyEnrolledText := "Ya estás inscrito en este curso."
  const EnrolFailedText := "No se pudo procesar la inscripción."

  /**
   * `result?.content || { modules: [] }`, then `modules` kept only when it is an array. The
   * preview reads the `content` key; `contentJson`, where the editor's document is read back,
   * plays no part.
   */
  function PreviewContent(record: Option<ContentRecord>): (ms: seq<CourseModule>)
    ensures ms != [] ==> record.Some? && record.value.content == Some(Array(ms))
    ensures record.Some? && record.value.content.Some? && record.value.content.value.Array? ==> ms == record.value.content.value.items
  {
    match record
    case Some(ContentRecord(Some(Array(items)), _)) => items
    case _ => []
  }

  /** `content.modules.slice(0, 1)`: only the first module is shown. */
  function PreviewModules(ms: seq<CourseModule>): (shown: seq<CourseModule>)
    ensures |shown| <= 1
    ensures ms == [] <==> shown == []
    ensures ms != [] ==> shown == [ms[0]]
  {
    Slice(ms, 0, 1)
  }

  /** `content.modules.length - previewModules.length` */
  function RemainingModuleCount(ms: seq<CourseModule>): (n: int)
  {
    |ms| - |PreviewModules(ms)|
  }

  /** The count is never negative, and the unlock block appears exactly when there is a second module. */
  lemma RemainingCountBounds(ms: seq<CourseModule>)
    ensures RemainingModuleCount(ms) >= 0
    ensures RemainingModuleCount(ms) > 0 <==> |ms| > 1
    ensures RemainingModuleCount(ms) == if ms == [] then 0 else |ms| - 1
  {
  }

  /** The teaser followed by the locked modules is the whole course. */
  lemma PreviewThenRemaining(ms: seq<CourseModule>)
    ensures PreviewModules(ms) + ms[|PreviewModules(ms)|..] == ms
    ensures |ms[|PreviewModules(ms)|..]| == RemainingModuleCount(ms)
  {
  }

  /** The preview does not look at `contentJson`. */
  lemma PreviewIgnoresContentJson(c: Option<ModulesField>, j1: Option<ModulesField>, j2: Option<ModulesField>)
    ensures PreviewContent(Some(ContentRecord(c, j1))) == PreviewContent(Some(ContentRecord(c, j2)))
  {
  }

  /**
   * A record that carries the editor's document only under `contentJson` gives the editor its
   * modules back but gives the preview none.
   */
  lemma PreviewMissesEditorDocument(ms: seq<CourseModule>)
    requires ms != []
    ensures LoadedModules(Ok(Some(ContentRecord(None, Some(Array(ms)))))) == ms
    ensures PreviewContent(Some(ContentRecord(None, Some(Array(ms))))) == []
  {
  }

  /** The enrolment request; the route's id is sent as a number. */
  datatype EnrolRequest = Enrol(courseId: nat)

  class PreviewPage {
    /** The `:courseId` route parameter. */
    const courseId: nat
    /** `session?.user?.rol?.roleEnum === 'STUDENT'` */
    const isStudent: bool
    var course: Option<Course>
    var modules: seq<CourseModule>
    var loading: bool
    var toasts: seq<Toast>

    /** The page reads the stored session once, when it is rendered. */
    constructor (courseId: nat, st: Session.Stored)
      ensures this.courseId == courseId
      ensures isStudent <==> Session.RoleOf(Session.ReadSession(st)) == "STUDENT"
      ensures course.None? && modules == [] && loading && toasts == []
    {
      this.courseId := courseId;
      isStudent := Session.RoleOf(Session.ReadSession(st)) == "STUDENT";
      course, modules, loading, toasts := None, [], true, [];
    }

    /**
     * The load effect: the course and its content are fetched together. When both arrive the
     * page keeps the course and the normalised modules; when either fails it shows an error
     * and sends the browser home.
     */
    method Load(courseReply: Outcome<Course>, contentReply: Outcome<Option<ContentRecord>>) returns (nav: Option<Navigation>)
      modifies this
      ensures courseReply.Ok? && contentReply.Ok? ==>
        && course == Some(courseReply.value) && modules == PreviewContent(contentReply.value)
        && toasts == old(toasts) && nav.None?
      ensures !(courseReply.Ok? && contentReply.Ok?) ==>
        && course == old(course) && modules == old(modules)
        && toasts == old(toasts) + [PreviewFailed] && nav == Some(ToPage([]))
      ensures !loading
    {
      loading := true;
      if courseReply.Ok? && contentReply.Ok? {
        course := Some(courseReply.value);
        modules := PreviewContent(contentReply.value);
        nav := None;
      } else {
        toasts := toasts + [PreviewFailed];
        nav := Some(ToPage([]));
      }
      loading := false;
    }

    /**
     * `handleEnroll`: without a student session no request is sent and the browser goes to the
     * login page, told to return to the course's viewer; a successful enrolment goes there directly.
     */
    method HandleEnroll(reply: Outcome<()>) returns (request: Option<EnrolRequest>, nav: Option<Navigation>)
      modifies this
      ensures !isStudent ==>
        request.None? && nav == Some(ToLogin(ViewerPath(courseId))) && toasts == old(toasts) + [SignInToEnrol]
      ensures isStudent ==> request == Some(Enrol(courseId))
      ensures isStudent && reply.Ok? ==> nav == Some(ToPage(ViewerPath(courseId))) && toasts == old(toasts) + [EnrolSucceeded]
      ensures isStudent && reply.Failed? ==> nav.None? && toasts == old(toasts) + [EnrolFailure(reply.error, AlreadyEnrolledText, EnrolFailedText)]
      ensures course == old(course) && modules == old(modules) && loading == old(loading)
    {
      if !isStudent {
        toasts := toasts + [SignInToEnrol];
        return None, Some(ToLogin(ViewerPath(courseId)));
      }
      request := Some(Enrol(courseId));
      match reply {
        case Ok(_) =>
          toasts := toasts + [EnrolSucceeded];
          nav := Some(ToPage(ViewerPath(courseId)));
        case Failed(e) =>
          toasts := toasts + [EnrolFailure(e, AlreadyEnrolledText, EnrolFailedText)];
          nav := None;
      }
    }
  }
}
