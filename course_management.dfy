/** The teacher's course table: their own courses, the course dialog, and enabling or disabling a course. */
module CourseManagement {
  import opened Common
  import opened Courses
  import CourseModal

  const LoadFailed := Toast(ErrorToast, "Error", "No se pudieron cargar los cursos.")
  const NoTeacher := Toast(ErrorToast, "Error de Sesión", "No se pudo identificar al profesor.")
  const DetailsFailed := Toast(ErrorToast, "Error", "No se pudieron cargar los detalles del curso.")
  const StatusChanged := Toast(InfoToast, "Actualizado", "El estado del curso ha cambiado.")
  const StatusFailed := Toast(ErrorToast, "Error", "No se pudo cambiar el estado.")
  const SaveFallback := "Ocurrió un error."
  const NoImageText := "Sin imagen"

  /** `Curso actualizado.` or `Curso creado.` */
  function Saved(isEdit: bool): (t: Toast)
    ensures t.severity == SuccessToast && t.summary == "Éxito"
    ensures t.detail == if isEdit then "Curso actualizado." else "Curso creado."
  {
    Toast(SuccessToast, "Éxito", if isEdit then "Curso actualizado." else "Curso creado.")
  }

  /** `session?.user?.id` is truthy. */
  predicate KnownTeacher(teacherId: Option<int>)
  {
    teacherId.Some? && teacherId.value != 0
  }

  function OwnedBy(teacherId: Option<int>): Course -> bool
  {
    (c: Course) => c.teacherId == teacherId
  }

  /** `result.filter(course => course.teacherId === teacherId)`; two missing ids are equal too. */
  function TeacherCourses(cs: seq<Course>, teacherId: Option<int>): (r: seq<Course>)
  {
    Filter(cs, OwnedBy(teacherId))
  }

  /** The table keeps exactly the teacher's own courses, in the order they were listed. */
  lemma TeacherCoursesExactly(cs: seq<Course>, teacherId: Option<int>)
    ensures forall c | c in TeacherCourses(cs, teacherId) :: c in cs && c.teacherId == teacherId
    ensures forall c | c in cs && c.teacherId == teacherId :: c in TeacherCourses(cs, teacherId)
    ensures var r, idx := TeacherCourses(cs, teacherId), KeptIndices(cs, OwnedBy(teacherId), 0);
      && |idx| == |r|
      && (forall k | 0 <= k < |idx| :: idx[k] < |cs| && r[k] == cs[idx[k]])
      && (forall k, m | 0 <= k < m < |idx| :: idx[k] < idx[m])
      && (forall p | 0 <= p < |cs| :: cs[p].teacherId == teacherId <==> p in idx)
  {
    FilterKeepsOrder(cs, OwnedBy(teacherId), 0);
    assert cs[0..] == cs;
  }

  /** The requests the page sends. */
  datatype CourseRequest =
    /** PUT `update-course/{id}` with the multipart form. */
    | UpdateCourse(courseId: nat, form: seq<CourseModal.FormEntry>)
    /** POST `save-course` with the multipart form. */
    | SaveCourse(form: seq<CourseModal.FormEntry>)
    /** DELETE `disable/{id}`, which toggles the course's state. */
    | DisableCourse(courseId: nat)

  /** `!!courseId`: the dialog was editing a course with a non-zero id. */
  predicate IsEdit(courseId: Option<nat>)
  {
    courseId.Some? && courseId.value != 0
  }

  /** The request `handleSave` sends: an update exactly when the id is truthy. */
  function SaveRequest(form: seq<CourseModal.FormEntry>, courseId: Option<nat>): (r: CourseRequest)
    ensures r.UpdateCourse? <==> IsEdit(courseId)
    ensures r.UpdateCourse? ==> r.courseId == courseId.value
    ensures !r.DisableCourse? && r.form == form
  {
    if IsEdit(courseId) then UpdateCourse(courseId.value, form) else SaveCourse(form)
  }

  /** The page updates a course exactly when the dialog was opened in edit mode for it. */
  lemma SaveUpdatesIffDialogEdits(course: Option<Course>, form: seq<CourseModal.FormEntry>)
    ensures SaveRequest(form, if course.Some? then Some(course.value.id) else None).UpdateCourse?
      <==> CourseModal.IsEditMode(course)
  {
  }

  /** `course.enabled ? 'deshabilitar' : 'habilitar'` in the confirmation question. */
  function ToggleVerb(c: Course): (w: string)
    ensures w == "deshabilitar" <==> IsEnabled(c)
    ensures w == "habilitar" <==> !IsEnabled(c)
  {
    if IsEnabled(c) then "deshabilitar" else "habilitar"
  }

  /** The image column's cell. */
  datatype ImageCell = Placeholder(text: string) | Picture(src: string)

  /** `imageBodyTemplate`: "Sin imagen" without a URL, otherwise the picture the shared rule gives. */
  function ImageCellOf(c: Course): (cell: ImageCell)
    ensures cell == Placeholder(NoImageText) <==> !Truthy(c.imageUrl)
    ensures cell.Picture? ==> CourseImage(c.imageUrl) == Src(cell.src)
    ensures cell.Picture? ==> StartsWith(cell.src, "http")
  {
    CourseImageIsAbsolute(c.imageUrl);
    match CourseImage(c.imageUrl)
    case NoImage => Placeholder(NoImageText)
    case Src(u) => Picture(u)
  }

  class ManagementPage {
    /** `session?.user?.id` */
    const teacherId: Option<int>
    var courses: seq<Course>
    var loading: bool
    var isModalVisible: bool
    var selectedCourse: Option<Course>
    var toasts: seq<Toast>

    constructor (teacherId: Option<int>)
      ensures this.teacherId == teacherId
      ensures courses == [] && loading && !isModalVisible && selectedCourse.None? && toasts == []
    {
      this.teacherId := teacherId;
      courses, loading, isModalVisible, selectedCourse, toasts := [], true, false, None, [];
    }

    /** `fetchCourses` */
    method FetchCourses(reply: Outcome<seq<Course>>)
      modifies this
      ensures courses == if reply.Ok? then TeacherCourses(reply.value, teacherId) else old(courses)
      ensures toasts == old(toasts) + if reply.Ok? then [] else [LoadFailed]
      ensures !loading
      ensures isModalVisible == old(isModalVisible) && selectedCourse == old(selectedCourse)
    {
      loading := true;
      match reply {
        case Ok(all) =>
          courses := TeacherCourses(all, teacherId);
        case Failed(_) =>
          toasts := toasts + [LoadFailed];
      }
      loading := false;
    }

    /** The mount effect: without a teacher id nothing is fetched and an error is shown. */
    method Mount(reply: Outcome<seq<Course>>) returns (fetched: bool)
      modifies this
      ensures fetched <==> KnownTeacher(teacherId)
      ensures fetched ==>
        && courses == (if reply.Ok? then TeacherCourses(reply.value, teacherId) else old(courses))
        && toasts == old(toasts) + (if reply.Ok? then [] else [LoadFailed])
      ensures !fetched ==> courses == old(courses) && toasts == old(toasts) + [NoTeacher]
      ensures !loading
      ensures isModalVisible == old(isModalVisible) && selectedCourse == old(selectedCourse)
    {
      if KnownTeacher(teacherId) {
        FetchCourses(reply);
        fetched := true;
      } else {
        toasts := toasts + [NoTeacher];
        loading := false;
        fetched := false;
      }
    }

    /** `openNew`: the dialog opens on an empty form. */
    method OpenNew()
      modifies this
      ensures selectedCourse.None? && isModalVisible
      ensures courses == old(courses) && loading == old(loading) && toasts == old(toasts)
    {
      selectedCourse := None;
      isModalVisible := true;
    }

    /** `openEdit`: the dialog opens on the course as the backend returns it, or not at all. */
    method OpenEdit(reply: Outcome<Course>)
      modifies this
      ensures reply.Ok? ==> selectedCourse == Some(reply.value) && isModalVisible && toasts == old(toasts)
      ensures reply.Failed? ==>
        selectedCourse == old(selectedCourse) && isModalVisible == old(isModalVisible) && toasts == old(toasts) + [DetailsFailed]
      ensures courses == old(courses) && loading == old(loading)
    {
      match reply {
        case Ok(c) =>
          selectedCourse := Some(c);
          isModalVisible := true;
        case Failed(_) =>
          toasts := toasts + [DetailsFailed];
      }
    }

    /** `hideModal` */
    method HideModal()
      modifies this
      ensures !isModalVisible
      ensures courses == old(courses) && loading == old(loading) && selectedCourse == old(selectedCourse) && toasts == old(toasts)
    {
      isModalVisible := false;
    }

    /**
     * `handleSave`: sends the dialog's form as an update or a creation. On success the dialog
     * closes and the list is fetched again; on failure the backend's message, or a generic one,
     * is shown. Loading ends in every case.
     */
    method HandleSave(form: seq<CourseModal.FormEntry>, courseId: Option<nat>, reply: Outcome<()>, refetch: Outcome<seq<Course>>)
      returns (request: CourseRequest)
      modifies this
      ensures request == SaveRequest(form, courseId)
      ensures reply.Ok? ==>
        && !isModalVisible
        && courses == (if refetch.Ok? then TeacherCourses(refetch.value, teacherId) else old(courses))
        && toasts == old(toasts) + [Saved(IsEdit(courseId))] + (if refetch.Ok? then [] else [LoadFailed])
      ensures reply.Failed? ==>
        && isModalVisible == old(isModalVisible) && courses == old(courses)
        && toasts == old(toasts) + [Toast(ErrorToast, "Error", MessageOr(reply.error, SaveFallback))]
      ensures !loading && selectedCourse == old(selectedCourse)
    {
      loading := true;
      request := SaveRequest(form, courseId);
      match reply {
        case Ok(_) =>
          toasts := toasts + [Saved(IsEdit(courseId))];
          isModalVisible := false;
          FetchCourses(refetch);
        case Failed(e) =>
          toasts := toasts + [Toast(ErrorToast, "Error", MessageOr(e, SaveFallback))];
      }
      loading := false;
    }

    /**
     * `handleDisable`: after the confirmation is accepted the course's state is toggled and the
     * list fetched again.
     */
    method HandleDisable(c: Course, accepted: bool, reply: Outcome<()>, refetch: Outcome<seq<Course>>)
      returns (request: Option<CourseRequest>)
      modifies this
      ensures request == if accepted then Some(DisableCourse(c.id)) else None
      ensures accepted && reply.Ok? ==>
        && courses == (if refetch.Ok? then TeacherCourses(refetch.value, teacherId) else old(courses))
        && toasts == old(toasts) + [StatusChanged] + (if refetch.Ok? then [] else [LoadFailed])
        && !loading
      ensures accepted && reply.Failed? ==>
        courses == old(courses) && toasts == old(toasts) + [StatusFailed] && loading == old(loading)
      ensures !accepted ==> courses == old(courses) && toasts == old(toasts) && loading == old(loading)
      ensures isModalVisible == old(isModalVisible) && selectedCourse == old(selectedCourse)
    {
      if !accepted {
        return None;
      }
      request := Some(DisableCourse(c.id));
      match reply {
        case Ok(_) =>
          toasts := toasts + [StatusChanged];
          FetchCourses(refetch);
        case Failed(_) =>
          toasts := toasts + [StatusFailed];
      }
    }
  }
}
