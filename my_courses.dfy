/** The student's own courses, with unenrolment. */
module MyCourses {
  import opened Common
  import opened Courses

  const LoadFailed := Toast(ErrorToast, "Error", "No se pudieron cargar tus cursos.")
  const Unenrolled := Toast(SuccessToast, "Éxito", "Te has dado de baja del curso.")
  const UnenrolFailed := Toast(ErrorToast, "Error", "No se pudo procesar la baja del curso.")

  /** `/courses`, where the empty state's button leads. */
  const CatalogPath := ["courses"]

  datatype UnenrolRequest = Unenrol(courseId: nat)

  class MyCoursesPage {
    var courses: seq<Course>
    var loading: bool
    var toasts: seq<Toast>

    constructor ()
      ensures courses == [] && loading && toasts == []
    {
      courses, loading, toasts := [], true, [];
    }

    /** `fetchCourses`: a missing result counts as no courses; a failure keeps the list shown. */
    method FetchCourses(reply: Outcome<Option<seq<Course>>>)
      modifies this
      ensures reply.Ok? && reply.value.Some? ==> courses == reply.value.value
      ensures reply.Ok? && reply.value.None? ==> courses == []
      ensures reply.Ok? ==> toasts == old(toasts)
      ensures reply.Failed? ==> courses == old(courses) && toasts == old(toasts) + [LoadFailed]
      ensures !loading
    {
      loading := true;
      match reply {
        case Ok(result) =>
          courses := if result.Some? then result.value else [];
        case Failed(_) =>
          toasts := toasts + [LoadFailed];
      }
      loading := false;
    }

    /** `handleUnenroll`: after the confirmation is accepted, a success drops the course's card. */
    method HandleUnenroll(courseId: nat, accepted: bool, reply: Outcome<()>) returns (request: Option<UnenrolRequest>)
      modifies this
      ensures request == (if accepted then Some(Unenrol(courseId)) else None)
      ensures courses == (if accepted && reply.Ok? then RemoveCourse(old(courses), courseId) else old(courses))
      ensures toasts == old(toasts) + (if !accepted then [] else if reply.Ok? then [Unenrolled] else [UnenrolFailed])
      ensures loading == old(loading)
    {
      if !accepted {
        return None;
      }
      request := Some(Unenrol(courseId));
      match reply {
        case Ok(_) =>
          toasts := toasts + [Unenrolled];
          courses := RemoveCourse(courses, courseId);
        case Failed(_) =>
          toasts := toasts + [UnenrolFailed];
      }
    }

    /** The empty state, with its link to the catalog, replaces the grid when no course is listed. */
    predicate ShowsEmptyState()
      reads this
    {
      |courses| == 0
    }
  }

  /** Unenrolling from the only listed course empties the list. */
  lemma UnenrolLastCourse(c: Course)
    ensures RemoveCourse([c], c.id) == []
  {
    assert !WithoutId(c.id)(c);
  }

  /** A student who leaves the only course listed, with the backend's agreement, sees the empty state. */
  method LeaveOnlyCourse(page: MyCoursesPage, c: Course)
    requires page.courses == [c]
    modifies page
    ensures page.ShowsEmptyState()
    ensures page.toasts == old(page.toasts) + [Unenrolled]
  {
    var request := page.HandleUnenroll(c.id, true, Ok(()));
    UnenrolLastCourse(c);
  }
}
