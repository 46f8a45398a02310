/** The public course catalog: enabled courses, one page at a time, with enrolment for students. */
module CourseCatalog {
  import opened Common
  import opened Courses
  import Session

  const AllCoursesFailed := Toast(ErrorToast, "Error", "No se pudieron cargar los cursos del catálogo.")
  const CoursesDataFailed := Toast(ErrorToast, "Error", "No se pudieron cargar los datos de los cursos.")
  const SignInAsStudent := Toast(InfoToast, "Acción Requerida", "Inicia sesión como estudiante para inscribirte.")
  const Enrolled := Toast(SuccessToast, "Éxito", "Curso añadido a \"Mis Cursos\".")
  const AlreadyEnrolledText := "Ya estás inscrito."
  const EnrolFailedText := "No se pudo inscribir."
  const Unenrolled := Toast(SuccessToast, "Éxito", "Te has dado de baja del curso.")
  const UnenrolFailed := Toast(ErrorToast, "Error", "No se pudo procesar la baja.")

  /** The ids of a student's courses; a missing list counts as empty. */
  function CourseIds(mine: Option<seq<Course>>): (ids: set<nat>)
    ensures mine.None? ==> ids == {}
    ensures mine.Some? ==> forall id :: id in ids <==> exists c | c in mine.value :: c.id == id
  {
    if mine.None? then {} else set c | c in mine.value :: c.id
  }

  /** The enrolment requests the page sends. */
  datatype CatalogRequest = Enrol(courseId: nat) | Unenrol(courseId: nat)

  class CatalogPage {
    /** `session?.user?.rol?.roleEnum === 'STUDENT'`, read when the page is rendered. */
    const isStudent: bool
    var allCourses: seq<Course>
    var displayedCourses: seq<Course>
    var enrolledCourseIds: set<nat>
    var loading: bool
    var first: nat
    var rows: nat
    var toasts: seq<Toast>

    /** The page reads the stored session once, when it is rendered. */
    constructor (st: Session.Stored)
      ensures isStudent <==> Session.RoleOf(Session.ReadSession(st)) == "STUDENT"
      ensures allCourses == [] && displayedCourses == [] && enrolledCourseIds == {}
      ensures loading && first == 0 && rows == 6 && toasts == []
    {
      isStudent := Session.RoleOf(Session.ReadSession(st)) == "STUDENT";
      allCourses, displayedCourses, enrolledCourseIds := [], [], {};
      loading, first, rows, toasts := true, 0, 6, [];
    }

    /**
     * The load effect. A student's page also fetches their own courses; both requests must
     * succeed. On success only the enabled courses are kept and the first `rows` are shown.
     */
    method Load(all: Outcome<seq<Course>>, mine: Outcome<Option<seq<Course>>>)
      modifies this
      ensures var ok := all.Ok? && (isStudent ==> mine.Ok?);
        && (ok ==> allCourses == EnabledCourses(all.value) && displayedCourses == Slice(allCourses, 0, old(rows)))
        && (ok && isStudent ==> enrolledCourseIds == CourseIds(mine.value))
        && (!ok || !isStudent ==> enrolledCourseIds == old(enrolledCourseIds))
        && (!ok ==> allCourses == old(allCourses) && displayedCourses == old(displayedCourses))
        && toasts == old(toasts) + (if ok then [] else if isStudent then [CoursesDataFailed] else [AllCoursesFailed])
      ensures !loading && first == old(first) && rows == old(rows)
    {
      loading := true;
      if isStudent {
        if all.Ok? && mine.Ok? {
          enrolledCourseIds := CourseIds(mine.value);
          allCourses := EnabledCourses(all.value);
          displayedCourses := Slice(allCourses, 0, rows);
        } else {
          toasts := toasts + [CoursesDataFailed];
        }
      } else {
        if all.Ok? {
          allCourses := EnabledCourses(all.value);
          displayedCourses := Slice(allCourses, 0, rows);
        } else {
          toasts := toasts + [AllCoursesFailed];
        }
      }
      loading := false;
    }

    /** `onPageChange`: the page shown is `allCourses[first .. first + rows)`, cut at the end. */
    method OnPageChange(newFirst: nat, newRows: nat)
      modifies this
      ensures first == newFirst && rows == newRows
      ensures displayedCourses == Slice(allCourses, newFirst, newFirst + newRows)
      ensures allCourses == old(allCourses) && enrolledCourseIds == old(enrolledCourseIds) && toasts == old(toasts)
      ensures loading == old(loading)
    {
      first, rows := newFirst, newRows;
      displayedCourses := Slice(allCourses, newFirst, newFirst + newRows);
    }

    /** The card of the course with this id shows the enrolled state: the viewer is a student enrolled in it. */
    predicate IsEnrolled(courseId: nat)
      reads this
    {
      isStudent && courseId in enrolledCourseIds
    }

    /**
     * `handleEnroll`: without a student session no request is sent and the browser goes to
     * the login page, which is told to return to the course's viewer.
     */
    method HandleEnroll(courseId: nat, reply: Outcome<()>) returns (request: Option<CatalogRequest>, nav: Option<Navigation>)
      modifies this
      ensures !isStudent ==>
        && request.None? && nav == Some(ToLogin(ViewerPath(courseId)))
        && toasts == old(toasts) + [SignInAsStudent] && enrolledCourseIds == old(enrolledCourseIds)
      ensures isStudent ==> request == Some(Enrol(courseId)) && nav.None?
      ensures isStudent && reply.Ok? ==>
        enrolledCourseIds == old(enrolledCourseIds) + {courseId} && toasts == old(toasts) + [Enrolled]
      ensures isStudent && reply.Ok? ==> IsEnrolled(courseId)
      ensures !isStudent || reply.Failed? ==> IsEnrolled(courseId) == old(IsEnrolled(courseId))
      ensures isStudent && reply.Failed? ==>
        enrolledCourseIds == old(enrolledCourseIds) && toasts == old(toasts) + [EnrolFailure(reply.error, AlreadyEnrolledText, EnrolFailedText)]
      ensures allCourses == old(allCourses) && displayedCourses == old(displayedCourses)
      ensures first == old(first) && rows == old(rows) && loading == old(loading)
    {
      if !isStudent {
        toasts := toasts + [SignInAsStudent];
        return None, Some(ToLogin(ViewerPath(courseId)));
      }
      request, nav := Some(Enrol(courseId)), None;
      match reply {
        case Ok(_) =>
          toasts := toasts + [Enrolled];
          enrolledCourseIds := enrolledCourseIds + {courseId};
        case Failed(e) =>
          toasts := toasts + [EnrolFailure(e, AlreadyEnrolledText, EnrolFailedText)];
      }
    }

    /** `handleUnenroll`: after the confirmation is accepted, a success drops the id from the set. */
    method HandleUnenroll(courseId: nat, accepted: bool, reply: Outcome<()>) returns (request: Option<CatalogRequest>)
      modifies this
      ensures request == (if accepted then Some(Unenrol(courseId)) else None)
      ensures enrolledCourseIds == (if accepted && reply.Ok? then old(enrolledCourseIds) - {courseId} else old(enrolledCourseIds))
      ensures toasts == old(toasts) + (if !accepted then [] else if reply.Ok? then [Unenrolled] else [UnenrolFailed])
      ensures accepted && reply.Ok? ==> !IsEnrolled(courseId)
      ensures !accepted || reply.Failed? ==> IsEnrolled(courseId) == old(IsEnrolled(courseId))
      ensures allCourses == old(allCourses) && displayedCourses == old(displayedCourses)
      ensures first == old(first) && rows == old(rows) && loading == old(loading)
    {
      if !accepted {
        return None;
      }
      request := Some(Unenrol(courseId));
      match reply {
        case Ok(_) =>
          toasts := toasts + [Unenrolled];
          enrolledCourseIds := enrolledCourseIds - {courseId};
        case Failed(_) =>
          toasts := toasts + [UnenrolFailed];
      }
    }
  }

  /**
   * A student who enrols in a course they were not enrolled in and then leaves it, both
   * requests succeeding, ends with the enrolled ids they started with and the two success toasts.
   */
  method EnrolThenUnenrol(page: CatalogPage, courseId: nat)
    requires page.isStudent && courseId !in page.enrolledCourseIds
    modifies page
    ensures page.enrolledCourseIds == old(page.enrolledCourseIds) && !page.IsEnrolled(courseId)
    ensures page.toasts == old(page.toasts) + [Enrolled, Unenrolled]
    ensures page.allCourses == old(page.allCourses) && page.displayedCourses == old(page.displayedCourses)
  {
    var enrol, nav := page.HandleEnroll(courseId, Ok(()));
    var unenrol := page.HandleUnenroll(courseId, true, Ok(()));
  }

  /** Consecutive pages of the same size cover the list between them without gaps or overlaps. */
  lemma PagesAreConsecutive(all: seq<Course>, first: nat, rows: nat)
    ensures Slice(all, first, first + rows) + Slice(all, first + rows, first + 2 * rows) == Slice(all, first, first + 2 * rows)
  {
    SliceSplit(all, first, first + rows, first + 2 * rows);
  }

  /** A page shows only enabled courses when the list it is cut from holds only enabled courses. */
  lemma PageOfEnabledIsEnabled(cs: seq<Course>, first: nat, rows: nat)
    ensures forall c | c in Slice(EnabledCourses(cs), first, first + rows) :: IsEnabled(c)
  {
    var all := EnabledCourses(cs);
    var page := Slice(all, first, first + rows);
    forall c | c in page ensures IsEnabled(c) {
      var k :| 0 <= k < |page| && page[k] == c;
      assert c == all[first + k];
    }
  }
}
