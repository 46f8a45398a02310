/** The course record the listing pages show, and the rules they share for it. */
module Courses {
  import opened Common

  /** `course.category` as the edit dialog reads it. */
  datatype CategoryRef = CategoryRef(id: Option<int>)

  /**
   * A course as the backend lists it. Every course the backend returns carries a numeric id;
   * the other keys may be missing.
   */
  datatype Course = Course(
    id: nat,
    name: Option<string>,
    description: Option<string>,
    duration: Option<int>,
    enabled: Option<bool>,
    imageUrl: Option<string>,
    teacherId: Option<int>,
    category: Option<CategoryRef>,
    syllabus: Option<string>)

  const ApiBase := "http://localhost:8080"

  /** Where a course picture comes from. */
  datatype Image = NoImage | Src(url: string)

  /**
   * `imageUrl && (imageUrl.startsWith('http') ? imageUrl : API_BASE_URL + imageUrl)`: a missing or
   * empty URL gives no picture, an absolute one is kept, and any other is put under the API host.
   */
  function CourseImage(imageUrl: Option<string>): (img: Image)
    ensures img.NoImage? <==> !Truthy(imageUrl)
    ensures img.Src? && StartsWith(imageUrl.value, "http") ==> img.url == imageUrl.value
    ensures img.Src? && !StartsWith(imageUrl.value, "http") ==> img.url == ApiBase + imageUrl.value
  {
    if !Truthy(imageUrl) then NoImage
    else if StartsWith(imageUrl.value, "http") then Src(imageUrl.value)
    else Src(ApiBase + imageUrl.value)
  }

  /** Every picture source the rule produces starts with "http", so applying the rule again keeps it. */
  lemma CourseImageIsAbsolute(imageUrl: Option<string>)
    ensures CourseImage(imageUrl).Src? ==> StartsWith(CourseImage(imageUrl).url, "http")
    ensures CourseImage(imageUrl).Src? ==> CourseImage(Some(CourseImage(imageUrl).url)) == CourseImage(imageUrl)
  {
    if CourseImage(imageUrl).Src? && !StartsWith(imageUrl.value, "http") {
      var u := ApiBase + imageUrl.value;
      assert u[..4] == "http";
    }
  }

  /** `course.enabled` is truthy. */
  predicate IsEnabled(c: Course)
  {
    c.enabled == Some(true)
  }

  function KeepEnabled(): Course -> bool
  {
    (c: Course) => IsEnabled(c)
  }

  /** `courses.filter(course => course.enabled)` */
  function EnabledCourses(cs: seq<Course>): (r: seq<Course>)
    ensures forall c | c in r :: c in cs && IsEnabled(c)
    ensures forall c | c in cs && IsEnabled(c) :: c in r
  {
    Filter(cs, KeepEnabled())
  }

  /** The enabled courses keep the order they were listed in. */
  lemma EnabledCoursesKeepOrder(cs: seq<Course>)
    ensures var r, idx := EnabledCourses(cs), KeptIndices(cs, KeepEnabled(), 0);
      && |idx| == |r|
      && (forall k | 0 <= k < |idx| :: idx[k] < |cs| && r[k] == cs[idx[k]])
      && (forall k, m | 0 <= k < m < |idx| :: idx[k] < idx[m])
      && (forall p | 0 <= p < |cs| :: IsEnabled(cs[p]) <==> p in idx)
  {
    FilterKeepsOrder(cs, KeepEnabled(), 0);
    assert cs[0..] == cs;
  }

  function WithoutId(courseId: nat): Course -> bool
  {
    (c: Course) => c.id != courseId
  }

  /** `courses.filter(course => course.id !== courseId)` */
  function RemoveCourse(cs: seq<Course>, courseId: nat): (r: seq<Course>)
    ensures forall c | c in r :: c in cs && c.id != courseId
    ensures forall c | c in cs && c.id != courseId :: c in r
  {
    Filter(cs, WithoutId(courseId))
  }

  /** Removing a course keeps the other courses in their order. */
  lemma RemoveCourseKeepsOrder(cs: seq<Course>, courseId: nat)
    ensures var r, idx := RemoveCourse(cs, courseId), KeptIndices(cs, WithoutId(courseId), 0);
      && |idx| == |r|
      && (forall k | 0 <= k < |idx| :: idx[k] < |cs| && r[k] == cs[idx[k]])
      && (forall k, m | 0 <= k < m < |idx| :: idx[k] < idx[m])
      && (forall p | 0 <= p < |cs| :: cs[p].id != courseId <==> p in idx)
  {
    FilterKeepsOrder(cs, WithoutId(courseId), 0);
    assert cs[0..] == cs;
  }

  /** Removing a course that is not listed changes nothing. */
  lemma RemoveUnlistedCourse(cs: seq<Course>, courseId: nat)
    requires forall i | 0 <= i < |cs| :: cs[i].id != courseId
    ensures RemoveCourse(cs, courseId) == cs
  {
    FilterKeepsAll(cs, WithoutId(courseId));
  }

  /** `/student/course/{id}/view` */
  function ViewerPath(courseId: nat): seq<string>
  {
    ["student", "course", Decimal(courseId), "view"]
  }

  /**
   * The warning after a failed enrolment, shared by the catalogue and the preview page with
   * their own texts: status 409 means the student is already enrolled, anything else is a
   * generic failure.
   */
  function EnrolFailure(e: HttpError, alreadyEnrolled: string, failed: string): (t: Toast)
    requires alreadyEnrolled != failed
    ensures t.severity == WarnToast && t.summary == "Atención"
    ensures t.detail == alreadyEnrolled <==> StatusIs(e, 409)
    ensures t.detail == failed <==> !StatusIs(e, 409)
  {
    Toast(WarnToast, "Atención", if StatusIs(e, 409) then alreadyEnrolled else failed)
  }

  /** Where a page sends the browser. */
  datatype Navigation =
    /** `/login?redirect=` followed by the encoded page to return to. */
    | ToLogin(redirect: seq<string>)
    | ToPage(path: seq<string>)
}
