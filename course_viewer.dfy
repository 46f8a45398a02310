/** The enrolled student's course viewer: the whole course, every module and lesson. */
module CourseViewer {
  import opened Common
  import opened Courses
  import opened CourseContent

  const CourseFailed := Toast(ErrorToast, "Error", "No se pudo cargar el curso o no tienes permiso.")

  /** `['student', 'my-courses']` */
  const MyCoursesPath := ["student", "my-courses"]

  /**
   * How the two requests of the load effect settle. `Promise.all` rejects with the first failure,
   * whose request URL tells the handler which of the two failed.
   */
  datatype ViewerLoad =
    | Loaded(course: Course, record: Option<ContentRecord>)
    | ContentRequestFailed(error: HttpError)
    | CourseRequestFailed(error: HttpError)

  /**
   * `loadedContent && loadedContent.modules ? loadedContent : { modules: [] }` on the `contentJson`
   * key: the document is kept when its `modules` is truthy (any array, even an empty one, or some
   * other value), and is otherwise replaced by an empty module list.
   */
  function ViewerContent(record: Option<ContentRecord>): (c: ModulesField)
    ensures !c.Missing?
    ensures c.NotArray? <==> record.Some? && record.value.contentJson == Some(NotArray)
    ensures c.Array? && c.items != [] ==> record.Some? && record.value.contentJson == Some(c)
  {
    match record
    case Some(ContentRecord(_, Some(Array(items)))) => Array(items)
    case Some(ContentRecord(_, Some(NotArray))) => NotArray
    case _ => Array([])
  }

  /**
   * `content?.modules?.length > 0`: the modules listed on the page; the "not yet published"
   * message is shown exactly when this is empty.
   */
  function ShownModules(content: Option<ModulesField>): (ms: seq<CourseModule>)
    ensures ms != [] <==> content.Some? && content.value.Array? && content.value.items != []
    ensures ms != [] ==> ms == content.value.items
  {
    match content
    case Some(Array(items)) => items
    case _ => []
  }

  /** The viewer lists exactly the modules the content editor starts from. */
  lemma ViewerShowsEditorModules(record: Option<ContentRecord>)
    ensures ShownModules(Some(ViewerContent(record))) == LoadedModules(Ok(record))
  {
  }

  class ViewerPage {
    /** The `:courseId` route parameter. */
    const courseId: nat
    var course: Option<Course>
    /** `content`: null until the content is loaded. */
    var content: Option<ModulesField>
    var loading: bool
    var toasts: seq<Toast>

    constructor (courseId: nat)
      ensures this.courseId == courseId
      ensures course.None? && content.None? && loading && toasts == []
    {
      this.courseId := courseId;
      course, content, loading, toasts := None, None, true, [];
    }

    /** The course appears unpublished: no module would be listed. */
    predicate ShowsUnpublished()
      reads this
    {
      ShownModules(content) == []
    }

    /**
     * The load effect. A 404 from the content request means the course has no content yet; a
     * failure of the course request shows an error and goes back to "My Courses"; any other
     * content failure leaves the page as it was.
     */
    method Load(result: ViewerLoad) returns (nav: Option<Navigation>)
      modifies this
      ensures result.Loaded? ==>
        course == Some(result.course) && content == Some(ViewerContent(result.record)) && toasts == old(toasts) && nav.None?
      ensures result.ContentRequestFailed? && StatusIs(result.error, 404) ==>
        course == old(course) && content == Some(Array([])) && toasts == old(toasts) && nav.None?
      ensures result.ContentRequestFailed? && !StatusIs(result.error, 404) ==>
        course == old(course) && content == old(content) && toasts == old(toasts) && nav.None?
      ensures result.CourseRequestFailed? ==>
        && course == old(course) && content == old(content)
        && toasts == old(toasts) + [CourseFailed] && nav == Some(ToPage(MyCoursesPath))
      ensures result.Loaded? ==> (ShowsUnpublished() <==> LoadedModules(Ok(result.record)) == [])
      ensures result.ContentRequestFailed? && StatusIs(result.error, 404) ==> ShowsUnpublished()
      ensures !loading
    {
      loading := true;
      nav := None;
      match result {
        case Loaded(c, record) =>
          course := Some(c);
          content := Some(ViewerContent(record));
          ViewerShowsEditorModules(record);
        case ContentRequestFailed(e) =>
          if StatusIs(e, 404) {
            content := Some(Array([]));
          }
        case CourseRequestFailed(_) =>
          toasts := toasts + [CourseFailed];
          nav := Some(ToPage(MyCoursesPath));
      }
      loading := false;
    }
  }
}
