/**
 * How the course preview and the course viewer render one lesson: a video lesson whose URL
 * carries a YouTube id becomes an embedded player, any other video lesson a plain link, a text
 * lesson its stored HTML, and every other type the "unsupported" notice.
 */
module LessonView {
  import opened Common
  import opened CourseContent
  import opened YouTube

  /** What a lesson renders as. */
  datatype View =
    /** An `iframe` playing `src`. */
    | Embed(src: string)
    /** A link that opens `href` in a new tab; `href` is missing when the lesson has no URL. */
    | Link(href: Option<string>, caption: string)
    /** The lesson's `textContent` inserted as HTML. */
    | Html(html: Option<string>)
    /** "Tipo de contenido no soportado." */
    | Unsupported
    /** Rendering throws: the viewer calls `match` on a URL that is missing. */
    | RenderError

  const PreviewCaption := "Ver recurso en nueva pestaña"
  const ViewerCaption := "Ver video en una nueva pestaña"

  /** The player or the link for a video lesson whose URL is present. */
  function VideoView(url: string, caption: string): (v: View)
    ensures v.Embed? <==> VideoId(url).Some?
    ensures v.Embed? ==> v.src == EmbedUrl(VideoId(url).value)
    ensures v.Link? ==> v.href == Some(url) && v.caption == caption
    ensures v.Embed? || v.Link?
  {
    match VideoId(url)
    case Some(id) => Embed(EmbedUrl(id))
    case None => Link(Some(url), caption)
  }

  /** The preview's `renderLessonContent`: `lesson.url?.match(...)`, so a missing URL gives a link. */
  function PreviewView(l: Lesson): (v: View)
    ensures v.Embed? <==> l.kind == "video" && l.url.Some? && VideoId(l.url.value).Some?
    ensures v.Embed? ==> v.src == EmbedUrl(VideoId(l.url.value).value)
    ensures v.Link? <==> l.kind == "video" && (l.url.None? || VideoId(l.url.value).None?)
    ensures v.Link? ==> v.href == l.url && v.caption == PreviewCaption
    ensures v == Html(l.textContent) <==> l.kind == "text"
    ensures v.Unsupported? <==> l.kind != "video" && l.kind != "text"
    ensures !v.RenderError?
  {
    if l.kind == "video" then
      if l.url.None? then Link(None, PreviewCaption) else VideoView(l.url.value, PreviewCaption)
    else if l.kind == "text" then Html(l.textContent)
    else Unsupported
  }

  /** The viewer's `renderLessonContent`: `lesson.url.match(...)`, which throws on a missing URL. */
  function ViewerView(l: Lesson): (v: View)
    ensures v.Embed? <==> l.kind == "video" && l.url.Some? && VideoId(l.url.value).Some?
    ensures v.Embed? ==> v.src == EmbedUrl(VideoId(l.url.value).value)
    ensures v.Link? <==> l.kind == "video" && l.url.Some? && VideoId(l.url.value).None?
    ensures v.Link? ==> v.href == l.url && v.caption == ViewerCaption
    ensures v.RenderError? <==> l.kind == "video" && l.url.None?
    ensures v == Html(l.textContent) <==> l.kind == "text"
    ensures v.Unsupported? <==> l.kind != "video" && l.kind != "text"
  {
    if l.kind == "video" then
      if l.url.None? then RenderError else VideoView(l.url.value, ViewerCaption)
    else if l.kind == "text" then Html(l.textContent)
    else Unsupported
  }

  /**
   * The two pages render a lesson alike, apart from the link's caption, except for a video
   * lesson without a URL: the preview shows a link with no target, the viewer fails.
   */
  lemma RenderersAgree(l: Lesson)
    ensures !(l.kind == "video" && l.url.None?) ==>
      && (PreviewView(l).Link? <==> ViewerView(l).Link?)
      && (PreviewView(l).Link? ==> PreviewView(l).href == ViewerView(l).href)
      && (!PreviewView(l).Link? ==> PreviewView(l) == ViewerView(l))
    ensures l.kind == "video" && l.url.None? ==>
      PreviewView(l) == Link(None, PreviewCaption) && ViewerView(l).RenderError?
  {
  }

  /** The player is handed a URL from which the same id is read again. */
  lemma EmbeddedIdRoundTrip(l: Lesson)
    requires PreviewView(l).Embed?
    ensures VideoId(PreviewView(l).src) == VideoId(l.url.value)
  {
    EmbedUrlRoundTrip(VideoId(l.url.value).value);
  }

  /** A video lesson stored as a watch link is played, not linked. */
  lemma WatchLinkIsEmbedded(l: Lesson, id: string)
    requires l.kind == "video" && IsVideoId(id) && l.url == Some(WatchPrefix + id)
    ensures PreviewView(l) == Embed(EmbedUrl(id)) && ViewerView(l) == Embed(EmbedUrl(id))
  {
    WatchLinkRoundTrip(id);
  }
}
