/**
 * The content document of a course: an ordered list of modules, each holding an ordered list
 * of lessons, and the edits the teacher's editor makes to it. Every edit finds its module or
 * lesson by id; the functions here are the map/filter/spread expressions the editor applies.
 */
module CourseContent {
  import opened Common

  /** A lesson; `kind` is its `type` ('text' or 'video'), and `url`/`textContent` may be missing. */
  datatype Lesson = Lesson(id: string, title: string, kind: string, url: Option<string>, textContent: Option<string>)

  /** A module; `lessons` is missing for a module that was stored without them. */
  datatype CourseModule = CourseModule(id: string, title: string, lessons: Option<seq<Lesson>>)

  /** The `modules` key of a stored document: missing, an array of modules, or some other value. */
  datatype ModulesField = Missing | NotArray | Array(items: seq<CourseModule>)

  /**
   * The content record the backend returns for a course. The editor saves the document and
   * reads it back under `contentJson`; the public preview reads it under `content`. `None` is a
   * document that is null or absent.
   */
  datatype ContentRecord = ContentRecord(content: Option<ModulesField>, contentJson: Option<ModulesField>)

  /** The lesson dialog's form: `{ title, type, url, textContent }`. */
  datatype LessonData = LessonData(title: string, kind: string, url: string, textContent: string)

  const BlankLesson := LessonData("", "text", "", "")

  /**
   * The modules the editor starts from: those of the loaded document when its `modules` is an
   * array, and none when the document is missing, its `modules` is not an array, or the fetch
   * failed (a missing record makes reading `contentJson` throw, which also lands there).
   */
  function LoadedModules(reply: Outcome<Option<ContentRecord>>): (ms: seq<CourseModule>)
    ensures ms != [] ==> reply.Ok? && reply.value.Some? && reply.value.value.contentJson == Some(Array(ms))
    ensures (reply.Ok? && reply.value.Some? && reply.value.value.contentJson.Some? && reply.value.value.contentJson.value.Array?)
      ==> ms == reply.value.value.contentJson.value.items
  {
    match reply
    case Ok(Some(ContentRecord(_, Some(Array(items))))) => items
    case _ => []
  }

  function ModuleIds(ms: seq<CourseModule>): (ids: seq<string>)
    ensures |ids| == |ms| && forall i | 0 <= i < |ms| :: ids[i] == ms[i].id
  {
    seq(|ms|, i requires 0 <= i < |ms| => ms[i].id)
  }

  /** No two modules share an id. */
  predicate UniqueModuleIds(ms: seq<CourseModule>)
  {
    forall i, j | 0 <= i < j < |ms| :: ms[i].id != ms[j].id
  }

  /** No two lessons of the same module share an id. */
  predicate UniqueLessonIds(ms: seq<CourseModule>)
  {
    forall i | 0 <= i < |ms| && ms[i].lessons.Some? ::
      forall j, k | 0 <= j < k < |ms[i].lessons.value| :: ms[i].lessons.value[j].id != ms[i].lessons.value[k].id
  }

  /** `id` is used by no module and by no lesson: what a freshly generated identifier is. */
  predicate FreshId(ms: seq<CourseModule>, id: string)
  {
    forall i | 0 <= i < |ms| ::
      && ms[i].id != id
      && (ms[i].lessons.Some? ==> forall j | 0 <= j < |ms[i].lessons.value| :: ms[i].lessons.value[j].id != id)
  }

  // ---------------------------------------------------------------------------
  // Modules

  /** `modules.map(mod => mod.id === id ? { ...mod, title } : mod)` */
  function RenameModule(ms: seq<CourseModule>, id: string, title: string): (r: seq<CourseModule>)
    ensures |r| == |ms|
    ensures forall i | 0 <= i < |ms| :: r[i].id == ms[i].id && r[i].lessons == ms[i].lessons
    ensures forall i | 0 <= i < |ms| :: r[i].title == if ms[i].id == id then title else ms[i].title
  {
    seq(|ms|, i requires 0 <= i < |ms| => if ms[i].id == id then ms[i].(title := title) else ms[i])
  }

  /** Renaming an id no module has changes nothing. */
  lemma RenameMissingIsIdentity(ms: seq<CourseModule>, id: string, title: string)
    requires id !in ModuleIds(ms)
    ensures RenameModule(ms, id, title) == ms
  {
    var r := RenameModule(ms, id, title);
    forall i | 0 <= i < |ms| ensures r[i] == ms[i] {
      assert ModuleIds(ms)[i] == ms[i].id;
    }
  }

  /** Renaming twice is renaming once with the last title. */
  lemma RenameTwice(ms: seq<CourseModule>, id: string, t1: string, t2: string)
    ensures RenameModule(RenameModule(ms, id, t1), id, t2) == RenameModule(ms, id, t2)
  {
  }

  /** `[...modules, { id, title, lessons: [] }]` */
  function AppendModule(ms: seq<CourseModule>, id: string, title: string): (r: seq<CourseModule>)
    ensures |r| == |ms| + 1 && r[..|ms|] == ms
    ensures r[|ms|] == CourseModule(id, title, Some([]))
  {
    ms + [CourseModule(id, title, Some([]))]
  }

  function KeepModule(id: string): CourseModule -> bool
  {
    (m: CourseModule) => m.id != id
  }

  /** `modules.filter(mod => mod.id !== id)` */
  function RemoveModule(ms: seq<CourseModule>, id: string): (r: seq<CourseModule>)
    ensures forall m | m in r :: m in ms && m.id != id
    ensures forall m | m in ms && m.id != id :: m in r
  {
    Filter(ms, KeepModule(id))
  }

  /**
   * Removing a module keeps the other modules, whole, in their order: the result is picked
   * from strictly increasing positions, and exactly the positions whose id differs are picked.
   */
  lemma RemoveModuleKeepsOrder(ms: seq<CourseModule>, id: string)
    ensures var r, idx := RemoveModule(ms, id), KeptIndices(ms, KeepModule(id), 0);
      && |idx| == |r|
      && (forall k | 0 <= k < |idx| :: idx[k] < |ms| && r[k] == ms[idx[k]])
      && (forall k, m | 0 <= k < m < |idx| :: idx[k] < idx[m])
      && (forall p | 0 <= p < |ms| :: ms[p].id != id <==> p in idx)
  {
    FilterKeepsOrder(ms, KeepModule(id), 0);
    assert ms[0..] == ms;
  }

  /** Deleting a module that was just added with a fresh id gives the list back. */
  lemma {:induction false} AppendThenRemoveModule(ms: seq<CourseModule>, id: string, title: string)
    requires id !in ModuleIds(ms)
    ensures RemoveModule(AppendModule(ms, id, title), id) == ms
  {
    FilterAppend(ms, [CourseModule(id, title, Some([]))], KeepModule(id));
    forall i | 0 <= i < |ms| ensures KeepModule(id)(ms[i]) {
      assert ModuleIds(ms)[i] == ms[i].id;
    }
    FilterKeepsAll(ms, KeepModule(id));
  }

  /** A module added with a fresh id keeps the ids unique. */
  lemma AppendModuleKeepsUnique(ms: seq<CourseModule>, id: string, title: string)
    requires UniqueModuleIds(ms) && UniqueLessonIds(ms) && FreshId(ms, id)
    ensures UniqueModuleIds(AppendModule(ms, id, title)) && UniqueLessonIds(AppendModule(ms, id, title))
  {
  }

  /** Deleting a module keeps the ids unique. */
  lemma RemoveModuleKeepsUnique(ms: seq<CourseModule>, id: string)
    requires UniqueModuleIds(ms) && UniqueLessonIds(ms)
    ensures UniqueModuleIds(RemoveModule(ms, id)) && UniqueLessonIds(RemoveModule(ms, id))
  {
    RemoveModuleKeepsOrder(ms, id);
  }

  // ---------------------------------------------------------------------------
  // Lessons

  /** `{ ...lesson, ...data }`: the form's four keys overwrite the lesson's, its id stays. */
  function Overwrite(l: Lesson, d: LessonData): (r: Lesson)
    ensures r.id == l.id
  {
    l.(title := d.title, kind := d.kind, url := Some(d.url), textContent := Some(d.textContent))
  }

  /** `{ ...data, id }` */
  function NewLesson(id: string, d: LessonData): (r: Lesson)
    ensures Overwrite(r, d) == r && r.id == id
  {
    Lesson(id, d.title, d.kind, Some(d.url), Some(d.textContent))
  }

  /** Some module with id `moduleId` has no lessons: `mod.lessons.map` / `.filter` then throws. */
  predicate TargetLacksLessons(ms: seq<CourseModule>, moduleId: Option<string>)
  {
    exists i | 0 <= i < |ms| :: Some(ms[i].id) == moduleId && ms[i].lessons.None?
  }

  /**
   * Editing a lesson: inside the modules with id `moduleId`, every lesson with id `lessonId`
   * takes the form's values. `None` when a target module has no lessons (the handler throws).
   */
  function EditLesson(ms: seq<CourseModule>, moduleId: Option<string>, lessonId: string, d: LessonData): (r: Option<seq<CourseModule>>)
    ensures r.None? <==> TargetLacksLessons(ms, moduleId)
    ensures r.Some? ==> |r.value| == |ms|
    ensures r.Some? ==> forall i | 0 <= i < |ms| ::
      && r.value[i].id == ms[i].id && r.value[i].title == ms[i].title
      && (Some(ms[i].id) != moduleId ==> r.value[i] == ms[i])
    ensures r.Some? ==> forall i | 0 <= i < |ms| && Some(ms[i].id) == moduleId ::
      && r.value[i].lessons.Some? && |r.value[i].lessons.value| == |ms[i].lessons.value|
      && forall j | 0 <= j < |ms[i].lessons.value| ::
        var l := ms[i].lessons.value[j];
        r.value[i].lessons.value[j] == if l.id == lessonId then Overwrite(l, d) else l
  {
    if TargetLacksLessons(ms, moduleId) then None
    else Some(seq(|ms|, i requires 0 <= i < |ms| =>
      if Some(ms[i].id) == moduleId then
        var ls := ms[i].lessons.value;
        ms[i].(lessons := Some(seq(|ls|, j requires 0 <= j < |ls| => if ls[j].id == lessonId then Overwrite(ls[j], d) else ls[j])))
      else ms[i]))
  }

  /** `[...(mod.lessons || []), lesson]` in the modules with id `moduleId`. */
  function AppendLesson(ms: seq<CourseModule>, moduleId: Option<string>, l: Lesson): (r: seq<CourseModule>)
    ensures |r| == |ms|
    ensures forall i | 0 <= i < |ms| :: r[i].id == ms[i].id && r[i].title == ms[i].title
    ensures forall i | 0 <= i < |ms| && Some(ms[i].id) != moduleId :: r[i] == ms[i]
    ensures forall i | 0 <= i < |ms| && Some(ms[i].id) == moduleId ::
      r[i].lessons == Some(LessonsOf(ms[i]) + [l])
  {
    seq(|ms|, i requires 0 <= i < |ms| =>
      if Some(ms[i].id) == moduleId then ms[i].(lessons := Some(LessonsOf(ms[i]) + [l])) else ms[i])
  }

  /** `mod.lessons || []` */
  function LessonsOf(m: CourseModule): seq<Lesson>
  {
    if m.lessons.Some? then m.lessons.value else []
  }

  /** When no module has the target id, adding a lesson changes nothing. */
  lemma AppendLessonToMissingModule(ms: seq<CourseModule>, moduleId: Option<string>, l: Lesson)
    requires forall i | 0 <= i < |ms| :: Some(ms[i].id) != moduleId
    ensures AppendLesson(ms, moduleId, l) == ms
  {
  }

  function KeepLesson(id: string): Lesson -> bool
  {
    (l: Lesson) => l.id != id
  }

  /**
   * Deleting a lesson: inside the modules with id `moduleId`, the lessons with id `lessonId`
   * are dropped. `None` when a target module has no lessons (the handler throws).
   */
  function RemoveLesson(ms: seq<CourseModule>, moduleId: Option<string>, lessonId: string): (r: Option<seq<CourseModule>>)
    ensures r.None? <==> TargetLacksLessons(ms, moduleId)
    ensures r.Some? ==> |r.value| == |ms|
    ensures r.Some? ==> forall i | 0 <= i < |ms| ::
      && r.value[i].id == ms[i].id && r.value[i].title == ms[i].title
      && (Some(ms[i].id) != moduleId ==> r.value[i] == ms[i])
    ensures r.Some? ==> forall i | 0 <= i < |ms| && Some(ms[i].id) == moduleId ::
      r.value[i].lessons == Some(Filter(ms[i].lessons.value, KeepLesson(lessonId)))
  {
    if TargetLacksLessons(ms, moduleId) then None
    else Some(seq(|ms|, i requires 0 <= i < |ms| =>
      if Some(ms[i].id) == moduleId then ms[i].(lessons := Some(Filter(ms[i].lessons.value, KeepLesson(lessonId))))
      else ms[i]))
  }

  /** In a module the deletion touches, exactly the other lessons survive, in their order. */
  lemma RemoveLessonKeepsSiblings(ls: seq<Lesson>, lessonId: string)
    ensures var r, idx := Filter(ls, KeepLesson(lessonId)), KeptIndices(ls, KeepLesson(lessonId), 0);
      && (forall l | l in r :: l in ls && l.id != lessonId)
      && (forall l | l in ls && l.id != lessonId :: l in r)
      && |idx| == |r|
      && (forall k | 0 <= k < |idx| :: idx[k] < |ls| && r[k] == ls[idx[k]])
      && (forall k, m | 0 <= k < m < |idx| :: idx[k] < idx[m])
  {
    FilterKeepsOrder(ls, KeepLesson(lessonId), 0);
    assert ls[0..] == ls;
  }

  /**
   * Deleting a lesson that was just added with a fresh id gives the modules back, provided
   * the target modules already had a lesson list.
   */
  lemma {:induction false} AppendThenRemoveLesson(ms: seq<CourseModule>, moduleId: Option<string>, id: string, d: LessonData)
    requires FreshId(ms, id)
    requires !TargetLacksLessons(ms, moduleId)
    ensures RemoveLesson(AppendLesson(ms, moduleId, NewLesson(id, d)), moduleId, id) == Some(ms)
  {
    var l := NewLesson(id, d);
    var added := AppendLesson(ms, moduleId, l);
    assert !TargetLacksLessons(added, moduleId);
    var r := RemoveLesson(added, moduleId, id).value;
    forall i | 0 <= i < |ms| ensures r[i] == ms[i] {
      if Some(ms[i].id) == moduleId {
        var ls := ms[i].lessons.value;
        assert added[i].id == ms[i].id && added[i].lessons.value == ls + [l];
        assert r[i].lessons == Some(Filter(ls + [l], KeepLesson(id)));
        FilterAppend(ls, [l], KeepLesson(id));
        assert [l][1..] == [];
        assert Filter([l], KeepLesson(id)) == [];
        FilterKeepsAll(ls, KeepLesson(id));
        assert Filter(ls + [l], KeepLesson(id)) == ls + [];
        assert ls + [] == ls;
        assert r[i].lessons == Some(ls);
      } else {
        assert added[i] == ms[i];
      }
    }
    assert |r| == |ms|;
    assert r == ms;
  }

  /** A lesson added with a fresh id keeps the ids unique. */
  lemma AppendLessonKeepsUnique(ms: seq<CourseModule>, moduleId: Option<string>, id: string, d: LessonData)
    requires UniqueModuleIds(ms) && UniqueLessonIds(ms) && FreshId(ms, id)
    ensures UniqueModuleIds(AppendLesson(ms, moduleId, NewLesson(id, d)))
    ensures UniqueLessonIds(AppendLesson(ms, moduleId, NewLesson(id, d)))
  {
    var r := AppendLesson(ms, moduleId, NewLesson(id, d));
    forall i | 0 <= i < |r| && r[i].lessons.Some?
      ensures forall j, k | 0 <= j < k < |r[i].lessons.value| :: r[i].lessons.value[j].id != r[i].lessons.value[k].id
    {
      if Some(ms[i].id) == moduleId {
        var ls := LessonsOf(ms[i]);
        assert r[i].lessons.value == ls + [NewLesson(id, d)];
      }
    }
  }

  /** Editing and deleting lessons keep the ids unique. */
  lemma {:induction false} LessonEditsKeepUnique(ms: seq<CourseModule>, moduleId: Option<string>, lessonId: string, d: LessonData)
    requires UniqueModuleIds(ms) && UniqueLessonIds(ms) && !TargetLacksLessons(ms, moduleId)
    ensures UniqueModuleIds(EditLesson(ms, moduleId, lessonId, d).value)
    ensures UniqueLessonIds(EditLesson(ms, moduleId, lessonId, d).value)
    ensures UniqueModuleIds(RemoveLesson(ms, moduleId, lessonId).value)
    ensures UniqueLessonIds(RemoveLesson(ms, moduleId, lessonId).value)
  {
    var r := RemoveLesson(ms, moduleId, lessonId).value;
    forall i | 0 <= i < |r| && r[i].lessons.Some?
      ensures forall j, k | 0 <= j < k < |r[i].lessons.value| :: r[i].lessons.value[j].id != r[i].lessons.value[k].id
    {
      if Some(ms[i].id) == moduleId {
        var ls := ms[i].lessons.value;
        RemoveLessonKeepsSiblings(ls, lessonId);
      }
    }
  }
}
