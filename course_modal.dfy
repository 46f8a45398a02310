/**
 * The teacher's course dialog: its form, prefilled from the course being edited, and the
 * multipart form it hands to the page when the teacher saves.
 */
module CourseModal {
  import opened Common
  import opened Courses

  /**
   * `formData`. A prefilled name or description is whatever the course carries, possibly
   * missing; the number field clears `duration` to null; the category dropdown can be cleared.
   */
  datatype CourseForm = CourseForm(
    name: Option<string>,
    description: Option<string>,
    duration: Option<int>,
    categoryId: Option<int>,
    syllabus: string)

  /** `{ name: '', description: '', duration: 0, categoryId: null, syllabus: '' }` */
  const EmptyForm := CourseForm(Some(""), Some(""), Some(0), None, "")

  /** A file picked in the upload widget, known by its name. */
  datatype ImageFile = ImageFile(fileName: string)

  /** `course && course.id`: an id of 0 counts as a new course. */
  predicate IsEditMode(course: Option<Course>)
  {
    course.Some? && course.value.id != 0
  }

  /** `course.category?.id || null`: a missing category, a missing id and the id 0 all give null. */
  function CategoryIdOf(c: Course): (id: Option<int>)
    ensures id.Some? <==> c.category.Some? && c.category.value.id.Some? && c.category.value.id.value != 0
    ensures id.Some? ==> id == c.category.value.id
  {
    match c.category
    case Some(CategoryRef(Some(k))) => if k != 0 then Some(k) else None
    case _ => None
  }

  /** The form the dialog shows for `course`: the course's own values when editing, the empty form otherwise. */
  function Prefill(course: Option<Course>): (f: CourseForm)
    ensures !IsEditMode(course) ==> f == EmptyForm
    ensures IsEditMode(course) ==>
      && f.name == course.value.name && f.description == course.value.description
      && f.duration == course.value.duration && f.categoryId == CategoryIdOf(course.value)
      && f.syllabus == OrDefault(course.value.syllabus, "")
  {
    if IsEditMode(course) then
      var c := course.value;
      CourseForm(c.name, c.description, c.duration, CategoryIdOf(c), OrDefault(c.syllabus, ""))
    else EmptyForm
  }

  /** The prefilled syllabus is empty exactly when no course with a syllabus is being edited. */
  lemma PrefillSyllabusEmpty(course: Option<Course>)
    ensures Prefill(course).syllabus == "" <==> !(IsEditMode(course) && Truthy(course.value.syllabus))
  {
  }

  /** One control's change: `handleInputChange(value, name)`. */
  datatype CourseInput =
    | NameInput(text: string)
    | DescriptionInput(text: string)
    | SyllabusInput(text: string)
    | DurationInput(hours: Option<int>)
    | CategoryInput(categoryId: Option<int>)

  /** `{ ...prev, [name]: value }` */
  function ApplyInput(f: CourseForm, input: CourseInput): (r: CourseForm)
    ensures input.NameInput? ==> r == f.(name := Some(input.text))
    ensures input.DescriptionInput? ==> r == f.(description := Some(input.text))
    ensures input.SyllabusInput? ==> r == f.(syllabus := input.text)
    ensures input.DurationInput? ==> r == f.(duration := input.hours)
    ensures input.CategoryInput? ==> r == f.(categoryId := input.categoryId)
  {
    match input
    case NameInput(t) => f.(name := Some(t))
    case DescriptionInput(t) => f.(description := Some(t))
    case SyllabusInput(t) => f.(syllabus := t)
    case DurationInput(h) => f.(duration := h)
    case CategoryInput(k) => f.(categoryId := k)
  }

  /** A change to one control leaves every other control as it was. */
  lemma InputChangesOneField(f: CourseForm, input: CourseInput)
    ensures !input.NameInput? ==> ApplyInput(f, input).name == f.name
    ensures !input.DescriptionInput? ==> ApplyInput(f, input).description == f.description
    ensures !input.SyllabusInput? ==> ApplyInput(f, input).syllabus == f.syllabus
    ensures !input.DurationInput? ==> ApplyInput(f, input).duration == f.duration
    ensures !input.CategoryInput? ==> ApplyInput(f, input).categoryId == f.categoryId
  {
  }

  /** A value appended to the multipart form. */
  datatype FormValue =
    | Text(text: Option<string>)
    | Number(number: Option<int>)
    | Blob(file: ImageFile)

  datatype FormEntry = FormEntry(key: string, value: FormValue)

  /** The order the save handler appends keys in. */
  const KeyOrder := ["name", "description", "duration", "teacherId", "categoryId", "syllabus", "file"]

  /** The position of `key` in `KeyOrder`, or 7 for a key the handler never appends. */
  function KeyRank(key: string): nat
  {
    if key == "name" then 0
    else if key == "description" then 1
    else if key == "duration" then 2
    else if key == "teacherId" then 3
    else if key == "categoryId" then 4
    else if key == "syllabus" then 5
    else if key == "file" then 6
    else 7
  }

  /** `KeyRank` numbers the keys of `KeyOrder` by their position. */
  lemma KeyRankFollowsKeyOrder()
    ensures forall r | 0 <= r < |KeyOrder| :: KeyRank(KeyOrder[r]) == r
  {
  }

  predicate HasKey(entries: seq<FormEntry>, key: string)
  {
    exists k | 0 <= k < |entries| :: entries[k].key == key
  }

  /** Every key is a known one, and each appears after the keys that precede it in `KeyOrder`. */
  predicate InKeyOrder(entries: seq<FormEntry>)
  {
    && (forall k | 0 <= k < |entries| :: KeyRank(entries[k].key) < 7)
    && (forall i, j | 0 <= i < j < |entries| :: KeyRank(entries[i].key) < KeyRank(entries[j].key))
  }

  /** `entry` when `present`, nothing otherwise: one guarded `append`. */
  function AppendIf(present: bool, entry: FormEntry): seq<FormEntry>
  {
    if present then [entry] else []
  }

  /** The four keys appended unconditionally, in their order. */
  function FixedEntries(f: CourseForm, teacherId: Option<int>): seq<FormEntry>
  {
    [FormEntry("name", Text(f.name)), FormEntry("description", Text(f.description)),
     FormEntry("duration", Number(f.duration)), FormEntry("teacherId", Number(teacherId))]
  }

  /** `if (formData.categoryId)` */
  function CategoryEntry(f: CourseForm): seq<FormEntry>
  {
    AppendIf(f.categoryId.Some? && f.categoryId.value != 0, FormEntry("categoryId", Number(f.categoryId)))
  }

  /** `if (formData.syllabus)` */
  function SyllabusEntry(f: CourseForm): seq<FormEntry>
  {
    AppendIf(f.syllabus != "", FormEntry("syllabus", Text(Some(f.syllabus))))
  }

  /** `if (selectedFile)` */
  function FileEntry(file: Option<ImageFile>): seq<FormEntry>
  {
    if file.Some? then [FormEntry("file", Blob(file.value))] else []
  }

  /** The multipart form `handleSaveClick` builds. */
  function SaveForm(f: CourseForm, teacherId: Option<int>, file: Option<ImageFile>): seq<FormEntry>
  {
    FixedEntries(f, teacherId) + CategoryEntry(f) + SyllabusEntry(f) + FileEntry(file)
  }

  lemma HasKeyAppend(a: seq<FormEntry>, b: seq<FormEntry>, key: string)
    ensures HasKey(a + b, key) <==> HasKey(a, key) || HasKey(b, key)
  {
    if HasKey(a + b, key) {
      var k :| 0 <= k < |a + b| && (a + b)[k].key == key;
      if k >= |a| {
        assert b[k - |a|].key == key;
      }
    }
    if HasKey(a, key) {
      var k :| 0 <= k < |a| && a[k].key == key;
      assert (a + b)[k].key == key;
    }
    if HasKey(b, key) {
      var k :| 0 <= k < |b| && b[k].key == key;
      assert (a + b)[|a| + k].key == key;
    }
  }

  predicate RanksBelow(a: seq<FormEntry>, r: nat)
  {
    forall k | 0 <= k < |a| :: KeyRank(a[k].key) < r
  }

  predicate RanksFrom(b: seq<FormEntry>, r: nat)
  {
    forall k | 0 <= k < |b| :: KeyRank(b[k].key) >= r
  }

  /** Two forms in key order, all of whose ranks are below `r` and from `r` on, stay in key order once joined. */
  lemma InKeyOrderAppend(a: seq<FormEntry>, b: seq<FormEntry>, r: nat)
    requires InKeyOrder(a) && InKeyOrder(b) && RanksBelow(a, r) && RanksFrom(b, r)
    ensures InKeyOrder(a + b)
  {
    var e := a + b;
    forall i, j | 0 <= i < j < |e|
      ensures KeyRank(e[i].key) < KeyRank(e[j].key)
    {
      if j >= |a| {
        assert e[j] == b[j - |a|];
        if i >= |a| {
          assert e[i] == b[i - |a|];
        }
      }
    }
  }

  /** A joined form's ranks stay below `r` when both parts' ranks do. */
  lemma RanksBelowAppend(a: seq<FormEntry>, b: seq<FormEntry>, r: nat)
    requires RanksBelow(a, r) && RanksBelow(b, r)
    ensures RanksBelow(a + b, r)
  {
    forall k | 0 <= k < |a + b| ensures KeyRank((a + b)[k].key) < r {
      if k >= |a| {
        assert (a + b)[k] == b[k - |a|];
      }
    }
  }

  /** At most one optional entry, at rank `r`, keeps key order and sits between `r - 1` and `r + 1`. */
  lemma OptionalEntryRank(present: bool, entry: FormEntry, r: nat)
    requires KeyRank(entry.key) == r && r < 7
    ensures InKeyOrder(AppendIf(present, entry))
    ensures RanksFrom(AppendIf(present, entry), r) && RanksBelow(AppendIf(present, entry), r + 1)
  {
  }

  /** The ranks of the keys the save handler uses. */
  lemma SaveKeyRanks()
    ensures KeyRank("name") == 0 && KeyRank("description") == 1 && KeyRank("duration") == 2
    ensures KeyRank("teacherId") == 3 && KeyRank("categoryId") == 4 && KeyRank("syllabus") == 5
    ensures KeyRank("file") == 6
  {
  }

  lemma FixedEntriesRanks(f: CourseForm, teacherId: Option<int>)
    ensures InKeyOrder(FixedEntries(f, teacherId)) && RanksBelow(FixedEntries(f, teacherId), 4)
  {
    SaveKeyRanks();
  }

  /** The keys of the save form keep `KeyOrder`: none repeats, and none comes before a key it follows there. */
  lemma {:induction false} SaveFormInKeyOrder(f: CourseForm, teacherId: Option<int>, file: Option<ImageFile>)
    ensures InKeyOrder(SaveForm(f, teacherId, file))
  {
    var fixed, a, b, c := FixedEntries(f, teacherId), CategoryEntry(f), SyllabusEntry(f), FileEntry(file);
    SaveKeyRanks();
    FixedEntriesRanks(f, teacherId);
    OptionalEntryRank(f.categoryId.Some? && f.categoryId.value != 0, FormEntry("categoryId", Number(f.categoryId)), 4);
    OptionalEntryRank(f.syllabus != "", FormEntry("syllabus", Text(Some(f.syllabus))), 5);
    if file.Some? {
      OptionalEntryRank(true, FormEntry("file", Blob(file.value)), 6);
    }
    InKeyOrderAppend(fixed, a, 4);
    RanksBelowAppend(fixed, a, 5);
    InKeyOrderAppend(fixed + a, b, 5);
    RanksBelowAppend(fixed + a, b, 6);
    InKeyOrderAppend(fixed + a + b, c, 6);
  }

  lemma KeysOfFixed(f: CourseForm, teacherId: Option<int>, key: string)
    requires key == "categoryId" || key == "syllabus" || key == "file"
    ensures !HasKey(FixedEntries(f, teacherId), key)
  {
  }

  /**
   * Each optional key is present exactly when its control is set; the four fixed keys lead the
   * form in their order.
   */
  lemma {:induction false} SaveFormKeys(f: CourseForm, teacherId: Option<int>, file: Option<ImageFile>)
    ensures |SaveForm(f, teacherId, file)| >= 4
    ensures SaveForm(f, teacherId, file)[..4] == [
      FormEntry("name", Text(f.name)), FormEntry("description", Text(f.description)),
      FormEntry("duration", Number(f.duration)), FormEntry("teacherId", Number(teacherId))]
    ensures HasKey(SaveForm(f, teacherId, file), "categoryId") <==> f.categoryId.Some? && f.categoryId.value != 0
    ensures HasKey(SaveForm(f, teacherId, file), "syllabus") <==> f.syllabus != ""
    ensures HasKey(SaveForm(f, teacherId, file), "file") <==> file.Some?
  {
    var fixed, a, b, c := FixedEntries(f, teacherId), CategoryEntry(f), SyllabusEntry(f), FileEntry(file);
    var e := SaveForm(f, teacherId, file);
    assert e == ((fixed + a) + b) + c;
    forall key | key == "categoryId" || key == "syllabus" || key == "file"
      ensures HasKey(e, key) <==> HasKey(a, key) || HasKey(b, key) || HasKey(c, key)
    {
      HasKeyAppend(fixed + a + b, c, key);
      HasKeyAppend(fixed + a, b, key);
      HasKeyAppend(fixed, a, key);
      KeysOfFixed(f, teacherId, key);
    }
    assert HasKey(a, "categoryId") <==> a != [] by { if a != [] { assert a[0].key == "categoryId"; } }
    assert !HasKey(b, "categoryId") && !HasKey(c, "categoryId");
    assert HasKey(b, "syllabus") <==> b != [] by { if b != [] { assert b[0].key == "syllabus"; } }
    assert !HasKey(a, "syllabus") && !HasKey(c, "syllabus");
    assert HasKey(c, "file") <==> c != [] by { if c != [] { assert c[0].key == "file"; } }
    assert !HasKey(a, "file") && !HasKey(b, "file");
  }

  class CourseDialog {
    /** The `teacherId` prop: the session user's id, possibly missing. */
    const teacherId: Option<int>
    /** The `course` prop: the course being edited, or none for a new one. */
    var course: Option<Course>
    var formData: CourseForm
    var selectedFile: Option<ImageFile>

    constructor (teacherId: Option<int>)
      ensures this.teacherId == teacherId
      ensures course.None? && formData == EmptyForm && selectedFile.None?
    {
      this.teacherId := teacherId;
      course, formData, selectedFile := None, EmptyForm, None;
    }

    /** The prefill effect, run whenever the course or the dialog's visibility changes; it always drops the picked file. */
    method Reset(c: Option<Course>)
      modifies this
      ensures course == c && formData == Prefill(c) && selectedFile.None?
    {
      course := c;
      formData := Prefill(c);
      selectedFile := None;
    }

    method HandleInputChange(input: CourseInput)
      modifies this
      ensures formData == ApplyInput(old(formData), input)
      ensures course == old(course) && selectedFile == old(selectedFile)
    {
      formData := ApplyInput(formData, input);
    }

    /** `onFileSelect`: the first selected file replaces any earlier one. */
    method OnFileSelect(file: ImageFile)
      modifies this
      ensures selectedFile == Some(file)
      ensures course == old(course) && formData == old(formData)
    {
      selectedFile := Some(file);
    }

    /**
     * `handleSaveClick`: builds the multipart form key by key and hands it to the page together
     * with `course?.id`, which is missing for a new course.
     */
    method HandleSaveClick() returns (entries: seq<FormEntry>, courseId: Option<nat>)
      ensures entries == SaveForm(formData, teacherId, selectedFile)
      ensures courseId == if course.Some? then Some(course.value.id) else None
    {
      entries := [];
      entries := entries + [FormEntry("name", Text(formData.name))];
      entries := entries + [FormEntry("description", Text(formData.description))];
      entries := entries + [FormEntry("duration", Number(formData.duration))];
      entries := entries + [FormEntry("teacherId", Number(teacherId))];
      if formData.categoryId.Some? && formData.categoryId.value != 0 {
        entries := entries + [FormEntry("categoryId", Number(formData.categoryId))];
      }
      if formData.syllabus != "" {
        entries := entries + [FormEntry("syllabus", Text(Some(formData.syllabus)))];
      }
      if selectedFile.Some? {
        entries := entries + [FormEntry("file", Blob(selectedFile.value))];
      }
      courseId := if course.Some? then Some(course.value.id) else None;
    }
  }
}
