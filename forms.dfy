/**
 * The six model forms: which submitted fields each one reads, how each
 * field is cleaned, and which fields of a record each one may write.
 */
module Forms {
  import opened Wrappers
  import opened Calendar
  import opened Models

  /** The record fields a form can write or report an error on. */
  datatype Field =
    | NameField | TitleField | DescriptionField | CategoryField | PriorityField | StatusField
    | DeadlineField | ParentTaskField | TaskField | ContentField | CreatedAtField | UpdatedAtField

  /** Why a submitted field was refused. */
  datatype Problem = Required | TooLong | NullCharacter | InvalidChoice | InvalidDateTime

  type Errors = map<Field, Problem>

  // ---- surrounding whitespace ----

  /** The characters Python's `str.isspace` accepts, which `str.strip()` removes. */
  predicate IsSpace(c: char) {
    || c == ' ' || '\t' <= c <= '\r' || '\U{1c}' <= c <= '\U{1f}' || c == '\U{85}' || c == '\U{a0}'
    || c == '\U{1680}' || '\U{2000}' <= c <= '\U{200a}' || c == '\U{2028}' || c == '\U{2029}' || c == '\U{202f}'
    || c == '\U{205f}' || c == '\U{3000}'
  }

  predicate AllSpace(s: string) {
    forall k :: 0 <= k < |s| ==> IsSpace(s[k])
  }

  /** `s` without its leading whitespace. */
  function StripStart(s: string): string
    decreases |s|
  {
    if s != [] && IsSpace(s[0]) then StripStart(s[1..]) else s
  }

  /** `s` without its trailing whitespace. */
  function StripEnd(s: string): string
    decreases |s|
  {
    if s != [] && IsSpace(s[|s| - 1]) then StripEnd(s[..|s| - 1]) else s
  }

  /** `str.strip()`: what a form's text field keeps of the submitted value. */
  function Strip(s: string): string {
    StripEnd(StripStart(s))
  }

  /** Leading whitespace is cut: what remains is a suffix of `s` that does not start with whitespace. */
  lemma {:induction false} StripStartCuts(s: string)
    ensures var r := StripStart(s);
            && |r| <= |s| && r == s[|s| - |r|..] && (r == [] || !IsSpace(r[0]))
            && forall k :: 0 <= k < |s| - |r| ==> IsSpace(s[k])
    decreases |s|
  {
    if s != [] && IsSpace(s[0]) {
      StripStartCuts(s[1..]);
    }
  }

  /** Trailing whitespace is cut: what remains is a prefix of `s` that does not end with whitespace. */
  lemma {:induction false} StripEndCuts(s: string)
    ensures var r := StripEnd(s);
            && |r| <= |s| && r == s[..|r|] && (r == [] || !IsSpace(r[|r| - 1]))
            && forall k :: |r| <= k < |s| ==> IsSpace(s[k])
    decreases |s|
  {
    if s != [] && IsSpace(s[|s| - 1]) {
      StripEndCuts(s[..|s| - 1]);
    }
  }

  /** Stripping keeps a middle slice of `s`: everything cut before and after it is whitespace. */
  lemma {:induction false} StripMiddle(s: string)
    ensures exists i, j ::
              && 0 <= i <= j <= |s| && Strip(s) == s[i..j]
              && (forall k :: 0 <= k < i ==> IsSpace(s[k]))
              && (forall k :: j <= k < |s| ==> IsSpace(s[k]))
  {
    var a := StripStart(s);
    StripStartCuts(s);
    StripEndCuts(a);
    var i := |s| - |a|;
    var j := i + |StripEnd(a)|;
    assert Strip(s) == s[i..j];
  }

  /** What stripping leaves neither starts nor ends with whitespace. */
  lemma {:induction false} StripEdges(s: string)
    ensures Strip(s) == [] || (!IsSpace(Strip(s)[0]) && !IsSpace(Strip(s)[|Strip(s)| - 1]))
  {
    var a := StripStart(s);
    var b := StripEnd(a);
    StripStartCuts(s);
    StripEndCuts(a);
    if b != [] {
      assert b[0] == a[0];
    }
  }

  lemma {:induction false} StartAllSpace(t: string)
    requires AllSpace(t)
    ensures StripStart(t) == []
  {
    StripStartCuts(t);
  }

  /** A text is blank, and refused as missing, exactly when it is all whitespace. */
  lemma {:induction false} StripBlank(s: string)
    ensures Strip(s) == [] <==> AllSpace(s)
  {
    if AllSpace(s) {
      StartAllSpace(s);
    }
    if Strip(s) == [] {
      var a := StripStart(s);
      StripStartCuts(s);
      StripEndCuts(a);
      assert a == [];
    }
  }

  /** Stripping is idempotent: a stripped text is kept as it is. */
  lemma {:induction false} StripIdempotent(s: string)
    ensures Strip(Strip(s)) == Strip(s)
  {
    StripEdges(s);
    var t := Strip(s);
    if t != [] {
      assert StripStart(t) == t;
      assert StripEnd(t) == t;
    }
  }

  lemma {:induction false} StartPadded(pad: string, t: string)
    requires AllSpace(pad)
    ensures StripStart(pad + t) == StripStart(t)
    decreases |pad|
  {
    if pad == [] {
      assert pad + t == t;
    } else {
      assert (pad + t)[0] == pad[0];
      assert (pad + t)[1..] == pad[1..] + t;
      StartPadded(pad[1..], t);
    }
  }

  lemma {:induction false} EndPadded(t: string, pad: string)
    requires AllSpace(pad)
    ensures StripEnd(t + pad) == StripEnd(t)
    decreases |pad|
  {
    if pad == [] {
      assert t + pad == t;
    } else {
      var p := pad[..|pad| - 1];
      assert (t + pad)[|t + pad| - 1] == pad[|pad| - 1];
      assert (t + pad)[..|t + pad| - 1] == t + p;
      EndPadded(t, p);
    }
  }

  lemma {:induction false} StartAppend(s: string, u: string)
    requires StripStart(s) != []
    ensures StripStart(s + u) == StripStart(s) + u
    decreases |s|
  {
    assert (s + u)[0] == s[0];
    if IsSpace(s[0]) {
      assert (s + u)[1..] == s[1..] + u;
      StartAppend(s[1..], u);
    }
  }

  lemma {:induction false} PaddedStrip(pad1: string, s: string, pad2: string)
    requires AllSpace(pad1) && AllSpace(pad2)
    ensures Strip(pad1 + s + pad2) == Strip(s)
  {
    assert pad1 + s + pad2 == pad1 + (s + pad2);
    StartPadded(pad1, s + pad2);
    if StripStart(s) == [] {
      StripStartCuts(s);
      forall k | 0 <= k < |s + pad2| ensures IsSpace((s + pad2)[k]) {
        if k >= |s| {
          assert (s + pad2)[k] == pad2[k - |s|];
        }
      }
      StartAllSpace(s + pad2);
    } else {
      StartAppend(s, pad2);
      EndPadded(StripStart(s), pad2);
    }
  }

  // ---- single fields ----

  /**
   * A required text field (`forms.CharField`, `strip=True`), with the
   * column's `max_length` when it has one: the value is stripped first, and
   * the checks and the saved value are about what remains.
   */
  function CleanText(v: Option<string>, maxLength: Option<nat>): (r: Result<string, Problem>)
    ensures r.Success? <==>
              && v.Some? && Strip(v.value) != ""
              && (maxLength.Some? ==> |Strip(v.value)| <= maxLength.value) && '\0' !in Strip(v.value)
    ensures r.Success? ==> r.value == Strip(v.value)
    ensures r.Failure? ==> (r.error == Required <==> v.None? || Strip(v.value) == "")
    ensures r.Failure? ==> (r.error == TooLong <==>
                              v.Some? && Strip(v.value) != "" && maxLength.Some? && |Strip(v.value)| > maxLength.value)
  {
    if v.None? then Failure(Required)
    else
      var t := Strip(v.value);
      if t == "" then Failure(Required)
      else if maxLength.Some? && |t| > maxLength.value then Failure(TooLong)
      else if '\0' in t then Failure(NullCharacter)
      else Success(t)
  }

  /** Whitespace around a submitted text changes nothing: the padded and the bare text clean alike. */
  lemma {:induction false} CleanTextPadded(pad1: string, s: string, pad2: string, maxLength: Option<nat>)
    requires AllSpace(pad1) && AllSpace(pad2)
    ensures CleanText(Some(pad1 + s + pad2), maxLength) == CleanText(Some(s), maxLength)
  {
    PaddedStrip(pad1, s, pad2);
  }

  /** A value of whitespace only is refused as missing, whatever the length limit. */
  lemma CleanTextBlank(s: string, maxLength: Option<nat>)
    requires AllSpace(s)
    ensures CleanText(Some(s), maxLength) == Failure(Required)
  {
    StripBlank(s);
  }

  /** A required choice among `STATUS_CHOICES`. */
  function CleanStatus(v: Option<string>): (r: Result<Status, Problem>)
    ensures r.Success? <==> v.Some? && StatusOf(v.value).Some?
    ensures r.Success? ==> StatusLabel(r.value) == v.value
    ensures r.Failure? ==> (r.error == Required <==> v.None? || v.value == "")
    ensures r.Failure? ==> r.error == Required || r.error == InvalidChoice
  {
    if v.None? || v.value == "" then Failure(Required)
    else match StatusOf(v.value)
      case Some(s) => Success(s)
      case None => Failure(InvalidChoice)
  }

  /** A required foreign key: the submitted key must name a row of `table`. */
  function CleanKey<V>(v: Option<int>, table: map<Id, V>): (r: Result<Id, Problem>)
    ensures r.Success? <==> v.Some? && v.value >= 0 && v.value as nat in table
    ensures r.Success? ==> r.value == v.value && r.value in table
    ensures r.Failure? ==> (r.error == Required <==> v.None?)
    ensures r.Failure? ==> r.error == Required || r.error == InvalidChoice
  {
    if v.None? then Failure(Required)
    else if v.value >= 0 && v.value as nat in table then Success(v.value as nat)
    else Failure(InvalidChoice)
  }

  /** The deadline's `input_formats`, tried in order: `%Y-%m-%dT%H:%M:%S`, then `%Y-%m-%dT%H:%M`. */
  function ParseDeadline(s: string): (r: Option<DateTime>)
    ensures r.Some? ==> Valid(r.value)
    ensures r.Some? ==> Fits(s, 'T', true) || (Fits(s, 'T', false) && r.value.second == 0)
  {
    var long := ParseFormat(s, 'T', true);
    if long.Some? then long
    else
      var short := ParseFormat(s, 'T', false);
      if short.Some? then assert short.value.second == 0; short else None
  }

  /** Every accepted deadline text is one of the two formats, written canonically. */
  lemma ParseDeadlineCanonical(s: string)
    requires ParseDeadline(s).Some?
    ensures s == Format(ParseDeadline(s).value, 'T', true) || s == Format(ParseDeadline(s).value, 'T', false)
  {
    if ParseFormat(s, 'T', true).Some? {
      ParseFormatCanonical(s, 'T', true);
    } else {
      ParseFormatCanonical(s, 'T', false);
    }
  }

  /** What the widget renders (`format='%Y-%m-%dT%H:%M:%S'`) is read back as the same deadline. */
  lemma WidgetRoundTrip(t: DateTime)
    requires Valid(t)
    ensures ParseDeadline(Format(t, 'T', true)) == Some(t)
  {
    ParseFormatRoundTrip(t, 'T', true);
  }

  /** A browser that drops zero seconds sends the short form, which reads back the same deadline. */
  lemma ShortFormRoundTrip(t: DateTime)
    requires Valid(t) && t.second == 0
    ensures ParseDeadline(Format(t, 'T', false)) == Some(t)
  {
    ParseFormatRoundTrip(t, 'T', false);
    var s := Format(t, 'T', false);
    assert |s| == 16 by { FormatFits(t, 'T', false); }
  }

  function CleanDeadline(v: Option<string>): (r: Result<DateTime, Problem>)
    ensures r.Success? <==> v.Some? && ParseDeadline(v.value).Some?
    ensures r.Success? ==> Some(r.value) == ParseDeadline(v.value)
    ensures r.Failure? ==> (r.error == Required <==> v.None? || v.value == "")
    ensures r.Failure? ==> r.error == Required || r.error == InvalidDateTime
  {
    if v.None? || v.value == "" then Failure(Required)
    else match ParseDeadline(v.value)
      case Some(t) => Success(t)
      case None => Failure(InvalidDateTime)
  }

  /** The entry `f -> problem` when `r` failed, nothing otherwise. */
  function ErrorOf<T>(f: Field, r: Result<T, Problem>): (e: Errors)
    ensures f in e <==> r.Failure?
    ensures e.Keys <= {f}
    ensures r.Failure? ==> e[f] == r.error
  {
    if r.Failure? then map[f := r.error] else map[]
  }

  // ---- TaskForm: title, description, category, priority, status, deadline ----

  /** The submitted POST data; a field left out of the request is None. */
  datatype TaskInput = TaskInput(title: Option<string>, description: Option<string>, category: Option<int>,
                                 priority: Option<int>, status: Option<string>, deadline: Option<string>)

  /** The cleaned values of the six fields `TaskForm` lists. */
  datatype TaskFields = TaskFields(title: string, description: string, category: Id, priority: Id,
                                   status: Status, deadline: DateTime)

  const TaskFormFields: set<Field> :=
    {TitleField, DescriptionField, CategoryField, PriorityField, StatusField, DeadlineField}

  /** The errors of a task submission: one entry for each field that fails its cleaning. */
  function TaskErrors(db: Db, d: TaskInput): (e: Errors)
    ensures e.Keys <= TaskFormFields
    ensures TitleField in e <==> CleanText(d.title, Some(200)).Failure?
    ensures DescriptionField in e <==> CleanText(d.description, None).Failure?
    ensures CategoryField in e <==> CleanKey(d.category, db.categories).Failure?
    ensures PriorityField in e <==> CleanKey(d.priority, db.priorities).Failure?
    ensures StatusField in e <==> CleanStatus(d.status).Failure?
    ensures DeadlineField in e <==> CleanDeadline(d.deadline).Failure?
  {
    var text := ErrorOf(TitleField, CleanText(d.title, Some(200))) + ErrorOf(DescriptionField, CleanText(d.description, None));
    var keys := ErrorOf(CategoryField, CleanKey(d.category, db.categories))
                + ErrorOf(PriorityField, CleanKey(d.priority, db.priorities));
    var rest := ErrorOf(StatusField, CleanStatus(d.status)) + ErrorOf(DeadlineField, CleanDeadline(d.deadline));
    assert text.Keys <= {TitleField, DescriptionField} && keys.Keys <= {CategoryField, PriorityField};
    assert rest.Keys <= {StatusField, DeadlineField};
    text + keys + rest
  }

  /**
   * Validates a task submission against the current tables: the form is
   * valid exactly when every one of its fields is, and its errors name
   * exactly the fields that are not.
   */
  function CleanTask(db: Db, d: TaskInput): (r: Result<TaskFields, Errors>)
    ensures r.Success? <==>
              && CleanText(d.title, Some(200)).Success? && CleanText(d.description, None).Success?
              && CleanKey(d.category, db.categories).Success? && CleanKey(d.priority, db.priorities).Success?
              && CleanStatus(d.status).Success? && CleanDeadline(d.deadline).Success?
    ensures r.Success? ==>
              && r.value.category in db.categories && r.value.priority in db.priorities
              && r.value.title != "" && |r.value.title| <= 200 && r.value.description != ""
              && d.title.Some? && r.value.title == Strip(d.title.value)
              && d.description.Some? && r.value.description == Strip(d.description.value)
              && Valid(r.value.deadline) && Some(StatusLabel(r.value.status)) == d.status
    ensures r.Success? ==>
              && d.category.Some? && r.value.category == d.category.value
              && d.priority.Some? && r.value.priority == d.priority.value
              && d.deadline.Some? && Some(r.value.deadline) == ParseDeadline(d.deadline.value)
    ensures r.Failure? ==> r.error != map[] && r.error == TaskErrors(db, d)
  {
    var title, description := CleanText(d.title, Some(200)), CleanText(d.description, None);
    var category, priority := CleanKey(d.category, db.categories), CleanKey(d.priority, db.priorities);
    var status, deadline := CleanStatus(d.status), CleanDeadline(d.deadline);
    if title.Success? && description.Success? && category.Success? && priority.Success? && status.Success?
       && deadline.Success?
    then
      Success(TaskFields(title.value, description.value, category.value, priority.value, status.value, deadline.value))
    else
      var errors := TaskErrors(db, d);
      assert errors != map[] by {
        if title.Failure? { assert TitleField in errors; }
        else if description.Failure? { assert DescriptionField in errors; }
        else if category.Failure? { assert CategoryField in errors; }
        else if priority.Failure? { assert PriorityField in errors; }
        else if status.Failure? { assert StatusField in errors; }
        else { assert DeadlineField in errors; }
      }
      Failure(errors)
  }

  /** Copies the six listed fields onto the instance; everything else stays. */
  function ApplyTaskForm(t: Task, c: TaskFields): (r: Task)
    ensures TaskFormView(r) == c
    ensures r.createdAt == t.createdAt && r.updatedAt == t.updatedAt
  {
    t.(title := c.title, description := c.description, category := c.category, priority := c.priority,
       status := c.status, deadline := c.deadline)
  }

  /** The six listed fields of a task. */
  function TaskFormView(t: Task): TaskFields {
    TaskFields(t.title, t.description, t.category, t.priority, t.status, t.deadline)
  }

  /** The fields in which two tasks differ. */
  function TaskChanges(a: Task, b: Task): set<Field> {
    (if a.title != b.title then {TitleField} else {})
    + (if a.description != b.description then {DescriptionField} else {})
    + (if a.category != b.category then {CategoryField} else {})
    + (if a.priority != b.priority then {PriorityField} else {})
    + (if a.status != b.status then {StatusField} else {})
    + (if a.deadline != b.deadline then {DeadlineField} else {})
    + (if a.createdAt != b.createdAt then {CreatedAtField} else {})
    + (if a.updatedAt != b.updatedAt then {UpdatedAtField} else {})
  }

  /**
   * A task form writes only its six fields, and the record then shows
   * exactly the submitted values in them; applying a record's own values
   * changes nothing.
   */
  lemma TaskFormWrites(t: Task, c: TaskFields)
    ensures TaskChanges(t, ApplyTaskForm(t, c)) <= TaskFormFields
    ensures TaskFormView(ApplyTaskForm(t, c)) == c
    ensures ApplyTaskForm(t, TaskFormView(t)) == t
  {
  }

  // ---- SubTaskForm: title, status ----

  datatype SubTaskInput = SubTaskInput(title: Option<string>, status: Option<string>)

  datatype SubTaskFields = SubTaskFields(title: string, status: Status)

  function CleanSubTask(d: SubTaskInput): (r: Result<SubTaskFields, Errors>)
    ensures r.Success? <==> CleanText(d.title, Some(200)).Success? && CleanStatus(d.status).Success?
    ensures r.Success? ==> r.value.title != "" && |r.value.title| <= 200 && Some(StatusLabel(r.value.status)) == d.status
    ensures r.Success? ==> d.title.Some? && r.value.title == Strip(d.title.value)
    ensures r.Failure? ==> r.error != map[] && r.error.Keys <= {TitleField, StatusField}
    ensures r.Failure? ==> (TitleField in r.error <==> CleanText(d.title, Some(200)).Failure?)
    ensures r.Failure? ==> (StatusField in r.error <==> CleanStatus(d.status).Failure?)
  {
    var title, status := CleanText(d.title, Some(200)), CleanStatus(d.status);
    var errors := ErrorOf(TitleField, title) + ErrorOf(StatusField, status);
    if errors == map[] then
      assert TitleField !in errors && StatusField !in errors;
      Success(SubTaskFields(title.value, status.value))
    else
      Failure(errors)
  }

  function ApplySubTaskForm(s: SubTask, c: SubTaskFields): (r: SubTask)
    ensures r.title == c.title && r.status == c.status
    ensures r.parentTask == s.parentTask && r.createdAt == s.createdAt && r.updatedAt == s.updatedAt
  {
    s.(title := c.title, status := c.status)
  }

  function SubTaskChanges(a: SubTask, b: SubTask): set<Field> {
    (if a.title != b.title then {TitleField} else {})
    + (if a.status != b.status then {StatusField} else {})
    + (if a.parentTask != b.parentTask then {ParentTaskField} else {})
    + (if a.createdAt != b.createdAt then {CreatedAtField} else {})
    + (if a.updatedAt != b.updatedAt then {UpdatedAtField} else {})
  }

  /** `SubTaskForm` writes title and status only: an edit never moves a subtask to another task. */
  lemma SubTaskFormWrites(s: SubTask, c: SubTaskFields)
    ensures SubTaskChanges(s, ApplySubTaskForm(s, c)) <= {TitleField, StatusField}
    ensures ApplySubTaskForm(s, c).parentTask == s.parentTask
    ensures ApplySubTaskForm(s, SubTaskFields(s.title, s.status)) == s
  {
  }

  // ---- SubTaskWithParentForm: title, status, parent_task ----

  datatype SubTaskWithParentInput = SubTaskWithParentInput(title: Option<string>, status: Option<string>,
                                                           parentTask: Option<int>)

  datatype SubTaskWithParentFields = SubTaskWithParentFields(title: string, status: Status, parentTask: Id)

  function CleanSubTaskWithParent(db: Db, d: SubTaskWithParentInput): (r: Result<SubTaskWithParentFields, Errors>)
    ensures r.Success? <==>
              && CleanText(d.title, Some(200)).Success? && CleanStatus(d.status).Success?
              && CleanKey(d.parentTask, db.tasks).Success?
    ensures r.Success? ==> r.value.parentTask in db.tasks && r.value.title != "" && |r.value.title| <= 200
    ensures r.Success? ==> d.title.Some? && r.value.title == Strip(d.title.value)
    ensures r.Success? ==> Some(StatusLabel(r.value.status)) == d.status
    ensures r.Failure? ==> r.error != map[] && r.error.Keys <= {TitleField, StatusField, ParentTaskField}
    ensures r.Success? ==> d.parentTask.Some? && r.value.parentTask == d.parentTask.value
    ensures r.Failure? ==> (TitleField in r.error <==> CleanText(d.title, Some(200)).Failure?)
    ensures r.Failure? ==> (StatusField in r.error <==> CleanStatus(d.status).Failure?)
    ensures r.Failure? ==> (ParentTaskField in r.error <==> CleanKey(d.parentTask, db.tasks).Failure?)
  {
    var title, status, parent := CleanText(d.title, Some(200)), CleanStatus(d.status), CleanKey(d.parentTask, db.tasks);
    var errors := ErrorOf(TitleField, title) + ErrorOf(StatusField, status) + ErrorOf(ParentTaskField, parent);
    if errors == map[] then
      assert TitleField !in errors && StatusField !in errors && ParentTaskField !in errors;
      Success(SubTaskWithParentFields(title.value, status.value, parent.value))
    else
      Failure(errors)
  }

  // ---- NoteForm: content ----

  datatype NoteInput = NoteInput(content: Option<string>)

  function CleanNote(d: NoteInput): (r: Result<string, Errors>)
    ensures r.Success? <==> d.content.Some? && Strip(d.content.value) != "" && '\0' !in Strip(d.content.value)
    ensures r.Success? ==> r.value == Strip(d.content.value)
    ensures r.Failure? ==> r.error.Keys == {ContentField}
    ensures r.Failure? ==> (r.error[ContentField] == Required <==> d.content.None? || Strip(d.content.value) == "")
  {
    var content := CleanText(d.content, None);
    if content.Success? then Success(content.value) else Failure(ErrorOf(ContentField, content))
  }

  function ApplyNoteForm(n: Note, content: string): (r: Note)
    ensures r.content == content
    ensures r.task == n.task && r.createdAt == n.createdAt && r.updatedAt == n.updatedAt
  {
    n.(content := content)
  }

  function NoteChanges(a: Note, b: Note): set<Field> {
    (if a.task != b.task then {TaskField} else {})
    + (if a.content != b.content then {ContentField} else {})
    + (if a.createdAt != b.createdAt then {CreatedAtField} else {})
    + (if a.updatedAt != b.updatedAt then {UpdatedAtField} else {})
  }

  /** `NoteForm` writes content only: an edit never moves a note to another task. */
  lemma NoteFormWrites(n: Note, content: string)
    ensures NoteChanges(n, ApplyNoteForm(n, content)) <= {ContentField}
    ensures ApplyNoteForm(n, content).task == n.task && ApplyNoteForm(n, content).content == content
  {
  }

  // ---- CategoryForm and PriorityForm: name ----

  datatype NameInput = NameInput(name: Option<string>)

  /** Both forms clean `name` against the column's `max_length=100`. */
  function CleanName(d: NameInput): (r: Result<string, Errors>)
    ensures r.Success? <==>
              d.name.Some? && Strip(d.name.value) != "" && |Strip(d.name.value)| <= 100 && '\0' !in Strip(d.name.value)
    ensures r.Success? ==> r.value == Strip(d.name.value)
    ensures r.Failure? ==> r.error.Keys == {NameField}
    ensures r.Failure? ==> (r.error[NameField] == Required <==> d.name.None? || Strip(d.name.value) == "")
    ensures r.Failure? ==> (r.error[NameField] == TooLong <==>
                              d.name.Some? && Strip(d.name.value) != "" && |Strip(d.name.value)| > 100)
  {
    var name := CleanText(d.name, Some(100));
    if name.Success? then Success(name.value) else Failure(ErrorOf(NameField, name))
  }

  // `CategoryForm` and `PriorityForm` are the same form over two models: each writes `name` only.

  function ApplyCategoryForm(c: Category, name: string): (r: Category)
    ensures r.name == name && r.createdAt == c.createdAt && r.updatedAt == c.updatedAt
  {
    c.(name := name)
  }

  function ApplyPriorityForm(p: Priority, name: string): (r: Priority)
    ensures r.name == name && r.createdAt == p.createdAt && r.updatedAt == p.updatedAt
  {
    p.(name := name)
  }

  /** The name forms leave the stamps alone; the save that follows sets `updated_at`. */
  lemma NameFormsWrite(c: Category, p: Priority, name: string)
    ensures ApplyCategoryForm(c, name) == Category(name, c.createdAt, c.updatedAt)
    ensures ApplyPriorityForm(p, name) == Priority(name, p.createdAt, p.updatedAt)
  {
  }
}
