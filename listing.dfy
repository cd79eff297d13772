/**
 * The five list views: each one's search predicate, its default
 * ordering, the `order_by` request parameter and the page it serves.
 */
module Listing {
  import opened Wrappers
  import opened Calendar
  import opened Models
  import opened Querysets

  // ---- case-insensitive substring search (`icontains`) ----

  /** ASCII case folding, as the database's `LIKE` applies it. */
  function LowerChar(c: char): (r: char)
    ensures 'A' <= c <= 'Z' ==> 'a' <= r <= 'z' && r as int - c as int == 32
    ensures !('A' <= c <= 'Z') ==> r == c
  {
    if 'A' <= c <= 'Z' then (c as int + 32) as char else c
  }

  function Lower(s: string): (r: string)
    ensures |r| == |s|
  {
    seq(|s|, i requires 0 <= i < |s| => LowerChar(s[i]))
  }

  lemma LowerIdempotent(s: string)
    ensures Lower(Lower(s)) == Lower(s)
  {
  }

  lemma LowerSlice(s: string, i: nat, j: nat)
    requires i <= j <= |s|
    ensures Lower(s)[i..j] == Lower(s[i..j])
  {
  }

  predicate OccursAt(s: string, q: string, i: int) {
    0 <= i && i + |q| <= |s| && s[i..i + |q|] == q
  }

  /** `q` occurs as a contiguous piece of `s`. */
  function Contains(s: string, q: string): (r: bool)
    ensures r <==> exists i :: OccursAt(s, q, i)
    decreases |s|
  {
    if |q| > |s| then false
    else if s[..|q|] == q then
      assert OccursAt(s, q, 0);
      true
    else
      var r := Contains(s[1..], q);
      assert forall i :: OccursAt(s[1..], q, i) <==> OccursAt(s, q, i + 1) by {
        forall i ensures OccursAt(s[1..], q, i) <==> OccursAt(s, q, i + 1) {
          if 0 <= i && i + |q| <= |s| - 1 {
            assert s[1..][i..i + |q|] == s[i + 1..i + 1 + |q|];
          }
        }
      }
      assert !OccursAt(s, q, 0);
      assert forall i :: OccursAt(s, q, i) ==> i == 0 || OccursAt(s[1..], q, i - 1);
      r
  }

  /** `field__icontains=q`. */
  predicate IContains(s: string, q: string) {
    Contains(Lower(s), Lower(q))
  }

  /** Any beginning of a text (the text itself included) is found in it, in any case. */
  lemma PrefixFound(s: string, n: nat)
    requires n <= |s|
    ensures IContains(s, s[..n])
  {
    LowerSlice(s, 0, n);
    assert OccursAt(Lower(s), Lower(s[..n]), 0);
  }

  /** Searching ignores the case of the query. */
  lemma QueryCaseIgnored(s: string, q: string)
    ensures IContains(s, q) <==> IContains(s, Lower(q))
  {
    LowerIdempotent(q);
  }

  /** A query that occurs as written is found. */
  lemma ExactFound(s: string, q: string)
    requires Contains(s, q)
    ensures IContains(s, q)
  {
    var i :| OccursAt(s, q, i);
    LowerSlice(s, i, i + |q|);
    assert OccursAt(Lower(s), Lower(q), i);
  }

  // ---- the search predicates ----

  /** The text a stored datetime is matched against: `YYYY-MM-DD HH:MM:SS`. */
  function DateText(t: DateTime): string {
    Format(t, ' ', true)
  }

  /** `q` is non-empty: only then does a list view filter at all. */
  predicate Active(q: Option<string>) {
    q.Some? && q.value != []
  }

  /** Task search: title, description, category name, priority name, status or deadline text. */
  predicate TaskMatches(db: Db, id: Id, q: string)
    ensures TaskMatches(db, id, q) ==> id in db.tasks
  {
    id in db.tasks &&
    var t := db.tasks[id];
    IContains(t.title, q) || IContains(t.description, q)
    || (t.category in db.categories && IContains(db.categories[t.category].name, q))
    || (t.priority in db.priorities && IContains(db.priorities[t.priority].name, q))
    || IContains(StatusLabel(t.status), q)
    || IContains(DateText(t.deadline), q)
  }

  /** SubTask search: title, parent task's title or status. */
  predicate SubTaskMatches(db: Db, id: Id, q: string)
    ensures SubTaskMatches(db, id, q) ==> id in db.subtasks
  {
    id in db.subtasks &&
    var s := db.subtasks[id];
    IContains(s.title, q)
    || (s.parentTask in db.tasks && IContains(db.tasks[s.parentTask].title, q))
    || IContains(StatusLabel(s.status), q)
  }

  /** Note search: content, its task's title, its task's deadline text or its own creation text. */
  predicate NoteMatches(db: Db, id: Id, q: string)
    ensures NoteMatches(db, id, q) ==> id in db.notes
  {
    id in db.notes &&
    var n := db.notes[id];
    IContains(n.content, q)
    || (n.task in db.tasks && IContains(db.tasks[n.task].title, q))
    || (n.task in db.tasks && IContains(DateText(db.tasks[n.task].deadline), q))
    || IContains(DateText(n.createdAt), q)
  }

  predicate CategoryMatches(db: Db, id: Id, q: string)
    ensures CategoryMatches(db, id, q) ==> id in db.categories
  {
    id in db.categories && IContains(db.categories[id].name, q)
  }

  predicate PriorityMatches(db: Db, id: Id, q: string)
    ensures PriorityMatches(db, id, q) ==> id in db.priorities
  {
    id in db.priorities && IContains(db.priorities[id].name, q)
  }

  /** Searching a task's deadline day (`YYYY-MM-DD`) or its status finds it. */
  lemma TaskFoundByDayAndStatus(db: Db, id: Id)
    requires id in db.tasks
    ensures TaskMatches(db, id, DateText(db.tasks[id].deadline)[..10])
    ensures TaskMatches(db, id, StatusLabel(db.tasks[id].status))
  {
    var t := db.tasks[id];
    PrefixFound(DateText(t.deadline), 10);
    SelfFound(StatusLabel(t.status));
  }

  /** A text is found by searching for itself. */
  lemma SelfFound(s: string)
    ensures IContains(s, s)
  {
    PrefixFound(s, |s|);
    assert s[..|s|] == s;
  }

  /** Searching for a task's own title, description, category name or priority name finds it. */
  lemma TaskFoundByOwnText(db: Db, id: Id)
    requires id in db.tasks
    ensures TaskMatches(db, id, db.tasks[id].title) && TaskMatches(db, id, db.tasks[id].description)
    ensures db.tasks[id].category in db.categories ==> TaskMatches(db, id, db.categories[db.tasks[id].category].name)
    ensures db.tasks[id].priority in db.priorities ==> TaskMatches(db, id, db.priorities[db.tasks[id].priority].name)
  {
    var t := db.tasks[id];
    SelfFound(t.title);
    SelfFound(t.description);
    if t.category in db.categories {
      SelfFound(db.categories[t.category].name);
    }
    if t.priority in db.priorities {
      SelfFound(db.priorities[t.priority].name);
    }
  }

  /** Searching for a subtask's title, its status or its parent task's title finds it. */
  lemma SubTaskFoundByOwnText(db: Db, id: Id)
    requires id in db.subtasks
    ensures SubTaskMatches(db, id, db.subtasks[id].title)
    ensures SubTaskMatches(db, id, StatusLabel(db.subtasks[id].status))
    ensures db.subtasks[id].parentTask in db.tasks ==> SubTaskMatches(db, id, db.tasks[db.subtasks[id].parentTask].title)
  {
    var s := db.subtasks[id];
    SelfFound(s.title);
    SelfFound(StatusLabel(s.status));
    if s.parentTask in db.tasks {
      SelfFound(db.tasks[s.parentTask].title);
    }
  }

  /** Searching for a note's content, its creation day or its task's title finds it. */
  lemma NoteFoundByOwnText(db: Db, id: Id)
    requires id in db.notes
    ensures NoteMatches(db, id, db.notes[id].content)
    ensures NoteMatches(db, id, DateText(db.notes[id].createdAt)[..10])
    ensures db.notes[id].task in db.tasks ==> NoteMatches(db, id, db.tasks[db.notes[id].task].title)
  {
    var n := db.notes[id];
    SelfFound(n.content);
    PrefixFound(DateText(n.createdAt), 10);
    if n.task in db.tasks {
      SelfFound(db.tasks[n.task].title);
    }
  }

  /** Searching for a category's or a priority's own name finds it. */
  lemma NameFound(db: Db, c: Id, p: Id)
    ensures c in db.categories ==> CategoryMatches(db, c, db.categories[c].name)
    ensures p in db.priorities ==> PriorityMatches(db, p, db.priorities[p].name)
  {
    if c in db.categories {
      SelfFound(db.categories[c].name);
    }
    if p in db.priorities {
      SelfFound(db.priorities[p].name);
    }
  }

  // ---- ordering ----

  /** `GET.get('order_by', default)`, where an empty value keeps the view's default ordering. */
  function EffectiveOrdering(orderBy: Option<string>, default: string): (r: string)
    ensures orderBy.Some? && orderBy.value != [] ==> r == orderBy.value
    ensures orderBy.None? || orderBy.value == [] ==> r == default
  {
    if orderBy.Some? && orderBy.value != [] then orderBy.value else default
  }

  datatype Ordering = Ordering(field: string, descending: bool)

  /** A leading `-` asks for descending order. */
  function ParseOrdering(s: string): (o: Ordering)
    ensures o.descending <==> |s| > 0 && s[0] == '-'
    ensures s == (if o.descending then "-" else "") + o.field
  {
    if |s| > 0 && s[0] == '-' then Ordering(s[1..], true) else Ordering(s, false)
  }

  function StampKey(t: DateTime): seq<int> {
    [Ticks(t)]
  }

  function TaskCreatedKey(db: Db): Id -> seq<int> {
    id => if id in db.tasks then StampKey(db.tasks[id].createdAt) else []
  }

  function SubTaskCreatedKey(db: Db): Id -> seq<int> {
    id => if id in db.subtasks then StampKey(db.subtasks[id].createdAt) else []
  }

  function NoteCreatedKey(db: Db): Id -> seq<int> {
    id => if id in db.notes then StampKey(db.notes[id].createdAt) else []
  }

  function CategoryNameKey(db: Db): Id -> seq<int> {
    id => if id in db.categories then TextKey(db.categories[id].name) else []
  }

  function PriorityNameKey(db: Db): Id -> seq<int> {
    id => if id in db.priorities then TextKey(db.priorities[id].name) else []
  }

  /**
   * The columns a task list can be ordered by; `category` and `priority`, and
   * their column names `category_id` and `priority_id`, order by the referenced id.
   */
  function TaskKey(db: Db, field: string): Option<Id -> seq<int>> {
    if field == "id" || field == "pk" then Some(id => [id])
    else if field == "created_at" then Some(TaskCreatedKey(db))
    else if !(field in ["title", "description", "status", "deadline", "updated_at", "category", "category_id", "priority",
                          "priority_id"]) then None
    else Some(id =>
      if id !in db.tasks then []
      else
        var t := db.tasks[id];
        if field == "title" then TextKey(t.title)
        else if field == "description" then TextKey(t.description)
        else if field == "status" then TextKey(StatusLabel(t.status))
        else if field == "deadline" then StampKey(t.deadline)
        else if field == "updated_at" then StampKey(t.updatedAt)
        else if field == "category" || field == "category_id" then [t.category]
        else [t.priority])
  }

  /** `parent_task` and its column name `parent_task_id` order by the parent's id. */
  function SubTaskKey(db: Db, field: string): Option<Id -> seq<int>> {
    if field == "id" || field == "pk" then Some(id => [id])
    else if field == "created_at" then Some(SubTaskCreatedKey(db))
    else if !(field in ["title", "status", "updated_at", "parent_task", "parent_task_id"]) then None
    else Some(id =>
      if id !in db.subtasks then []
      else
        var s := db.subtasks[id];
        if field == "title" then TextKey(s.title)
        else if field == "status" then TextKey(StatusLabel(s.status))
        else if field == "updated_at" then StampKey(s.updatedAt)
        else [s.parentTask])
  }

  /** `task` and its column name `task_id` order by the task's id. */
  function NoteKey(db: Db, field: string): Option<Id -> seq<int>> {
    if field == "id" || field == "pk" then Some(id => [id])
    else if field == "created_at" then Some(NoteCreatedKey(db))
    else if !(field in ["content", "updated_at", "task", "task_id"]) then None
    else Some(id =>
      if id !in db.notes then []
      else
        var n := db.notes[id];
        if field == "content" then TextKey(n.content)
        else if field == "updated_at" then StampKey(n.updatedAt)
        else [n.task])
  }

  function CategoryKey(db: Db, field: string): Option<Id -> seq<int>> {
    if field == "id" || field == "pk" then Some(id => [id])
    else if field == "name" then Some(CategoryNameKey(db))
    else if !(field in ["created_at", "updated_at"]) then None
    else Some(id =>
      if id !in db.categories then []
      else if field == "created_at" then StampKey(db.categories[id].createdAt)
      else StampKey(db.categories[id].updatedAt))
  }

  function PriorityKey(db: Db, field: string): Option<Id -> seq<int>> {
    if field == "id" || field == "pk" then Some(id => [id])
    else if field == "name" then Some(PriorityNameKey(db))
    else if !(field in ["created_at", "updated_at"]) then None
    else Some(id =>
      if id !in db.priorities then []
      else if field == "created_at" then StampKey(db.priorities[id].createdAt)
      else StampKey(db.priorities[id].updatedAt))
  }

  // ---- get_queryset and the page ----

  /** An `order_by` naming no column of the model fails in the ORM; a page that does not exist is a 404. */
  datatype ListError = UnknownField(field: string) | PageNotFound

  /** Filter when the query is non-empty, then order by the requested column. */
  function Queryset(all: seq<Id>, matches: (Id, string) -> bool, q: Option<string>,
                    keyFor: string -> Option<Id -> seq<int>>, ordering: string): (r: Result<seq<Id>, ListError>)
    ensures r.Failure? <==> keyFor(ParseOrdering(ordering).field).None?
    ensures r.Failure? ==> r.error == UnknownField(ParseOrdering(ordering).field)
    ensures r.Success? ==> forall x: Id :: x in r.value <==> x in all && (Active(q) ==> matches(x, q.value))
  {
    var rows := if Active(q) then (var needle := q.value; Filter(all, (x: Id) => matches(x, needle))) else all;
    var o := ParseOrdering(ordering);
    match keyFor(o.field)
    case None => Failure(UnknownField(o.field))
    case Some(key) => Success(Sort(key, o.descending, rows))
  }

  /** Over distinct rows, a queryset is in the requested order and repeats no row. */
  lemma QuerysetSorted(all: seq<Id>, matches: (Id, string) -> bool, q: Option<string>,
                       keyFor: string -> Option<Id -> seq<int>>, ordering: string)
    requires Distinct(all)
    requires Queryset(all, matches, q, keyFor, ordering).Success?
    ensures var o := ParseOrdering(ordering);
            Sorted(keyFor(o.field).value, o.descending, Queryset(all, matches, q, keyFor, ordering).value)
    ensures Distinct(Queryset(all, matches, q, keyFor, ordering).value)
  {
    var o := ParseOrdering(ordering);
    var rows := if Active(q) then (var needle := q.value; Filter(all, (x: Id) => matches(x, needle))) else all;
    if Active(q) {
      var needle := q.value;
      FilterDistinct(all, (x: Id) => matches(x, needle));
    }
    SortSorted(keyFor(o.field).value, o.descending, rows);
    SortedDistinct(keyFor(o.field).value, o.descending, Sort(keyFor(o.field).value, o.descending, rows));
  }

  /** `order_by=-f` lists exactly the rows of `order_by=f`, in the reverse order. */
  lemma QuerysetReversed(all: seq<Id>, matches: (Id, string) -> bool, q: Option<string>,
                         keyFor: string -> Option<Id -> seq<int>>, field: string)
    requires Distinct(all)
    requires field != [] && field[0] != '-'
    requires keyFor(field).Some?
    ensures Queryset(all, matches, q, keyFor, "-" + field).Success?
    ensures Queryset(all, matches, q, keyFor, "-" + field).value
            == Reverse(Queryset(all, matches, q, keyFor, field).value)
  {
    assert ParseOrdering("-" + field) == Ordering(field, true);
    assert ParseOrdering(field) == Ordering(field, false);
    var rows := if Active(q) then (var needle := q.value; Filter(all, (x: Id) => matches(x, needle))) else all;
    if Active(q) {
      var needle := q.value;
      FilterDistinct(all, (x: Id) => matches(x, needle));
    }
    DescendingIsReversed(keyFor(field).value, rows);
  }

  /** Paginates a queryset; its error, if any, is passed on. */
  function ListPage(rows: Result<seq<Id>, ListError>, page: PageRequest): (r: Result<Page, ListError>)
    ensures rows.Failure? ==> r == Failure(rows.error)
    ensures rows.Success? ==> (r.Success? <==> Paginate(rows.value, page).Some?)
    ensures rows.Success? && r.Failure? ==> r.error == PageNotFound
    ensures r.Success? ==> rows.Success? && |r.value.items| <= PageSize
                           && forall x :: x in r.value.items ==> x in rows.value
    ensures r.Success? ==> rows.Success? && Some(r.value) == Paginate(rows.value, page)
  {
    match rows
    case Failure(e) => Failure(e)
    case Success(items) =>
      match Paginate(items, page)
      case None => Failure(PageNotFound)
      case Some(p) => Success(p)
  }

  /** The query string of a list request. */
  datatype ListRequest = ListRequest(q: Option<string>, orderBy: Option<string>, page: PageRequest)

  function TaskQueryset(db: Db, all: seq<Id>, q: Option<string>, orderBy: Option<string>): (r: Result<seq<Id>, ListError>)
    ensures r.Success? ==> forall x: Id :: x in r.value <==> x in all && (Active(q) ==> TaskMatches(db, x, q.value))
    ensures orderBy.None? || orderBy == Some("") ==> r.Success?
  {
    Queryset(all, (x: Id, s: string) => TaskMatches(db, x, s), q, f => TaskKey(db, f), EffectiveOrdering(orderBy, "-created_at"))
  }

  function SubTaskQueryset(db: Db, all: seq<Id>, q: Option<string>, orderBy: Option<string>): (r: Result<seq<Id>, ListError>)
    ensures r.Success? ==> forall x: Id :: x in r.value <==> x in all && (Active(q) ==> SubTaskMatches(db, x, q.value))
    ensures orderBy.None? || orderBy == Some("") ==> r.Success?
  {
    Queryset(all, (x: Id, s: string) => SubTaskMatches(db, x, s), q, f => SubTaskKey(db, f), EffectiveOrdering(orderBy, "-created_at"))
  }

  function NoteQueryset(db: Db, all: seq<Id>, q: Option<string>, orderBy: Option<string>): (r: Result<seq<Id>, ListError>)
    ensures r.Success? ==> forall x: Id :: x in r.value <==> x in all && (Active(q) ==> NoteMatches(db, x, q.value))
    ensures orderBy.None? || orderBy == Some("") ==> r.Success?
  {
    Queryset(all, (x: Id, s: string) => NoteMatches(db, x, s), q, f => NoteKey(db, f), EffectiveOrdering(orderBy, "-created_at"))
  }

  function CategoryQueryset(db: Db, all: seq<Id>, q: Option<string>, orderBy: Option<string>): (r: Result<seq<Id>, ListError>)
    ensures r.Success? ==> forall x: Id :: x in r.value <==> x in all && (Active(q) ==> CategoryMatches(db, x, q.value))
    ensures orderBy.None? || orderBy == Some("") ==> r.Success?
  {
    Queryset(all, (x: Id, s: string) => CategoryMatches(db, x, s), q, f => CategoryKey(db, f), EffectiveOrdering(orderBy, "name"))
  }

  function PriorityQueryset(db: Db, all: seq<Id>, q: Option<string>, orderBy: Option<string>): (r: Result<seq<Id>, ListError>)
    ensures r.Success? ==> forall x: Id :: x in r.value <==> x in all && (Active(q) ==> PriorityMatches(db, x, q.value))
    ensures orderBy.None? || orderBy == Some("") ==> r.Success?
  {
    Queryset(all, (x: Id, s: string) => PriorityMatches(db, x, s), q, f => PriorityKey(db, f), EffectiveOrdering(orderBy, "name"))
  }

  function TaskList(db: Db, all: seq<Id>, request: ListRequest): (r: Result<Page, ListError>)
    ensures r.Success? ==> |r.value.items| <= PageSize
    ensures r.Success? ==> forall x :: x in r.value.items ==> x in all && (Active(request.q) ==> TaskMatches(db, x, request.q.value))
    ensures (request.orderBy.None? || request.orderBy == Some("")) && request.page == FirstPage ==> r.Success?
  {
    ListPage(TaskQueryset(db, all, request.q, request.orderBy), request.page)
  }

  function SubTaskList(db: Db, all: seq<Id>, request: ListRequest): (r: Result<Page, ListError>)
    ensures r.Success? ==> |r.value.items| <= PageSize
    ensures r.Success? ==> forall x :: x in r.value.items ==> x in all && (Active(request.q) ==> SubTaskMatches(db, x, request.q.value))
    ensures (request.orderBy.None? || request.orderBy == Some("")) && request.page == FirstPage ==> r.Success?
  {
    ListPage(SubTaskQueryset(db, all, request.q, request.orderBy), request.page)
  }

  function NoteList(db: Db, all: seq<Id>, request: ListRequest): (r: Result<Page, ListError>)
    ensures r.Success? ==> |r.value.items| <= PageSize
    ensures r.Success? ==> forall x :: x in r.value.items ==> x in all && (Active(request.q) ==> NoteMatches(db, x, request.q.value))
    ensures (request.orderBy.None? || request.orderBy == Some("")) && request.page == FirstPage ==> r.Success?
  {
    ListPage(NoteQueryset(db, all, request.q, request.orderBy), request.page)
  }

  function CategoryList(db: Db, all: seq<Id>, request: ListRequest): (r: Result<Page, ListError>)
    ensures r.Success? ==> |r.value.items| <= PageSize
    ensures r.Success? ==> forall x :: x in r.value.items ==> x in all && (Active(request.q) ==> CategoryMatches(db, x, request.q.value))
    ensures (request.orderBy.None? || request.orderBy == Some("")) && request.page == FirstPage ==> r.Success?
  {
    ListPage(CategoryQueryset(db, all, request.q, request.orderBy), request.page)
  }

  function PriorityList(db: Db, all: seq<Id>, request: ListRequest): (r: Result<Page, ListError>)
    ensures r.Success? ==> |r.value.items| <= PageSize
    ensures r.Success? ==> forall x :: x in r.value.items ==> x in all && (Active(request.q) ==> PriorityMatches(db, x, request.q.value))
    ensures (request.orderBy.None? || request.orderBy == Some("")) && request.page == FirstPage ==> r.Success?
  {
    ListPage(PriorityQueryset(db, all, request.q, request.orderBy), request.page)
  }

  /** Newest first: along a list sorted descending by a one-number key, the numbers never increase. */
  lemma NewestFirst(key: Id -> seq<int>, rows: seq<Id>)
    requires Sorted(key, true, rows)
    requires forall x :: x in rows ==> |key(x)| == 1
    ensures forall i, j :: 0 <= i < j < |rows| ==> key(rows[j])[0] <= key(rows[i])[0]
  {
    forall i, j | 0 <= i < j < |rows|
      ensures key(rows[j])[0] <= key(rows[i])[0]
    {
      assert Before(key, true, rows[i], rows[j]);
      assert key(rows[i]) == [key(rows[i])[0]] && key(rows[j]) == [key(rows[j])[0]];
      LexSingle(key(rows[j])[0], key(rows[i])[0]);
    }
  }

  /**
   * With `order_by` absent or empty the task list is the `-created_at`
   * ordering: the newest task first.
   */
  lemma TaskListDefault(db: Db, all: seq<Id>, q: Option<string>, orderBy: Option<string>)
    requires Enumerates(all, db.tasks.Keys)
    requires orderBy.None? || orderBy == Some("")
    ensures TaskQueryset(db, all, q, orderBy) == TaskQueryset(db, all, q, Some("-created_at"))
    ensures var rows := TaskQueryset(db, all, q, orderBy).value;
            forall i, j :: 0 <= i < j < |rows| ==>
              Ticks(db.tasks[rows[j]].createdAt) <= Ticks(db.tasks[rows[i]].createdAt)
  {
    TaskCreatedSorted(db, all, q);
    var rows := TaskQueryset(db, all, q, orderBy).value;
    NewestFirst(TaskCreatedKey(db), rows);
    forall i, j | 0 <= i < j < |rows|
      ensures Ticks(db.tasks[rows[j]].createdAt) <= Ticks(db.tasks[rows[i]].createdAt)
    {
      assert TaskCreatedKey(db)(rows[i])[0] == Ticks(db.tasks[rows[i]].createdAt);
      assert TaskCreatedKey(db)(rows[j])[0] == Ticks(db.tasks[rows[j]].createdAt);
    }
  }

  lemma TaskCreatedSorted(db: Db, all: seq<Id>, q: Option<string>)
    requires Distinct(all)
    ensures TaskQueryset(db, all, q, Some("-created_at")).Success?
    ensures Sorted(TaskCreatedKey(db), true, TaskQueryset(db, all, q, Some("-created_at")).value)
  {
    var keyFor := f => TaskKey(db, f);
    assert ParseOrdering("-created_at") == Ordering("created_at", true);
    assert keyFor("created_at") == Some(TaskCreatedKey(db));
    QuerysetSorted(all, (x: Id, s: string) => TaskMatches(db, x, s), q, keyFor, "-created_at");
  }

  lemma SubTaskListDefault(db: Db, all: seq<Id>, q: Option<string>, orderBy: Option<string>)
    requires Enumerates(all, db.subtasks.Keys)
    requires orderBy.None? || orderBy == Some("")
    ensures SubTaskQueryset(db, all, q, orderBy) == SubTaskQueryset(db, all, q, Some("-created_at"))
    ensures var rows := SubTaskQueryset(db, all, q, orderBy).value;
            forall i, j :: 0 <= i < j < |rows| ==>
              Ticks(db.subtasks[rows[j]].createdAt) <= Ticks(db.subtasks[rows[i]].createdAt)
  {
    SubTaskCreatedSorted(db, all, q);
    var rows := SubTaskQueryset(db, all, q, orderBy).value;
    NewestFirst(SubTaskCreatedKey(db), rows);
    forall i, j | 0 <= i < j < |rows|
      ensures Ticks(db.subtasks[rows[j]].createdAt) <= Ticks(db.subtasks[rows[i]].createdAt)
    {
      assert SubTaskCreatedKey(db)(rows[i])[0] == Ticks(db.subtasks[rows[i]].createdAt);
      assert SubTaskCreatedKey(db)(rows[j])[0] == Ticks(db.subtasks[rows[j]].createdAt);
    }
  }

  lemma SubTaskCreatedSorted(db: Db, all: seq<Id>, q: Option<string>)
    requires Distinct(all)
    ensures SubTaskQueryset(db, all, q, Some("-created_at")).Success?
    ensures Sorted(SubTaskCreatedKey(db), true, SubTaskQueryset(db, all, q, Some("-created_at")).value)
  {
    var keyFor := f => SubTaskKey(db, f);
    assert ParseOrdering("-created_at") == Ordering("created_at", true);
    assert keyFor("created_at") == Some(SubTaskCreatedKey(db));
    QuerysetSorted(all, (x: Id, s: string) => SubTaskMatches(db, x, s), q, keyFor, "-created_at");
  }

  lemma NoteListDefault(db: Db, all: seq<Id>, q: Option<string>, orderBy: Option<string>)
    requires Enumerates(all, db.notes.Keys)
    requires orderBy.None? || orderBy == Some("")
    ensures NoteQueryset(db, all, q, orderBy) == NoteQueryset(db, all, q, Some("-created_at"))
    ensures var rows := NoteQueryset(db, all, q, orderBy).value;
            forall i, j :: 0 <= i < j < |rows| ==>
              Ticks(db.notes[rows[j]].createdAt) <= Ticks(db.notes[rows[i]].createdAt)
  {
    NoteCreatedSorted(db, all, q);
    var rows := NoteQueryset(db, all, q, orderBy).value;
    NewestFirst(NoteCreatedKey(db), rows);
    forall i, j | 0 <= i < j < |rows|
      ensures Ticks(db.notes[rows[j]].createdAt) <= Ticks(db.notes[rows[i]].createdAt)
    {
      assert NoteCreatedKey(db)(rows[i])[0] == Ticks(db.notes[rows[i]].createdAt);
      assert NoteCreatedKey(db)(rows[j])[0] == Ticks(db.notes[rows[j]].createdAt);
    }
  }

  lemma NoteCreatedSorted(db: Db, all: seq<Id>, q: Option<string>)
    requires Distinct(all)
    ensures NoteQueryset(db, all, q, Some("-created_at")).Success?
    ensures Sorted(NoteCreatedKey(db), true, NoteQueryset(db, all, q, Some("-created_at")).value)
  {
    var keyFor := f => NoteKey(db, f);
    assert ParseOrdering("-created_at") == Ordering("created_at", true);
    assert keyFor("created_at") == Some(NoteCreatedKey(db));
    QuerysetSorted(all, (x: Id, s: string) => NoteMatches(db, x, s), q, keyFor, "-created_at");
  }

  /** With `order_by` absent or empty the category list is in name order. */
  lemma CategoryListDefault(db: Db, all: seq<Id>, q: Option<string>, orderBy: Option<string>)
    requires Distinct(all)
    requires orderBy.None? || orderBy == Some("")
    ensures CategoryQueryset(db, all, q, orderBy) == CategoryQueryset(db, all, q, Some("name"))
    ensures Sorted(CategoryNameKey(db), false, CategoryQueryset(db, all, q, orderBy).value)
  {
    assert ParseOrdering("name") == Ordering("name", false);
    QuerysetSorted(all, (x: Id, s: string) => CategoryMatches(db, x, s), q, f => CategoryKey(db, f), "name");
  }

  lemma PriorityListDefault(db: Db, all: seq<Id>, q: Option<string>, orderBy: Option<string>)
    requires Distinct(all)
    requires orderBy.None? || orderBy == Some("")
    ensures PriorityQueryset(db, all, q, orderBy) == PriorityQueryset(db, all, q, Some("name"))
    ensures Sorted(PriorityNameKey(db), false, PriorityQueryset(db, all, q, orderBy).value)
  {
    assert ParseOrdering("name") == Ordering("name", false);
    QuerysetSorted(all, (x: Id, s: string) => PriorityMatches(db, x, s), q, f => PriorityKey(db, f), "name");
  }
}
