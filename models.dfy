/**
 * The five tables of the task store (Category, Priority, Task, SubTask,
 * Note), their defaults, their automatic timestamps and the CASCADE rule
 * of their foreign keys.
 */
module Models {
  import opened Wrappers
  import opened Calendar

  /** Primary keys: auto-increment integers starting at 1. */
  type Id = nat

  /** The three `STATUS_CHOICES` shared by Task and SubTask. */
  datatype Status = Pending | InProgress | Completed

  /** The value stored in the `status` column for each choice. */
  function StatusLabel(s: Status): string {
    match s
    case Pending => "Pending"
    case InProgress => "In Progress"
    case Completed => "Completed"
  }

  /** The choice whose stored value is `text`, if there is one. */
  function StatusOf(text: string): (r: Option<Status>)
    ensures r.Some? ==> StatusLabel(r.value) == text
    ensures r.None? ==> forall s: Status :: StatusLabel(s) != text
  {
    if text == "Pending" then Some(Pending)
    else if text == "In Progress" then Some(InProgress)
    else if text == "Completed" then Some(Completed)
    else None
  }

  /** Distinct choices are stored as distinct values, so a stored value names one choice. */
  lemma StatusLabelRoundTrip(s: Status)
    ensures StatusOf(StatusLabel(s)) == Some(s)
  {
  }

  // ---- rows ----

  datatype Category = Category(name: string, createdAt: DateTime, updatedAt: DateTime)

  datatype Priority = Priority(name: string, createdAt: DateTime, updatedAt: DateTime)

  datatype Task = Task(title: string, description: string, status: Status, deadline: DateTime,
                       priority: Id, category: Id, createdAt: DateTime, updatedAt: DateTime)

  datatype SubTask = SubTask(title: string, status: Status, parentTask: Id, createdAt: DateTime, updatedAt: DateTime)

  datatype Note = Note(task: Id, content: string, createdAt: DateTime, updatedAt: DateTime)

  /** The contents of the five tables, keyed by primary key. */
  datatype Db = Db(categories: map<Id, Category>, priorities: map<Id, Priority>, tasks: map<Id, Task>,
                   subtasks: map<Id, SubTask>, notes: map<Id, Note>)

  /**
   * A task row as inserted: the given fields are stored as given, a missing
   * status is Pending, a missing deadline is the insertion time, and both
   * timestamps are the insertion time.
   */
  function NewTask(title: string, description: string, status: Option<Status>, deadline: Option<DateTime>,
                   priority: Id, category: Id, now: DateTime): (t: Task)
    ensures t.status == Pending <==> status.None? || status.value == Pending
    ensures status.Some? ==> t.status == status.value
    ensures deadline.None? ==> t.deadline == now
    ensures deadline.Some? ==> t.deadline == deadline.value
    ensures t.title == title && t.description == description && t.priority == priority && t.category == category
    ensures t.createdAt == now && t.updatedAt == now
  {
    Task(title, description, if status.Some? then status.value else Pending,
         if deadline.Some? then deadline.value else now, priority, category, now, now)
  }

  /** A subtask row as inserted: a missing status is Pending. */
  function NewSubTask(title: string, status: Option<Status>, parentTask: Id, now: DateTime): (s: SubTask)
    ensures s.status == Pending <==> status.None? || status.value == Pending
    ensures status.Some? ==> s.status == status.value
    ensures s.title == title && s.parentTask == parentTask
    ensures s.createdAt == now && s.updatedAt == now
  {
    SubTask(title, if status.Some? then status.value else Pending, parentTask, now, now)
  }

  // ---- invariants ----

  /** Every foreign key names an existing row. */
  predicate Integrity(db: Db) {
    && (forall id :: id in db.tasks ==>
          db.tasks[id].category in db.categories && db.tasks[id].priority in db.priorities)
    && (forall id :: id in db.subtasks ==> db.subtasks[id].parentTask in db.tasks)
    && (forall id :: id in db.notes ==> db.notes[id].task in db.tasks)
  }

  predicate StampsInOrder(createdAt: DateTime, updatedAt: DateTime, clock: DateTime) {
    Ticks(createdAt) <= Ticks(updatedAt) <= Ticks(clock)
  }

  /** Every row was created no later than its last save, and saved no later than `clock`. */
  predicate StampsUpTo(db: Db, clock: DateTime) {
    && (forall id :: id in db.categories ==>
          StampsInOrder(db.categories[id].createdAt, db.categories[id].updatedAt, clock))
    && (forall id :: id in db.priorities ==>
          StampsInOrder(db.priorities[id].createdAt, db.priorities[id].updatedAt, clock))
    && (forall id :: id in db.tasks ==> StampsInOrder(db.tasks[id].createdAt, db.tasks[id].updatedAt, clock))
    && (forall id :: id in db.subtasks ==>
          StampsInOrder(db.subtasks[id].createdAt, db.subtasks[id].updatedAt, clock))
    && (forall id :: id in db.notes ==> StampsInOrder(db.notes[id].createdAt, db.notes[id].updatedAt, clock))
  }

  /** A later clock bounds every stamp an earlier one bounded. */
  lemma StampsLater(db: Db, clock: DateTime, now: DateTime)
    requires StampsUpTo(db, clock) && Ticks(clock) <= Ticks(now)
    ensures StampsUpTo(db, now)
  {
  }

  // ---- cascade ----

  function SubTasksOf(db: Db, doomed: set<Id>): set<Id> {
    set id | id in db.subtasks && db.subtasks[id].parentTask in doomed
  }

  function NotesOf(db: Db, doomed: set<Id>): set<Id> {
    set id | id in db.notes && db.notes[id].task in doomed
  }

  /**
   * Deletes the tasks in `doomed` together with every subtask and note whose
   * foreign key names one of them (`on_delete=CASCADE`).
   */
  function RemoveTasks(db: Db, doomed: set<Id>): (r: Db)
    requires Integrity(db)
    ensures Integrity(r)
    ensures r.categories == db.categories && r.priorities == db.priorities
    ensures forall id :: id in r.subtasks ==> r.subtasks[id].parentTask !in doomed
    ensures forall id :: id in r.notes ==> r.notes[id].task !in doomed
  {
    db.(tasks := db.tasks - doomed,
        subtasks := db.subtasks - SubTasksOf(db, doomed),
        notes := db.notes - NotesOf(db, doomed))
  }

  function DeleteTaskRows(db: Db, id: Id): (r: Db)
    requires Integrity(db)
    ensures Integrity(r) && id !in r.tasks
  {
    RemoveTasks(db, {id})
  }

  function TasksInCategory(db: Db, c: Id): set<Id> {
    set id | id in db.tasks && db.tasks[id].category == c
  }

  function TasksInPriority(db: Db, p: Id): set<Id> {
    set id | id in db.tasks && db.tasks[id].priority == p
  }

  /** Deleting a category deletes its tasks first, and with them their subtasks and notes. */
  function DeleteCategoryRows(db: Db, c: Id): (r: Db)
    requires Integrity(db)
    ensures Integrity(r) && c !in r.categories
  {
    RemoveTasks(db, TasksInCategory(db, c)).(categories := db.categories - {c})
  }

  function DeletePriorityRows(db: Db, p: Id): (r: Db)
    requires Integrity(db)
    ensures Integrity(r) && p !in r.priorities
  {
    RemoveTasks(db, TasksInPriority(db, p)).(priorities := db.priorities - {p})
  }

  /** Nothing references a subtask or a note, so deleting one removes that row alone. */
  function DeleteSubTaskRow(db: Db, id: Id): (r: Db)
    requires Integrity(db)
    ensures Integrity(r) && id !in r.subtasks
  {
    db.(subtasks := db.subtasks - {id})
  }

  function DeleteNoteRow(db: Db, id: Id): (r: Db)
    requires Integrity(db)
    ensures Integrity(r) && id !in r.notes
  {
    db.(notes := db.notes - {id})
  }

  /** The number of rows in the three tables a task deletion touches. */
  function TaskRowCount(db: Db): nat {
    |db.tasks| + |db.subtasks| + |db.notes|
  }

  lemma RemovedCount<V>(m: map<Id, V>, gone: set<Id>)
    requires gone <= m.Keys
    ensures |m - gone| + |gone| == |m|
  {
    assert (m - gone).Keys == m.Keys - gone;
    assert m.Keys == (m.Keys - gone) + gone;
  }

  /**
   * Deleting a task with N subtasks and M notes removes exactly N + M + 1
   * rows, and afterwards no subtask or note references it.
   */
  lemma DeleteTaskCount(db: Db, id: Id)
    requires Integrity(db) && id in db.tasks
    ensures TaskRowCount(DeleteTaskRows(db, id))
            == TaskRowCount(db) - 1 - |SubTasksOf(db, {id})| - |NotesOf(db, {id})|
    ensures forall s :: s in DeleteTaskRows(db, id).subtasks ==> DeleteTaskRows(db, id).subtasks[s].parentTask != id
    ensures forall n :: n in DeleteTaskRows(db, id).notes ==> DeleteTaskRows(db, id).notes[n].task != id
  {
    RemovedCount(db.tasks, {id});
    RemovedCount(db.subtasks, SubTasksOf(db, {id}));
    RemovedCount(db.notes, NotesOf(db, {id}));
  }

  /**
   * Deleting a task removes exactly that task, its subtasks and its notes:
   * every other row is still there, unchanged.
   */
  lemma DeleteTaskExact(db: Db, id: Id)
    requires Integrity(db)
    ensures var r := DeleteTaskRows(db, id);
            && r.categories == db.categories && r.priorities == db.priorities
            && (forall t :: t in r.tasks <==> t in db.tasks && t != id)
            && (forall s :: s in r.subtasks <==> s in db.subtasks && db.subtasks[s].parentTask != id)
            && (forall n :: n in r.notes <==> n in db.notes && db.notes[n].task != id)
            && (forall t :: t in r.tasks ==> r.tasks[t] == db.tasks[t])
            && (forall s :: s in r.subtasks ==> r.subtasks[s] == db.subtasks[s])
            && (forall n :: n in r.notes ==> r.notes[n] == db.notes[n])
  {
  }

  /**
   * Deleting a category removes every task filed under it and, through
   * those tasks, their subtasks and notes; rows that do not depend on it
   * survive unchanged.
   */
  lemma DeleteCategoryExact(db: Db, c: Id)
    requires Integrity(db)
    ensures var r := DeleteCategoryRows(db, c);
            && r.priorities == db.priorities
            && (forall k :: k in r.categories <==> k in db.categories && k != c)
            && (forall k :: k in r.categories ==> r.categories[k] == db.categories[k])
            && (forall t :: t in r.tasks <==> t in db.tasks && db.tasks[t].category != c)
            && (forall s :: s in r.subtasks <==>
                  s in db.subtasks && db.tasks[db.subtasks[s].parentTask].category != c)
            && (forall n :: n in r.notes <==> n in db.notes && db.tasks[db.notes[n].task].category != c)
            && (forall t :: t in r.tasks ==> r.tasks[t] == db.tasks[t])
            && (forall s :: s in r.subtasks ==> r.subtasks[s] == db.subtasks[s])
            && (forall n :: n in r.notes ==> r.notes[n] == db.notes[n])
  {
  }

  /** The same for a priority. */
  lemma DeletePriorityExact(db: Db, p: Id)
    requires Integrity(db)
    ensures var r := DeletePriorityRows(db, p);
            && r.categories == db.categories
            && (forall k :: k in r.priorities <==> k in db.priorities && k != p)
            && (forall k :: k in r.priorities ==> r.priorities[k] == db.priorities[k])
            && (forall t :: t in r.tasks <==> t in db.tasks && db.tasks[t].priority != p)
            && (forall s :: s in r.subtasks <==>
                  s in db.subtasks && db.tasks[db.subtasks[s].parentTask].priority != p)
            && (forall n :: n in r.notes <==> n in db.notes && db.tasks[db.notes[n].task].priority != p)
            && (forall t :: t in r.tasks ==> r.tasks[t] == db.tasks[t])
            && (forall s :: s in r.subtasks ==> r.subtasks[s] == db.subtasks[s])
            && (forall n :: n in r.notes ==> r.notes[n] == db.notes[n])
  {
  }

  // ---- single-row writes ----

  /** Writing one row whose foreign keys exist and whose stamps lie up to `now` keeps both invariants. */
  lemma PutCategoryKeeps(db: Db, clock: DateTime, now: DateTime, id: Id, c: Category)
    requires Integrity(db) && StampsUpTo(db, clock) && Ticks(clock) <= Ticks(now)
    requires StampsInOrder(c.createdAt, c.updatedAt, now)
    ensures Integrity(db.(categories := db.categories[id := c]))
    ensures StampsUpTo(db.(categories := db.categories[id := c]), now)
  {
    StampsLater(db, clock, now);
  }

  lemma PutPriorityKeeps(db: Db, clock: DateTime, now: DateTime, id: Id, p: Priority)
    requires Integrity(db) && StampsUpTo(db, clock) && Ticks(clock) <= Ticks(now)
    requires StampsInOrder(p.createdAt, p.updatedAt, now)
    ensures Integrity(db.(priorities := db.priorities[id := p]))
    ensures StampsUpTo(db.(priorities := db.priorities[id := p]), now)
  {
    StampsLater(db, clock, now);
  }

  lemma PutTaskKeeps(db: Db, clock: DateTime, now: DateTime, id: Id, t: Task)
    requires Integrity(db) && StampsUpTo(db, clock) && Ticks(clock) <= Ticks(now)
    requires t.category in db.categories && t.priority in db.priorities
    requires StampsInOrder(t.createdAt, t.updatedAt, now)
    ensures Integrity(db.(tasks := db.tasks[id := t]))
    ensures StampsUpTo(db.(tasks := db.tasks[id := t]), now)
  {
    StampsLater(db, clock, now);
  }

  lemma PutSubTaskKeeps(db: Db, clock: DateTime, now: DateTime, id: Id, s: SubTask)
    requires Integrity(db) && StampsUpTo(db, clock) && Ticks(clock) <= Ticks(now)
    requires s.parentTask in db.tasks
    requires StampsInOrder(s.createdAt, s.updatedAt, now)
    ensures Integrity(db.(subtasks := db.subtasks[id := s]))
    ensures StampsUpTo(db.(subtasks := db.subtasks[id := s]), now)
  {
    StampsLater(db, clock, now);
  }

  lemma PutNoteKeeps(db: Db, clock: DateTime, now: DateTime, id: Id, n: Note)
    requires Integrity(db) && StampsUpTo(db, clock) && Ticks(clock) <= Ticks(now)
    requires n.task in db.tasks
    requires StampsInOrder(n.createdAt, n.updatedAt, now)
    ensures Integrity(db.(notes := db.notes[id := n]))
    ensures StampsUpTo(db.(notes := db.notes[id := n]), now)
  {
    StampsLater(db, clock, now);
  }

  /** Every table of `r` is a part of the same table of `db`. */
  predicate SubDb(r: Db, db: Db) {
    && r.categories.Keys <= db.categories.Keys && r.priorities.Keys <= db.priorities.Keys
    && r.tasks.Keys <= db.tasks.Keys && r.subtasks.Keys <= db.subtasks.Keys && r.notes.Keys <= db.notes.Keys
    && (forall id :: id in r.categories ==> r.categories[id] == db.categories[id])
    && (forall id :: id in r.priorities ==> r.priorities[id] == db.priorities[id])
    && (forall id :: id in r.tasks ==> r.tasks[id] == db.tasks[id])
    && (forall id :: id in r.subtasks ==> r.subtasks[id] == db.subtasks[id])
    && (forall id :: id in r.notes ==> r.notes[id] == db.notes[id])
  }

  /** Deleting rows keeps every surviving row's stamps. */
  lemma SubDbStamps(r: Db, db: Db, clock: DateTime)
    requires SubDb(r, db) && StampsUpTo(db, clock)
    ensures StampsUpTo(r, clock)
  {
  }

  lemma RemoveTasksSub(db: Db, doomed: set<Id>)
    requires Integrity(db)
    ensures SubDb(RemoveTasks(db, doomed), db)
  {
  }

  // ---- the store ----

  /**
   * The database: one map per table, a primary-key sequence per table and,
   * for the proofs, the latest clock reading any save has used.
   */
  class Store {
    var categories: map<Id, Category>
    var priorities: map<Id, Priority>
    var tasks: map<Id, Task>
    var subtasks: map<Id, SubTask>
    var notes: map<Id, Note>
    var nextCategory: Id
    var nextPriority: Id
    var nextTask: Id
    var nextSubTask: Id
    var nextNote: Id
    ghost var clock: DateTime

    function Snapshot(): Db
      reads this
    {
      Db(categories, priorities, tasks, subtasks, notes)
    }

    ghost predicate KeysBelow<V>(m: map<Id, V>, next: Id) {
      0 < next && forall id :: id in m ==> 0 < id < next
    }

    /** Taking the next key of a sequence gives a key the table does not hold yet. */
    lemma KeysBelowPut<V>(m: map<Id, V>, next: Id, v: V)
      requires KeysBelow(m, next)
      ensures next !in m && KeysBelow(m[next := v], next + 1)
    {
    }

    ghost predicate Valid()
      reads this
    {
      && Integrity(Snapshot())
      && StampsUpTo(Snapshot(), clock)
      && KeysBelow(categories, nextCategory) && KeysBelow(priorities, nextPriority) && KeysBelow(tasks, nextTask)
      && KeysBelow(subtasks, nextSubTask) && KeysBelow(notes, nextNote)
    }

    constructor (ghost start: DateTime)
      ensures Valid() && clock == start
      ensures Snapshot() == Db(map[], map[], map[], map[], map[])
    {
      categories, priorities, tasks, subtasks, notes := map[], map[], map[], map[], map[];
      nextCategory, nextPriority, nextTask, nextSubTask, nextNote := 1, 1, 1, 1, 1;
      clock := start;
    }

    // -- inserts: `created_at` and `updated_at` both become `now` --

    method InsertCategory(name: string, now: DateTime) returns (id: Id)
      requires Valid() && Calendar.Valid(now) && Ticks(clock) <= Ticks(now)
      modifies this
      ensures Valid() && clock == now
      ensures id !in old(categories)
      ensures Snapshot() == old(Snapshot()).(categories := old(categories)[id := Category(name, now, now)])
    {
      id := nextCategory;
      PutCategoryKeeps(Snapshot(), clock, now, id, Category(name, now, now));
      KeysBelowPut(categories, nextCategory, Category(name, now, now));
      categories := categories[id := Category(name, now, now)];
      nextCategory := nextCategory + 1;
      clock := now;
    }

    method InsertPriority(name: string, now: DateTime) returns (id: Id)
      requires Valid() && Calendar.Valid(now) && Ticks(clock) <= Ticks(now)
      modifies this
      ensures Valid() && clock == now
      ensures id !in old(priorities)
      ensures Snapshot() == old(Snapshot()).(priorities := old(priorities)[id := Priority(name, now, now)])
    {
      id := nextPriority;
      PutPriorityKeeps(Snapshot(), clock, now, id, Priority(name, now, now));
      KeysBelowPut(priorities, nextPriority, Priority(name, now, now));
      priorities := priorities[id := Priority(name, now, now)];
      nextPriority := nextPriority + 1;
      clock := now;
    }

    method InsertTask(title: string, description: string, status: Option<Status>, deadline: Option<DateTime>,
                      priority: Id, category: Id, now: DateTime) returns (id: Id)
      requires Valid() && Calendar.Valid(now) && Ticks(clock) <= Ticks(now)
      requires priority in priorities && category in categories
      modifies this
      ensures Valid() && clock == now
      ensures id !in old(tasks)
      ensures Snapshot() == old(Snapshot()).(tasks := old(tasks)[id :=
                NewTask(title, description, status, deadline, priority, category, now)])
    {
      id := nextTask;
      var t := NewTask(title, description, status, deadline, priority, category, now);
      var db := Snapshot();
      PutTaskKeeps(db, clock, now, id, t);
      KeysBelowPut(tasks, nextTask, t);
      tasks := tasks[id := t];
      nextTask := nextTask + 1;
      clock := now;
      assert Snapshot() == db.(tasks := db.tasks[id := t]);
    }

    method InsertSubTask(title: string, status: Option<Status>, parentTask: Id, now: DateTime) returns (id: Id)
      requires Valid() && Calendar.Valid(now) && Ticks(clock) <= Ticks(now)
      requires parentTask in tasks
      modifies this
      ensures Valid() && clock == now
      ensures id !in old(subtasks)
      ensures Snapshot() == old(Snapshot()).(subtasks := old(subtasks)[id := NewSubTask(title, status, parentTask, now)])
    {
      id := nextSubTask;
      var s := NewSubTask(title, status, parentTask, now);
      var db := Snapshot();
      PutSubTaskKeeps(db, clock, now, id, s);
      KeysBelowPut(subtasks, nextSubTask, s);
      subtasks := subtasks[id := s];
      nextSubTask := nextSubTask + 1;
      clock := now;
      assert Snapshot() == db.(subtasks := db.subtasks[id := s]);
    }

    method InsertNote(task: Id, content: string, now: DateTime) returns (id: Id)
      requires Valid() && Calendar.Valid(now) && Ticks(clock) <= Ticks(now)
      requires task in tasks
      modifies this
      ensures Valid() && clock == now
      ensures id !in old(notes)
      ensures Snapshot() == old(Snapshot()).(notes := old(notes)[id := Note(task, content, now, now)])
    {
      id := nextNote;
      var n := Note(task, content, now, now);
      var db := Snapshot();
      PutNoteKeeps(db, clock, now, id, n);
      KeysBelowPut(notes, nextNote, n);
      notes := notes[id := n];
      nextNote := nextNote + 1;
      clock := now;
      assert Snapshot() == db.(notes := db.notes[id := n]);
    }

    // -- saves of an instance read from row `id`: `updated_at` becomes `now`, `created_at` is kept --

    method SaveCategory(id: Id, c: Category, now: DateTime)
      requires Valid() && Calendar.Valid(now) && Ticks(clock) <= Ticks(now)
      requires id in categories && c.createdAt == categories[id].createdAt
      modifies this
      ensures Valid() && clock == now
      ensures Snapshot() == old(Snapshot()).(categories := old(categories)[id := c.(updatedAt := now)])
    {
      PutCategoryKeeps(Snapshot(), clock, now, id, c.(updatedAt := now));
      categories := categories[id := c.(updatedAt := now)];
      clock := now;
    }

    method SavePriority(id: Id, p: Priority, now: DateTime)
      requires Valid() && Calendar.Valid(now) && Ticks(clock) <= Ticks(now)
      requires id in priorities && p.createdAt == priorities[id].createdAt
      modifies this
      ensures Valid() && clock == now
      ensures Snapshot() == old(Snapshot()).(priorities := old(priorities)[id := p.(updatedAt := now)])
    {
      PutPriorityKeeps(Snapshot(), clock, now, id, p.(updatedAt := now));
      priorities := priorities[id := p.(updatedAt := now)];
      clock := now;
    }

    method SaveTask(id: Id, t: Task, now: DateTime)
      requires Valid() && Calendar.Valid(now) && Ticks(clock) <= Ticks(now)
      requires id in tasks && t.createdAt == tasks[id].createdAt
      requires t.priority in priorities && t.category in categories
      modifies this
      ensures Valid() && clock == now
      ensures Snapshot() == old(Snapshot()).(tasks := old(tasks)[id := t.(updatedAt := now)])
    {
      PutTaskKeeps(Snapshot(), clock, now, id, t.(updatedAt := now));
      tasks := tasks[id := t.(updatedAt := now)];
      clock := now;
    }

    method SaveSubTask(id: Id, s: SubTask, now: DateTime)
      requires Valid() && Calendar.Valid(now) && Ticks(clock) <= Ticks(now)
      requires id in subtasks && s.createdAt == subtasks[id].createdAt
      requires s.parentTask in tasks
      modifies this
      ensures Valid() && clock == now
      ensures Snapshot() == old(Snapshot()).(subtasks := old(subtasks)[id := s.(updatedAt := now)])
    {
      PutSubTaskKeeps(Snapshot(), clock, now, id, s.(updatedAt := now));
      subtasks := subtasks[id := s.(updatedAt := now)];
      clock := now;
    }

    method SaveNote(id: Id, n: Note, now: DateTime)
      requires Valid() && Calendar.Valid(now) && Ticks(clock) <= Ticks(now)
      requires id in notes && n.createdAt == notes[id].createdAt
      requires n.task in tasks
      modifies this
      ensures Valid() && clock == now
      ensures Snapshot() == old(Snapshot()).(notes := old(notes)[id := n.(updatedAt := now)])
    {
      PutNoteKeeps(Snapshot(), clock, now, id, n.(updatedAt := now));
      notes := notes[id := n.(updatedAt := now)];
      clock := now;
    }

    // -- deletes, with the cascade applied explicitly --

    method DeleteCategory(id: Id)
      requires Valid() && id in categories
      modifies this
      ensures Valid() && clock == old(clock)
      ensures Snapshot() == DeleteCategoryRows(old(Snapshot()), id)
    {
      var db := Snapshot();
      var doomed := TasksInCategory(db, id);
      RemoveTasksSub(db, doomed);
      subtasks := subtasks - SubTasksOf(db, doomed);
      notes := notes - NotesOf(db, doomed);
      tasks := tasks - doomed;
      categories := categories - {id};
      SubDbStamps(Snapshot(), db, clock);
    }

    method DeletePriority(id: Id)
      requires Valid() && id in priorities
      modifies this
      ensures Valid() && clock == old(clock)
      ensures Snapshot() == DeletePriorityRows(old(Snapshot()), id)
    {
      var db := Snapshot();
      var doomed := TasksInPriority(db, id);
      RemoveTasksSub(db, doomed);
      subtasks := subtasks - SubTasksOf(db, doomed);
      notes := notes - NotesOf(db, doomed);
      tasks := tasks - doomed;
      priorities := priorities - {id};
      SubDbStamps(Snapshot(), db, clock);
    }

    method DeleteTask(id: Id)
      requires Valid() && id in tasks
      modifies this
      ensures Valid() && clock == old(clock)
      ensures Snapshot() == DeleteTaskRows(old(Snapshot()), id)
    {
      var db := Snapshot();
      RemoveTasksSub(db, {id});
      subtasks := subtasks - SubTasksOf(db, {id});
      notes := notes - NotesOf(db, {id});
      tasks := tasks - {id};
      SubDbStamps(Snapshot(), db, clock);
    }

    method DeleteSubTask(id: Id)
      requires Valid() && id in subtasks
      modifies this
      ensures Valid() && clock == old(clock)
      ensures Snapshot() == DeleteSubTaskRow(old(Snapshot()), id)
    {
      var db := Snapshot();
      subtasks := subtasks - {id};
      SubDbStamps(Snapshot(), db, clock);
    }

    method DeleteNote(id: Id)
      requires Valid() && id in notes
      modifies this
      ensures Valid() && clock == old(clock)
      ensures Snapshot() == DeleteNoteRow(old(Snapshot()), id)
    {
      var db := Snapshot();
      notes := notes - {id};
      SubDbStamps(Snapshot(), db, clock);
    }
  }
}
