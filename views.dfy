/**
 * The create, update and delete views as operations on the store: a
 * submitted form is cleaned, an invalid one changes nothing, a missing
 * row is a 404, and a valid one is saved with the clock reading `now`.
 */
module Views {
  import opened Wrappers
  import opened Calendar
  import opened Models
  import opened Forms

  /** What a POST to a create, update or delete view ends in. */
  datatype Outcome =
    | Saved(id: Id)          // the row was inserted or updated; the view redirects
    | Removed                // the row and its cascade were deleted
    | Invalid(errors: Errors) // the form is shown again with these errors
    | NotFound               // 404
    | IntegrityError         // the insert violates the NOT NULL foreign key

  // ---- tasks ----

  method TaskCreate(store: Store, d: TaskInput, now: DateTime) returns (o: Outcome)
    requires store.Valid() && Calendar.Valid(now) && Ticks(store.clock) <= Ticks(now)
    modifies store
    ensures store.Valid()
    ensures var c := CleanTask(old(store.Snapshot()), d);
            && (c.Failure? ==> o == Invalid(c.error) && store.Snapshot() == old(store.Snapshot()))
            && (c.Success? ==> (o.Saved? && o.id !in old(store.tasks)
                  && store.Snapshot() == old(store.Snapshot()).(tasks := old(store.tasks)[o.id :=
                       NewTask(c.value.title, c.value.description, Some(c.value.status), Some(c.value.deadline),
                               c.value.priority, c.value.category, now)])))
  {
    var c := CleanTask(store.Snapshot(), d);
    if c.Failure? {
      return Invalid(c.error);
    }
    var f := c.value;
    var id := store.InsertTask(f.title, f.description, Some(f.status), Some(f.deadline), f.priority, f.category, now);
    o := Saved(id);
  }

  method TaskUpdate(store: Store, id: Id, d: TaskInput, now: DateTime) returns (o: Outcome)
    requires store.Valid() && Calendar.Valid(now) && Ticks(store.clock) <= Ticks(now)
    modifies store
    ensures store.Valid()
    ensures id !in old(store.tasks) ==> o == NotFound && store.Snapshot() == old(store.Snapshot())
    ensures id in old(store.tasks) ==>
              var c := CleanTask(old(store.Snapshot()), d);
              && (c.Failure? ==> o == Invalid(c.error) && store.Snapshot() == old(store.Snapshot()))
              && (c.Success? ==> (o == Saved(id)
                    && store.Snapshot() == old(store.Snapshot()).(tasks := old(store.tasks)[id :=
                         ApplyTaskForm(old(store.tasks)[id], c.value).(updatedAt := now)])))
  {
    if id !in store.tasks {
      return NotFound;
    }
    var c := CleanTask(store.Snapshot(), d);
    if c.Failure? {
      return Invalid(c.error);
    }
    store.SaveTask(id, ApplyTaskForm(store.tasks[id], c.value), now);
    o := Saved(id);
  }

  method TaskDelete(store: Store, id: Id) returns (o: Outcome)
    requires store.Valid()
    modifies store
    ensures store.Valid()
    ensures id !in old(store.tasks) ==> o == NotFound && store.Snapshot() == old(store.Snapshot())
    ensures id in old(store.tasks) ==> o == Removed && store.Snapshot() == DeleteTaskRows(old(store.Snapshot()), id)
  {
    if id !in store.tasks {
      return NotFound;
    }
    store.DeleteTask(id);
    o := Removed;
  }

  // ---- subtasks ----

  /**
   * `tasks/<task_pk>/subtasks/add/`: the parent is the URL's task. The
   * form is cleaned first; rendering it again looks the task up too, so a
   * missing task is a 404 either way. A `task_pk` of 0 is falsy: the
   * parent is then never set and the insert fails.
   */
  method SubTaskCreate(store: Store, taskPk: nat, d: SubTaskInput, now: DateTime) returns (o: Outcome)
    requires store.Valid() && Calendar.Valid(now) && Ticks(store.clock) <= Ticks(now)
    modifies store
    ensures store.Valid()
    ensures !o.Saved? ==> store.Snapshot() == old(store.Snapshot())
    ensures taskPk != 0 && taskPk !in old(store.tasks) ==> o == NotFound
    ensures var c := CleanSubTask(d);
            && (c.Failure? && (taskPk == 0 || taskPk in old(store.tasks)) ==> o == Invalid(c.error))
            && (c.Success? && taskPk == 0 ==> o == IntegrityError)
            && (c.Success? && taskPk in old(store.tasks) ==>
                  o.Saved? && o.id !in old(store.subtasks)
                  && store.Snapshot() == old(store.Snapshot()).(subtasks := old(store.subtasks)[o.id :=
                       NewSubTask(c.value.title, Some(c.value.status), taskPk, now)]))
  {
    var c := CleanSubTask(d);
    if taskPk != 0 && taskPk !in store.tasks {
      return NotFound;
    }
    if c.Failure? {
      return Invalid(c.error);
    }
    if taskPk == 0 {
      return IntegrityError;
    }
    var id := store.InsertSubTask(c.value.title, Some(c.value.status), taskPk, now);
    o := Saved(id);
  }

  /** `subtasks/add/`: the parent is chosen in the form. */
  method SubTaskCreateWithParent(store: Store, d: SubTaskWithParentInput, now: DateTime) returns (o: Outcome)
    requires store.Valid() && Calendar.Valid(now) && Ticks(store.clock) <= Ticks(now)
    modifies store
    ensures store.Valid()
    ensures var c := CleanSubTaskWithParent(old(store.Snapshot()), d);
            && (c.Failure? ==> o == Invalid(c.error) && store.Snapshot() == old(store.Snapshot()))
            && (c.Success? ==> (o.Saved? && o.id !in old(store.subtasks)
                  && store.Snapshot() == old(store.Snapshot()).(subtasks := old(store.subtasks)[o.id :=
                       NewSubTask(c.value.title, Some(c.value.status), c.value.parentTask, now)])))
  {
    var c := CleanSubTaskWithParent(store.Snapshot(), d);
    if c.Failure? {
      return Invalid(c.error);
    }
    var id := store.InsertSubTask(c.value.title, Some(c.value.status), c.value.parentTask, now);
    o := Saved(id);
  }

  /** Editing a subtask uses `SubTaskForm`: the parent task stays what it was. */
  method SubTaskUpdate(store: Store, id: Id, d: SubTaskInput, now: DateTime) returns (o: Outcome)
    requires store.Valid() && Calendar.Valid(now) && Ticks(store.clock) <= Ticks(now)
    modifies store
    ensures store.Valid()
    ensures id !in old(store.subtasks) ==> o == NotFound && store.Snapshot() == old(store.Snapshot())
    ensures id in old(store.subtasks) ==>
              var c := CleanSubTask(d);
              && (c.Failure? ==> o == Invalid(c.error) && store.Snapshot() == old(store.Snapshot()))
              && (c.Success? ==> (o == Saved(id)
                    && store.Snapshot() == old(store.Snapshot()).(subtasks := old(store.subtasks)[id :=
                         ApplySubTaskForm(old(store.subtasks)[id], c.value).(updatedAt := now)])
                    && store.subtasks[id].parentTask == old(store.subtasks)[id].parentTask))
  {
    if id !in store.subtasks {
      return NotFound;
    }
    var c := CleanSubTask(d);
    if c.Failure? {
      return Invalid(c.error);
    }
    var row := ApplySubTaskForm(store.subtasks[id], c.value);
    store.SaveSubTask(id, row, now);
    assert store.subtasks == old(store.subtasks)[id := row.(updatedAt := now)];
    o := Saved(id);
  }

  method SubTaskDelete(store: Store, id: Id) returns (o: Outcome)
    requires store.Valid()
    modifies store
    ensures store.Valid()
    ensures id !in old(store.subtasks) ==> o == NotFound && store.Snapshot() == old(store.Snapshot())
    ensures id in old(store.subtasks) ==> o == Removed && store.Snapshot() == DeleteSubTaskRow(old(store.Snapshot()), id)
  {
    if id !in store.subtasks {
      return NotFound;
    }
    store.DeleteSubTask(id);
    o := Removed;
  }

  // ---- notes ----

  /** `tasks/<task_pk>/notes/add/`: the task is looked up before anything else and becomes the note's task. */
  method NoteCreate(store: Store, taskPk: nat, d: NoteInput, now: DateTime) returns (o: Outcome)
    requires store.Valid() && Calendar.Valid(now) && Ticks(store.clock) <= Ticks(now)
    modifies store
    ensures store.Valid()
    ensures !o.Saved? ==> store.Snapshot() == old(store.Snapshot())
    ensures taskPk !in old(store.tasks) ==> o == NotFound
    ensures taskPk in old(store.tasks) ==>
              var c := CleanNote(d);
              && (c.Failure? ==> o == Invalid(c.error))
              && (c.Success? ==> (o.Saved? && o.id !in old(store.notes)
                    && store.Snapshot() == old(store.Snapshot()).(notes := old(store.notes)[o.id :=
                         Note(taskPk, c.value, now, now)])
                    && store.notes[o.id].task == taskPk))
  {
    if taskPk !in store.tasks {
      return NotFound;
    }
    var c := CleanNote(d);
    if c.Failure? {
      return Invalid(c.error);
    }
    var id := store.InsertNote(taskPk, c.value, now);
    assert store.notes == old(store.notes)[id := Note(taskPk, c.value, now, now)];
    o := Saved(id);
  }

  /** Editing a note uses `NoteForm`: the note stays with its task. */
  method NoteUpdate(store: Store, id: Id, d: NoteInput, now: DateTime) returns (o: Outcome)
    requires store.Valid() && Calendar.Valid(now) && Ticks(store.clock) <= Ticks(now)
    modifies store
    ensures store.Valid()
    ensures id !in old(store.notes) ==> o == NotFound && store.Snapshot() == old(store.Snapshot())
    ensures id in old(store.notes) ==>
              var c := CleanNote(d);
              && (c.Failure? ==> o == Invalid(c.error) && store.Snapshot() == old(store.Snapshot()))
              && (c.Success? ==> (o == Saved(id)
                    && store.Snapshot() == old(store.Snapshot()).(notes := old(store.notes)[id :=
                         ApplyNoteForm(old(store.notes)[id], c.value).(updatedAt := now)])
                    && store.notes[id].task == old(store.notes)[id].task))
  {
    if id !in store.notes {
      return NotFound;
    }
    var c := CleanNote(d);
    if c.Failure? {
      return Invalid(c.error);
    }
    var row := ApplyNoteForm(store.notes[id], c.value);
    store.SaveNote(id, row, now);
    assert store.notes == old(store.notes)[id := row.(updatedAt := now)];
    o := Saved(id);
  }

  method NoteDelete(store: Store, id: Id) returns (o: Outcome)
    requires store.Valid()
    modifies store
    ensures store.Valid()
    ensures id !in old(store.notes) ==> o == NotFound && store.Snapshot() == old(store.Snapshot())
    ensures id in old(store.notes) ==> o == Removed && store.Snapshot() == DeleteNoteRow(old(store.Snapshot()), id)
  {
    if id !in store.notes {
      return NotFound;
    }
    store.DeleteNote(id);
    o := Removed;
  }

  // ---- categories and priorities ----

  method CategoryCreate(store: Store, d: NameInput, now: DateTime) returns (o: Outcome)
    requires store.Valid() && Calendar.Valid(now) && Ticks(store.clock) <= Ticks(now)
    modifies store
    ensures store.Valid()
    ensures var c := CleanName(d);
            && (c.Failure? ==> o == Invalid(c.error) && store.Snapshot() == old(store.Snapshot()))
            && (c.Success? ==> (o.Saved? && o.id !in old(store.categories)
                  && store.Snapshot() == old(store.Snapshot()).(categories := old(store.categories)[o.id :=
                       Category(c.value, now, now)])))
  {
    var c := CleanName(d);
    if c.Failure? {
      return Invalid(c.error);
    }
    var id := store.InsertCategory(c.value, now);
    o := Saved(id);
  }

  method CategoryUpdate(store: Store, id: Id, d: NameInput, now: DateTime) returns (o: Outcome)
    requires store.Valid() && Calendar.Valid(now) && Ticks(store.clock) <= Ticks(now)
    modifies store
    ensures store.Valid()
    ensures id !in old(store.categories) ==> o == NotFound && store.Snapshot() == old(store.Snapshot())
    ensures id in old(store.categories) ==>
              var c := CleanName(d);
              && (c.Failure? ==> o == Invalid(c.error) && store.Snapshot() == old(store.Snapshot()))
              && (c.Success? ==> (o == Saved(id)
                    && store.Snapshot() == old(store.Snapshot()).(categories := old(store.categories)[id :=
                         Category(c.value, old(store.categories)[id].createdAt, now)])))
  {
    if id !in store.categories {
      return NotFound;
    }
    var c := CleanName(d);
    if c.Failure? {
      return Invalid(c.error);
    }
    store.SaveCategory(id, ApplyCategoryForm(store.categories[id], c.value), now);
    o := Saved(id);
  }

  method CategoryDelete(store: Store, id: Id) returns (o: Outcome)
    requires store.Valid()
    modifies store
    ensures store.Valid()
    ensures id !in old(store.categories) ==> o == NotFound && store.Snapshot() == old(store.Snapshot())
    ensures id in old(store.categories) ==> o == Removed && store.Snapshot() == DeleteCategoryRows(old(store.Snapshot()), id)
  {
    if id !in store.categories {
      return NotFound;
    }
    store.DeleteCategory(id);
    o := Removed;
  }

  method PriorityCreate(store: Store, d: NameInput, now: DateTime) returns (o: Outcome)
    requires store.Valid() && Calendar.Valid(now) && Ticks(store.clock) <= Ticks(now)
    modifies store
    ensures store.Valid()
    ensures var c := CleanName(d);
            && (c.Failure? ==> o == Invalid(c.error) && store.Snapshot() == old(store.Snapshot()))
            && (c.Success? ==> (o.Saved? && o.id !in old(store.priorities)
                  && store.Snapshot() == old(store.Snapshot()).(priorities := old(store.priorities)[o.id :=
                       Priority(c.value, now, now)])))
  {
    var c := CleanName(d);
    if c.Failure? {
      return Invalid(c.error);
    }
    var id := store.InsertPriority(c.value, now);
    o := Saved(id);
  }

  method PriorityUpdate(store: Store, id: Id, d: NameInput, now: DateTime) returns (o: Outcome)
    requires store.Valid() && Calendar.Valid(now) && Ticks(store.clock) <= Ticks(now)
    modifies store
    ensures store.Valid()
    ensures id !in old(store.priorities) ==> o == NotFound && store.Snapshot() == old(store.Snapshot())
    ensures id in old(store.priorities) ==>
              var c := CleanName(d);
              && (c.Failure? ==> o == Invalid(c.error) && store.Snapshot() == old(store.Snapshot()))
              && (c.Success? ==> (o == Saved(id)
                    && store.Snapshot() == old(store.Snapshot()).(priorities := old(store.priorities)[id :=
                         Priority(c.value, old(store.priorities)[id].createdAt, now)])))
  {
    if id !in store.priorities {
      return NotFound;
    }
    var c := CleanName(d);
    if c.Failure? {
      return Invalid(c.error);
    }
    store.SavePriority(id, ApplyPriorityForm(store.priorities[id], c.value), now);
    o := Saved(id);
  }

  method PriorityDelete(store: Store, id: Id) returns (o: Outcome)
    requires store.Valid()
    modifies store
    ensures store.Valid()
    ensures id !in old(store.priorities) ==> o == NotFound && store.Snapshot() == old(store.Snapshot())
    ensures id in old(store.priorities) ==> o == Removed && store.Snapshot() == DeletePriorityRows(old(store.Snapshot()), id)
  {
    if id !in store.priorities {
      return NotFound;
    }
    store.DeletePriority(id);
    o := Removed;
  }
}
