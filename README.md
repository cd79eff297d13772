# Hangarin task store, modelled in Dafny

Hangarin is a small Django task manager. Its core is a store of five tables:

- `Category` and `Priority`, which are named labels;
- `Task`, which has a title, a description, a status, a deadline, one category and one priority;
- `SubTask`, which belongs to a parent task;
- `Note`, which belongs to a task.

This project models that core and proves properties of it:

- the rows and their defaults;
- the automatic `created_at` / `updated_at` stamps;
- the CASCADE deletes;
- the six model forms, with their field lists and the deadline formats;
- the list views' search, ordering and pagination;
- the dashboard counts;
- the create, update and delete views as operations on the store.

Files (one module each):

| file | module | models |
|---|---|---|
| `wrappers.dfy` | `Wrappers` | `Option` and `Result` |
| `calendar.dfy` | `Calendar` | date-times to one-second resolution, their order, and the `%Y-%m-%dT%H:%M[:%S]` text formats |
| `models.dfy` | `Models` | rows, defaults, integrity, the cascade, and the `Store` class with one map per table |
| `forms.dfy` | `Forms` | `TaskForm`, `SubTaskForm`, `SubTaskWithParentForm`, `NoteForm`, `CategoryForm`, `PriorityForm` |
| `querysets.dfy` | `Querysets` | `filter`, `order_by` and pagination by 10 |
| `listing.dfy` | `Listing` | the five list views' `get_queryset` |
| `dashboard.dfy` | `Dashboard` | `home` |
| `views.dfy` | `Views` | the create, update and delete views as methods that change a `Store` |

How the model represents the system:

- The database is the class `Models.Store`:
  - one `map` per table, from primary key to row;
  - one key sequence per table;
  - a ghost `clock` holding the latest time any save used.
- Its invariant `Valid()` says three things:
  - every foreign key names an existing row;
  - every row has `created_at <= updated_at <= clock`;
  - every key is below its table's next key.
- Inserts, saves and deletes each state the whole new contents of the store.
  - A delete's new contents are a function of the old contents: `DeleteTaskRows`, `DeleteCategoryRows`, and so on.
  - Lemmas prove that these functions remove exactly the dependent rows.
- The clock is never read. Every write receives `now` as a parameter and requires it to be a valid calendar reading no earlier than the clock.
- A list view is modelled as a function of:
  - the store's contents;
  - a sequence `all` that lists the table's keys once each (the unordered queryset);
  - the request's `q`, `order_by` and `page`.

## Model

| member | source | states |
|---|---|---|
| Calendar.DaysInMonth | projectsite/hangarin/forms.py:29 | A month has 28 to 31 days; February has 29 exactly in leap years, so a parsed date is a real calendar day |
| Calendar.TicksOrder | projectsite/hangarin/models.py:6-7 | For valid date-times, the tick count orders them as the calendar does, and equal tick counts mean equal readings; timestamps can be compared as numbers |
| Calendar.ParseFormat | projectsite/hangarin/forms.py:29 | A parse succeeds only on text of the exact fixed-width shape, and yields a valid date-time |
| Calendar.FormatFits | projectsite/hangarin/forms.py:28 | Formatting a date-time always gives text of the shape the parser expects |
| Calendar.ParseFormatRoundTrip | projectsite/hangarin/forms.py:28-29 | Parsing a formatted valid date-time gives it back (with seconds 0 when the format has none) |
| Calendar.ParseFormatCanonical | projectsite/hangarin/forms.py:29 | Any accepted text is exactly the formatting of what it parses to: no two texts mean the same instant |
| Models.StatusOf | projectsite/hangarin/models.py:36-44 | Stored status text names a choice exactly when it is one of the three labels; any other text names none |
| Models.StatusLabelRoundTrip | projectsite/hangarin/models.py:36-40 | Each of the three choices is stored as a distinct label that reads back as that choice |
| Models.NewTask | projectsite/hangarin/models.py:42-47 | A new task stores the given title, description, category and priority, and the given status and deadline when there are any. The status is Pending exactly when none or Pending was given, a missing deadline defaults to the insertion time, and both stamps are the insertion time |
| Models.NewSubTask | projectsite/hangarin/models.py:60-62 | A new subtask stores the given title and parent task, and the given status when there is one. The status is Pending exactly when none or Pending was given, and both stamps are the insertion time |
| Models.StampsLater | projectsite/hangarin/models.py:6-7 | If every stamp is within an earlier clock, it is within any later clock |
| Models.RemoveTasks | projectsite/hangarin/models.py:62-69 | Removing tasks together with the subtasks and notes that reference them keeps integrity, leaves categories and priorities alone, and leaves no row pointing at a removed task |
| Models.DeleteTaskRows | projectsite/hangarin/models.py:62-69 | After deleting a task with its cascade, the task is gone and integrity holds |
| Models.DeleteCategoryRows | projectsite/hangarin/models.py:47 | After deleting a category with its tasks and their dependents, the category is gone and integrity holds |
| Models.DeletePriorityRows | projectsite/hangarin/models.py:46 | The same for a priority |
| Models.DeleteSubTaskRow | projectsite/hangarin/models.py:53-62 | Deleting a subtask removes that row and keeps integrity, because nothing references a subtask |
| Models.DeleteNoteRow | projectsite/hangarin/models.py:68-70 | Deleting a note removes that row and keeps integrity, because nothing references a note |
| Models.RemovedCount | projectsite/hangarin/models.py:62-69 | Removing a set of present keys from a table shrinks it by exactly that many rows |
| Models.DeleteTaskCount | projectsite/hangarin/models.py:62-69 | Deleting a task with N subtasks and M notes removes exactly N + M + 1 rows, and no remaining subtask or note references it |
| Models.DeleteTaskExact | projectsite/hangarin/models.py:62-69 | A row survives a task delete iff it is not the task and does not reference it; surviving rows are unchanged, and categories and priorities are untouched |
| Models.DeleteCategoryExact | projectsite/hangarin/models.py:47 | A row survives a category delete iff it does not depend on the category (directly, or through its task); every surviving row of every table, the categories included, is unchanged |
| Models.DeletePriorityExact | projectsite/hangarin/models.py:46 | A row survives a priority delete iff it does not depend on the priority; every surviving row of every table, the priorities included, is unchanged |
| Models.SubDbStamps | projectsite/hangarin/models.py:5-7 | Deleting rows never breaks the order of the surviving rows' stamps |
| Models.Store.constructor | projectsite/hangarin/models.py:5-7 | The empty store satisfies the invariant |
| Models.Store.InsertCategory | projectsite/hangarin/models.py:13-14 | Inserting a category uses a fresh key, stamps it `now` twice, changes nothing else and keeps the invariant |
| Models.Store.InsertPriority | projectsite/hangarin/models.py:24-25 | The same for a priority |
| Models.Store.InsertTask | projectsite/hangarin/models.py:35-47 | Inserting a task whose category and priority exist adds exactly the `NewTask` row under a fresh key and keeps integrity |
| Models.Store.InsertSubTask | projectsite/hangarin/models.py:53-62 | Inserting a subtask under an existing task adds exactly the `NewSubTask` row under a fresh key and keeps integrity |
| Models.Store.InsertNote | projectsite/hangarin/models.py:68-70 | Inserting a note on an existing task adds exactly that row, stamped `now`, under a fresh key |
| Models.Store.SaveCategory | projectsite/hangarin/models.py:6-7 | A save keeps `created_at`, sets `updated_at` to `now`, changes only that row and keeps `created_at <= updated_at <= clock` |
| Models.Store.SavePriority | projectsite/hangarin/models.py:6-7 | The same for a priority |
| Models.Store.SaveTask | projectsite/hangarin/models.py:6-7 | The same for a task, whose new foreign keys must exist |
| Models.Store.SaveSubTask | projectsite/hangarin/models.py:6-7 | The same for a subtask, whose parent must exist |
| Models.Store.SaveNote | projectsite/hangarin/models.py:6-7 | The same for a note, whose task must exist |
| Models.Store.DeleteCategory | projectsite/hangarin/models.py:47 | The store afterwards is `DeleteCategoryRows` of the store before, and the invariant holds |
| Models.Store.DeletePriority | projectsite/hangarin/models.py:46 | The store afterwards is `DeletePriorityRows` of the store before |
| Models.Store.DeleteTask | projectsite/hangarin/models.py:62-69 | The store afterwards is `DeleteTaskRows` of the store before |
| Models.Store.DeleteSubTask | projectsite/hangarin/models.py:62 | Exactly that subtask row is removed |
| Models.Store.DeleteNote | projectsite/hangarin/models.py:69 | Exactly that note row is removed |
| Forms.StripStartCuts | projectsite/hangarin/models.py:42-43 | Stripping the front cuts only whitespace and leaves a suffix that does not start with whitespace |
| Forms.StripEndCuts | projectsite/hangarin/models.py:42-43 | Stripping the end cuts only whitespace and leaves a prefix that does not end with whitespace |
| Forms.StripMiddle | projectsite/hangarin/models.py:42-43 | The stripped text is a middle slice of the input, with only whitespace on either side of it |
| Forms.StripEdges | projectsite/hangarin/models.py:42-43 | The stripped text neither starts nor ends with whitespace |
| Forms.StripBlank | projectsite/hangarin/models.py:42-43 | A text strips to nothing iff it is all whitespace |
| Forms.StripIdempotent | projectsite/hangarin/models.py:42-43 | Stripping a stripped text changes nothing |
| Forms.PaddedStrip | projectsite/hangarin/models.py:42-43 | Whitespace added around a text is removed again by stripping |
| Forms.CleanText | projectsite/hangarin/models.py:42-43 | A text field is stripped first; it is accepted iff the stripped text is non-empty, within `max_length` and free of null characters, and the stripped text is what is kept; the error is Required iff the value is missing or blank, TooLong iff it is non-blank and over the limit |
| Forms.CleanTextPadded | projectsite/hangarin/models.py:42-43 | A value with whitespace around it cleans exactly like the bare value (same result, same error) |
| Forms.CleanTextBlank | projectsite/hangarin/models.py:42-43 | A value of whitespace only is refused as Required, whatever the length limit |
| Forms.CleanStatus | projectsite/hangarin/models.py:44 | A status is accepted iff it is one of the three choices, and the stored label is the submitted text. A missing or empty value is Required, any other rejected value is InvalidChoice |
| Forms.CleanKey | projectsite/hangarin/models.py:46-47 | A foreign-key field is accepted iff it names an existing row, and that key is kept. A missing key is Required, a key naming no row is InvalidChoice |
| Forms.ParseDeadline | projectsite/hangarin/forms.py:27-30 | An accepted deadline is valid and is in one of the two input formats |
| Forms.ParseDeadlineCanonical | projectsite/hangarin/forms.py:29 | An accepted deadline text is exactly the rendering, in its own format, of the instant it names |
| Forms.WidgetRoundTrip | projectsite/hangarin/forms.py:28-29 | The widget's own rendering of any valid deadline is accepted back as the same deadline |
| Forms.ShortFormRoundTrip | projectsite/hangarin/forms.py:29 | A deadline with seconds 0, written without seconds, is accepted as that deadline |
| Forms.CleanDeadline | projectsite/hangarin/forms.py:27-30 | The deadline field is accepted iff it is present and in one of the two formats, and the value is its parse. A missing or empty value is Required, any other rejected text is InvalidDateTime |
| Forms.TaskErrors | projectsite/hangarin/forms.py:9 | The error map has an entry for exactly the task-form fields whose cleaning fails |
| Forms.CleanTask | projectsite/hangarin/forms.py:6-30 | The task form is valid iff all six fields clean. Then: the category and priority are the submitted keys and exist; the deadline is the parse of the submitted text and is valid; the title (1-200 characters) and description are the stripped submissions; the status is the submitted label. Otherwise there is an error for exactly the failing fields |
| Forms.ApplyTaskForm | projectsite/hangarin/forms.py:9 | Saving the form gives the record exactly the cleaned values in its six fields and keeps both stamps |
| Forms.TaskFormWrites | projectsite/hangarin/forms.py:9 | The task form writes only its six fields, the record then shows the submitted values, and submitting a record's own values changes nothing |
| Forms.CleanSubTask | projectsite/hangarin/forms.py:36 | The subtask form is valid iff title and status clean; the title kept is the stripped submission and the status the submitted label; errors are reported on exactly the failing fields of those two |
| Forms.ApplySubTaskForm | projectsite/hangarin/forms.py:36 | Saving the form writes the cleaned title and status and keeps the parent task and both stamps |
| Forms.SubTaskFormWrites | projectsite/hangarin/forms.py:36 | `SubTaskForm` writes only title and status, so an edit never changes the parent task |
| Forms.CleanSubTaskWithParent | projectsite/hangarin/forms.py:46 | The form is valid iff title, status and parent clean. Then the parent is the submitted `parent_task` and exists, the title is the stripped submission and the status is the submitted label. Otherwise each of the three fields has an error iff it fails to clean |
| Forms.CleanNote | projectsite/hangarin/forms.py:75 | A note form is valid iff the stripped content is non-empty and free of null characters, and the stripped content is kept; otherwise the only error is on content, and it is Required iff the content is missing or blank |
| Forms.ApplyNoteForm | projectsite/hangarin/forms.py:75 | Saving the form writes the content and keeps the task and both stamps |
| Forms.NoteFormWrites | projectsite/hangarin/forms.py:75 | `NoteForm` writes only the content, so an edit never moves a note to another task |
| Forms.CleanName | projectsite/hangarin/forms.py:57 | A name form is valid iff the stripped name is 1-100 characters and free of null characters, and the stripped name is kept; otherwise the only error is on the name: Required iff missing or blank, TooLong iff over 100 characters after stripping |
| Forms.ApplyCategoryForm | projectsite/hangarin/forms.py:57 | Saving the category form writes the name and keeps both stamps |
| Forms.ApplyPriorityForm | projectsite/hangarin/forms.py:67 | Saving the priority form writes the name and keeps both stamps |
| Forms.NameFormsWrite | projectsite/hangarin/forms.py:57-67 | The category and priority forms write the name and leave both stamps as they were |
| Querysets.Filter | projectsite/hangarin/views.py:76-83 | A row is kept iff it was listed and satisfies the condition, so a search returns a subset of the list |
| Querysets.FilterDistinct | projectsite/hangarin/views.py:76 | Filtering a list without repeats gives a list without repeats |
| Querysets.FilterIdempotent | projectsite/hangarin/views.py:249-251 | Applying the same search twice gives the same result as applying it once |
| Querysets.LexIrreflexive | projectsite/hangarin/views.py:86-88 | No sort key comes before itself |
| Querysets.LexTransitive | projectsite/hangarin/views.py:86-88 | The order on sort keys is transitive |
| Querysets.LexTotal | projectsite/hangarin/views.py:86-88 | Of any two different sort keys, one comes first |
| Querysets.TextKey | projectsite/hangarin/views.py:254-256 | A text's sort key is its character codes, position by position |
| Querysets.BeforeTransitive | projectsite/hangarin/views.py:86-88 | The row order of any `order_by` is transitive |
| Querysets.BeforeTotal | projectsite/hangarin/views.py:86-88 | The row order of any `order_by` puts one of any two different rows first |
| Querysets.BeforeAsymmetric | projectsite/hangarin/views.py:86-88 | No two rows each come before the other |
| Querysets.Insert | projectsite/hangarin/views.py:86-88 | Inserting a row into a list adds exactly that row |
| Querysets.InsertSorted | projectsite/hangarin/views.py:86-88 | Inserting a new row into a sorted list keeps it sorted |
| Querysets.Sort | projectsite/hangarin/views.py:86-88 | `order_by` returns the same rows, as a permutation |
| Querysets.SortSorted | projectsite/hangarin/views.py:86-88 | `order_by` of distinct rows is in the requested order |
| Querysets.SortedDistinct | projectsite/hangarin/views.py:86-88 | A sorted list repeats no row |
| Querysets.SortedUnique | projectsite/hangarin/views.py:86-88 | Two sorted arrangements of the same rows are identical, so the ordering is fully determined |
| Querysets.Reverse | projectsite/hangarin/views.py:86-88 | Reversal puts row i at position n - 1 - i |
| Querysets.ReverseSorted | projectsite/hangarin/views.py:86-88 | An ascending list read backwards is descending |
| Querysets.DescendingIsReversed | projectsite/hangarin/views.py:86-88 | Ordering by `-f` lists the rows of ordering by `f` in exactly the reverse order |
| Querysets.PageCount | projectsite/hangarin/views.py:66 | No rows make exactly one page; otherwise the page count is the least number of 10-row pages that holds every row |
| Querysets.PageItems | projectsite/hangarin/views.py:66 | A page holds at most 10 rows; every page but the last holds exactly 10; the first page of a non-empty list is non-empty |
| Querysets.Paginate | projectsite/hangarin/views.py:66 | A page is served iff the request is absent, `last`, or a number from 1 to the page count; anything else is not found, never an empty page. An absent request serves page 1, `last` the last page and a number that page; the rows served are that page's rows |
| Querysets.PageHolds | projectsite/hangarin/views.py:66 | Row i of the list is row i mod 10 of page i div 10 + 1, so the pages cover the list in order |
| Querysets.PagesPrefix | projectsite/hangarin/views.py:66 | The first k pages, one after another, are the first min(10k, count) rows |
| Querysets.PagesCoverList | projectsite/hangarin/views.py:66 | All pages, one after another, are exactly the whole list |
| Querysets.PaginateFinds | projectsite/hangarin/views.py:66 | Row i is served by the request for page i div 10 + 1 at position i mod 10; `last` serves the numbered last page and an absent page serves page 1 |
| Querysets.PaginationExample | projectsite/hangarin/views.py:66 | 25 rows make 3 pages; page 3 has 5 rows; page 4 is not found |
| Listing.LowerChar | projectsite/hangarin/views.py:76-83 | Case folding maps A-Z to a-z and leaves every other character alone |
| Listing.Lower | projectsite/hangarin/views.py:76-83 | Case folding keeps a text's length |
| Listing.LowerIdempotent | projectsite/hangarin/views.py:76-83 | Folding a folded text changes nothing |
| Listing.Contains | projectsite/hangarin/views.py:76-83 | The substring test holds iff the query occurs at some position of the text |
| Listing.PrefixFound | projectsite/hangarin/views.py:83 | Searching for any beginning of a text (such as a deadline's `YYYY-MM-DD`) finds the text |
| Listing.QueryCaseIgnored | projectsite/hangarin/views.py:76-83 | A query matches exactly when its lower-case form matches |
| Listing.ExactFound | projectsite/hangarin/views.py:76-83 | A query that occurs as written is found by the case-insensitive search |
| Listing.TaskFoundByDayAndStatus | projectsite/hangarin/views.py:81-83 | Searching for a task's deadline day or for its status label finds that task |
| Listing.TaskMatches | projectsite/hangarin/views.py:76-83 | The task search: the query occurs, ignoring ASCII case, in the title, description, category name, priority name, status or deadline text; only existing tasks match |
| Listing.SubTaskMatches | projectsite/hangarin/views.py:147-151 | The subtask search: title, parent task title or status; only existing subtasks match |
| Listing.NoteMatches | projectsite/hangarin/views.py:315-320 | The note search: content, task title, task deadline text or creation text; only existing notes match |
| Listing.CategoryMatches | projectsite/hangarin/views.py:251 | The category search over the name; only existing categories match |
| Listing.PriorityMatches | projectsite/hangarin/views.py:407 | The priority search over the name; only existing priorities match |
| Listing.SelfFound | projectsite/hangarin/views.py:76-83 | Any text is found by searching for itself |
| Listing.TaskFoundByOwnText | projectsite/hangarin/views.py:76-80 | Searching for a task's title, description, category name or priority name finds it |
| Listing.SubTaskFoundByOwnText | projectsite/hangarin/views.py:147-151 | Searching for a subtask's title, status or parent task title finds it |
| Listing.NoteFoundByOwnText | projectsite/hangarin/views.py:315-320 | Searching for a note's content, creation day or task title finds it |
| Listing.NameFound | projectsite/hangarin/views.py:251 | Searching for a category's or priority's own name finds it |
| Listing.EffectiveOrdering | projectsite/hangarin/views.py:86-88 | A non-empty `order_by` wins; an absent or empty one leaves the view's default ordering |
| Listing.ParseOrdering | projectsite/hangarin/views.py:86-88 | A leading `-` means descending, and the parameter is exactly the sign followed by the field |
| Listing.Queryset | projectsite/hangarin/views.py:68-90 | A queryset fails iff the ordering names no known column; otherwise it holds exactly the listed rows that match a non-empty query (all of them when the query is empty) |
| Listing.QuerysetSorted | projectsite/hangarin/views.py:86-88 | A queryset is in the requested order and repeats no row |
| Listing.QuerysetReversed | projectsite/hangarin/views.py:86-88 | `order_by=-f` lists the rows of `order_by=f` in reverse order |
| Listing.ListPage | projectsite/hangarin/views.py:66 | The page of a queryset is `Paginate`'s page of its rows, holding at most 10 of them; an ordering error is passed on, and a missing page is not found |
| Listing.TaskQueryset | projectsite/hangarin/views.py:72-88 | A task is listed iff the query is empty, or it occurs case-insensitively in the title, description, category name, priority name, status or deadline text; the default ordering never fails |
| Listing.SubTaskQueryset | projectsite/hangarin/views.py:144-156 | A subtask is listed iff the query is empty, or it occurs in its title, its parent task's title or its status |
| Listing.NoteQueryset | projectsite/hangarin/views.py:312-325 | A note is listed iff the query is empty, or it occurs in its content, its task's title, its task's deadline text or its own creation text |
| Listing.CategoryQueryset | projectsite/hangarin/views.py:248-256 | A category is listed iff the query is empty or occurs in its name |
| Listing.PriorityQueryset | projectsite/hangarin/views.py:404-412 | A priority is listed iff the query is empty or occurs in its name |
| Listing.TaskList | projectsite/hangarin/views.py:61-89 | The task list page holds at most 10 listed tasks, each matching the query; the plain first page always succeeds |
| Listing.SubTaskList | projectsite/hangarin/views.py:133-158 | The subtask list page holds at most 10 listed subtasks, each matching the query; the plain first page always succeeds |
| Listing.NoteList | projectsite/hangarin/views.py:301-327 | The note list page holds at most 10 listed notes, each matching the query; the plain first page always succeeds |
| Listing.CategoryList | projectsite/hangarin/views.py:237-258 | The category list page holds at most 10 listed categories, each matching the query; the plain first page always succeeds |
| Listing.PriorityList | projectsite/hangarin/views.py:393-414 | The priority list page holds at most 10 listed priorities, each matching the query; the plain first page always succeeds |
| Listing.NewestFirst | projectsite/hangarin/views.py:67 | Along a list sorted descending by a one-number key, the numbers never increase |
| Listing.TaskListDefault | projectsite/hangarin/views.py:67-88 | With `order_by` absent or empty, the task list is the `-created_at` list: newest first |
| Listing.TaskCreatedSorted | projectsite/hangarin/views.py:86-88 | The `-created_at` task queryset succeeds and is sorted by creation time, descending |
| Listing.SubTaskListDefault | projectsite/hangarin/views.py:139-156 | With `order_by` absent or empty, the subtask list is newest first |
| Listing.SubTaskCreatedSorted | projectsite/hangarin/views.py:154-156 | The `-created_at` subtask queryset is sorted by creation time, descending |
| Listing.NoteListDefault | projectsite/hangarin/views.py:307-325 | With `order_by` absent or empty, the note list is newest first |
| Listing.NoteCreatedSorted | projectsite/hangarin/views.py:323-325 | The `-created_at` note queryset is sorted by creation time, descending |
| Listing.CategoryListDefault | projectsite/hangarin/views.py:243-256 | With `order_by` absent or empty, the category list is in name order |
| Listing.PriorityListDefault | projectsite/hangarin/views.py:399-412 | With `order_by` absent or empty, the priority list is in name order |
| Dashboard.StatusPartition | projectsite/hangarin/views.py:48-51 | Pending + in progress + completed = total, overall and within any category or priority |
| Dashboard.Count | projectsite/hangarin/views.py:24-52 | A count is at most the number of listed tasks; it is 0 iff no listed task qualifies and the full length iff every one does |
| Dashboard.CountAllTasks | projectsite/hangarin/views.py:48 | Every listed task is counted in the total |
| Dashboard.DistinctCard | projectsite/hangarin/views.py:48 | A list without repeats has as many rows as distinct elements |
| Dashboard.TotalIsTableSize | projectsite/hangarin/views.py:48 | `total_tasks` is the number of rows in the task table |
| Dashboard.AxisStats | projectsite/hangarin/views.py:24-45 | There is one stats row per category (priority) listed |
| Dashboard.CountAmongSplit | projectsite/hangarin/views.py:24-45 | Counting tasks whose key is in {k} ∪ K splits into those with key k plus those with key in K |
| Dashboard.TotalOfAmong | projectsite/hangarin/views.py:24-45 | The stats rows' totals add up to the number of tasks whose key is among the listed ones |
| Dashboard.CountAmongAll | projectsite/hangarin/views.py:24-45 | When every task's key is among the listed keys, counting by key misses no task |
| Dashboard.AxisTotalsSum | projectsite/hangarin/views.py:24-45 | The per-category totals, and likewise the per-priority totals, add up to the number of tasks |
| Dashboard.Take | projectsite/hangarin/views.py:52 | Slicing `[:n]` keeps min(n, length) rows |
| Dashboard.Recent | projectsite/hangarin/views.py:52 | `recent_tasks` holds at most 5 tasks, all of them listed, and every task when there are at most 5 |
| Dashboard.TopOfSorted | projectsite/hangarin/views.py:52 | In a newest-first list, nothing past the first n rows is newer than row n - 1 |
| Dashboard.CreatedKeyValue | projectsite/hangarin/views.py:52 | A task's `created_at` sort key is its creation tick count |
| Dashboard.RecentNewest | projectsite/hangarin/views.py:52 | `recent_tasks` holds min(5, number of tasks) tasks, newest first, and no task left out is newer than the last one shown |
| Dashboard.RecentOrdered | projectsite/hangarin/views.py:52 | The recent tasks are newest first |
| Dashboard.RecentTop | projectsite/hangarin/views.py:52 | No task left out of the recent list is newer than its last entry |
| Dashboard.SortedLength | projectsite/hangarin/views.py:52 | Ordering all tasks keeps every task |
| Dashboard.BuildHome | projectsite/hangarin/views.py:15-58 | The loops build one stats row per category and per priority, in order, with the per-status counts, plus the overall counts and the recent tasks |
| Dashboard.HomeCounts | projectsite/hangarin/views.py:17-51 | On a consistent store, the total is the task count, the status counts add up to it overall and in every stats row, and both the per-category and per-priority totals add up to it |
| Views.TaskCreate | projectsite/hangarin/views.py:97-106 | A valid task form inserts exactly the cleaned task under a fresh key; an invalid one changes nothing and returns its errors |
| Views.TaskUpdate | projectsite/hangarin/views.py:108-117 | A missing task is not found; a valid form rewrites exactly that task's six form fields and its `updated_at`; an invalid one changes nothing |
| Views.TaskDelete | projectsite/hangarin/views.py:120-128 | A missing task is not found; otherwise the task and its cascade are deleted |
| Views.SubTaskCreate | projectsite/hangarin/views.py:165-187 | A nonzero `task_pk` naming no task is not found and creates nothing; with an existing task a valid form inserts a subtask whose parent is that task; a `task_pk` of 0 fails the insert |
| Views.SubTaskCreateWithParent | projectsite/hangarin/views.py:190-199 | A valid form inserts a subtask under the chosen, existing parent; an invalid one changes nothing |
| Views.SubTaskUpdate | projectsite/hangarin/views.py:202-217 | A subtask edit rewrites title, status and `updated_at` and never changes the parent |
| Views.SubTaskDelete | projectsite/hangarin/views.py:220-233 | A missing subtask is not found; otherwise exactly that row is deleted |
| Views.NoteCreate | projectsite/hangarin/views.py:335-355 | A missing task is not found before the form is read; otherwise a valid form inserts a note whose task is the URL's task |
| Views.NoteUpdate | projectsite/hangarin/views.py:358-373 | A note edit rewrites content and `updated_at` and never changes the task |
| Views.NoteDelete | projectsite/hangarin/views.py:376-389 | A missing note is not found; otherwise exactly that row is deleted |
| Views.CategoryCreate | projectsite/hangarin/views.py:265-274 | A valid name inserts a category stamped `now`; an invalid one changes nothing |
| Views.CategoryUpdate | projectsite/hangarin/views.py:277-286 | A valid name rewrites the name and `updated_at` and keeps `created_at` |
| Views.CategoryDelete | projectsite/hangarin/views.py:289-297 | A missing category is not found; otherwise it is deleted with its tasks and their dependents |
| Views.PriorityCreate | projectsite/hangarin/views.py:421-430 | A valid name inserts a priority stamped `now`; an invalid one changes nothing |
| Views.PriorityUpdate | projectsite/hangarin/views.py:433-442 | A valid name rewrites the name and `updated_at` and keeps `created_at` |
| Views.PriorityDelete | projectsite/hangarin/views.py:445-452 | A missing priority is not found; otherwise it is deleted with its tasks and their dependents |

## Left out

- Forms.ParseDeadline: accepts only the fixed-width shapes `YYYY-MM-DDTHH:MM:SS` and `YYYY-MM-DDTHH:MM`.
  - `strptime` would also accept one-digit fields and a lower-case `t`.
  - Django strips surrounding whitespace from the deadline too; the model does not.
  - Django's `DateTimeField` first tries its ISO-8601 parser (`parse_datetime`) and only then the `input_formats`; the ISO parser, and the texts only it accepts, are not modelled.
- Forms.CleanText: a value that is both over `max_length` and holds a null character gets both messages from Django; the model reports only TooLong.
- Date-times have one-second resolution, and microseconds are not modelled.
  - Time zones (`USE_TZ`, `timezone.now`) are not modelled.
  - The clock is a parameter `now`, required to be a valid calendar reading no earlier than any earlier save.
- Querysets.Sort: rows with equal sort keys are put in ascending primary-key order, and under `-field` in descending primary-key order, so that `-field` is the exact reverse of `field`.
  - The database leaves their order unspecified.
  - The ordering on a text column compares character codes; the database collation is not modelled.
- Listing.TaskKey, Listing.SubTaskKey, Listing.NoteKey, Listing.CategoryKey, Listing.PriorityKey: `order_by` is modelled over each model's own columns, the column names of its foreign keys (`category_id`, `priority_id`, `parent_task_id`, `task_id`), `id` and `pk`.
  - Lookups across relations (`category__name`), reverse relations (`subtasks`, `notes`) and random order (`?`) are not modelled; they are reported like any unknown field.
  - The ORM raises on an unknown field. The model returns `UnknownField`.
  - Ordering by a foreign key orders by the referenced id, since neither Category nor Priority declares a `Meta.ordering`.
- Listing.DateText: a stored date-time is searched as the text `YYYY-MM-DD HH:MM:SS`.
  - The exact rendering each database backend uses is not modelled.
- Listing.LowerChar: case folding covers ASCII letters only, as SQLite's `LIKE` does.
  - Full Unicode case folding is not modelled.
  - The escaping of `%` and `_` in queries is not needed: the model compares text directly.
- The unordered queryset is a parameter `all` listing the table's keys.
  - The order the database returns rows in (and so the order of the dashboard's stats rows) is an input, not computed.
- Models.Store: primary keys come from a per-table counter starting at 1.
  - Database sequences, transactions and concurrent requests are not modelled.
- Foreign-key form fields are submitted as integers. Parsing them from text is not modelled.
- Rendering is not modelled:
  - templates and context variables such as `page_title`, `parent_task` and `order_by` in the context;
  - `messages.success` texts (including the category delete view's "Priority deleted" text);
  - redirects and `success_url`.
- GET requests to the create, update and delete views are not modelled. They render a page and change nothing.
- `NoteWithTaskForm` is not modelled, because no view uses it.
- `TaskDetailView` and `NoteCreateWithTaskView` are not modelled, because the routing table names them but `views.py` does not define them.
- The admin configuration, the sample-data command and the routing table are not part of this model.
