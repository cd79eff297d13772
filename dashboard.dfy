/**
 * The dashboard (`home`): task counts overall and per status, one stats
 * row per category and per priority, and the five newest tasks.
 */
module Dashboard {
  import opened Wrappers
  import opened Calendar
  import opened Models
  import opened Querysets
  import opened Listing

  /** The two foreign keys a task is grouped by. */
  datatype Axis = ByCategory | ByPriority

  function AxisKey(t: Task, axis: Axis): Id {
    match axis
    case ByCategory => t.category
    case ByPriority => t.priority
  }

  /** All tasks, or the tasks of one category or one priority. */
  datatype Group = AllTasks | Having(axis: Axis, key: Id)

  predicate InGroup(t: Task, g: Group) {
    g.AllTasks? || AxisKey(t, g.axis) == g.key
  }

  /** Task `x` exists, is in `g` and, when `status` is given, has that status. */
  predicate Counted(db: Db, x: Id, g: Group, status: Option<Status>) {
    x in db.tasks && InGroup(db.tasks[x], g) && (status.None? || db.tasks[x].status == status.value)
  }

  /**
   * How many of the listed tasks are in `g` and, when `status` is given, have
   * that status: none exactly when no listed task qualifies, all exactly
   * when every one does.
   */
  function Count(db: Db, all: seq<Id>, g: Group, status: Option<Status>): (r: nat)
    ensures r <= |all|
    ensures r == 0 <==> forall i :: 0 <= i < |all| ==> !Counted(db, all[i], g, status)
    ensures r == |all| <==> forall i :: 0 <= i < |all| ==> Counted(db, all[i], g, status)
  {
    if all == [] then 0
    else
      var rest := Count(db, all[1..], g, status);
      assert forall i :: 1 <= i < |all| ==> all[i] == all[1..][i - 1];
      (if Counted(db, all[0], g, status) then 1 else 0) + rest
  }

  /** Pending, in-progress and completed tasks of a group add up to the group's total. */
  lemma {:induction false} StatusPartition(db: Db, all: seq<Id>, g: Group)
    ensures Count(db, all, g, Some(Pending)) + Count(db, all, g, Some(InProgress))
            + Count(db, all, g, Some(Completed)) == Count(db, all, g, None)
  {
    if all != [] {
      StatusPartition(db, all[1..], g);
    }
  }

  /** Every listed task is counted in the total. */
  lemma {:induction false} CountAllTasks(db: Db, all: seq<Id>)
    requires forall x :: x in all ==> x in db.tasks
    ensures Count(db, all, AllTasks, None) == |all|
  {
    if all != [] {
      CountAllTasks(db, all[1..]);
    }
  }

  lemma {:induction false} DistinctCard(s: seq<Id>)
    requires Distinct(s)
    ensures |set x: Id | x in s| == |s|
  {
    if s != [] {
      assert Distinct(s[1..]) by {
        forall i, j | 0 <= i < j < |s| - 1
          ensures s[1..][i] != s[1..][j]
        {
          assert s[1..][i] == s[i + 1] && s[1..][j] == s[j + 1];
        }
      }
      DistinctCard(s[1..]);
      assert (set x: Id | x in s) == {s[0]} + (set x: Id | x in s[1..]);
      assert s[0] !in s[1..];
      assert s[0] !in (set x: Id | x in s[1..]);
      assert {s[0]} !! (set x: Id | x in s[1..]);
    }
  }

  /** The total counts every task of the table once. */
  lemma TotalIsTableSize(db: Db, all: seq<Id>)
    requires Enumerates(all, db.tasks.Keys)
    ensures Count(db, all, AllTasks, None) == |db.tasks|
  {
    CountAllTasks(db, all);
    DistinctCard(all);
    assert (set x: Id | x in all) == db.tasks.Keys;
  }

  // ---- the per-category and per-priority rows ----

  datatype StatRow = StatRow(name: string, total: nat, pending: nat, inProgress: nat, completed: nat)

  function AxisName(db: Db, axis: Axis, key: Id): string {
    match axis
    case ByCategory => if key in db.categories then db.categories[key].name else ""
    case ByPriority => if key in db.priorities then db.priorities[key].name else ""
  }

  function StatFor(db: Db, all: seq<Id>, axis: Axis, key: Id): StatRow {
    var g := Having(axis, key);
    StatRow(AxisName(db, axis, key), Count(db, all, g, None), Count(db, all, g, Some(Pending)),
            Count(db, all, g, Some(InProgress)), Count(db, all, g, Some(Completed)))
  }

  /** One stats row per listed category (or priority), in the order listed. */
  function AxisStats(db: Db, all: seq<Id>, axis: Axis, keys: seq<Id>): (r: seq<StatRow>)
    ensures |r| == |keys|
  {
    seq(|keys|, i requires 0 <= i < |keys| => StatFor(db, all, axis, keys[i]))
  }

  function TotalOf(rows: seq<StatRow>): nat {
    if rows == [] then 0 else rows[0].total + TotalOf(rows[1..])
  }

  /** How many listed tasks have their category (or priority) among `keys`. */
  function CountAmong(db: Db, all: seq<Id>, axis: Axis, keys: set<Id>): nat {
    if all == [] then 0
    else
      var hit := all[0] in db.tasks && AxisKey(db.tasks[all[0]], axis) in keys;
      (if hit then 1 else 0) + CountAmong(db, all[1..], axis, keys)
  }

  lemma {:induction false} CountAmongSplit(db: Db, all: seq<Id>, axis: Axis, key: Id, keys: set<Id>)
    requires key !in keys
    ensures CountAmong(db, all, axis, {key} + keys)
            == Count(db, all, Having(axis, key), None) + CountAmong(db, all, axis, keys)
  {
    if all != [] {
      CountAmongSplit(db, all[1..], axis, key, keys);
    }
  }

  lemma {:induction false} TotalOfAmong(db: Db, all: seq<Id>, axis: Axis, keys: seq<Id>)
    requires Distinct(keys)
    ensures TotalOf(AxisStats(db, all, axis, keys)) == CountAmong(db, all, axis, set k: Id | k in keys)
  {
    if keys == [] {
      assert AxisStats(db, all, axis, keys) == [];
      assert (set k: Id | k in keys) == {};
      CountAmongEmpty(db, all, axis);
    } else {
      assert Distinct(keys[1..]) by {
        forall i, j | 0 <= i < j < |keys| - 1
          ensures keys[1..][i] != keys[1..][j]
        {
          assert keys[1..][i] == keys[i + 1] && keys[1..][j] == keys[j + 1];
        }
      }
      TotalOfAmong(db, all, axis, keys[1..]);
      var stats := AxisStats(db, all, axis, keys);
      assert stats[1..] == AxisStats(db, all, axis, keys[1..]);
      assert stats[0].total == Count(db, all, Having(axis, keys[0]), None);
      assert TotalOf(stats) == stats[0].total + TotalOf(stats[1..]);
      assert (set k: Id | k in keys) == {keys[0]} + (set k: Id | k in keys[1..]);
      assert keys[0] !in keys[1..];
      var rest := set k: Id | k in keys[1..];
      CountAmongSplit(db, all, axis, keys[0], rest);
      calc {
        TotalOf(stats);
        stats[0].total + TotalOf(stats[1..]);
        Count(db, all, Having(axis, keys[0]), None) + CountAmong(db, all, axis, rest);
        CountAmong(db, all, axis, {keys[0]} + rest);
        { assert {keys[0]} + rest == set k: Id | k in keys; }
        CountAmong(db, all, axis, set k: Id | k in keys);
      }
    }
  }

  lemma {:induction false} CountAmongEmpty(db: Db, all: seq<Id>, axis: Axis)
    ensures CountAmong(db, all, axis, {}) == 0
  {
    if all != [] {
      CountAmongEmpty(db, all[1..], axis);
    }
  }

  /** When every task's key is among `keys`, counting by key misses no task. */
  lemma {:induction false} CountAmongAll(db: Db, all: seq<Id>, axis: Axis, keys: set<Id>)
    requires forall x :: x in all && x in db.tasks ==> AxisKey(db.tasks[x], axis) in keys
    ensures CountAmong(db, all, axis, keys) == Count(db, all, AllTasks, None)
  {
    if all != [] {
      CountAmongAll(db, all[1..], axis, keys);
    }
  }

  /**
   * Since every task has exactly one category (one priority) and that
   * row exists, the per-category (per-priority) totals add up to the
   * number of tasks.
   */
  lemma AxisTotalsSum(db: Db, all: seq<Id>, axis: Axis, keys: seq<Id>)
    requires Integrity(db)
    requires Enumerates(all, db.tasks.Keys)
    requires Enumerates(keys, if axis == ByCategory then db.categories.Keys else db.priorities.Keys)
    ensures TotalOf(AxisStats(db, all, axis, keys)) == |db.tasks|
  {
    TotalOfAmong(db, all, axis, keys);
    CountAmongAll(db, all, axis, set k: Id | k in keys);
    TotalIsTableSize(db, all);
  }

  // ---- the newest tasks ----

  function Take(s: seq<Id>, n: nat): (r: seq<Id>)
    ensures |r| == if |s| < n then |s| else n
  {
    if |s| <= n then s else s[..n]
  }

  /** `order_by('-created_at')[:5]`. */
  function Recent(db: Db, all: seq<Id>): (r: seq<Id>)
    ensures |r| <= 5 && (|all| <= 5 ==> |r| == |all|)
    ensures forall x :: x in r ==> x in all
  {
    var sorted := Sort(TaskCreatedKey(db), true, all);
    assert |sorted| == |multiset(sorted)| == |multiset(all)| == |all|;
    Take(sorted, 5)
  }

  /** Nothing past the first `n` rows of a newest-first list is newer than row `n - 1`. */
  lemma TopOfSorted(key: Id -> seq<int>, sorted: seq<Id>, n: nat)
    requires Sorted(key, true, sorted)
    requires forall x :: x in sorted ==> |key(x)| == 1
    requires 0 < n <= |sorted|
    ensures forall k :: n <= k < |sorted| ==> key(sorted[k])[0] <= key(sorted[n - 1])[0]
  {
    NewestFirst(key, sorted);
  }

  lemma CreatedKeyValue(db: Db, x: Id)
    requires x in db.tasks
    ensures |TaskCreatedKey(db)(x)| == 1 && TaskCreatedKey(db)(x)[0] == Ticks(db.tasks[x].createdAt)
  {
  }

  /**
   * The recent list holds min(5, number of tasks) tasks, newest first, and
   * no task left out is newer than the last one shown.
   */
  lemma RecentNewest(db: Db, all: seq<Id>)
    requires Enumerates(all, db.tasks.Keys)
    ensures var r := Recent(db, all);
            && |r| == (if |db.tasks| < 5 then |db.tasks| else 5)
            && (forall x :: x in r ==> x in db.tasks)
            && (forall i, j :: 0 <= i < j < |r| ==> Ticks(db.tasks[r[j]].createdAt) <= Ticks(db.tasks[r[i]].createdAt))
            && (forall x :: x in db.tasks && x !in r ==> Ticks(db.tasks[x].createdAt) <= Ticks(db.tasks[r[|r| - 1]].createdAt))
  {
    RecentSize(db, all);
    RecentOrdered(db, all);
    if Recent(db, all) != [] {
      RecentTop(db, all);
    }
  }

  lemma RecentSize(db: Db, all: seq<Id>)
    requires Enumerates(all, db.tasks.Keys)
    ensures var r := Recent(db, all);
            && |r| == (if |db.tasks| < 5 then |db.tasks| else 5)
            && (forall x :: x in r ==> x in db.tasks)
  {
    var sorted := Sort(TaskCreatedKey(db), true, all);
    SortedLength(db, all);
    var r := Recent(db, all);
    forall x | x in r
      ensures x in db.tasks
    {
      assert x in sorted;
    }
  }

  lemma RecentOrdered(db: Db, all: seq<Id>)
    requires Enumerates(all, db.tasks.Keys)
    ensures var r := Recent(db, all);
            forall i, j :: 0 <= i < j < |r| ==>
              (r[i] in db.tasks && r[j] in db.tasks
               && Ticks(db.tasks[r[j]].createdAt) <= Ticks(db.tasks[r[i]].createdAt))
  {
    var key := TaskCreatedKey(db);
    var sorted := Sort(key, true, all);
    SortSorted(key, true, all);
    CreatedKeysSingle(db, all);
    NewestFirst(key, sorted);
    var r := Recent(db, all);
    assert forall i :: 0 <= i < |r| ==> r[i] == sorted[i];
    forall i, j | 0 <= i < j < |r|
      ensures r[i] in db.tasks && r[j] in db.tasks
      ensures Ticks(db.tasks[r[j]].createdAt) <= Ticks(db.tasks[r[i]].createdAt)
    {
      var a, b := sorted[i], sorted[j];
      assert key(b)[0] <= key(a)[0];
      CreatedKeyValue(db, a);
      CreatedKeyValue(db, b);
    }
  }

  lemma CreatedKeysSingle(db: Db, all: seq<Id>)
    requires Enumerates(all, db.tasks.Keys)
    ensures forall x :: x in Sort(TaskCreatedKey(db), true, all) ==> x in db.tasks && |TaskCreatedKey(db)(x)| == 1
  {
    forall x | x in Sort(TaskCreatedKey(db), true, all)
      ensures x in db.tasks && |TaskCreatedKey(db)(x)| == 1
    {
      CreatedKeyValue(db, x);
    }
  }

  /** A row outside the first `n` of a newest-first list is no newer than row `n - 1`. */
  lemma PastPrefix(key: Id -> seq<int>, sorted: seq<Id>, n: nat, x: Id)
    requires Sorted(key, true, sorted)
    requires forall y :: y in sorted ==> |key(y)| == 1
    requires 0 < n <= |sorted|
    requires x in sorted && x !in sorted[..n]
    ensures key(x)[0] <= key(sorted[n - 1])[0]
  {
    TopOfSorted(key, sorted, n);
    var k :| 0 <= k < |sorted| && sorted[k] == x;
    assert n <= k;
  }

  lemma RecentTop(db: Db, all: seq<Id>)
    requires Enumerates(all, db.tasks.Keys)
    requires Recent(db, all) != []
    ensures var r := Recent(db, all);
            r[|r| - 1] in db.tasks &&
            forall x :: x in db.tasks && x !in r ==> Ticks(db.tasks[x].createdAt) <= Ticks(db.tasks[r[|r| - 1]].createdAt)
  {
    var key := TaskCreatedKey(db);
    var sorted := Sort(key, true, all);
    SortSorted(key, true, all);
    var r := Recent(db, all);
    CreatedKeysSingle(db, all);
    assert r == sorted[..|r|];
    var last := sorted[|r| - 1];
    CreatedKeyValue(db, last);
    forall x | x in db.tasks && x !in r
      ensures Ticks(db.tasks[x].createdAt) <= Ticks(db.tasks[last].createdAt)
    {
      assert x in all;
      assert x in sorted;
      PastPrefix(key, sorted, |r|, x);
      CreatedKeyValue(db, x);
    }
  }

  lemma SortedLength(db: Db, all: seq<Id>)
    requires Enumerates(all, db.tasks.Keys)
    ensures |Sort(TaskCreatedKey(db), true, all)| == |db.tasks|
  {
    DistinctCard(all);
    assert (set x: Id | x in all) == db.tasks.Keys;
    var sorted := Sort(TaskCreatedKey(db), true, all);
    assert |sorted| == |multiset(sorted)| == |multiset(all)| == |all|;
  }

  // ---- the dashboard ----

  datatype Home = Home(total: nat, pending: nat, inProgress: nat, completed: nat, recent: seq<Id>,
                       categoryStats: seq<StatRow>, priorityStats: seq<StatRow>)

  /**
   * `home`: `all` lists the tasks, `categories` and `priorities` the rows of
   * those tables in the order the database returns them.
   */
  method BuildHome(db: Db, all: seq<Id>, categories: seq<Id>, priorities: seq<Id>) returns (h: Home)
    ensures h.total == Count(db, all, AllTasks, None)
    ensures h.pending == Count(db, all, AllTasks, Some(Pending))
    ensures h.inProgress == Count(db, all, AllTasks, Some(InProgress))
    ensures h.completed == Count(db, all, AllTasks, Some(Completed))
    ensures h.recent == Recent(db, all)
    ensures h.categoryStats == AxisStats(db, all, ByCategory, categories)
    ensures h.priorityStats == AxisStats(db, all, ByPriority, priorities)
  {
    var categoryStats := [];
    var i := 0;
    while i < |categories|
      invariant 0 <= i <= |categories|
      invariant categoryStats == AxisStats(db, all, ByCategory, categories[..i])
    {
      categoryStats := categoryStats + [StatFor(db, all, ByCategory, categories[i])];
      i := i + 1;
    }
    assert categories[..i] == categories;
    var priorityStats := [];
    i := 0;
    while i < |priorities|
      invariant 0 <= i <= |priorities|
      invariant priorityStats == AxisStats(db, all, ByPriority, priorities[..i])
    {
      priorityStats := priorityStats + [StatFor(db, all, ByPriority, priorities[i])];
      i := i + 1;
    }
    assert priorities[..i] == priorities;
    h := Home(Count(db, all, AllTasks, None), Count(db, all, AllTasks, Some(Pending)),
              Count(db, all, AllTasks, Some(InProgress)), Count(db, all, AllTasks, Some(Completed)),
              Recent(db, all), categoryStats, priorityStats);
  }

  /** The dashboard's counting identities, over a consistent store. */
  lemma HomeCounts(db: Db, all: seq<Id>, categories: seq<Id>, priorities: seq<Id>, h: Home)
    requires Integrity(db)
    requires Enumerates(all, db.tasks.Keys)
    requires Enumerates(categories, db.categories.Keys) && Enumerates(priorities, db.priorities.Keys)
    requires h.total == Count(db, all, AllTasks, None)
    requires h.pending == Count(db, all, AllTasks, Some(Pending))
    requires h.inProgress == Count(db, all, AllTasks, Some(InProgress))
    requires h.completed == Count(db, all, AllTasks, Some(Completed))
    requires h.categoryStats == AxisStats(db, all, ByCategory, categories)
    requires h.priorityStats == AxisStats(db, all, ByPriority, priorities)
    ensures h.total == |db.tasks|
    ensures h.pending + h.inProgress + h.completed == h.total
    ensures forall row :: row in h.categoryStats + h.priorityStats ==>
              row.pending + row.inProgress + row.completed == row.total
    ensures TotalOf(h.categoryStats) == h.total && TotalOf(h.priorityStats) == h.total
  {
    TotalIsTableSize(db, all);
    StatusPartition(db, all, AllTasks);
    forall row | row in h.categoryStats + h.priorityStats
      ensures row.pending + row.inProgress + row.completed == row.total
    {
      if row in h.categoryStats {
        var k :| 0 <= k < |categories| && h.categoryStats[k] == row;
        StatusPartition(db, all, Having(ByCategory, categories[k]));
      } else {
        var k :| 0 <= k < |priorities| && h.priorityStats[k] == row;
        StatusPartition(db, all, Having(ByPriority, priorities[k]));
      }
    }
    AxisTotalsSum(db, all, ByCategory, categories);
    AxisTotalsSum(db, all, ByPriority, priorities);
  }
}
