/**
 * The queryset operations the list views compose: `filter`, `order_by`
 * (ascending or, with a leading `-`, descending) and pagination by a
 * fixed page size.
 */
module Querysets {
  import opened Wrappers
  import opened Models

  // ---- rows in sequence ----

  predicate Distinct(s: seq<Id>) {
    forall i, j :: 0 <= i < j < |s| ==> s[i] != s[j]
  }

  /** `s` lists every key of a table once: the rows of an unordered queryset. */
  predicate Enumerates(s: seq<Id>, keys: set<Id>) {
    Distinct(s) && (forall x :: x in s ==> x in keys) && (forall x :: x in keys ==> x in s)
  }

  // ---- filter ----

  /** The rows of `xs` that satisfy `keep`, in their original order. */
  function Filter(xs: seq<Id>, keep: Id -> bool): (r: seq<Id>)
    ensures forall x :: x in r <==> x in xs && keep(x)
    ensures |r| <= |xs|
  {
    if xs == [] then [] else (if keep(xs[0]) then [xs[0]] else []) + Filter(xs[1..], keep)
  }

  lemma {:induction false} FilterDistinct(xs: seq<Id>, keep: Id -> bool)
    requires Distinct(xs)
    ensures Distinct(Filter(xs, keep))
  {
    if xs != [] {
      FilterDistinct(xs[1..], keep);
      assert xs[0] !in xs[1..];
    }
  }

  /** Filtering twice by the same condition gives what filtering once gave. */
  lemma {:induction false} FilterIdempotent(xs: seq<Id>, keep: Id -> bool)
    ensures Filter(Filter(xs, keep), keep) == Filter(xs, keep)
  {
    if xs != [] {
      FilterIdempotent(xs[1..], keep);
      var r := Filter(xs, keep);
      if keep(xs[0]) {
        assert r == [xs[0]] + Filter(xs[1..], keep);
        assert r[0] == xs[0] && r[1..] == Filter(xs[1..], keep);
        assert Filter(r, keep) == [r[0]] + Filter(r[1..], keep);
      } else {
        assert r == Filter(xs[1..], keep);
      }
    }
  }

  // ---- lexicographic order of sort keys ----

  /**
   * Sort keys are integer sequences compared lexicographically: a
   * timestamp is one number, a text its character codes.
   */
  predicate LexLess(a: seq<int>, b: seq<int>) {
    if a == [] then b != []
    else if b == [] then false
    else a[0] < b[0] || (a[0] == b[0] && LexLess(a[1..], b[1..]))
  }

  lemma {:induction false} LexIrreflexive(a: seq<int>)
    ensures !LexLess(a, a)
  {
    if a != [] {
      LexIrreflexive(a[1..]);
    }
  }

  lemma {:induction false} LexTransitive(a: seq<int>, b: seq<int>, c: seq<int>)
    requires LexLess(a, b) && LexLess(b, c)
    ensures LexLess(a, c)
  {
    if a != [] && b != [] && c != [] && a[0] == b[0] == c[0] {
      LexTransitive(a[1..], b[1..], c[1..]);
    }
  }

  lemma {:induction false} LexTotal(a: seq<int>, b: seq<int>)
    requires a != b
    ensures LexLess(a, b) || LexLess(b, a)
  {
    if a != [] && b != [] && a[0] == b[0] {
      assert a == [a[0]] + a[1..] && b == [b[0]] + b[1..];
      LexTotal(a[1..], b[1..]);
    }
  }

  /** One-number keys compare as their numbers. */
  lemma LexSingle(x: int, y: int)
    ensures LexLess([x], [y]) <==> x < y
  {
    assert [x][1..] == [] && [y][1..] == [];
  }

  /** The key of a text: its character codes. */
  function TextKey(s: string): (k: seq<int>)
    ensures |k| == |s| && forall i :: 0 <= i < |s| ==> k[i] == s[i] as int
  {
    seq(|s|, i requires 0 <= i < |s| => s[i] as int)
  }

  // ---- order_by ----

  /**
   * `a` comes before `b` in the ascending ordering by `key`; rows with equal
   * keys go in ascending primary-key order, so the ordering is total.
   */
  predicate Precedes(key: Id -> seq<int>, a: Id, b: Id) {
    LexLess(key(a), key(b)) || (key(a) == key(b) && a < b)
  }

  /** The ordering by `key` or, with `desc`, by `-key`: the whole ascending order reversed, ties included. */
  predicate Before(key: Id -> seq<int>, desc: bool, a: Id, b: Id) {
    if desc then Precedes(key, b, a) else Precedes(key, a, b)
  }

  lemma BeforeIrreflexive(key: Id -> seq<int>, desc: bool, a: Id)
    ensures !Before(key, desc, a, a)
  {
    LexIrreflexive(key(a));
  }

  lemma BeforeTransitive(key: Id -> seq<int>, desc: bool, a: Id, b: Id, c: Id)
    requires Before(key, desc, a, b) && Before(key, desc, b, c)
    ensures Before(key, desc, a, c)
  {
    if desc {
      if LexLess(key(c), key(b)) && LexLess(key(b), key(a)) {
        LexTransitive(key(c), key(b), key(a));
      }
    } else {
      if LexLess(key(a), key(b)) && LexLess(key(b), key(c)) {
        LexTransitive(key(a), key(b), key(c));
      }
    }
  }

  lemma BeforeTotal(key: Id -> seq<int>, desc: bool, a: Id, b: Id)
    requires a != b
    ensures Before(key, desc, a, b) || Before(key, desc, b, a)
  {
    if key(a) != key(b) {
      LexTotal(key(a), key(b));
    }
  }

  lemma BeforeAsymmetric(key: Id -> seq<int>, desc: bool, a: Id, b: Id)
    requires Before(key, desc, a, b)
    ensures !Before(key, desc, b, a)
  {
    if Before(key, desc, b, a) {
      BeforeTransitive(key, desc, a, b, a);
      BeforeIrreflexive(key, desc, a);
    }
  }

  predicate Sorted(key: Id -> seq<int>, desc: bool, s: seq<Id>) {
    forall i, j :: 0 <= i < j < |s| ==> Before(key, desc, s[i], s[j])
  }

  /** Inserts `x` into a sorted sequence, after every row that comes before it. */
  function Insert(key: Id -> seq<int>, desc: bool, x: Id, s: seq<Id>): (r: seq<Id>)
    ensures multiset(r) == multiset(s) + multiset{x}
  {
    if s == [] then [x]
    else if Before(key, desc, s[0], x) then
      assert s == [s[0]] + s[1..];
      [s[0]] + Insert(key, desc, x, s[1..])
    else [x] + s
  }

  lemma {:induction false} InsertSorted(key: Id -> seq<int>, desc: bool, x: Id, s: seq<Id>)
    requires Sorted(key, desc, s) && x !in s
    ensures Sorted(key, desc, Insert(key, desc, x, s))
  {
    var r := Insert(key, desc, x, s);
    if s == [] {
    } else if Before(key, desc, s[0], x) {
      assert s == [s[0]] + s[1..];
      InsertSorted(key, desc, x, s[1..]);
      var rest := Insert(key, desc, x, s[1..]);
      assert r == [s[0]] + rest;
      forall j | 0 < j < |r|
        ensures Before(key, desc, s[0], r[j])
      {
        assert r[j] in multiset(rest);
        assert r[j] in multiset(s[1..]) + multiset{x};
        if r[j] != x {
          assert r[j] in s[1..];
          var k :| 0 <= k < |s[1..]| && s[1..][k] == r[j];
          assert s[k + 1] == r[j];
        }
      }
    } else {
      BeforeTotal(key, desc, s[0], x);
      forall j | 0 < j < |s|
        ensures Before(key, desc, x, s[j])
      {
        BeforeTransitive(key, desc, x, s[0], s[j]);
      }
    }
  }

  /** `order_by(key)`: insertion sort of the rows. */
  function Sort(key: Id -> seq<int>, desc: bool, xs: seq<Id>): (r: seq<Id>)
    ensures multiset(r) == multiset(xs)
    ensures forall x :: x in r <==> x in xs
  {
    if xs == [] then []
    else
      assert xs == [xs[0]] + xs[1..];
      var r := Insert(key, desc, xs[0], Sort(key, desc, xs[1..]));
      assert forall x :: x in r <==> x in multiset(r);
      assert forall x :: x in xs <==> x in multiset(xs);
      r
  }

  lemma {:induction false} SortSorted(key: Id -> seq<int>, desc: bool, xs: seq<Id>)
    requires Distinct(xs)
    ensures Sorted(key, desc, Sort(key, desc, xs))
  {
    if xs != [] {
      SortSorted(key, desc, xs[1..]);
      assert xs[0] !in xs[1..];
      assert xs[0] !in multiset(Sort(key, desc, xs[1..]));
      InsertSorted(key, desc, xs[0], Sort(key, desc, xs[1..]));
    }
  }

  lemma SortedDistinct(key: Id -> seq<int>, desc: bool, s: seq<Id>)
    requires Sorted(key, desc, s)
    ensures Distinct(s)
  {
    forall i, j | 0 <= i < j < |s|
      ensures s[i] != s[j]
    {
      if s[i] == s[j] {
        BeforeIrreflexive(key, desc, s[i]);
      }
    }
  }

  /** Two sorted arrangements of the same rows are the same arrangement. */
  lemma {:induction false} SortedUnique(key: Id -> seq<int>, desc: bool, a: seq<Id>, b: seq<Id>)
    requires Sorted(key, desc, a) && Sorted(key, desc, b) && multiset(a) == multiset(b)
    ensures a == b
  {
    if a == [] {
      assert |b| == |multiset(b)| == 0;
    } else {
      assert |b| == |multiset(b)| == |multiset(a)| == |a|;
      SortedHeads(key, desc, a, b);
      TailMultiset(a, b);
      SortedTail(key, desc, a);
      SortedTail(key, desc, b);
      SortedUnique(key, desc, a[1..], b[1..]);
      assert a == [a[0]] + a[1..] && b == [b[0]] + b[1..];
    }
  }

  lemma SortedTail(key: Id -> seq<int>, desc: bool, a: seq<Id>)
    requires a != [] && Sorted(key, desc, a)
    ensures Sorted(key, desc, a[1..])
  {
    forall i, j | 0 <= i < j < |a| - 1
      ensures Before(key, desc, a[1..][i], a[1..][j])
    {
      assert a[1..][i] == a[i + 1] && a[1..][j] == a[j + 1];
    }
  }

  /** The first of a sorted list is the row that comes before all the others. */
  lemma SortedHeads(key: Id -> seq<int>, desc: bool, a: seq<Id>, b: seq<Id>)
    requires a != [] && b != []
    requires Sorted(key, desc, a) && Sorted(key, desc, b) && multiset(a) == multiset(b)
    ensures a[0] == b[0]
  {
    if a[0] != b[0] {
      assert a[0] in multiset(b);
      var k :| 0 <= k < |b| && b[k] == a[0];
      assert b[0] in multiset(a);
      var m :| 0 <= m < |a| && a[m] == b[0];
      assert Before(key, desc, b[0], a[0]);
      BeforeAsymmetric(key, desc, b[0], a[0]);
      assert false;
    }
  }

  lemma TailMultiset(a: seq<Id>, b: seq<Id>)
    requires a != [] && b != [] && a[0] == b[0] && multiset(a) == multiset(b)
    ensures multiset(a[1..]) == multiset(b[1..])
  {
    assert a == [a[0]] + a[1..] && b == [b[0]] + b[1..];
    assert multiset(a) == multiset{a[0]} + multiset(a[1..]);
    assert multiset(b) == multiset{b[0]} + multiset(b[1..]);
    assert multiset(a[1..]) == multiset(a) - multiset{a[0]};
    assert multiset(b[1..]) == multiset(b) - multiset{b[0]};
  }

  function Reverse(s: seq<Id>): (r: seq<Id>)
    ensures |r| == |s| && forall i :: 0 <= i < |s| ==> r[i] == s[|s| - 1 - i]
  {
    if s == [] then [] else Reverse(s[1..]) + [s[0]]
  }

  lemma {:induction false} ReverseMultiset(s: seq<Id>)
    ensures multiset(Reverse(s)) == multiset(s)
  {
    if s != [] {
      ReverseMultiset(s[1..]);
      assert s == [s[0]] + s[1..];
    }
  }

  /** Ordering by `-f` lists the same rows as ordering by `f`, in exactly the reverse order. */
  lemma DescendingIsReversed(key: Id -> seq<int>, xs: seq<Id>)
    requires Distinct(xs)
    ensures Sort(key, true, xs) == Reverse(Sort(key, false, xs))
  {
    var up := Sort(key, false, xs);
    SortSorted(key, false, xs);
    SortSorted(key, true, xs);
    ReverseMultiset(up);
    ReverseSorted(key, up);
    SortedUnique(key, true, Sort(key, true, xs), Reverse(up));
  }

  /** Read backwards, an ascending list is descending. */
  lemma ReverseSorted(key: Id -> seq<int>, up: seq<Id>)
    requires Sorted(key, false, up)
    ensures Sorted(key, true, Reverse(up))
  {
    var down := Reverse(up);
    forall i, j | 0 <= i < j < |down|
      ensures Before(key, true, down[i], down[j])
    {
      var i', j' := |up| - 1 - j, |up| - 1 - i;
      assert down[i] == up[j'] && down[j] == up[i'];
      assert Before(key, false, up[i'], up[j']);
    }
  }

  // ---- pagination ----

  /** `paginate_by` of every list view. */
  const PageSize: nat := 10

  /** Django's page count: one page even when there are no rows (`allow_empty_first_page`), no orphans. */
  function PageCount(count: nat): (n: nat)
    ensures n >= 1
    ensures count == 0 ==> n == 1
    ensures count > 0 ==> (n - 1) * PageSize < count <= n * PageSize
  {
    if count == 0 then 1 else (count + PageSize - 1) / PageSize
  }

  /** The `page` request parameter: absent or empty, the word `last`, an integer, or anything else. */
  datatype PageRequest = FirstPage | LastPage | Number(n: int) | NotANumber

  /** The rows of page `n`: `items[(n-1)*10 .. min(n*10, count)]`. */
  function PageItems(items: seq<Id>, n: nat): (r: seq<Id>)
    requires 1 <= n <= PageCount(|items|)
    ensures |r| <= PageSize
    ensures n < PageCount(|items|) ==> |r| == PageSize
    ensures items != [] ==> r != []
  {
    var bottom := (n - 1) * PageSize;
    var top := if bottom + PageSize >= |items| then |items| else bottom + PageSize;
    items[bottom..top]
  }

  datatype Page = Page(items: seq<Id>, number: nat, pageCount: nat, count: nat)

  /** `paginate_queryset`: a page that does not exist is a not-found error, not an empty page. */
  function Paginate(items: seq<Id>, request: PageRequest): (r: Option<Page>)
    ensures r.Some? <==> match request
                        case FirstPage => true
                        case LastPage => true
                        case Number(n) => 1 <= n <= PageCount(|items|)
                        case NotANumber => false
    ensures r.Some? ==> 1 <= r.value.number <= r.value.pageCount == PageCount(|items|) && r.value.count == |items|
    ensures request == FirstPage ==> r.Some? && r.value.number == 1
    ensures request == LastPage ==> r.Some? && r.value.number == PageCount(|items|)
    ensures request.Number? && r.Some? ==> r.value.number == request.n
    ensures r.Some? ==> r.value.items == PageItems(items, r.value.number)
  {
    var pages := PageCount(|items|);
    var number := match request
      case FirstPage => 1
      case LastPage => pages
      case Number(n) => n
      case NotANumber => 0;
    if request.NotANumber? || number < 1 || number > pages then None
    else Some(Page(PageItems(items, number), number, pages, |items|))
  }

  /** Row `i` of the list is row `i % 10` of page `i / 10 + 1`: the pages cover the list in order. */
  lemma PageHolds(items: seq<Id>, i: nat)
    requires i < |items|
    ensures 1 <= i / PageSize + 1 <= PageCount(|items|)
    ensures var p := PageItems(items, i / PageSize + 1); i % PageSize < |p| && p[i % PageSize] == items[i]
  {
    var n := i / PageSize + 1;
    assert i == (i / PageSize) * PageSize + i % PageSize;
    assert (n - 1) * PageSize <= i;
    var pages := PageCount(|items|);
    assert (pages - 1) * PageSize < |items| <= pages * PageSize;
    assert n - 1 < pages;
  }

  /** Pages `1 .. k` one after the other. */
  function Pages(items: seq<Id>, k: nat): seq<Id>
    requires k <= PageCount(|items|)
  {
    if k == 0 then [] else Pages(items, k - 1) + PageItems(items, k)
  }

  /** The first `k` pages are the first `min(10 * k, count)` rows of the list. */
  lemma {:induction false} PagesPrefix(items: seq<Id>, k: nat)
    requires k <= PageCount(|items|)
    ensures Pages(items, k) == items[..if k * PageSize <= |items| then k * PageSize else |items|]
  {
    if k > 0 {
      PagesPrefix(items, k - 1);
      var bottom := (k - 1) * PageSize;
      var pages := PageCount(|items|);
      assert bottom <= |items| by {
        if |items| > 0 {
          assert (pages - 1) * PageSize < |items|;
          assert bottom <= (pages - 1) * PageSize;
        }
      }
      var top := if bottom + PageSize >= |items| then |items| else bottom + PageSize;
      assert PageItems(items, k) == items[bottom..top];
      assert items[..bottom] + items[bottom..top] == items[..top];
    }
  }

  /** Served one after another, the pages give back the whole list, each row once, in order. */
  lemma PagesCoverList(items: seq<Id>)
    ensures Pages(items, PageCount(|items|)) == items
  {
    var pages := PageCount(|items|);
    PagesPrefix(items, pages);
    assert pages * PageSize >= |items|;
    assert items[..|items|] == items;
  }

  /** Row `i` is served by the request for page `i / 10 + 1`; `last` is the numbered last page. */
  lemma PaginateFinds(items: seq<Id>, i: nat)
    requires i < |items|
    ensures var r := Paginate(items, Number(i / PageSize + 1));
            r.Some? && i % PageSize < |r.value.items| && r.value.items[i % PageSize] == items[i]
    ensures Paginate(items, LastPage) == Paginate(items, Number(PageCount(|items|)))
    ensures Paginate(items, FirstPage) == Paginate(items, Number(1))
  {
    PageHolds(items, i);
  }

  /** 25 rows make three pages; the third holds 5 rows and a fourth does not exist. */
  lemma PaginationExample(items: seq<Id>)
    requires |items| == 25
    ensures PageCount(25) == 3
    ensures Paginate(items, Number(3)).Some? && |Paginate(items, Number(3)).value.items| == 5
    ensures Paginate(items, Number(4)).None?
  {
  }
}
