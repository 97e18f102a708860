/**
 * The listing arithmetic shared by the product catalogue and the admin order
 * list: `page`/`limit` defaults, `skip = (page - 1) * limit`, newest-first
 * ordering by `createdAt`, the store's skip/limit window and
 * `pages = Math.ceil(total / limit)`.
 */
module Paging {
  import opened Wrappers

  function Abs(x: int): nat { if x < 0 then -x else x }
  function Min(a: int, b: int): int { if a <= b then a else b }
  function Max(a: int, b: int): int { if a <= b then b else a }

  datatype PageParams = PageParams(page: int, limit: int, skip: int)

  /**
   * `parseInt(q.page) || 1` and `parseInt(q.limit) || 10`, with the query
   * values already parsed (None for absent or unparseable): an absent value or
   * a zero falls back to the default; any other value, negative ones
   * included, is used as given.
   */
  function Params(page: Option<int>, limit: Option<int>): (p: PageParams)
    ensures p.page != 0 && p.limit != 0
    ensures page.None? || page == Some(0) ==> p.page == 1
    ensures page.Some? && page.value != 0 ==> p.page == page.value
    ensures limit.None? || limit == Some(0) ==> p.limit == 10
    ensures limit.Some? && limit.value != 0 ==> p.limit == limit.value
    ensures p.skip == (p.page - 1) * p.limit
  {
    var pg := if page.None? || page.value == 0 then 1 else page.value;
    var lim := if limit.None? || limit.value == 0 then 10 else limit.value;
    PageParams(pg, lim, (pg - 1) * lim)
  }

  lemma CeilDivPositive(total: nat, limit: int)
    requires limit > 0
    ensures var pages := (total + limit - 1) / limit;
            (pages - 1) * limit < total <= pages * limit
  {
    var n := total + limit - 1;
    var q, r := n / limit, n % limit;
    assert n == q * limit + r && 0 <= r < limit;
    assert (q - 1) * limit == q * limit - limit;
  }

  lemma FloorDivPositive(total: nat, d: int)
    requires d > 0
    ensures var q := total / d;
            q * d <= total < (q + 1) * d
  {
    var q, r := total / d, total % d;
    assert total == q * d + r && 0 <= r < d;
    assert (q + 1) * d == q * d + d;
  }

  /**
   * `Math.ceil(total / limit)` for a nonzero integer limit: the least integer
   * not below the exact quotient.
   */
  function PageCount(total: nat, limit: int): (pages: int)
    requires limit != 0
    ensures limit > 0 ==> (pages - 1) * limit < total <= pages * limit
    ensures limit < 0 ==> pages * limit <= total < (pages - 1) * limit
    ensures limit > 0 ==> (pages == 0 <==> total == 0)
  {
    if limit > 0 then
      CeilDivPositive(total, limit);
      (total + limit - 1) / limit
    else
      FloorDivPositive(total, -limit);
      var q := total / -limit;
      assert -q * limit == q * -limit;
      assert (-q - 1) * limit == (q + 1) * -limit;
      -q
  }

  /**
   * The store's `.skip(skip).limit(limit)` on an ordered result: a negative
   * skip is refused by the store, a negative limit returns as many documents
   * as its absolute value.
   */
  function Window<T>(s: seq<T>, skip: int, limit: int): (r: Option<seq<T>>)
    requires limit != 0
    ensures r.None? <==> skip < 0
    ensures r.Some? ==> |r.value| == Min(Abs(limit), Max(|s| - skip, 0))
    ensures r.Some? ==> forall k :: 0 <= k < |r.value| ==> skip + k < |s| && r.value[k] == s[skip + k]
  {
    if skip < 0 then None
    else if skip >= |s| then Some([])
    else Some(s[skip..Min(|s|, skip + Abs(limit))])
  }

  ghost predicate NewestFirst<T>(s: seq<T>, key: T -> int) {
    forall i, j :: 0 <= i < j < |s| ==> key(s[i]) >= key(s[j])
  }

  function InsertNewestFirst<T>(x: T, s: seq<T>, key: T -> int): (r: seq<T>)
    requires NewestFirst(s, key)
    ensures |r| == |s| + 1
    ensures key(r[0]) == key(x) || (s != [] && key(r[0]) == key(s[0]))
    ensures NewestFirst(r, key)
    ensures multiset(r) == multiset(s) + multiset{x}
  {
    if s == [] || key(x) >= key(s[0]) then
      [x] + s
    else
      TailNewestFirst(s, key);
      var rest := InsertNewestFirst(x, s[1..], key);
      InsertBehindHead(x, s, rest, key);
      [s[0]] + rest
  }

  lemma TailNewestFirst<T>(s: seq<T>, key: T -> int)
    requires s != [] && NewestFirst(s, key)
    ensures NewestFirst(s[1..], key)
  {
    forall i, j | 0 <= i < j < |s| - 1 ensures key(s[1..][i]) >= key(s[1..][j]) {
      assert s[1..][i] == s[i + 1] && s[1..][j] == s[j + 1];
    }
  }

  /** The step of the insertion that keeps the head: the head stays in front of the insertion into the tail. */
  lemma InsertBehindHead<T>(x: T, s: seq<T>, rest: seq<T>, key: T -> int)
    requires s != [] && key(x) < key(s[0]) && NewestFirst(s, key)
    requires NewestFirst(rest, key) && multiset(rest) == multiset(s[1..]) + multiset{x}
    requires rest != [] && (key(rest[0]) == key(x) || (|s| > 1 && key(rest[0]) == key(s[1])))
    ensures NewestFirst([s[0]] + rest, key)
    ensures multiset([s[0]] + rest) == multiset(s) + multiset{x}
  {
    assert s == [s[0]] + s[1..];
    assert key(s[0]) >= key(rest[0]);
    PrependNewest(s[0], rest, key);
  }

  /** A document no older than the head of an ordered list can go in front of it. */
  lemma PrependNewest<T>(y: T, s: seq<T>, key: T -> int)
    requires NewestFirst(s, key) && (s != [] ==> key(y) >= key(s[0]))
    ensures NewestFirst([y] + s, key)
  {
    var r := [y] + s;
    forall i, j | 0 <= i < j < |r| ensures key(r[i]) >= key(r[j]) {
      if i == 0 {
        assert key(s[0]) >= key(s[j - 1]) || j == 1;
      }
    }
  }

  /** `.sort({ createdAt: -1 })`, an insertion sort on the timestamp key, descending. */
  function SortNewestFirst<T>(s: seq<T>, key: T -> int): (r: seq<T>)
    ensures NewestFirst(r, key)
    ensures multiset(r) == multiset(s)
  {
    if s == [] then []
    else
      assert s == [s[0]] + s[1..];
      InsertNewestFirst(s[0], SortNewestFirst(s[1..], key), key)
  }

  /** Sorting neither adds nor drops a document. */
  lemma SortKeepsMembers<T>(s: seq<T>, key: T -> int)
    ensures forall x :: x in SortNewestFirst(s, key) <==> x in s
  {
    var r := SortNewestFirst(s, key);
    assert forall x :: x in r <==> x in multiset(r);
    assert forall x :: x in s <==> x in multiset(s);
  }

  /** The documents a query selects, in store order. */
  function Filter<T>(s: seq<T>, keep: T -> bool): (r: seq<T>)
    ensures |r| <= |s|
    ensures forall k :: 0 <= k < |r| ==> keep(r[k])
    ensures forall x :: x in r ==> x in s && keep(x)
    ensures forall k :: 0 <= k < |s| && keep(s[k]) ==> s[k] in r
    ensures multiset(r) <= multiset(s)
  {
    if s == [] then []
    else
      assert s == [s[0]] + s[1..];
      (if keep(s[0]) then [s[0]] else []) + Filter(s[1..], keep)
  }

  /** A query keeps every copy of a document it selects and no copy of one it does not. */
  lemma {:induction false} FilterCounts<T>(s: seq<T>, keep: T -> bool, x: T)
    ensures multiset(Filter(s, keep))[x] == if keep(x) then multiset(s)[x] else 0
  {
    if s != [] {
      assert s == [s[0]] + s[1..];
      FilterCounts(s[1..], keep, x);
      var head := if keep(s[0]) then [s[0]] else [];
      assert Filter(s, keep) == head + Filter(s[1..], keep);
      assert multiset(Filter(s, keep)) == multiset(head) + multiset(Filter(s[1..], keep));
      assert multiset(s) == multiset([s[0]]) + multiset(s[1..]);
    }
  }

  /** Sorting the selection keeps the counts `FilterCounts` gives. */
  lemma SortedSelectionCounts<T>(s: seq<T>, keep: T -> bool, key: T -> int, x: T)
    ensures multiset(SortNewestFirst(Filter(s, keep), key))[x] == if keep(x) then multiset(s)[x] else 0
  {
    FilterCounts(s, keep, x);
  }

  datatype Page<T> = Page(items: seq<T>, total: nat, page: int, limit: int, pages: int)

  /** A window of the sorted selection is itself sorted and holds only selected documents. */
  lemma SelectedWindow<T>(all: seq<T>, keep: T -> bool, key: T -> int, skip: nat, limit: int)
    requires limit != 0
    ensures var w := Window(SortNewestFirst(Filter(all, keep), key), skip, limit).value;
            && NewestFirst(w, key)
            && forall k :: 0 <= k < |w| ==> w[k] in all && keep(w[k])
  {
    var selected := Filter(all, keep);
    var sorted := SortNewestFirst(selected, key);
    var w := Window(sorted, skip, limit).value;
    forall k | 0 <= k < |w| ensures w[k] in all && keep(w[k]) {
      var y := w[k];
      assert y == sorted[skip + k];
      assert y in multiset(sorted);
      assert y in multiset(selected);
      var j :| 0 <= j < |selected| && selected[j] == y;
      assert y in multiset(all);
    }
    forall i, j | 0 <= i < j < |w| ensures key(w[i]) >= key(w[j]) {
      assert w[i] == sorted[skip + i] && w[j] == sorted[skip + j];
    }
  }

  /**
   * One listing request, `find(query).sort({createdAt: -1}).skip(skip).limit(limit)`
   * plus `countDocuments(query)`: the page holds at most |limit| selected
   * documents, taken newest first after skipping `skip`; `total` counts every
   * selected document, not just the page.
   */
  function ListPage<T>(all: seq<T>, keep: T -> bool, key: T -> int, page: Option<int>, limit: Option<int>)
    : (r: Option<Page<T>>)
    ensures r.None? <==> Params(page, limit).skip < 0
    ensures r.Some? ==>
              var p := Params(page, limit);
              var selected := Filter(all, keep);
              && r.value.page == p.page && r.value.limit == p.limit
              && r.value.total == |selected|
              && r.value.pages == PageCount(|selected|, p.limit)
              && |r.value.items| <= Abs(p.limit)
              && (forall k :: 0 <= k < |r.value.items| ==> r.value.items[k] in all && keep(r.value.items[k]))
              && NewestFirst(r.value.items, key)
              && r.value.items == Window(SortNewestFirst(selected, key), p.skip, p.limit).value
  {
    var p := Params(page, limit);
    var selected := Filter(all, keep);
    var w := Window(SortNewestFirst(selected, key), p.skip, p.limit);
    if w.None? then None
    else
      SelectedWindow(all, keep, key, p.skip, p.limit);
      Some(Page(w.value, |selected|, p.page, p.limit, PageCount(|selected|, p.limit)))
  }
}
