/**
 * The `page`/`limit` arithmetic shared by the admin listings:
 * `.skip((page - 1) * limit).limit(limit)` over a sorted result, with
 * `totalPages = Math.ceil(total / limit)`.
 */
module Paging {
  import opened Common
  import opened Store
  import opened Seqs

  /**
   * One page of a listing. `totalPages` is None for `limit = 0`, where the
   * division gives `Infinity` (or `NaN` for an empty result), neither of
   * which is a page count.
   */
  datatype Page<T> = Page(items: seq<T>, totalPages: Option<nat>, currentPage: int, total: nat)

  /** `Math.ceil(total / limit)` for a positive limit. */
  function CeilDiv(total: nat, limit: nat): (q: nat)
    requires limit > 0
    ensures (q - 1) * limit < total <= q * limit
  {
    var q := (total + limit - 1) / limit;
    var rest := (total + limit - 1) % limit;
    assert total + limit - 1 == q * limit + rest;
    assert (q - 1) * limit == q * limit - limit;
    q
  }

  /** The number of elements left after skipping `skip` of `n`. */
  function Remaining(n: nat, skip: nat): nat
  {
    if skip >= n then 0 else n - skip
  }

  /**
   * Page `page` of `all` with `limit` items per page. A negative skip is
   * refused by the database; a limit of 0 means no limit (and then the skip
   * is 0 whatever the page).
   */
  function Paginate<T>(all: seq<T>, page: int, limit: nat): (r: Result<Page<T>, Failure>)
    ensures r.Err? <==> (page - 1) * limit < 0
    ensures r.Err? ==> r.error == NegativeSkip
    ensures r.Ok? ==>
      var skip := (page - 1) * limit;
      && r.value.total == |all|
      && r.value.currentPage == page
      && |r.value.items| == (if limit == 0 then |all| else Min(limit, Remaining(|all|, skip)))
      && (forall j :: 0 <= j < |r.value.items| ==> skip + j < |all| && r.value.items[j] == all[skip + j])
      && (limit == 0 <==> r.value.totalPages.None?)
      && (limit > 0 ==> (r.value.totalPages.value - 1) * limit < |all| <= r.value.totalPages.value * limit)
      && (limit > 0 ==> r.value.totalPages == Some(CeilDiv(|all|, limit)))
  {
    var skip := (page - 1) * limit;
    if skip < 0 then Err(NegativeSkip)
    else
      var from := if skip >= |all| then |all| else skip;
      var to := if limit == 0 then |all| else Min(from + limit, |all|);
      var pages := if limit == 0 then None else Some(CeilDiv(|all|, limit));
      Ok(Page(all[from..to], pages, page, |all|))
  }

  /** `page = 1` when the parameter is absent. */
  function PageOr(page: Option<int>): int
  {
    if page.None? then 1 else page.value
  }

  /** `limit = 20` when the parameter is absent. */
  function LimitOr(limit: Option<nat>): nat
  {
    if limit.None? then 20 else limit.value
  }

  /**
   * `pg` is page `page` of a newest-first listing of the log `all`: item `j`
   * is the element `(page - 1) * limit + j` places from the newest, the page
   * holds as many as remain up to `limit` (all of them for limit 0), and the
   * page count is `Math.ceil(total / limit)`.
   */
  ghost predicate NewestPage<T>(pg: Page<T>, all: seq<T>, page: int, limit: nat)
  {
    var skip := (page - 1) * limit;
    && skip >= 0 && pg.currentPage == page && pg.total == |all|
    && |pg.items| == (if limit == 0 then |all| else Min(limit, Remaining(|all|, skip)))
    && (forall j :: 0 <= j < |pg.items| ==> skip + j < |all| && pg.items[j] == all[|all| - 1 - (skip + j)])
    && (limit == 0 <==> pg.totalPages.None?)
    && (limit > 0 ==> pg.totalPages == Some(CeilDiv(|all|, limit)))
  }

  /** Paginating a log read backwards gives its newest-first pages, holding only elements of the log. */
  lemma PaginateNewest<T>(all: seq<T>, page: int, limit: nat)
    ensures Paginate(Reverse(all), page, limit).Ok? ==>
      && NewestPage(Paginate(Reverse(all), page, limit).value, all, page, limit)
      && forall j :: 0 <= j < |Paginate(Reverse(all), page, limit).value.items| ==>
           Paginate(Reverse(all), page, limit).value.items[j] in all
  {
  }

  /** The page `i / limit + 1` and the slot `i % limit` of position `i`, as linear facts. */
  lemma PageSlot(i: nat, limit: nat) returns (p: int, j: nat)
    requires limit > 0
    ensures p == i / limit + 1 && j == i % limit
    ensures p >= 1 && j < limit && (p - 1) * limit >= 0 && (p - 1) * limit + j == i
  {
    p, j := i / limit + 1, i % limit;
    MultiplyMonotone(0, i / limit, limit);
  }

  /**
   * The `i`-th newest element of `all` is item `i % limit` of the reply for
   * page `i / limit + 1`, a page within the page count.
   */
  ghost predicate ShowsNewest<T>(r: Result<Page<T>, Failure>, all: seq<T>, limit: nat, i: nat)
    requires limit > 0 && i < |all|
  {
    && r.Ok?
    && i % limit < |r.value.items|
    && r.value.items[i % limit] == all[|all| - 1 - i]
    && r.value.totalPages.Some?
    && i / limit + 1 <= r.value.totalPages.value
  }

  /** A listing reply that keeps the newest-first contract for page `i / limit + 1` shows the `i`-th newest element. */
  lemma ListedAt<T>(r: Result<Page<T>, Failure>, all: seq<T>, limit: nat, i: nat)
    requires limit > 0 && i < |all|
    requires r.Err? <==> (PageOr(Some(i / limit + 1)) - 1) * LimitOr(Some(limit)) < 0
    requires r.Ok? ==> NewestPage(r.value, all, PageOr(Some(i / limit + 1)), LimitOr(Some(limit)))
    ensures ShowsNewest(r, all, limit, i)
  {
    var p, j := PageSlot(i, limit);
    NewestOnItsPage(r.value, all, limit, i, p, j);
  }

  /**
   * On page `p` of a newest-first listing, slot `j` holds the element
   * `(p - 1) * limit + j` places from the newest, and the page is within
   * the page count.
   */
  lemma NewestOnItsPage<T>(pg: Page<T>, all: seq<T>, limit: nat, i: nat, p: int, j: nat)
    requires limit > 0 && i < |all| && p >= 1 && j < limit && (p - 1) * limit + j == i
    requires NewestPage(pg, all, p, limit)
    ensures j < |pg.items|
    ensures pg.items[j] == all[|all| - 1 - i]
    ensures p <= pg.totalPages.value
  {
    var q := pg.totalPages.value;
    assert (p - 1) * limit < q * limit;
    CancelFactor(p - 1, q, limit);
  }

  /**
   * Paging through a listing shows every element exactly where expected:
   * element `i` is item `i % limit` of page `i / limit + 1`, and that page
   * is within `totalPages`.
   */
  lemma EveryItemOnItsPage<T>(all: seq<T>, limit: nat, i: nat)
    requires limit > 0 && i < |all|
    ensures var p := i / limit + 1;
      && Paginate(all, p, limit).Ok?
      && var pg := Paginate(all, p, limit).value;
      && i % limit < |pg.items|
      && pg.items[i % limit] == all[i]
      && p <= pg.totalPages.value
  {
    var p := i / limit + 1;
    var skip := (p - 1) * limit;
    assert skip == (i / limit) * limit;
    assert i == skip + i % limit;
    var pg := Paginate(all, p, limit).value;
    var q := pg.totalPages.value;
    assert |all| <= q * limit;
    if p > q {
      assert (p - 1) * limit >= q * limit by {
        assert p - 1 >= q;
        MultiplyMonotone(q, p - 1, limit);
      }
      assert false;
    }
  }

  lemma CancelFactor(a: int, b: int, c: nat)
    requires a * c < b * c
    ensures a < b
  {
  }

  lemma MultiplyMonotone(a: nat, b: nat, c: nat)
    requires a <= b
    ensures a * c <= b * c
  {
  }
}
