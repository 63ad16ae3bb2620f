/**
 * The list endpoints of the tasks, projects and users services all page the same way:
 * `page` defaults to 1 and `limit` to 10, the ORM is asked for `skip = (page - 1) * limit`
 * rows followed by at most `take = limit` rows, and the meta block reports
 * `totalPages = ceil(total / limit)`.
 */
module Pagination {
  import opened Wrappers

  const DefaultPage: int := 1
  const DefaultLimit: int := 10

  /** The pagination query as received: either field may be missing. */
  datatype PageQuery = PageQuery(page: Option<int>, limit: Option<int>)

  /** The meta block returned next to a page of rows. */
  datatype PageMeta = PageMeta(total: nat, page: int, limit: int, totalPages: nat)

  /** The services' reply envelope; `meta` is present on listings only. */
  datatype Response<T> = Response(message: string, data: T, statusCode: int, meta: Option<PageMeta>)

  function PageOf(q: PageQuery): (p: int)
    ensures q.page.None? ==> p == DefaultPage
    ensures q.page.Some? ==> p == q.page.value
  {
    q.page.GetOr(DefaultPage)
  }

  function LimitOf(q: PageQuery): (l: int)
    ensures q.limit.None? ==> l == DefaultLimit
    ensures q.limit.Some? ==> l == q.limit.value
  {
    q.limit.GetOr(DefaultLimit)
  }

  /** A query whose page and limit (after defaults) are positive. */
  predicate WellFormed(q: PageQuery) {
    PageOf(q) >= 1 && LimitOf(q) >= 1
  }

  /** Number of rows skipped before the requested page: `(page - 1) * limit`, never negative. */
  function Skip(page: int, limit: int): (n: nat)
    requires page >= 1 && limit >= 1
    ensures n % limit == 0 && n / limit == page - 1
  {
    MulMonotone(0, page - 1, limit);
    MulDivExact(page - 1, limit);
    (page - 1) * limit
  }

  /** Integer ceiling of `total / limit`: the least number of pages of `limit` rows holding `total` rows. */
  function CeilDiv(total: nat, limit: nat): (pages: nat)
    requires limit >= 1
    ensures pages * limit >= total
    ensures pages == 0 || (pages - 1) * limit < total
  {
    var q := (total + limit - 1) / limit;
    assert q * limit <= total + limit - 1 < (q + 1) * limit;
    q
  }

  /** The rows `findMany({ skip, take })` returns: `take` rows starting at `skip`, cut short at the end. */
  function Window<T>(rows: seq<T>, page: int, limit: int): (r: seq<T>)
    requires page >= 1 && limit >= 1
    ensures |r| <= limit
    ensures Skip(page, limit) >= |rows| ==> r == []
    ensures Skip(page, limit) < |rows| ==>
      |r| == (if Skip(page, limit) + limit <= |rows| then limit else |rows| - Skip(page, limit))
    ensures forall i :: 0 <= i < |r| ==> r[i] == rows[Skip(page, limit) + i]
  {
    var from := Skip(page, limit);
    if from >= |rows| then []
    else if from + limit <= |rows| then rows[from..from + limit]
    else rows[from..]
  }

  function Meta(total: nat, q: PageQuery): (m: PageMeta)
    requires WellFormed(q)
    ensures m.total == total && m.page == PageOf(q) && m.limit == LimitOf(q)
    ensures m.totalPages * m.limit >= total
    ensures m.totalPages == 0 || (m.totalPages - 1) * m.limit < total
  {
    PageMeta(total, PageOf(q), LimitOf(q), CeilDiv(total, LimitOf(q)))
  }

  /**
   * The page the query asks for holds at least one row exactly when it is one of the
   * `totalPages` pages the meta block announces.
   */
  lemma PageNonEmptyIffWithinTotalPages<T>(rows: seq<T>, q: PageQuery)
    requires WellFormed(q)
    ensures Window(rows, PageOf(q), LimitOf(q)) != [] <==> PageOf(q) <= Meta(|rows|, q).totalPages
  {
    var p, l, t := PageOf(q), LimitOf(q), |rows|;
    var n := CeilDiv(t, l);
    if p <= n {
      assert (p - 1) * l <= (n - 1) * l by { MulMonotone(p - 1, n - 1, l); }
      assert Skip(p, l) < t;
    } else {
      assert n * l <= (p - 1) * l by { MulMonotone(n, p - 1, l); }
      assert Skip(p, l) >= t;
    }
  }

  lemma MulMonotone(a: int, b: int, c: nat)
    requires a <= b
    ensures a * c <= b * c
  {
    assert b * c - a * c == (b - a) * c;
  }

  /** A whole number of pages of `d` rows divides back exactly. */
  lemma MulDivExact(q: nat, d: int)
    requires d >= 1
    ensures (q * d) % d == 0 && (q * d) / d == q
  {
    var n := q * d;
    var k, m := n / d, n % d;
    assert n == d * k + m && 0 <= m < d;
    assert (q - k) * d == m;
    if q - k >= 1 {
      MulMonotone(1, q - k, d);
    } else if q - k <= -1 {
      MulMonotone(q - k, -1, d);
    }
  }
}
