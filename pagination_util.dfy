/** Offset pagination of the movie list: turning a query into page, limit and offset, and
    describing a page of a result of `total` items. */
module PaginationUtil {
  import opened Wrappers

  /** A list query: `page` and `limit` may be absent. */
  datatype PaginationQuery = PaginationQuery(page: Option<int>, limit: Option<int>)

  /** What the API reports next to a page of items. */
  datatype PaginationMeta = PaginationMeta(page: int, limit: int, total: int, totalPages: int, hasMore: bool)

  /** The page and limit in force, and the number of items to skip. */
  datatype PaginationParams = PaginationParams(page: int, limit: int, skip: int)

  /** `x || d` on an optional number: absent and zero fall back to `d`. */
  function OrDefault(x: Option<int>, d: int): (r: int)
    ensures x.Some? && x.value != 0 ==> r == x.value
    ensures x.None? || x.value == 0 ==> r == d
  {
    if x.Some? && x.value != 0 then x.value else d
  }

  /** `Math.ceil(total / limit)` on integers: the least number of whole pages of `limit`
      items that hold `total` items. */
  function CeilDiv(total: int, limit: int): (q: int)
    requires limit > 0
    ensures (q - 1) * limit < total <= q * limit
  {
    var f := total / limit;
    assert f * limit + total % limit == total;
    if total % limit == 0 then f
    else
      assert (f + 1) * limit == f * limit + limit;
      f + 1
  }

  /** `createPaginationMeta`: page, limit and total are reported unchanged, `totalPages` is
      the ceiling of `total / limit`, and `hasMore` says the requested page is not the last. */
  function CreatePaginationMeta(page: int, limit: int, total: int): (m: PaginationMeta)
    requires limit > 0
    ensures m.page == page && m.limit == limit && m.total == total
    ensures (m.totalPages - 1) * limit < total <= m.totalPages * limit
    ensures m.hasMore <==> page < m.totalPages
  {
    var totalPages := CeilDiv(total, limit);
    PaginationMeta(page, limit, total, totalPages, page < totalPages)
  }

  lemma MulMonotone(a: int, b: int, c: int)
    requires a <= b && c > 0
    ensures a * c <= b * c
  {
  }

  /** `hasMore` holds exactly when some item lies beyond the requested page. */
  lemma HasMoreIffItemsBeyondPage(page: int, limit: int, total: int)
    requires limit > 0
    ensures CreatePaginationMeta(page, limit, total).hasMore <==> page * limit < total
  {
    var q := CreatePaginationMeta(page, limit, total).totalPages;
    if page < q {
      MulMonotone(page, q - 1, limit);
    } else {
      MulMonotone(q, page, limit);
    }
  }

  /** No items: no pages, and no page from the first on has more after it. */
  lemma EmptyResultHasNoPages(page: int, limit: int)
    requires limit > 0
    ensures CreatePaginationMeta(page, limit, 0).totalPages == 0
    ensures page >= 1 ==> !CreatePaginationMeta(page, limit, 0).hasMore
  {
    var q := CreatePaginationMeta(page, limit, 0).totalPages;
    if q >= 1 {
      MulMonotone(1, q, limit);
    } else if q < 0 {
      MulMonotone(q, -1, limit);
    }
  }

  /** `getPaginationParams`: an absent or zero page is 1, an absent or zero limit is 8, and
      `skip` is the number of items on the pages before the requested one. */
  function GetPaginationParams(query: PaginationQuery): (p: PaginationParams)
    ensures p.page == OrDefault(query.page, 1) && p.limit == OrDefault(query.limit, 8)
    ensures p.skip == (p.page - 1) * p.limit
  {
    var page := OrDefault(query.page, 1);
    var limit := OrDefault(query.limit, 8);
    PaginationParams(page, limit, (page - 1) * limit)
  }

  /** For a page from 1 on and a positive limit, `skip` is a non-negative whole number of
      pages: exactly `page - 1` of them. */
  lemma SkipIsWholePages(query: PaginationQuery)
    requires GetPaginationParams(query).page >= 1 && GetPaginationParams(query).limit >= 1
    ensures GetPaginationParams(query).skip >= 0
    ensures GetPaginationParams(query).skip % GetPaginationParams(query).limit == 0
    ensures GetPaginationParams(query).skip / GetPaginationParams(query).limit == GetPaginationParams(query).page - 1
  {
    var p := GetPaginationParams(query);
    MulMonotone(0, p.page - 1, p.limit);
    DivideWholeMultiple(p.page - 1, p.limit);
  }

  /** Euclidean division of a whole multiple of `l` gives back the factor, remainder 0. */
  lemma DivideWholeMultiple(k: int, l: int)
    requires l > 0
    ensures (k * l) / l == k && (k * l) % l == 0
  {
    var a := k * l;
    var q, r := a / l, a % l;
    assert a == q * l + r && 0 <= r < l;
    assert (q - k) * l == -r by {
      assert q * l - k * l == (q - k) * l;
    }
    if q - k >= 1 {
      MulMonotone(1, q - k, l);
    } else if q - k <= -1 {
      MulMonotone(q - k, -1, l);
    }
  }
}
