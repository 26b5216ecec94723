/**
 * Pagination of the listing endpoints of backend/server.js (`GET /posts`, `GET /comments`,
 * `GET /user/:id`, `GET /following-posts`): the query parameters are clamped, the row
 * offset is computed from them, the rows are cut with SQL `LIMIT ? OFFSET ?`, and the
 * page count is `Math.ceil(total / pageSize)`.
 */
module ServerPaging {
  import opened JsText

  /** Largest page size a client may ask for. */
  const MaxPageSize := 100
  /** Page size used when the query gives none. */
  const DefaultPageSize := 10

  function Max(a: int, b: int): int { if a < b then b else a }
  function Min(a: int, b: int): int { if a < b then a else b }

  /** `Math.max(1, parseInt(req.query.page) || 1)`. */
  function ClampPage(q: Parsed): (page: int)
    ensures page >= 1
    ensures q.NaN? || q.value <= 0 ==> page == 1
    ensures q.Num? && q.value >= 1 ==> page == q.value
  {
    Max(1, if q.Truthy() then q.value else 1)
  }

  /** `Math.min(Math.max(1, parseInt(req.query.pageSize) || 10), 100)`. */
  function ClampPageSize(q: Parsed): (size: int)
    ensures 1 <= size <= MaxPageSize
    ensures q.NaN? || (q.Num? && q.value == 0) ==> size == DefaultPageSize
    ensures q.Num? && q.value < 0 ==> size == 1
    ensures q.Num? && q.value > MaxPageSize ==> size == MaxPageSize
    ensures q.Num? && 1 <= q.value <= MaxPageSize ==> size == q.value
  {
    Min(Max(1, if q.Truthy() then q.value else DefaultPageSize), MaxPageSize)
  }

  /** `(page - 1) * pageSize`: the number of rows before the requested page. */
  function Offset(page: int, size: int): (offset: int)
    requires page >= 1 && size >= 1
    ensures offset >= 0
    ensures offset % size == 0 && offset / size == page - 1
  {
    OffsetIsMultiple(page - 1, size);
    (page - 1) * size
  }

  lemma OffsetIsMultiple(k: nat, size: int)
    requires size >= 1
    ensures k * size >= 0 && (k * size) % size == 0 && (k * size) / size == k
  {
    MulMonotone(0, k, size);
    DivModUnique(k * size, k, 0, size);
  }

  /** Euclidean division is determined by quotient and remainder. */
  lemma DivModUnique(a: int, q: int, r: int, size: int)
    requires size >= 1 && 0 <= r < size && a == q * size + r
    ensures a / size == q && a % size == r
  {
    var q', r' := a / size, a % size;
    assert a == q' * size + r';
    assert (q - q') * size == r' - r;
    if q > q' {
      MulMonotone(1, q - q', size);
      assert false;
    } else if q < q' {
      MulMonotone(1, q' - q, size);
      assert false;
    }
  }

  /** `Math.ceil(total / pageSize)`, exact on integers. */
  function TotalPages(total: nat, size: int): (pages: nat)
    requires size >= 1
  {
    (total + size - 1) / size
  }

  /** The page count is the least number of pages that holds every row. */
  lemma TotalPagesIsLeast(total: nat, size: int)
    requires size >= 1
    ensures TotalPages(total, size) * size >= total
    ensures total > 0 ==> (TotalPages(total, size) - 1) * size < total
    ensures TotalPages(total, size) == 0 <==> total == 0
  {
    var n := TotalPages(total, size);
    var r := (total + size - 1) % size;
    assert total + size - 1 == n * size + r;
    assert 0 <= r < size;
    if total > 0 {
      assert (n - 1) * size == n * size - size;
    }
  }

  /** SQL `LIMIT limit OFFSET offset` on rows in their listing order. */
  function Window<T>(rows: seq<T>, offset: nat, limit: nat): (r: seq<T>)
    ensures |r| <= limit
    ensures forall i :: 0 <= i < |r| ==> offset + i < |rows| && r[i] == rows[offset + i]
    ensures |r| == Min(limit, Max(0, |rows| - offset))
  {
    var lo := Min(offset, |rows|);
    var hi := Min(offset + limit, |rows|);
    rows[lo..hi]
  }

  /** The rows of page `page`, for a page size `size`. */
  function PageRows<T>(rows: seq<T>, page: int, size: int): seq<T>
    requires page >= 1 && size >= 1
  {
    Window(rows, Offset(page, size), size)
  }

  /** A page is non-empty exactly when its number is at most the page count. */
  lemma PageNonEmptyIff<T>(rows: seq<T>, page: int, size: int)
    requires page >= 1 && size >= 1
    ensures PageRows(rows, page, size) != [] <==> page <= TotalPages(|rows|, size)
  {
    TotalPagesIsLeast(|rows|, size);
    var n := TotalPages(|rows|, size);
    if page <= n {
      MulMonotone(page - 1, n - 1, size);
    } else {
      MulMonotone(n, page - 1, size);
    }
  }

  lemma MulMonotone(a: nat, b: nat, size: nat)
    requires a <= b
    ensures a * size <= b * size
  {
  }

  /** The concatenation of pages 1 to `n`. */
  function FirstPages<T>(rows: seq<T>, n: nat, size: int): seq<T>
    requires size >= 1
  {
    if n == 0 then [] else FirstPages(rows, n - 1, size) + PageRows(rows, n, size)
  }

  /** Pages 1 to `n` together are the first `n * size` rows, in order, without gaps
      or repeats. */
  lemma {:induction false} FirstPagesArePrefix<T>(rows: seq<T>, n: nat, size: int)
    requires size >= 1
    ensures FirstPages(rows, n, size) == rows[..Min(n * size, |rows|)]
  {
    if n > 0 {
      FirstPagesArePrefix(rows, n - 1, size);
      assert n * size == (n - 1) * size + size;
      MulMonotone(n - 1, n, size);
    }
  }

  /** Reading pages 1 to the page count returns every row exactly once, in order. */
  lemma AllPagesCoverRows<T>(rows: seq<T>, size: int)
    requires size >= 1
    ensures FirstPages(rows, TotalPages(|rows|, size), size) == rows
  {
    TotalPagesIsLeast(|rows|, size);
    FirstPagesArePrefix(rows, TotalPages(|rows|, size), size);
  }
}
