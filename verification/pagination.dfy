/** The paginated listings the repositories return (`PaginatedResult`):
    a window of the ordered matches together with page arithmetic.

    The arithmetic is the repositories' own: `currentPage` is
    `floor(offset / limit) + 1` and `totalPages` is `ceil(total / limit)`;
    both need a positive limit, and the window a non-negative offset. */
module Pagination {

  /** `PaginatedResult<T>`. */
  datatype Page<T> = Page(
    items: seq<T>,
    totalItems: nat,
    currentPage: nat,
    totalPages: nat,
    hasNextPage: bool,
    hasPreviousPage: bool)

  function Min(a: int, b: int): int { if a <= b then a else b }

  /** `.skip(skip).limit(take)` (or `skip`/`take`) on an ordered result. */
  function Window<T>(s: seq<T>, skip: nat, take: nat): (w: seq<T>)
    ensures |w| <= take
    ensures skip <= |s| ==> |w| == Min(take, |s| - skip)
    ensures skip >= |s| ==> w == []
    ensures forall i :: 0 <= i < |w| ==> skip + i < |s| && w[i] == s[skip + i]
  {
    if skip >= |s| then []
    else if skip + take >= |s| then s[skip..]
    else s[skip..skip + take]
  }

  /** `Math.floor(offset / limit) + 1`: the page the offset falls in,
      counting from 1. */
  function CurrentPage(offset: nat, limit: nat): (p: nat)
    requires limit > 0
    ensures p >= 1
    ensures (p - 1) * limit <= offset < p * limit
    ensures p > 1 <==> offset >= limit
  {
    var q, r := offset / limit, offset % limit;
    assert q * limit + r == offset && 0 <= r < limit;
    assert (q + 1) * limit == q * limit + limit;
    assert q >= 1 ==> q * limit >= limit by {
      if q >= 1 {
        MultipleMono(1, q, limit);
      }
    }
    q + 1
  }

  /** `Math.ceil(total / limit)`: the fewest pages that hold every match. */
  function TotalPages(total: nat, limit: nat): (n: nat)
    requires limit > 0
    ensures total <= n * limit
    ensures n > 0 ==> (n - 1) * limit < total
    ensures total == 0 <==> n == 0
  {
    var q := (total + limit - 1) / limit;
    assert q * limit + (total + limit - 1) % limit == total + limit - 1;
    assert (q - 1) * limit == q * limit - limit;
    q
  }

  /** A listing that skips `offset` matches and takes at most `limit`. */
  function Paginate<T>(matches: seq<T>, offset: nat, limit: nat): (p: Page<T>)
    requires limit > 0
    ensures p.items == Window(matches, offset, limit)
    ensures p.totalItems == |matches|
    ensures p.currentPage == CurrentPage(offset, limit)
    ensures p.totalPages == TotalPages(|matches|, limit)
    ensures p.hasNextPage <==> p.currentPage < p.totalPages
    ensures p.hasPreviousPage <==> offset >= limit
  {
    var current := CurrentPage(offset, limit);
    var total := TotalPages(|matches|, limit);
    Page(Window(matches, offset, limit), |matches|, current, total, current < total, current > 1)
  }

  /** On a page boundary, a next page is announced exactly when matches
      remain after this page, and a previous page exactly when this is not
      the first one. */
  lemma {:induction false} NextPageMeansMore<T>(matches: seq<T>, page: nat, limit: nat)
    requires limit > 0
    ensures Paginate(matches, page * limit, limit).hasNextPage <==> page * limit + limit < |matches|
    ensures Paginate(matches, page * limit, limit).hasPreviousPage <==> page > 0
  {
    var offset := page * limit;
    var p := Paginate(matches, offset, limit);
    assert CurrentPage(offset, limit) == page + 1 by {
      var c := CurrentPage(offset, limit);
      BetweenMultiples(c - 1, page, limit, offset);
    }
    var n := TotalPages(|matches|, limit);
    if page * limit + limit < |matches| {
      assert (page + 1) * limit < |matches| <= n * limit;
      MultipleOrder(page + 1, n, limit);
    } else {
      assert |matches| <= (page + 1) * limit;
      if n > 0 {
        MultipleOrder(n - 1, page + 1, limit);
      }
    }
    if page > 0 {
      assert page * limit >= limit by { MultipleMono(1, page, limit); }
    }
  }

  /** `a * l <= x < (a + 1) * l` and `x == b * l` give `a == b`. */
  lemma BetweenMultiples(a: int, b: int, l: nat, x: int)
    requires l > 0 && a >= 0 && b >= 0
    requires a * l <= x < (a + 1) * l && x == b * l
    ensures a == b
  {
    if a < b { MultipleMono(a + 1, b, l); }
    else if b < a { MultipleMono(b + 1, a, l); }
  }

  lemma MultipleMono(a: int, b: int, l: nat)
    requires a <= b
    ensures a * l <= b * l
  {
  }

  lemma MultipleOrder(a: int, b: int, l: nat)
    requires l > 0 && a * l < b * l
    ensures a < b
  {
    if a >= b { MultipleMono(b, a, l); }
  }

  /** Consecutive pages tile the matches: the first `k` pages followed by
      page `k` are the first `k + 1` pages. */
  lemma PagesTile<T>(matches: seq<T>, k: nat, limit: nat)
    requires limit > 0
    ensures Window(matches, 0, k * limit) + Window(matches, k * limit, limit) ==
            Window(matches, 0, k * limit + limit)
  {
  }
}
