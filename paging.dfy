/**
  Paginator arithmetic: from a total item count, a requested page and a page
  size, the page count, the clamped current page, the offset and size of the
  current page and its neighbours.
*/
module Paging {

  /** Page size used when the caller's limit is not positive. */
  const DefaultPerPage := 10

  /** The fields of a `Paginator`, as a value. */
  datatype Pagination = Pagination(
    perPage: int,
    currentPage: int,
    totalItems: int,
    totalPages: int,
    offset: int,
    itemCount: int,
    hasPrevious: bool,
    hasNext: bool,
    prevPage: int,
    nextPage: int)

  /**
    The fields `recompute` leaves behind, given those it starts from. On a
    non-empty collection it sets `PrevPage` and `NextPage` only when the
    neighbour exists, so otherwise they keep their earlier values.
  */
  function Recomputed(p: Pagination): Pagination
  {
    var perPage := if p.perPage <= 0 then DefaultPerPage else p.perPage;
    if p.totalItems <= 0 then
      Pagination(perPage, 1, 0, 1, 0, 0, false, false, 0, 0)
    else
      var totalPages := (p.totalItems + perPage - 1) / perPage;
      var current :=
        if p.currentPage < 1 then 1
        else if p.currentPage > totalPages then totalPages
        else p.currentPage;
      var hasPrevious := current > 1;
      var hasNext := current < totalPages;
      Pagination(
        perPage, current, p.totalItems, totalPages,
        (current - 1) * perPage,
        if current < totalPages then perPage else p.totalItems - perPage * (totalPages - 1),
        hasPrevious, hasNext,
        if hasPrevious then current - 1 else p.prevPage,
        if hasNext then current + 1 else p.nextPage)
  }

  /** `NewPaginator`: the three inputs with every derived field at zero, recomputed. */
  function NewPaginator(totalItems: int, currentPage: int, limit: int): (p: Pagination)
    ensures p.perPage == if limit <= 0 then DefaultPerPage else limit
    ensures totalItems <= 0 ==> p == Pagination(p.perPage, 1, 0, 1, 0, 0, false, false, 0, 0)
    ensures totalItems > 0 ==> p.totalItems == totalItems
    ensures 1 <= p.currentPage <= p.totalPages
    ensures totalItems > 0 && 1 <= currentPage <= p.totalPages ==> p.currentPage == currentPage
    ensures totalItems > 0 && currentPage > p.totalPages ==> p.currentPage == p.totalPages
    ensures currentPage < 1 ==> p.currentPage == 1
    ensures p.hasPrevious <==> p.currentPage > 1
    ensures p.prevPage == if p.hasPrevious then p.currentPage - 1 else 0
    ensures p.hasNext <==> p.currentPage < p.totalPages
    ensures p.nextPage == if p.hasNext then p.currentPage + 1 else 0
  {
    Recomputed(Pagination(limit, currentPage, totalItems, 0, 0, 0, false, false, 0, 0))
  }

  /** `(a + b - 1) / b` is the ceiling of `a / b`. */
  lemma CeilingDivision(a: int, b: int)
    requires a > 0 && b > 0
    ensures var n := (a + b - 1) / b; n >= 1 && (n - 1) * b < a <= n * b
  {
    var n := (a + b - 1) / b;
    var r := (a + b - 1) % b;
    assert a + b - 1 == n * b + r && 0 <= r < b;
    assert (n - 1) * b == n * b - b;
  }

  /** On a non-empty collection the page count is the ceiling of items over page size. */
  lemma PageCountIsCeiling(totalItems: int, currentPage: int, limit: int)
    requires totalItems > 0
    ensures var p := NewPaginator(totalItems, currentPage, limit);
      (p.totalPages - 1) * p.perPage < totalItems <= p.totalPages * p.perPage
  {
    var p := NewPaginator(totalItems, currentPage, limit);
    CeilingDivision(totalItems, p.perPage);
  }

  lemma MulMonotone(x: int, y: int, b: int)
    requires x <= y && b >= 0
    ensures x * b <= y * b
  {
    assert y * b - x * b == (y - x) * b;
  }

  /** Where page `c` of `n` pages of `b` items starts and ends, for `t` items in all. */
  lemma PageSlot(t: int, b: int, n: int, c: int)
    requires b > 0 && 1 <= c <= n && (n - 1) * b < t <= n * b
    ensures 0 <= (c - 1) * b < t
    ensures (c - 1) * b + b == c * b
    ensures c < n ==> c * b < t
    ensures 1 <= t - b * (n - 1) <= b
  {
    MulMonotone(0, c - 1, b);
    MulMonotone(c - 1, n - 1, b);
    assert (c - 1) * b + b == c * b;
    assert (n - 1) * b + b == n * b;
    if c < n {
      MulMonotone(c, n - 1, b);
    }
  }

  /**
    The current page starts at `(CurrentPage-1)*PerPage`, inside the
    collection; it holds between one and `PerPage` items, and it reaches the
    last item exactly when it is the last page.
  */
  lemma OffsetAndItemCount(totalItems: int, currentPage: int, limit: int)
    requires totalItems > 0
    ensures var p := NewPaginator(totalItems, currentPage, limit);
      && p.offset == (p.currentPage - 1) * p.perPage
      && 0 <= p.offset < totalItems
      && 1 <= p.itemCount <= p.perPage
      && p.offset + p.itemCount <= totalItems
      && (p.offset + p.itemCount == totalItems <==> p.currentPage == p.totalPages)
  {
    var p := NewPaginator(totalItems, currentPage, limit);
    PageCountIsCeiling(totalItems, currentPage, limit);
    PageSlot(totalItems, p.perPage, p.totalPages, p.currentPage);
  }

  /** Every page but the last holds `PerPage` items; the last holds `PerPage` exactly when it divides the total. */
  lemma LastPageItemCount(totalItems: int, currentPage: int, limit: int)
    requires totalItems > 0
    ensures var p := NewPaginator(totalItems, currentPage, limit);
      && (p.currentPage < p.totalPages ==> p.itemCount == p.perPage)
      && (p.currentPage == p.totalPages ==>
            p.itemCount + p.perPage * (p.totalPages - 1) == totalItems
            && (p.itemCount == p.perPage <==> totalItems % p.perPage == 0))
  {
    var p := NewPaginator(totalItems, currentPage, limit);
    var n, b := p.totalPages, p.perPage;
    PageCountIsCeiling(totalItems, currentPage, limit);
    PageSlot(totalItems, b, n, p.currentPage);
    if p.currentPage == n {
      RemainderOfLastPage(totalItems, b, n);
    }
  }

  lemma MulAwayFromZero(d: int, b: int)
    requires b > 0
    ensures d >= 1 ==> d * b >= b
    ensures d <= -1 ==> d * b <= -b
  {
    if d >= 1 {
      MulMonotone(1, d, b);
    } else if d <= -1 {
      MulMonotone(d, -1, b);
    }
  }

  /** The remainder is the one `r` in `[0, b)` with `t == q * b + r`. */
  lemma ModUnique(t: int, b: int, q: int, r: int)
    requires b > 0 && 0 <= r < b && t == q * b + r
    ensures t % b == r
  {
    var q', r' := t / b, t % b;
    assert (q - q') * b == r' - r;
    MulAwayFromZero(q - q', b);
  }

  /** The last of `n` pages of `b` items is full exactly when `b` divides the total. */
  lemma RemainderOfLastPage(t: int, b: int, n: int)
    requires b > 0 && (n - 1) * b < t <= n * b
    ensures t - b * (n - 1) == b <==> t % b == 0
  {
    var k := t - b * (n - 1);
    assert (n - 1) * b + b == n * b;
    if k == b {
      ModUnique(t, b, n, 0);
    } else {
      ModUnique(t, b, n - 1, k);
    }
  }

  /** Recomputing a paginator that has just been computed changes nothing. */
  lemma RecomputeIdempotent(p: Pagination)
    ensures Recomputed(Recomputed(p)) == Recomputed(p)
  {
    var q := Recomputed(p);
    if p.totalItems > 0 {
      assert q.perPage == p.perPage || p.perPage <= 0;
      assert q.totalItems == p.totalItems;
    }
  }

  /** A paginator whose fields `Recompute` derives from the three inputs. */
  class Paginator {
    var perPage: int
    var currentPage: int
    var totalItems: int
    var totalPages: int
    var offset: int
    var itemCount: int
    var hasPrevious: bool
    var hasNext: bool
    var prevPage: int
    var nextPage: int

    /** The current fields as a value. */
    function State(): Pagination
      reads this
    {
      Pagination(perPage, currentPage, totalItems, totalPages, offset, itemCount,
                 hasPrevious, hasNext, prevPage, nextPage)
    }

    /** `NewPaginator`: sets the three inputs, leaves the rest at Go's zero values and recomputes. */
    constructor (totalItems: int, currentPage: int, limit: int)
      ensures State() == NewPaginator(totalItems, currentPage, limit)
    {
      this.totalItems, this.currentPage, this.perPage := totalItems, currentPage, limit;
      totalPages, offset, itemCount := 0, 0, 0;
      hasPrevious, hasNext := false, false;
      prevPage, nextPage := 0, 0;
      new;
      Recompute();
    }

    /** `recompute`: normalises the inputs and derives every other field in place. */
    method Recompute()
      modifies this
      ensures State() == Recomputed(old(State()))
    {
      if perPage <= 0 {
        perPage := DefaultPerPage;
      }
      if totalItems <= 0 {
        totalItems, totalPages, currentPage := 0, 1, 1;
        offset, itemCount := 0, 0;
        hasPrevious, hasNext := false, false;
        prevPage, nextPage := 0, 0;
        return;
      }
      totalPages := (totalItems + perPage - 1) / perPage;
      if currentPage < 1 {
        currentPage := 1;
      } else if currentPage > totalPages {
        currentPage := totalPages;
      }
      offset := (currentPage - 1) * perPage;
      if currentPage < totalPages {
        itemCount := perPage;
      } else {
        itemCount := totalItems - perPage * (totalPages - 1);
      }
      hasPrevious, hasNext := currentPage > 1, currentPage < totalPages;
      if hasPrevious {
        prevPage := currentPage - 1;
      }
      if hasNext {
        nextPage := currentPage + 1;
      }
    }
  }
}
