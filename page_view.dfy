/**
  The view assembler: previous and next links plus one link per page of a
  sliding window of page numbers.
*/
module PageView {
  import opened Wrappers
  import opened PageUrl

  /** One rendered page link. */
  datatype PageItem = PageItem(num: int, url: string, active: bool)

  /** What a template renders: the normalised page numbers, the neighbour links ("" when absent) and the page links. */
  datatype View = View(current: int, total: int, prevURL: string, nextURL: string, pages: seq<PageItem>)

  /**
    The first and last page number rendered: every page when the window is
    not positive or not smaller than the page count, otherwise `window`
    consecutive pages around `current`, shifted back inside `[1, total]`.
  */
  function WindowBounds(current: int, total: int, window: int): (b: (int, int))
    requires current >= 1 && total >= 1
    ensures 1 <= b.0 <= b.1 <= total
    ensures b.1 - b.0 + 1 == if 0 < window < total then window else total
    ensures current <= total ==> b.0 <= current <= b.1
  {
    if window <= 0 || window >= total then (1, total)
    else
      var start := if current - window / 2 < 1 then 1 else current - window / 2;
      if start + window - 1 <= total then (start, start + window - 1)
      else (if total - window + 1 < 1 then 1 else total - window + 1, total)
  }

  /** The window arithmetic of `NewView`, step by step. */
  method Window(current: int, total: int, window: int) returns (start: int, end: int)
    requires current >= 1 && total >= 1
    ensures (start, end) == WindowBounds(current, total, window)
  {
    start, end := 1, total;
    if window > 0 && window < total {
      var half := window / 2;
      start := current - half;
      if start < 1 {
        start := 1;
      }
      end := start + window - 1;
      if end > total {
        end := total;
        start := end - window + 1;
        if start < 1 {
          start := 1;
        }
      }
    }
  }

  /** The items of pages `first` to `last`, in ascending order: each page's number and link, active exactly on `current`. */
  ghost function Items(link: int -> string, current: int, first: int, last: int): seq<PageItem>
    decreases last - first
  {
    if last < first then []
    else Items(link, current, first, last - 1) + [PageItem(last, link(last), last == current)]
  }

  /** Item `i` of the items is page `first + i`, for every `i`. */
  lemma {:induction false} ItemsAt(link: int -> string, current: int, first: int, last: int)
    requires first <= last + 1
    ensures var items := Items(link, current, first, last);
      && |items| == last - first + 1
      && forall i :: 0 <= i < |items| ==> items[i] == PageItem(first + i, link(first + i), first + i == current)
    decreases last - first
  {
    if first <= last {
      ItemsAt(link, current, first, last - 1);
    }
  }

  /** The link of every page: its URL. */
  ghost function Links(r: Request, opts: Option<BuildOptions>): int -> string
    requires WellFormed(r)
  {
    n => PageURL(r, n, opts)
  }

  /** The view `NewView` returns when `link` gives the URL of each page. */
  ghost function ViewOf(link: int -> string, current: int, total: int, window: int): View
  {
    var current := if current < 1 then 1 else current;
    var total := if total < 1 then 1 else total;
    var (first, last) := WindowBounds(current, total, window);
    View(current, total,
         if current > 1 then link(current - 1) else "",
         if current < total then link(current + 1) else "",
         Items(link, current, first, last))
  }

  /**
    After normalisation both numbers are at least 1 and `current` is not
    clamped to `total`; a neighbour link is present exactly when that
    neighbour page exists, and is then that page's URL.
  */
  lemma ViewNeighbours(r: Request, current: int, total: int, opts: Option<BuildOptions>, window: int)
    requires WellFormed(r)
    ensures var v := ViewOf(Links(r, opts), current, total, window);
      && v.current == (if current < 1 then 1 else current)
      && v.total == (if total < 1 then 1 else total)
      && (v.prevURL != "" <==> v.current > 1)
      && (v.nextURL != "" <==> v.current < v.total)
      && (v.prevURL != "" ==> v.prevURL == PageURL(r, v.current - 1, opts))
      && (v.nextURL != "" ==> v.nextURL == PageURL(r, v.current + 1, opts))
  {
  }

  /**
    The rendered page numbers are consecutive, ascending and within
    `[1, total]`; there are `window` of them when the window is positive and
    smaller than the page count, `total` otherwise; the current page is
    among them whenever it does not exceed `total`; an item is active
    exactly when it is the current page, so no item is active when
    `current` exceeds `total`.
  */
  lemma ViewPages(link: int -> string, current: int, total: int, window: int)
    ensures var v := ViewOf(link, current, total, window);
      && |v.pages| == (if 0 < window < v.total then window else v.total)
      && (forall i :: 0 <= i < |v.pages| ==> 1 <= v.pages[i].num <= v.total)
      && (forall i :: 0 < i < |v.pages| ==> v.pages[i].num == v.pages[i - 1].num + 1)
      && (forall i :: 0 <= i < |v.pages| ==> (v.pages[i].active <==> v.pages[i].num == v.current))
      && (v.current <= v.total ==> exists i :: 0 <= i < |v.pages| && v.pages[i].num == v.current)
      && (v.current > v.total ==> forall i :: 0 <= i < |v.pages| ==> !v.pages[i].active)
  {
    var v := ViewOf(link, current, total, window);
    var (first, last) := WindowBounds(v.current, v.total, window);
    ItemsAt(link, v.current, first, last);
    if v.current <= v.total {
      assert v.pages[v.current - first].num == v.current;
    }
  }

  /** Every rendered item carries the link of its own page; with `Links(r, opts)` that is the URL of that page. */
  lemma ViewPageLinks(link: int -> string, current: int, total: int, window: int)
    ensures var v := ViewOf(link, current, total, window);
      forall i :: 0 <= i < |v.pages| ==> v.pages[i].url == link(v.pages[i].num)
  {
    var v := ViewOf(link, current, total, window);
    var (first, last) := WindowBounds(v.current, v.total, window);
    ItemsAt(link, v.current, first, last);
  }

  /** The loop of `NewView` that emits the items of pages `start` to `end`. */
  method PageItems(r: Request, opts: Option<BuildOptions>, current: int, start: int, end: int)
    returns (pages: seq<PageItem>)
    requires WellFormed(r) && start <= end + 1
    ensures pages == Items(Links(r, opts), current, start, end)
  {
    pages := [];
    for i := start to end + 1
      invariant pages == Items(Links(r, opts), current, start, i - 1)
    {
      var url := BuildPageURL(r, i, opts);
      pages := pages + [PageItem(i, url, i == current)];
    }
  }

  /** The neighbour links of `NewView`: a URL for each neighbour page that exists, "" otherwise. */
  method NeighbourURLs(r: Request, current: int, total: int, opts: Option<BuildOptions>) returns (prevURL: string, nextURL: string)
    requires WellFormed(r)
    ensures prevURL == if current > 1 then PageURL(r, current - 1, opts) else ""
    ensures nextURL == if current < total then PageURL(r, current + 1, opts) else ""
  {
    prevURL, nextURL := "", "";
    if current > 1 {
      prevURL := BuildPageURL(r, current - 1, opts);
    }
    if current < total {
      nextURL := BuildPageURL(r, current + 1, opts);
    }
  }

  /**
    `NewView`: normalises `current` and `total` to at least 1, builds the
    neighbour links, the window and one item per page of it.
  */
  method NewView(r: Request, current: int, total: int, opts: Option<BuildOptions>, window: int) returns (vm: View)
    requires WellFormed(r)
    ensures vm == ViewOf(Links(r, opts), current, total, window)
  {
    var current, total := current, total;
    if current < 1 {
      current := 1;
    }
    if total < 1 {
      total := 1;
    }
    var prevURL, nextURL := NeighbourURLs(r, current, total, opts);
    var start, end := Window(current, total, window);
    var pages := PageItems(r, opts, current, start, end);
    vm := View(current, total, prevURL, nextURL, pages);
  }
}
