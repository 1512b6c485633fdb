# go-pagination in Dafny

A model of the Go package `pagination`, which does three things:

- **Paginator arithmetic.** From a total item count, a requested page and a page size, it derives the page count, the clamped current page, the current page's offset and item count, and the neighbour pages (`NewPaginator`, `recompute`).
- **Page URLs.** It builds the URL of a given page from the incoming HTTP request (`BuildPageURL`, with `BuildOptions.normalize`). The URL is relative or absolute. It keeps the request's other query parameters, each with its first value, and sets the page parameter to the page number. The query is encoded the way `url.Values.Encode` does it: keys in ascending order, `key=value` fields joined by `&`.
- **The view.** It assembles what a template renders (`NewView`): previous and next links, and one link per page of an optional sliding window.

Modules, one per file:

- `Paging` (paging.dfy).
  - `Paginator` is a class whose fields `Recompute` updates in place, as the Go method does to its receiver.
  - `Recompute` is proved equal to the function `Recomputed` of the old state. `NewPaginator` is that function applied to the zero-initialised struct.
  - Lemmas prove the arithmetic: the page count is the ceiling of items over page size; the offset and item count of every page; idempotence.
- `PageUrl` (page_url.dfy).
  - The request is a record: path, parsed query, the two forwarding headers, whether TLS is on, and the host.
  - `Normalize` fills in defaults field by field, as `normalize` does. It is proved equal to the function `Normalized`.
  - `BuildPageURL` copies the kept query in map order; the order is an arbitrary choice, as Go's map iteration is. It is proved equal to the ghost function `PageURL`, and lemmas describe the resulting query.
- `Query` (query.dfy): `url.QueryEscape` and `url.Values.Encode` for a map with one value per key.
  - The encoder sorts the keys it gathered and writes one field per key.
  - Splitting the result at `&` gives the fields back.
- `Decimal` (decimal.dfy): `strconv.Itoa`, with a parser proving it a round trip.
- `Text` (text.dfy): Go's string order, an insertion sort, `strings.Join`, `strings.Split` and ASCII lower-casing.
- `PageView` (page_view.dfy): `NewView` as a method built from three parts. `NeighbourURLs` makes the neighbour links. `Window` is the imperative window arithmetic. `PageItems` is the item loop. All of it is proved equal to the function `ViewOf`; lemmas about `ViewOf` state what a template can rely on.
- `Examples` (examples.dfy): the package's own test cases, stated about the model.

Behaviours of the code that the model keeps:

- `normalize` forces `KeepExistingQuery` to true, so every caller keeps the existing query.
- The page parameter is dropped from the kept query and set again, so it appears exactly once, with the new number.
- `NewView` raises `current` and `total` to at least 1 but never clamps `current` to `total`. When `current > total` there is still a previous link, and no page item is active.
- For `current = -3, total = 0` the test table of pagination_test.go:214-221 expects a next link, but the test never compares `NextURL`. The code gives `""` since `1 < 1` fails, and the model follows the code (`Examples.ClampedViewExample`).

## Model

| member | source | states |
|---|---|---|
| Paging.NewPaginator | pagination.go:26-62 | page size defaults to 10 when not positive; an empty collection gives page 1 of 1 with every other field zero; the current page is clamped into `[1, TotalPages]` and kept when already inside it; `HasPrevious`/`HasNext` hold exactly when a neighbour page exists, and `PrevPage`/`NextPage` are that neighbour or 0 |
| Paging.Paginator.constructor | pagination.go:26-30 | the new paginator's fields are exactly `NewPaginator` of the three inputs |
| Paging.Paginator.Recompute | pagination.go:32-62 | the fields after the call are `Recomputed` of the fields before it, including that `PrevPage`/`NextPage` keep their old values when there is no such neighbour |
| Paging.CeilingDivision | pagination.go:43 | `(a + b - 1) / b` is the least `n` with `a <= n * b` |
| Paging.PageCountIsCeiling | pagination.go:43 | on a non-empty collection `(TotalPages - 1) * PerPage < TotalItems <= TotalPages * PerPage` |
| Paging.OffsetAndItemCount | pagination.go:49-54 | the offset is `(CurrentPage - 1) * PerPage` and lies inside the collection; the page holds between 1 and `PerPage` items, never past the end, and reaches the last item exactly on the last page |
| Paging.LastPageItemCount | pagination.go:50-54 | pages before the last are full; the last page holds the remainder, and is full exactly when `PerPage` divides the total |
| Paging.RecomputeIdempotent | pagination.go:32-62 | recomputing an already recomputed paginator changes nothing |
| Decimal.Itoa | pagination.go:182 | the page number is written as a non-empty string of digits with a leading `-` exactly for negative numbers, in canonical form: the first digit is `0` only for the number 0 itself |
| Decimal.ItoaRoundTrip | pagination.go:182 | reading the written page number back gives the number |
| Text.AsciiLower | pagination.go:120 | same length, no upper-case ASCII letter left, every other character unchanged |
| Text.SortStrings | pagination.go:189 | the result is strictly ascending in Go's string order and holds exactly the input's strings |
| Text.SortedUnique | pagination.go:189 | two strictly ascending sequences with the same elements are equal, so the sorted key order does not depend on map order |
| Text.SplitJoin | pagination.go:189 | splitting at the separator undoes joining with it when no piece contains it |
| Query.QueryEscape | pagination.go:189 | an escaped key or value never contains `&` or `=` |
| Query.EscapeUnreserved | pagination.go:189 | a string of unreserved characters escapes to itself |
| Query.EscapeDecimal | pagination.go:182 | a page number needs no escaping |
| Query.SortedKeysOf | pagination.go:189 | the keys gathered in map order and sorted are the ascending enumeration of the key set |
| Query.EncodeValues | pagination.go:189 | the encoded query is the `key=value` fields in ascending key order joined by `&` |
| Query.EncodeSplits | pagination.go:189 | splitting a non-empty encoded query at `&` gives exactly one field per key, in key order |
| Query.EncodePlain | pagination.go:189 | when nothing needs escaping the encoded query is the plain `key=value` fields in ascending key order |
| PageUrl.FirstNonEmpty | pagination.go:110-117 | the result is "" exactly when every argument is empty, and otherwise the first non-empty argument |
| PageUrl.ForwardedProto | pagination.go:119-121 | the X-Forwarded-Proto header with its ASCII letters lower-cased: same length, no upper-case letter left, every other character unchanged |
| PageUrl.ForwardedProtoIsHttps | pagination.go:119-121 | the forwarded protocol equals "https" exactly when the header spells https in any mix of letter cases |
| PageUrl.ForwardedHost | pagination.go:123 | the X-Forwarded-Host header as it is, "" when absent |
| PageUrl.FirstNonEmptyOfTwo | pagination.go:155 | of two candidates, the first unless it is empty |
| PageUrl.Normalized | pagination.go:125-157 | mode kept; page parameter "page" and the request path by default; existing query always kept; relative mode leaves scheme and host alone; absolute mode keeps an explicit scheme, else "https" exactly when TLS is on or the lower-cased forwarded protocol is "https", else "http"; keeps an explicit host, else the forwarded host when non-empty, else the request's host |
| PageUrl.Normalize | pagination.go:125-157 | the step-by-step defaulting gives exactly `Normalized` |
| PageUrl.PageQuery | pagination.go:168-182 | the page parameter maps to the decimal page number; every other key is a request key carrying its first value; with the existing query kept every request key is present |
| PageUrl.PageURL | pagination.go:184-195 | the built URL is never empty |
| PageUrl.FirstValuesExcept | pagination.go:172-180 | the copied query holds every request key but the page parameter, each with its first value |
| PageUrl.BuildPageURL | pagination.go:161-196 | the URL built is `PageURL` of the request, the page and the options |
| PageUrl.PageParamAppearsOnce | pagination.go:172-182 | the page parameter occurs exactly once among the encoded keys, and its field carries the new page number whatever the request held |
| PageUrl.PageQueryFields | pagination.go:168-189 | the encoded keys are strictly ascending and are the request's keys plus the page parameter; the query splits at `&` into those fields; every other key carries its escaped first value |
| PageUrl.AbsoluteUrlResolution | pagination.go:142-191 | without explicit scheme and host the absolute URL is `https` or `http` as TLS and the forwarded protocol decide, `://`, the forwarded host or else the request host, the path, `?` and the encoded query |
| PageUrl.RelativeUrl | pagination.go:194-195 | a relative URL is the path, `?` and the encoded query |
| PageView.WindowBounds | pagination.go:217-232 | the window lies in `[1, total]`, holds `window` pages when `0 < window < total` and all pages otherwise, and contains `current` whenever `current <= total` |
| PageView.Window | pagination.go:217-232 | the imperative start/end computation gives exactly `WindowBounds` |
| PageView.ItemsAt | pagination.go:234-241 | the item list has one item per page of the window and item `i` is page `first + i`, with that page's link, active exactly on the current page |
| PageView.PageItems | pagination.go:234-241 | the loop emits exactly the items of pages `start` to `end` with their URLs |
| PageView.NeighbourURLs | pagination.go:210-215 | the previous link is the URL of `current - 1` when `current > 1` and "" otherwise; the next link is the URL of `current + 1` when `current < total` and "" otherwise |
| PageView.NewView | pagination.go:200-243 | the view built is `ViewOf` of the page URLs, the inputs and the window |
| PageView.ViewNeighbours | pagination.go:200-215 | `current` and `total` are raised to at least 1 and `current` is not clamped to `total`; each neighbour link is non-empty exactly when that neighbour page exists, and is then its URL |
| PageView.ViewPages | pagination.go:217-241 | the page numbers are consecutive, ascending and within `[1, total]`; their count is `window` or `total`; the current page is among them whenever `current <= total`; an item is active exactly when it is the current page, so none is when `current > total` |
| PageView.ViewPageLinks | pagination.go:234-241 | every item carries the link of its own page |
| Examples.PaginatorExamples | pagination_test.go:56-111 | the seven paginator test rows |
| Examples.WindowExamples | pagination_test.go:182-221 | the windows of the five view test rows |
| Examples.ClampedViewExample | pagination_test.go:214-221 | `current = -3, total = 0` gives one active page and no neighbour links |
| Examples.RelativeKeepQueryExample | pagination_test.go:131-136 | the relative URL with the kept query `limit=20&page=3&q=test` |
| Examples.AbsoluteForwardedExample | pagination_test.go:138-147 | scheme and host from the forwarding headers |
| Examples.AbsoluteTlsExample | pagination_test.go:149-154 | scheme "https" from TLS |
| Examples.AbsoluteOverridesExample | pagination_test.go:156-168 | explicit scheme, host, path and page parameter win |

## Left out

- Paging.Paginator.Recompute: integers are unbounded, so int64 wrap-around is not modelled. It would matter in `TotalItems + PerPage - 1` and `(CurrentPage - 1) * PerPage` near the int64 limits, and for the `int` page numbers of `NewView`.
- Paging.NewPaginator: same as above; no int64 wrap-around.
- PageView.WindowBounds: Go's `int` wrap-around is not modelled. With `current` near the largest `int` and `current > total`, `start + window - 1` wraps in Go and the page list comes out empty; the model's unbounded integers always give `window` pages.
- Query keys and values that are not valid UTF-8 are not represented. Go strings are byte strings, so `r.URL.Query()` decodes `%FF` to the byte 0xFF and `Encode` writes it back as `%FF`; the model's strings hold Unicode scalar values only. The order of `Text.Less` agrees with Go's byte comparison only on valid UTF-8.
- The HTTP request is reduced to the fields the code reads. Parsing `r.URL.Query()` from the raw query string is not part of this model: the request carries the parsed map. Header lookup is one string per header, "" when absent.
- PageUrl.ForwardedProto lower-cases ASCII letters only. `strings.ToLower`'s full Unicode case mapping is not modelled. Only the comparison with "https" uses the result, but the two are not proved to agree on every input.
- PageUrl.PageURL models `url.URL.String()` as `scheme://host` + path + `?` + query. Path escaping, host escaping (a non-ASCII forwarded host comes out percent-encoded in Go), an empty host and a path without a leading slash are not modelled.
- Query.QueryEscape escapes as `url.QueryEscape` does: unreserved characters kept, space as `+`, every other UTF-8 byte as `%XX`. Only two properties are proved: no `&` or `=` in the output, and the identity on unreserved strings. Decoding is not modelled.
- Query.EncodeValues models `url.Values.Encode` for one value per key, which is all `BuildPageURL` ever sets.
- The capacity hint of `make([]PageItem, 0, end-start+1)` has no counterpart; sequences have no capacity.
- `BuildOptions` is passed as an `Option` value. `BuildPageURL` copies `*opts` before normalising, so the caller's options never change, and the model has nothing to alias.
