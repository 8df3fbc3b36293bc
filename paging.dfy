/** What both product-list components read from the router and the
    paginator, and the page arithmetic they share. */
module Paging {
  import opened Js

  /** The route's `keyword` and `id` parameters; the id is taken as already
      converted to a number. */
  datatype Route = Route(keyword: Option<string>, id: Option<int>)

  /** The paginator's event: index of the first row shown and rows per page. */
  datatype PaginatorEvent = PaginatorEvent(first: Option<int>, rows: Option<int>)

  /** `x || d` on a nullable number: `d` when `x` is missing or 0. */
  function NumberOr(x: Option<int>, d: int): (r: int)
    ensures x.Some? && x.value != 0 ==> r == x.value
    ensures x.None? || x.value == 0 ==> r == d
    ensures d != 0 ==> r != 0
  {
    if x.Some? && x.value != 0 then x.value else d
  }

  /** The category a route lists: its id, or 1 when it has none. */
  function CategoryOf(route: Route): int
  {
    if route.id.Some? then route.id.value else 1
  }

  /** `Math.floor(first / rows) + 1`: the one-based page that shows row
      `first`. */
  function PageContaining(first: int, rows: int): (page: int)
    requires rows != 0
    ensures rows > 0 ==> (page - 1) * rows <= first < page * rows
    ensures rows > 0 && first >= 0 ==> page >= 1
  {
    FloorDiv(first, rows) + 1
  }

  /** The first row of a page leads back to that page. */
  lemma FirstRowOfPage(page: int, rows: int)
    requires rows > 0
    ensures PageContaining((page - 1) * rows, rows) == page
  {
    var k := page - 1;
    var q := (k * rows) / rows;
    var m := (k * rows) % rows;
    assert k * rows == rows * q + m && 0 <= m < rows;
    var d := k - q;
    assert d * rows == m;
    MulMono(d, 0, rows);
    MulMono(1, d, rows);
  }

  lemma MulMono(a: int, b: int, rows: int)
    requires rows > 0
    ensures a < b ==> a * rows < b * rows
    ensures a <= b ==> a * rows <= b * rows
  {
    if a <= b {
      assert b * rows - a * rows == (b - a) * rows;
    }
  }
}
