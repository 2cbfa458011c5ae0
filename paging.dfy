/** The page window of the table body and the number of padding rows below it. */
module Paging {

  function Min(a: int, b: int): int { if a <= b then a else b }

  function Max(a: int, b: int): int { if a <= b then b else a }

  /** `Array.prototype.slice(begin, end)` for non-negative bounds: both are
      clamped to the length, and the result is empty when `end <= begin`. */
  function Slice<T>(s: seq<T>, begin: nat, end: nat): seq<T> {
    var b := Min(begin, |s|);
    var e := Min(end, |s|);
    if b <= e then s[b..e] else []
  }

  /** The rows shown on page `page`: `slice(page * rowsPerPage, page * rowsPerPage + rowsPerPage)`. */
  function PageRows<T>(rows: seq<T>, page: nat, rowsPerPage: nat): (r: seq<T>)
    ensures |r| == Min(rowsPerPage, Max(0, |rows| - page * rowsPerPage))
    ensures forall i :: 0 <= i < |r| ==> r[i] == rows[page * rowsPerPage + i]
    ensures page * rowsPerPage >= |rows| ==> r == []
    ensures (page + 1) * rowsPerPage <= |rows| ==> |r| == rowsPerPage
  {
    assert (page + 1) * rowsPerPage == page * rowsPerPage + rowsPerPage;
    Slice(rows, page * rowsPerPage, page * rowsPerPage + rowsPerPage)
  }

  /** `emptyRows`: `Math.max(0, rowsPerPage - slice(page * rowsPerPage, (page + 1) * rowsPerPage).length)`,
      the padding that keeps a short last page as tall as a full one. */
  function EmptyRows<T>(rows: seq<T>, page: nat, rowsPerPage: nat): (e: int)
    ensures 0 <= e <= rowsPerPage
    ensures |PageRows(rows, page, rowsPerPage)| + e == rowsPerPage
  {
    assert (page + 1) * rowsPerPage == page * rowsPerPage + rowsPerPage;
    Max(0, rowsPerPage - |Slice(rows, page * rowsPerPage, (page + 1) * rowsPerPage)|)
  }
}
