/**
 * The pager under the grid: the number of pages, the window of at most five
 * page buttons, the Previous/Next targets and when they are disabled, and
 * the "Showing a to b of n results" line.
 */
module Pagination {

  /** `pageSize`, fixed for the browsing grid. */
  const PageSize: int := 50

  /** Number of page buttons at most. */
  const WindowSize: int := 5

  /** `Math.ceil(totalRows / pageSize)`: the least number of full pages that
      hold every row. */
  function TotalPages(totalRows: int, pageSize: int): (t: int)
    requires pageSize > 0
    ensures (t - 1) * pageSize < totalRows <= t * pageSize
  {
    var q, m := totalRows / pageSize, totalRows % pageSize;
    assert totalRows == q * pageSize + m && 0 <= m < pageSize;
    if m == 0 then
      assert (q - 1) * pageSize == q * pageSize - pageSize;
      q
    else
      assert (q + 1) * pageSize == q * pageSize + pageSize;
      q + 1
  }

  /** Rows on page `currentPage` start strictly before `totalRows` when the
      page exists, so no existing page is empty. */
  lemma ExistingPageIsNonEmpty(totalRows: int, pageSize: int, currentPage: int)
    requires pageSize > 0
    requires 1 <= currentPage <= TotalPages(totalRows, pageSize)
    ensures 0 <= (currentPage - 1) * pageSize < totalRows
  {
    var t := TotalPages(totalRows, pageSize);
    assert (currentPage - 1) * pageSize <= (t - 1) * pageSize by {
      MultiplyMonotone(currentPage - 1, t - 1, pageSize);
    }
  }

  lemma MultiplyMonotone(a: int, b: int, k: int)
    requires a <= b && k >= 0
    ensures a * k <= b * k
  {
    assert b * k - a * k == (b - a) * k;
  }

  /** The pager is drawn only when there is more than one page. */
  function PagerVisible(totalPages: int): bool
  {
    totalPages > 1
  }

  /** The pager appears exactly when the rows do not fit on one page. */
  lemma PagerShownExactlyWhenRowsOverflowOnePage(totalRows: int, pageSize: int)
    requires pageSize > 0
    ensures PagerVisible(TotalPages(totalRows, pageSize)) <==> totalRows > pageSize
  {
    var t := TotalPages(totalRows, pageSize);
    if t > 1 {
      MultiplyMonotone(1, t - 1, pageSize);
    } else {
      MultiplyMonotone(t, 1, pageSize);
    }
  }

  /** The page number on button `i` (the conditional inside the button loop). */
  function PageNumber(i: int, currentPage: int, totalPages: int): int
  {
    if totalPages <= 5 then i + 1
    else if currentPage <= 3 then i + 1
    else if currentPage >= totalPages - 2 then totalPages - 4 + i
    else currentPage - 2 + i
  }

  /** `Array.from({length: Math.min(5, totalPages)}, ...)`; a negative length counts as 0. */
  function PageWindow(currentPage: int, totalPages: int): (w: seq<int>)
    ensures |w| == if totalPages < 0 then 0 else if totalPages < WindowSize then totalPages else WindowSize
    ensures forall i :: 0 <= i < |w| ==> w[i] == PageNumber(i, currentPage, totalPages)
  {
    var len := if totalPages < 0 then 0 else if totalPages < WindowSize then totalPages else WindowSize;
    seq(len, i requires 0 <= i < len => PageNumber(i, currentPage, totalPages))
  }

  /** The first button of the window in each of the four situations. */
  function WindowStart(currentPage: int, totalPages: int): int
  {
    if totalPages <= 5 || currentPage <= 3 then 1
    else if currentPage >= totalPages - 2 then totalPages - 4
    else currentPage - 2
  }

  /** The buttons are consecutive ascending page numbers from the window start. */
  lemma WindowIsConsecutive(currentPage: int, totalPages: int)
    ensures var w := PageWindow(currentPage, totalPages);
      forall i :: 0 <= i < |w| ==> w[i] == WindowStart(currentPage, totalPages) + i
  {
  }

  /**
   * For a page that exists, every button names an existing page and one of
   * them names the current page.
   */
  lemma WindowCoversCurrentPage(currentPage: int, totalPages: int)
    requires 1 <= currentPage <= totalPages
    ensures var w := PageWindow(currentPage, totalPages);
      (forall i :: 0 <= i < |w| ==> 1 <= w[i] <= totalPages) && currentPage in w
  {
    var w := PageWindow(currentPage, totalPages);
    var s := WindowStart(currentPage, totalPages);
    WindowIsConsecutive(currentPage, totalPages);
    var k := currentPage - s;
    assert 0 <= k < |w| && w[k] == currentPage;
  }

  /** Target of Previous: `Math.max(1, currentPage - 1)`. */
  function PreviousPage(currentPage: int): (p: int)
    ensures p >= 1
    ensures currentPage > 1 ==> p == currentPage - 1
  {
    if currentPage - 1 > 1 then currentPage - 1 else 1
  }

  /** Previous is disabled exactly when it would not change the page. */
  function PreviousDisabled(currentPage: int): (r: bool)
    ensures currentPage >= 1 ==> (r <==> PreviousPage(currentPage) == currentPage)
  {
    currentPage == 1
  }

  /** Target of Next: `Math.min(totalPages, currentPage + 1)`. */
  function NextPage(currentPage: int, totalPages: int): (p: int)
    ensures p <= totalPages
    ensures currentPage < totalPages ==> p == currentPage + 1
  {
    if currentPage + 1 < totalPages then currentPage + 1 else totalPages
  }

  /** Next is disabled exactly when it would not change the page. */
  function NextDisabled(currentPage: int, totalPages: int): (r: bool)
    ensures currentPage <= totalPages ==> (r <==> NextPage(currentPage, totalPages) == currentPage)
  {
    currentPage == totalPages
  }

  /**
   * From an existing page both buttons lead to existing pages, and each is
   * disabled exactly when following it would leave the page unchanged.
   */
  lemma StepButtonsStayInRange(currentPage: int, totalPages: int)
    requires 1 <= currentPage <= totalPages
    ensures 1 <= PreviousPage(currentPage) <= totalPages
    ensures 1 <= NextPage(currentPage, totalPages) <= totalPages
    ensures PreviousDisabled(currentPage) <==> PreviousPage(currentPage) == currentPage
    ensures NextDisabled(currentPage, totalPages) <==> NextPage(currentPage, totalPages) == currentPage
  {
  }

  datatype ShowingRange = ShowingRange(first: int, last: int, total: int)

  /** "Showing {(currentPage - 1) * pageSize + 1} to {min(currentPage * pageSize, totalRows)} of {totalRows}". */
  function Showing(currentPage: int, pageSize: int, totalRows: int): (r: ShowingRange)
    ensures r.first == (currentPage - 1) * pageSize + 1
    ensures r.last <= totalRows && r.total == totalRows
    ensures r.last <= currentPage * pageSize
    ensures r.last == totalRows || r.last == currentPage * pageSize
  {
    var last := if currentPage * pageSize < totalRows then currentPage * pageSize else totalRows;
    ShowingRange((currentPage - 1) * pageSize + 1, last, totalRows)
  }

  /**
   * On an existing page the range is non-empty and counts exactly the rows
   * the page holds: a full page, or the remainder on the last page.
   */
  lemma ShowingRangeMatchesPage(currentPage: int, pageSize: int, totalRows: int)
    requires pageSize > 0
    requires 1 <= currentPage <= TotalPages(totalRows, pageSize)
    ensures var r := Showing(currentPage, pageSize, totalRows);
      1 <= r.first <= r.last &&
      r.last - r.first + 1 == (if totalRows - (currentPage - 1) * pageSize < pageSize
                               then totalRows - (currentPage - 1) * pageSize else pageSize)
  {
    ExistingPageIsNonEmpty(totalRows, pageSize, currentPage);
    assert currentPage * pageSize == (currentPage - 1) * pageSize + pageSize;
  }
}
