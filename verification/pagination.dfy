/**
 * The table pager: the "showing X to Y of Z" range, the page-number list with
 * ellipses, and which navigation buttons are disabled.
 */
module Pagination {
  import opened Common

  /** An entry of the page list: a page button, or the `'...'` marker. */
  datatype PageItem = Page(n: int) | Ellipsis

  /** At most this many pages are listed without ellipses. */
  const MaxVisible: int := 5

  /** `1, 2, ..., last` as page buttons. */
  function Pages(last: int): (r: seq<PageItem>)
    ensures |r| == if last < 0 then 0 else last
    ensures forall i :: 0 <= i < |r| ==> r[i] == Page(i + 1)
  {
    if last <= 0 then [] else seq(last, i requires 0 <= i < last => Page(i + 1))
  }

  /**
   * `getPageNumbers()`: at most seven entries, always starting at page 1 and
   * ending at the last page; what lies between is stated by `WindowShape`.
   */
  function PageNumbers(currentPage: int, totalPages: int): (r: seq<PageItem>)
    ensures |r| <= MaxVisible + 2
    ensures totalPages >= 1 ==> |r| >= 1 && r[0] == Page(1) && r[|r| - 1] == Page(totalPages)
  {
    if totalPages <= MaxVisible then Pages(totalPages)
    else if currentPage <= 3 then
      [Page(1), Page(2), Page(3), Page(4), Ellipsis, Page(totalPages)]
    else if currentPage >= totalPages - 2 then
      [Page(1), Ellipsis, Page(totalPages - 3), Page(totalPages - 2), Page(totalPages - 1), Page(totalPages)]
    else
      [Page(1), Ellipsis, Page(currentPage - 1), Page(currentPage), Page(currentPage + 1), Ellipsis, Page(totalPages)]
  }

  /** The listed page numbers strictly increase from left to right. */
  predicate Increasing(pages: seq<PageItem>)
  {
    forall i, j :: 0 <= i < j < |pages| && pages[i].Page? && pages[j].Page? ==> pages[i].n < pages[j].n
  }

  /**
   * Every page from 1 to `total` is either listed or stands behind an ellipsis:
   * the list starts at page 1 and ends at page `total`, neighbouring buttons
   * are consecutive pages, and an ellipsis sits between two buttons and hides
   * at least one page.
   */
  predicate CoversAllPages(pages: seq<PageItem>, total: int)
  {
    && |pages| >= 1
    && pages[0] == Page(1)
    && pages[|pages| - 1] == Page(total)
    && (forall i :: 0 <= i < |pages| - 1 && pages[i].Page? && pages[i + 1].Page? ==>
          pages[i + 1].n == pages[i].n + 1)
    && (forall i :: 0 <= i < |pages| && pages[i].Ellipsis? ==>
          0 < i < |pages| - 1 && pages[i - 1].Page? && pages[i + 1].Page? && pages[i + 1].n > pages[i - 1].n + 1)
  }

  /** With at most five pages every page is listed and there is no ellipsis. */
  lemma FewPagesListedInFull(currentPage: int, totalPages: int)
    requires totalPages <= MaxVisible
    ensures |PageNumbers(currentPage, totalPages)| == if totalPages < 0 then 0 else totalPages
    ensures forall i :: 0 <= i < |PageNumbers(currentPage, totalPages)| ==>
              PageNumbers(currentPage, totalPages)[i] == Page(i + 1)
    ensures Ellipsis !in PageNumbers(currentPage, totalPages)
  {
  }

  /**
   * A list that accounts for every page has strictly increasing page numbers:
   * between two buttons stand only consecutive pages and ellipses that each
   * skip ahead.
   */
  lemma CoverageImpliesIncreasing(pages: seq<PageItem>, total: int)
    requires CoversAllPages(pages, total)
    ensures Increasing(pages)
  {
    forall i, j | 0 <= i < j < |pages| && pages[i].Page? && pages[j].Page?
      ensures pages[i].n < pages[j].n
    {
      StepIncreases(pages, total, i, j);
    }
  }

  lemma {:induction false} StepIncreases(pages: seq<PageItem>, total: int, i: int, j: int)
    requires CoversAllPages(pages, total)
    requires 0 <= i < j < |pages| && pages[i].Page? && pages[j].Page?
    ensures pages[i].n < pages[j].n
    decreases j - i
  {
    if pages[i + 1].Page? {
      if i + 1 < j {
        StepIncreases(pages, total, i + 1, j);
      }
    } else {
      assert pages[i + 2].Page? && pages[i + 2].n > pages[i].n + 1;
      if i + 2 < j {
        StepIncreases(pages, total, i + 2, j);
      }
    }
  }

  /**
   * For a current page within range: at most seven entries, the current page
   * listed, every page accounted for, and so page numbers strictly increasing.
   */
  lemma WindowShape(currentPage: int, totalPages: int)
    requires 1 <= currentPage <= totalPages
    ensures var pages := PageNumbers(currentPage, totalPages);
            && |pages| <= 7
            && Page(currentPage) in pages
            && CoversAllPages(pages, totalPages)
            && Increasing(pages)
  {
    if totalPages <= MaxVisible {
      FewWindow(currentPage, totalPages);
    } else if currentPage <= 3 {
      HeadWindow(currentPage, totalPages);
    } else if currentPage >= totalPages - 2 {
      TailWindow(currentPage, totalPages);
    } else {
      MiddleWindow(currentPage, totalPages);
    }
    CoverageImpliesIncreasing(PageNumbers(currentPage, totalPages), totalPages);
  }

  lemma FewWindow(currentPage: int, totalPages: int)
    requires 1 <= currentPage <= totalPages <= MaxVisible
    ensures var pages := PageNumbers(currentPage, totalPages);
            |pages| <= 7 && Page(currentPage) in pages && CoversAllPages(pages, totalPages)
  {
    var pages := PageNumbers(currentPage, totalPages);
    assert pages[currentPage - 1] == Page(currentPage);
  }

  lemma HeadWindow(currentPage: int, totalPages: int)
    requires 1 <= currentPage <= 3 && totalPages > MaxVisible
    ensures var pages := PageNumbers(currentPage, totalPages);
            |pages| <= 7 && Page(currentPage) in pages && CoversAllPages(pages, totalPages)
  {
    var pages := PageNumbers(currentPage, totalPages);
    assert pages[currentPage - 1] == Page(currentPage);
  }

  lemma TailWindow(currentPage: int, totalPages: int)
    requires 3 < currentPage <= totalPages && totalPages - 2 <= currentPage && totalPages > MaxVisible
    ensures var pages := PageNumbers(currentPage, totalPages);
            |pages| <= 7 && Page(currentPage) in pages && CoversAllPages(pages, totalPages)
  {
    var pages := PageNumbers(currentPage, totalPages);
    assert pages[currentPage - totalPages + 5] == Page(currentPage);
  }

  lemma MiddleWindow(currentPage: int, totalPages: int)
    requires 3 < currentPage < totalPages - 2 && totalPages > MaxVisible
    ensures var pages := PageNumbers(currentPage, totalPages);
            |pages| <= 7 && Page(currentPage) in pages && CoversAllPages(pages, totalPages)
  {
    var pages := PageNumbers(currentPage, totalPages);
    assert pages[3] == Page(currentPage);
  }

  /** What the pager shows when it shows anything. */
  datatype PagerView = PagerView(
    startItem: int,
    endItem: int,
    pages: seq<PageItem>,
    firstDisabled: bool,
    previousDisabled: bool,
    nextDisabled: bool,
    lastDisabled: bool)

  function Min(a: int, b: int): int
  {
    if a <= b then a else b
  }

  /**
   * The `Pagination` component: nothing for a single page; otherwise the item
   * range, the page list, and first/previous disabled exactly on page 1,
   * next/last exactly on the last page.
   */
  function Render(currentPage: int, totalPages: int, itemsPerPage: int, totalItems: int): (r: Option<PagerView>)
    ensures r.None? <==> totalPages <= 1
    ensures r.Some? ==> r.value.pages == PageNumbers(currentPage, totalPages)
    ensures r.Some? ==> r.value.endItem <= totalItems
    ensures r.Some? ==> r.value.endItem <= currentPage * itemsPerPage
    ensures r.Some? ==> r.value.endItem == currentPage * itemsPerPage || r.value.endItem == totalItems
    ensures r.Some? ==> r.value.startItem == (currentPage - 1) * itemsPerPage + 1
    ensures r.Some? ==> (r.value.firstDisabled <==> currentPage == 1) && (r.value.previousDisabled <==> currentPage == 1)
    ensures r.Some? ==> (r.value.nextDisabled <==> currentPage == totalPages) && (r.value.lastDisabled <==> currentPage == totalPages)
  {
    if totalPages <= 1 then None
    else
      Some(PagerView(
        (currentPage - 1) * itemsPerPage + 1,
        Min(currentPage * itemsPerPage, totalItems),
        PageNumbers(currentPage, totalPages),
        currentPage == 1, currentPage == 1,
        currentPage == totalPages, currentPage == totalPages))
  }

  /**
   * On a page that has items, the "showing" range is non-empty, lies within
   * the items, and spans at most one page's worth.
   */
  lemma ShowingRangeFitsPage(currentPage: int, totalPages: int, itemsPerPage: int, totalItems: int)
    requires totalPages > 1 && currentPage >= 1 && itemsPerPage >= 1
    requires (currentPage - 1) * itemsPerPage < totalItems
    ensures var v := Render(currentPage, totalPages, itemsPerPage, totalItems).value;
            && 1 <= v.startItem <= v.endItem <= totalItems
            && v.endItem - v.startItem + 1 <= itemsPerPage
  {
    assert (currentPage - 1) * itemsPerPage == currentPage * itemsPerPage - itemsPerPage;
    assert (currentPage - 1) * itemsPerPage >= 0;
  }
}
