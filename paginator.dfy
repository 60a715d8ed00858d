/** The page navigation under the movie list: nothing when there are no pages; otherwise
    Prev and Next buttons clamped to the existing pages and one button per page. */
module Paginator {
  import opened Strings

  /** A page button and whether it is shown as the current page. */
  datatype PageButton = PageButton(page: int, highlighted: bool)

  /** What the paginator shows: the page Prev and Next go to, whether each is disabled,
      and the page buttons in order. */
  datatype PaginatorView = PaginatorView(
    prevTarget: int,
    prevDisabled: bool,
    pages: seq<PageButton>,
    nextTarget: int,
    nextDisabled: bool)

  datatype Rendered = Nothing | Shown(view: PaginatorView)

  /** The paginator for `totalPages` pages with `currentPage` selected. */
  function Paginate(totalPages: int, currentPage: int): (r: Rendered)
    ensures r.Nothing? <==> totalPages == 0
    ensures r.Shown? ==> r.view.prevTarget == Max(1, currentPage - 1) && r.view.prevTarget >= 1
    ensures r.Shown? ==> r.view.nextTarget == Min(totalPages, currentPage + 1) && r.view.nextTarget <= totalPages
    ensures r.Shown? ==> (r.view.prevDisabled <==> currentPage == 1)
    ensures r.Shown? ==> (r.view.nextDisabled <==> currentPage >= totalPages)
    ensures r.Shown? ==> |r.view.pages| == Max(0, totalPages)
    ensures r.Shown? ==> forall i :: 0 <= i < |r.view.pages| ==>
      r.view.pages[i].page == i + 1 && (r.view.pages[i].highlighted <==> currentPage == i + 1)
  {
    if totalPages == 0 then Nothing
    else
      var pages := seq(Max(0, totalPages), i requires 0 <= i => PageButton(i + 1, currentPage == i + 1));
      Shown(PaginatorView(Max(1, currentPage - 1), currentPage == 1, pages,
                          Min(totalPages, currentPage + 1), currentPage >= totalPages))
  }

  /** At most one page button is highlighted, and when the current page exists it is exactly
      that page's button. */
  lemma OneHighlightedPage(totalPages: int, currentPage: int)
    requires Paginate(totalPages, currentPage).Shown?
    ensures forall i, j :: 0 <= i < j < |Paginate(totalPages, currentPage).view.pages| ==>
      !(Paginate(totalPages, currentPage).view.pages[i].highlighted && Paginate(totalPages, currentPage).view.pages[j].highlighted)
    ensures 1 <= currentPage <= totalPages ==>
      Paginate(totalPages, currentPage).view.pages[currentPage - 1].highlighted
  {
  }

  /** From a page that exists, Prev and Next lead to pages that exist, and a button is
      disabled exactly when pressing it would stay on the current page. */
  lemma NavigationStaysInRange(totalPages: int, currentPage: int)
    requires 1 <= currentPage <= totalPages
    ensures Paginate(totalPages, currentPage).Shown?
    ensures 1 <= Paginate(totalPages, currentPage).view.prevTarget <= totalPages
    ensures 1 <= Paginate(totalPages, currentPage).view.nextTarget <= totalPages
    ensures Paginate(totalPages, currentPage).view.prevDisabled <==> Paginate(totalPages, currentPage).view.prevTarget == currentPage
    ensures Paginate(totalPages, currentPage).view.nextDisabled <==> Paginate(totalPages, currentPage).view.nextTarget == currentPage
  {
  }
}
