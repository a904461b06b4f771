/**
 * The pagination bar of both front ends
 * (manga-reader/src/components/Pagination.tsx and
 * manga-reader-next/src/components/Pagination.tsx): a window of at most five
 * page buttons around the current page, and First/Previous/Next/Last buttons.
 * The two trees compute the window identically and differ in when the arrow
 * buttons are disabled.
 */
module Pagination {
  import opened Wrappers

  const MaxVisiblePages := 5

  function Max(a: int, b: int): int { if a >= b then a else b }
  function Min(a: int, b: int): int { if a <= b then a else b }

  /** One numbered button: the page it requests and whether it is highlighted. */
  datatype PageButton = PageButton(page: int, highlighted: bool)

  /**
   * `renderPageNumbers`: one button per page from the window start to its
   * end, the current page highlighted.
   */
  method RenderPageNumbers(currentPage: int, totalPages: int) returns (pages: seq<PageButton>)
    // ascending and contiguous
    ensures forall k :: 0 <= k < |pages| ==> pages[k].page == pages[0].page + k
    // exactly the current page is highlighted
    ensures forall k :: 0 <= k < |pages| ==> (pages[k].highlighted <==> pages[k].page == currentPage)
    // with at least one page the window is min(5, totalPages) pages of [1, totalPages], whatever currentPage is
    ensures totalPages >= 1 ==> |pages| == Min(MaxVisiblePages, totalPages)
                                && forall k :: 0 <= k < |pages| ==> 1 <= pages[k].page <= totalPages
    // the window starts two pages before the current one, pulled back to stay within the last five pages and forward to page 1
    ensures totalPages >= 1 ==> |pages| > 0 && pages[0].page == Max(1, Min(currentPage - 2, totalPages - 4))
    // and it shows the current page exactly when that page exists
    ensures totalPages >= 1 ==> ((exists k :: 0 <= k < |pages| && pages[k].page == currentPage) <==> 1 <= currentPage <= totalPages)
    ensures totalPages < 1 ==> pages == []
  {
    var startPage := Max(1, currentPage - MaxVisiblePages / 2);
    var endPage := Min(totalPages, startPage + MaxVisiblePages - 1);
    if endPage - startPage < MaxVisiblePages - 1 {
      startPage := Max(1, endPage - MaxVisiblePages + 1);
    }
    pages := [];
    var i := startPage;
    while i <= endPage
      invariant startPage <= i && (i <= endPage + 1 || i == startPage)
      invariant |pages| == i - startPage
      invariant forall k :: 0 <= k < |pages| ==> pages[k] == PageButton(startPage + k, startPage + k == currentPage)
      decreases endPage + 1 - i
    {
      pages := pages + [PageButton(i, i == currentPage)];
      i := i + 1;
    }
    if totalPages >= 1 && 1 <= currentPage <= totalPages {
      assert pages[currentPage - startPage].page == currentPage;
    }
  }

  datatype NavKind = First | Previous | Next | Last

  /** The page each arrow button requests. */
  function NavTarget(kind: NavKind, currentPage: int, totalPages: int): int {
    match kind
    case First => 1
    case Previous => currentPage - 1
    case Next => currentPage + 1
    case Last => totalPages
  }

  /** The older tree: First/Previous disabled on page 1, Next/Last on the last page. */
  predicate LegacyNavEnabled(kind: NavKind, currentPage: int, totalPages: int) {
    if kind == First || kind == Previous then currentPage != 1 else currentPage != totalPages
  }

  /** The Next.js tree: `canPrev = currentPage > 1`, `canNext = currentPage < totalPages`. */
  predicate NavEnabled(kind: NavKind, currentPage: int, totalPages: int) {
    if kind == First || kind == Previous then currentPage > 1 else currentPage < totalPages
  }

  /** Within the valid range the two rules enable the same buttons. */
  lemma NavRulesAgreeInRange(kind: NavKind, currentPage: int, totalPages: int)
    requires 1 <= currentPage <= totalPages
    ensures LegacyNavEnabled(kind, currentPage, totalPages) <==> NavEnabled(kind, currentPage, totalPages)
  {
  }

  /**
   * In the Next.js tree an enabled Previous never asks for a page below 1 and
   * an enabled Next never for one past the end; with a page in range, every
   * enabled button's target is a page of [1, totalPages] other than the
   * current one.
   */
  lemma EnabledTargetsInRange(kind: NavKind, currentPage: int, totalPages: int)
    requires NavEnabled(kind, currentPage, totalPages)
    ensures kind == Previous ==> NavTarget(kind, currentPage, totalPages) >= 1
    ensures kind == Next ==> NavTarget(kind, currentPage, totalPages) <= totalPages
    ensures 1 <= currentPage <= totalPages ==>
              1 <= NavTarget(kind, currentPage, totalPages) <= totalPages
              && NavTarget(kind, currentPage, totalPages) != currentPage
  {
  }

  /** The equality rule of the older tree leaves Previous enabled below page 1. */
  lemma LegacyPreviousBelowRange()
    ensures LegacyNavEnabled(Previous, 0, 5) && NavTarget(Previous, 0, 5) == -1
    ensures !NavEnabled(Previous, 0, 5)
  {
  }

  datatype NavButton = NavButton(kind: NavKind, target: int, enabled: bool)

  datatype PaginationView = PaginationView(arrows: seq<NavButton>, pages: seq<PageButton>)

  function NavButtons(currentPage: int, totalPages: int, legacy: bool): (r: seq<NavButton>)
    ensures |r| == 4
    ensures forall k :: 0 <= k < 4 ==> r[k].target == NavTarget(r[k].kind, currentPage, totalPages)
    ensures forall k :: 0 <= k < 4 ==>
              r[k].enabled == (if legacy then LegacyNavEnabled(r[k].kind, currentPage, totalPages)
                               else NavEnabled(r[k].kind, currentPage, totalPages))
    ensures [r[0].kind, r[1].kind, r[2].kind, r[3].kind] == [First, Previous, Next, Last]
  {
    var kinds := [First, Previous, Next, Last];
    seq(4, k requires 0 <= k < 4 =>
      NavButton(kinds[k], NavTarget(kinds[k], currentPage, totalPages),
                if legacy then LegacyNavEnabled(kinds[k], currentPage, totalPages) else NavEnabled(kinds[k], currentPage, totalPages)))
  }

  /** The component: nothing with at most one page, otherwise the arrows and the window. */
  method Render(currentPage: int, totalPages: int, legacy: bool) returns (view: Option<PaginationView>)
    ensures view.None? <==> totalPages <= 1
    ensures view.Some? ==> view.value.arrows == NavButtons(currentPage, totalPages, legacy)
                           && |view.value.pages| == Min(MaxVisiblePages, totalPages)
                           && forall k :: 0 <= k < |view.value.pages| ==>
                                view.value.pages[k].page == view.value.pages[0].page + k
                                && 1 <= view.value.pages[k].page <= totalPages
                                && (view.value.pages[k].highlighted <==> view.value.pages[k].page == currentPage)
    ensures view.Some? ==> view.value.pages[0].page == Max(1, Min(currentPage - 2, totalPages - 4))
    ensures view.Some? ==> ((exists k :: 0 <= k < |view.value.pages| && view.value.pages[k].page == currentPage)
                            <==> 1 <= currentPage <= totalPages)
  {
    if totalPages <= 1 {
      return None;
    }
    var pages := RenderPageNumbers(currentPage, totalPages);
    view := Some(PaginationView(NavButtons(currentPage, totalPages, legacy), pages));
  }
}
