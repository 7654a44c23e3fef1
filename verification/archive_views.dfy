/** The page-list rule of the archive list view, a copy of the feed list
    view's rule. It is written here with the windows built from runs of
    consecutive pages and proved equal to the feed list view's. */
module ArchiveViews {
  import opened Wrappers
  import DashboardViews

  /** `count` consecutive page buttons starting at page `first`. */
  function Run(first: int, count: nat): (r: seq<DashboardViews.PageButton>)
    ensures |r| == count && forall i :: 0 <= i < count ==> r[i] == DashboardViews.Page(first + i)
    decreases count
  {
    if count == 0 then [] else [DashboardViews.Page(first)] + Run(first + 1, count - 1)
  }

  /** `get_page_button_array(paginator, page)` of the archive views. */
  function GetPageButtonArray(numPages: Option<int>, current: int): (r: seq<DashboardViews.PageButton>)
    ensures r == DashboardViews.GetPageButtonArray(numPages, current)
  {
    if numPages.None? then []
    else
      var total := numPages.value;
      if total < 7 then Run(1, if total < 0 then 0 else total)
      else if current == 1 || current == 2 || current == 3 then
        Run(1, 5) + [DashboardViews.Ellipsis, DashboardViews.Page(total)]
      else if current == total || current == total - 1 || current == total - 2 then
        [DashboardViews.Page(1), DashboardViews.Ellipsis] + Run(total - 4, 5)
      else
        [DashboardViews.Page(1), DashboardViews.Ellipsis] + Run(current - 1, 3) +
        [DashboardViews.Ellipsis, DashboardViews.Page(total)]
  }
}
