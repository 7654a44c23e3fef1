/** The page-list rule of the feed list view, following the USWDS pagination
    guidance: at most seven buttons, the first and last page always shown,
    gaps marked with an ellipsis. */
module DashboardViews {
  import opened Wrappers

  /** One pagination button: a page number or the "..." marker. */
  datatype PageButton = Page(number: int) | Ellipsis

  /** `get_page_button_array(paginator, page)`: `numPages` is `None` when the
      view is not paginated, else the paginator's page count; `current` is the
      number of the page shown. */
  function GetPageButtonArray(numPages: Option<int>, current: int): (r: seq<PageButton>)
    ensures numPages.None? ==> r == []
    ensures numPages.Some? && numPages.value < 7 ==>
      |r| == (if numPages.value < 0 then 0 else numPages.value) &&
      forall i :: 0 <= i < |r| ==> r[i] == Page(i + 1)
    ensures numPages.Some? && numPages.value >= 7 ==>
      |r| == 7 && r[0] == Page(1) && r[6] == Page(numPages.value)
  {
    if numPages.None? then []
    else
      var total := numPages.value;
      if total < 7 then
        seq(if total < 0 then 0 else total, i => Page(i + 1))
      else if current == 1 || current == 2 || current == 3 then
        [Page(1), Page(2), Page(3), Page(4), Page(5), Ellipsis, Page(total)]
      else if current == total || current == total - 1 || current == total - 2 then
        [Page(1), Ellipsis, Page(total - 4), Page(total - 3), Page(total - 2), Page(total - 1), Page(total)]
      else
        [Page(1), Ellipsis, Page(current - 1), Page(current), Page(current + 1), Ellipsis, Page(total)]
  }

  /** The page numbers of a button list strictly increase from left to right. */
  predicate Increasing(r: seq<PageButton>) {
    forall i, j :: 0 <= i < j < |r| && r[i].Page? && r[j].Page? ==> r[i].number < r[j].number
  }

  /** Neighbouring page numbers are consecutive, and an ellipsis stands exactly
      where pages are skipped: between two page buttons whose numbers differ by
      at least two. */
  predicate GapsMarked(r: seq<PageButton>) {
    (forall i :: 0 <= i < |r| - 1 && r[i].Page? && r[i + 1].Page? ==> r[i + 1].number == r[i].number + 1) &&
    (forall i :: 0 <= i < |r| && r[i].Ellipsis? ==>
      0 < i < |r| - 1 && r[i - 1].Page? && r[i + 1].Page? && r[i + 1].number > r[i - 1].number + 1)
  }

  /** The properties every button list of an existing page has. */
  predicate WellFormed(r: seq<PageButton>, total: int, current: int) {
    Increasing(r) && GapsMarked(r) &&
    Page(current) in r && r[0] == Page(1) && r[|r| - 1] == Page(total) &&
    (forall i :: 0 <= i < |r| && r[i].Page? ==> 1 <= r[i].number <= total) &&
    |r| == (if total < 7 then total else 7)
  }

  /** For a page that exists, the buttons name pages of the paginator only, in
      increasing order, with the current page, the first and the last among them
      and every gap marked. */
  lemma PageButtonsWellFormed(total: int, current: int)
    requires 1 <= current <= total
    ensures WellFormed(GetPageButtonArray(Some(total), current), total, current)
  {
    var r := GetPageButtonArray(Some(total), current);
    if total < 7 {
      assert r[current - 1] == Page(current);
    } else if current <= 3 {
      WindowWellFormed(r, total, current, 1, 4, 2);
    } else if current >= total - 2 {
      WindowWellFormed(r, total, current, 2, 5, total - 4);
    } else {
      WindowWellFormed(r, total, current, 2, 4, current - 1);
    }
  }

  /** A seven-button list with first page 1 and last page `total`, a run of
      consecutive pages at positions `lo..hi` starting at page `first`, and
      ellipses at the remaining positions, where the run does not continue
      from the neighbouring page. */
  predicate Window(r: seq<PageButton>, total: int, lo: nat, hi: nat, first: int) {
    total >= 7 && |r| == 7 && 1 <= lo <= 2 && 4 <= hi <= 5 &&
    r[0] == Page(1) && r[6] == Page(total) &&
    (forall i :: lo <= i <= hi ==> r[i] == Page(first + i - lo)) &&
    (forall i :: 0 < i < 6 && (i < lo || i > hi) ==> r[i] == Ellipsis) &&
    (lo == 1 ==> first == 2) && (lo > 1 ==> first > 2) &&
    (hi == 5 ==> first + hi - lo == total - 1) && (hi < 5 ==> first + hi - lo < total - 1)
  }

  /** A window holding `current` (in its run, or as the first or the last page) is well formed. */
  lemma WindowWellFormed(r: seq<PageButton>, total: int, current: int, lo: nat, hi: nat, first: int)
    requires Window(r, total, lo, hi, first)
    requires current == 1 || current == total || first <= current <= first + hi - lo
    ensures WellFormed(r, total, current)
  {
    if current != 1 && current != total {
      assert r[lo + current - first] == Page(current);
    }
    WindowIncreasing(r, total, lo, hi, first);
    WindowGapsMarked(r, total, lo, hi, first);
  }

  lemma WindowIncreasing(r: seq<PageButton>, total: int, lo: nat, hi: nat, first: int)
    requires Window(r, total, lo, hi, first)
    ensures Increasing(r)
    ensures forall i :: 0 <= i < |r| && r[i].Page? ==> 1 <= r[i].number <= total
  {
  }

  lemma WindowGapsMarked(r: seq<PageButton>, total: int, lo: nat, hi: nat, first: int)
    requires Window(r, total, lo, hi, first)
    ensures GapsMarked(r)
  {
    forall i | 0 <= i < |r| && r[i].Ellipsis?
      ensures 0 < i < |r| - 1 && r[i - 1].Page? && r[i + 1].Page? && r[i + 1].number > r[i - 1].number + 1
    {
      assert i == 1 || i == 5;
    }
  }

  /** On a list of seven or more pages the button list is exactly one of the three windows. */
  lemma PageButtonsCases(total: int, current: int)
    requires total >= 7
    ensures 1 <= current <= 3 ==> (GetPageButtonArray(Some(total), current) ==
      [Page(1), Page(2), Page(3), Page(4), Page(5), Ellipsis, Page(total)])
    ensures total - 2 <= current <= total ==> (GetPageButtonArray(Some(total), current) ==
      [Page(1), Ellipsis, Page(total - 4), Page(total - 3), Page(total - 2), Page(total - 1), Page(total)])
    ensures 3 < current < total - 2 ==> (GetPageButtonArray(Some(total), current) ==
      [Page(1), Ellipsis, Page(current - 1), Page(current), Page(current + 1), Ellipsis, Page(total)])
  {
  }
}
