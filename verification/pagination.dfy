/**
 * The page-number strip: which page buttons and ellipses are shown for a
 * current page and a page count, and what the buttons request.
 */
module Pagination {
  import opened Wrappers

  datatype PageItem = Page(n: int) | Ellipsis

  const MaxVisible := 5

  /** The buttons `lo`, `lo + 1`, ..., `hi`. */
  function Range(lo: int, hi: int): (r: seq<PageItem>)
    ensures |r| == if lo <= hi then hi - lo + 1 else 0
    ensures forall k :: 0 <= k < |r| ==> r[k] == Page(lo + k)
    decreases hi - lo + 1
  {
    if lo > hi then [] else [Page(lo)] + Range(lo + 1, hi)
  }

  /** The items `getPageNumbers` produces. */
  function PageWindow(current: int, total: int): (w: seq<PageItem>)
    ensures |w| <= MaxVisible + 2
    ensures total >= 1 ==> |w| > 0 && w[0] == Page(1) && w[|w| - 1] == Page(total)
  {
    if total <= MaxVisible then Range(1, total)
    else if current <= 3 then Range(1, 5) + [Ellipsis, Page(total)]
    else if current >= total - 2 then [Page(1), Ellipsis] + Range(total - 4, total)
    else [Page(1), Ellipsis] + Range(current - 1, current + 1) + [Ellipsis, Page(total)]
  }

  /** The component renders nothing for a single page. */
  function Strip(current: int, total: int): (r: Option<seq<PageItem>>)
    ensures r.None? <==> total <= 1
    ensures r.Some? ==> r.value == PageWindow(current, total)
  {
    if total <= 1 then None else Some(PageWindow(current, total))
  }

  /** Pushes the buttons `lo` through `hi` onto `pages`, one at a time. */
  method PushRange(pages: seq<PageItem>, lo: int, hi: int) returns (r: seq<PageItem>)
    ensures r == pages + Range(lo, hi)
  {
    r := pages;
    var i := lo;
    while i <= hi
      invariant lo <= i <= (if lo <= hi then hi + 1 else lo)
      invariant r == pages + Range(lo, i - 1)
      decreases hi - i
    {
      assert Range(lo, i - 1) + [Page(i)] == Range(lo, i);
      r := r + [Page(i)];
      i := i + 1;
    }
  }

  method GetPageNumbers(current: int, total: int) returns (pages: seq<PageItem>)
    ensures pages == PageWindow(current, total)
  {
    pages := [];
    if total <= MaxVisible {
      pages := PushRange(pages, 1, total);
    } else {
      if current <= 3 {
        pages := PushRange(pages, 1, 5);
        pages := pages + [Ellipsis];
        pages := pages + [Page(total)];
      } else if current >= total - 2 {
        pages := pages + [Page(1)];
        pages := pages + [Ellipsis];
        pages := PushRange(pages, total - 4, total);
      } else {
        pages := pages + [Page(1)];
        pages := pages + [Ellipsis];
        pages := PushRange(pages, current - 1, current + 1);
        pages := pages + [Ellipsis];
        pages := pages + [Page(total)];
      }
    }
  }

  /** The previous and next buttons: disabled, or the page they request. */
  function PrevTarget(current: int, hasPrevPage: bool, isLoading: bool): (t: Option<int>)
    ensures t.Some? <==> (hasPrevPage && !isLoading)
    ensures t.Some? ==> t.value == current - 1
  {
    if !hasPrevPage || isLoading then None else Some(current - 1)
  }

  function NextTarget(current: int, hasNextPage: bool, isLoading: bool): (t: Option<int>)
    ensures t.Some? <==> (hasNextPage && !isLoading)
    ensures t.Some? ==> t.value == current + 1
  {
    if !hasNextPage || isLoading then None else Some(current + 1)
  }

  /** A numbered button requests its own page, the active one included, unless loading. */
  function PageButtonTarget(item: PageItem, isLoading: bool): (t: Option<int>)
    ensures t.Some? <==> (item.Page? && !isLoading)
    ensures t.Some? ==> t.value == item.n
  {
    if item.Page? && !isLoading then Some(item.n) else None
  }

  /** At most seven items, starting at page 1, ending at the last page, and showing the current page. */
  lemma WindowShape(current: int, total: int)
    requires 1 <= current <= total && total > 1
    ensures var w := PageWindow(current, total);
      && 0 < |w| <= 7
      && w[0] == Page(1) && w[|w| - 1] == Page(total)
      && Page(current) in w
  {
    var w := PageWindow(current, total);
    if total <= MaxVisible {
      assert w[current - 1] == Page(current);
    } else if current <= 3 {
      assert w[current - 1] == Page(current);
    } else if current >= total - 2 {
      assert w[current - total + 6] == Page(current);
    } else {
      assert w[3] == Page(current);
    }
  }

  /** Page numbers strictly increase along the strip and stay within `1..total`. */
  lemma WindowIncreasing(current: int, total: int)
    requires 1 <= current <= total && total > 1
    ensures var w := PageWindow(current, total);
      && (forall k :: 0 <= k < |w| && w[k].Page? ==> 1 <= w[k].n <= total)
      && (forall i, j :: 0 <= i < j < |w| && w[i].Page? && w[j].Page? ==> w[i].n < w[j].n)
  {
    var w := PageWindow(current, total);
    if total <= MaxVisible {
    } else if current <= 3 {
      assert forall k :: 0 <= k < |w| && w[k].Page? ==> w[k].n == (if k < 5 then k + 1 else total);
    } else if current >= total - 2 {
      assert forall k :: 0 <= k < |w| && w[k].Page? ==> w[k].n == (if k == 0 then 1 else total - 6 + k);
    } else {
      assert forall k :: 0 <= k < |w| && w[k].Page? ==> w[k].n == (if k == 0 then 1 else if k < 5 then current - 3 + k else total);
    }
  }

  /** The pages next to the current one are always shown, so the arrows never jump to a hidden page. */
  lemma NeighboursShown(current: int, total: int)
    requires 1 <= current <= total && total > 1
    ensures current > 1 ==> Page(current - 1) in PageWindow(current, total)
    ensures current < total ==> Page(current + 1) in PageWindow(current, total)
  {
    var w := PageWindow(current, total);
    if total <= MaxVisible || current <= 3 {
      if current > 1 { assert w[current - 2] == Page(current - 1); }
      if current < total { assert w[current] == Page(current + 1); }
    } else if current >= total - 2 {
      if current > 1 { assert w[current - total + 5] == Page(current - 1); }
      if current < total { assert w[current - total + 7] == Page(current + 1); }
    } else {
      assert w[2] == Page(current - 1) && w[4] == Page(current + 1);
    }
  }

  /** Up to five pages every page is listed and no ellipsis appears. */
  lemma SmallCountListsAll(current: int, total: int)
    requires 1 < total <= MaxVisible
    ensures forall p :: 1 <= p <= total ==> Page(p) in PageWindow(current, total)
    ensures Ellipsis !in PageWindow(current, total)
  {
    var w := PageWindow(current, total);
    forall p | 1 <= p <= total
      ensures Page(p) in w
    {
      assert w[p - 1] == Page(p);
    }
  }

  /** With six pages an ellipsis may stand between two consecutive page numbers. */
  lemma EllipsisBetweenAdjacentPages()
    ensures PageWindow(1, 6) == [Page(1), Page(2), Page(3), Page(4), Page(5), Ellipsis, Page(6)]
    ensures PageWindow(6, 6) == [Page(1), Ellipsis, Page(2), Page(3), Page(4), Page(5), Page(6)]
  {
    assert Range(1, 5) == [Page(1), Page(2), Page(3), Page(4), Page(5)];
    assert Range(2, 6) == [Page(2), Page(3), Page(4), Page(5), Page(6)];
  }
}
