/**
 * The arithmetic of the pagination control (components/commerce/pagination.tsx):
 * page numbers from offsets, the next/previous/go-to navigation, and the window
 * of page buttons with ellipses. `limit` is the page size and is positive.
 * For a positive divisor Dafny's `/` is JavaScript's `Math.floor` of the quotient.
 */
module Pagination {
  import opened Wrappers

  /** `Math.floor(offset / limit) + 1`: the page that holds item `offset`. */
  function CurrentPage(offset: int, limit: int): (p: int)
    requires limit > 0
    ensures (p - 1) * limit <= offset < p * limit
  {
    var q := offset / limit;
    assert q * limit + offset % limit == offset;
    assert (q + 1) * limit == q * limit + limit;
    q + 1
  }

  /** `Math.ceil(total / limit)`: the number of pages `total` items need. */
  function TotalPages(total: int, limit: int): (n: int)
    requires limit > 0
    ensures (n - 1) * limit < total <= n * limit
  {
    var q := (total + limit - 1) / limit;
    assert q * limit + (total + limit - 1) % limit == total + limit - 1;
    assert (q - 1) * limit == q * limit - limit;
    q
  }

  /** There is a page after this one. */
  predicate HasNext(total: int, limit: int, offset: int)
  {
    offset + limit < total
  }

  /** There is a page before this one. */
  predicate HasPrev(offset: int)
  {
    offset > 0
  }

  /** The 1-based index of the first item shown. */
  function ItemsStart(offset: int): int
  {
    offset + 1
  }

  /** The 1-based index of the last item shown: `Math.min(offset + limit, total)`. */
  function ItemsEnd(total: int, limit: int, offset: int): (e: int)
    ensures e <= total && e <= offset + limit
    ensures e == total || e == offset + limit
  {
    if offset + limit < total then offset + limit else total
  }

  /** `nextPage`: the offset to navigate to, or `None` when the button does nothing. */
  function NextPage(total: int, limit: int, offset: int): (r: Option<int>)
    ensures r.Some? <==> HasNext(total, limit, offset)
    ensures r.Some? ==> r.value == offset + limit && r.value < total
  {
    if HasNext(total, limit, offset) then Some(offset + limit) else None
  }

  /** `prevPage`: the offset to navigate to, never negative, or `None` when the button does nothing. */
  function PrevPage(limit: int, offset: int): (r: Option<int>)
    ensures r.Some? <==> HasPrev(offset)
    ensures r.Some? ==> 0 <= r.value && offset - limit <= r.value
    ensures r.Some? && limit > 0 ==> r.value < offset
    ensures r.Some? && offset >= limit ==> r.value == offset - limit
    ensures r.Some? && offset < limit ==> r.value == 0
  {
    if HasPrev(offset) then Some(if offset - limit > 0 then offset - limit else 0) else None
  }

  /** `goToPage`: the offset of the first item of `page`. */
  function GoToPage(page: int, limit: int): (offset: int)
    ensures limit > 0 ==> CurrentPage(offset, limit) == page && offset % limit == 0
  {
    var offset := (page - 1) * limit;
    if limit > 0 then
      assert offset == limit * (page - 1);
      LemmaDivExact(page - 1, limit);
      offset
    else offset
  }

  /** Dividing a multiple of `limit` by `limit` is exact. */
  lemma LemmaDivExact(q: int, limit: int)
    requires limit > 0
    ensures (q * limit) / limit == q && (q * limit) % limit == 0
  {
    var d, m := (q * limit) / limit, (q * limit) % limit;
    assert (q - d) * limit == m;
    MulCancelLess(q - d, 1, limit);
    MulCancelLess(-1, q - d, limit);
  }

  /** Multiplication by a positive number can be cancelled from a strict inequality. */
  lemma MulCancelLess(a: int, b: int, c: int)
    requires c > 0 && a * c < b * c
    ensures a < b
  {
    assert (b - a) * c == b * c - a * c;
  }

  /** While there is a next page the current page is not the last one. */
  lemma NextImpliesNotLast(total: int, limit: int, offset: int)
    requires limit > 0 && offset >= 0
    requires HasNext(total, limit, offset)
    ensures CurrentPage(offset, limit) < TotalPages(total, limit)
  {
    var p, n := CurrentPage(offset, limit), TotalPages(total, limit);
    assert (p - 1) * limit == p * limit - limit;
    MulCancelLess(p, n, limit);
  }

  /** On a page boundary, `hasNext` and `hasPrev` say exactly "not the last page" and "not the first page". */
  lemma AlignedNavigation(total: int, limit: int, offset: int)
    requires limit > 0 && offset >= 0 && offset % limit == 0
    ensures HasNext(total, limit, offset) <==> CurrentPage(offset, limit) < TotalPages(total, limit)
    ensures HasPrev(offset) <==> CurrentPage(offset, limit) > 1
  {
    var p, n := CurrentPage(offset, limit), TotalPages(total, limit);
    PageStart(offset, limit);
    assert p * limit == offset + limit;
    if HasNext(total, limit, offset) {
      NextImpliesNotLast(total, limit, offset);
    }
    if p < n {
      MulMonotone(p, n - 1, limit);
      assert (n - 1) * limit == n * limit - limit;
    }
    if offset > 0 {
      MulCancelLess(0, p - 1, limit);
    }
    if p > 1 {
      MulMonotone(1, p - 1, limit);
    }
  }

  /** On a page boundary the offset is where its page starts. */
  lemma PageStart(offset: int, limit: int)
    requires limit > 0 && offset % limit == 0
    ensures offset == (CurrentPage(offset, limit) - 1) * limit
  {
    assert (offset / limit) * limit + offset % limit == offset;
  }

  lemma MulMonotone(a: int, b: int, c: int)
    requires c > 0 && a <= b
    ensures a * c <= b * c
  {
    assert (b - a) * c == b * c - a * c;
  }

  /** Next moves one page forward and previous one page back, from a page boundary. */
  lemma StepByOnePage(total: int, limit: int, offset: int)
    requires limit > 0 && offset >= 0 && offset % limit == 0
    ensures NextPage(total, limit, offset).Some? ==>
      CurrentPage(NextPage(total, limit, offset).value, limit) == CurrentPage(offset, limit) + 1
    ensures PrevPage(limit, offset).Some? ==>
      CurrentPage(PrevPage(limit, offset).value, limit) == CurrentPage(offset, limit) - 1
  {
    var p := CurrentPage(offset, limit);
    PageStart(offset, limit);
    assert offset + limit == p * limit;
    assert offset + limit == GoToPage(p + 1, limit);
    if offset > 0 {
      AlignedNavigation(0, limit, offset);
      MulMonotone(1, p - 1, limit);
      assert offset - limit == (p - 2) * limit;
      assert offset - limit == GoToPage(p - 1, limit);
    }
  }

  /** The page of an item range: items `itemsStart..itemsEnd` are `min(limit, total - offset)` items. */
  lemma ItemsShown(total: int, limit: int, offset: int)
    requires limit > 0 && 0 <= offset < total
    ensures ItemsEnd(total, limit, offset) - ItemsStart(offset) + 1 ==
      (if total - offset < limit then total - offset else limit)
  {
  }

  // ---------------------------------------------------------------------------
  // The window of page buttons
  // ---------------------------------------------------------------------------

  /** One entry of the page-button row. */
  datatype PageItem = Page(n: int) | Ellipsis

  /** Up to this many pages are listed without ellipses. */
  const MaxVisible: int := 5

  /** `for (let i = lo; i <= hi; i++) pages.push(i)`. */
  function Range(lo: int, hi: int): (r: seq<PageItem>)
    ensures |r| == (if hi >= lo then hi - lo + 1 else 0)
    ensures forall i :: 0 <= i < |r| ==> r[i] == Page(lo + i)
    decreases hi - lo + 1
  {
    if lo > hi then [] else [Page(lo)] + Range(lo + 1, hi)
  }

  /** `getVisiblePages`. */
  function VisiblePages(totalPages: int, currentPage: int): seq<PageItem>
  {
    if totalPages <= MaxVisible then Range(1, totalPages)
    else if currentPage <= 3 then
      Range(1, 4) + [Ellipsis, Page(totalPages)]
    else if currentPage >= totalPages - 2 then
      [Page(1), Ellipsis] + Range(totalPages - 3, totalPages)
    else
      [Page(1), Ellipsis] + Range(currentPage - 1, currentPage + 1) + [Ellipsis, Page(totalPages)]
  }

  /**
   * A row of buttons that hides nothing silently: neighbouring numbers are
   * consecutive, and an ellipsis stands between two numbers at least two apart.
   */
  ghost predicate GapsMarked(r: seq<PageItem>)
  {
    && (forall i :: 0 <= i < |r| - 1 && r[i].Page? && r[i + 1].Page? ==> r[i + 1].n == r[i].n + 1)
    && (forall i :: 0 <= i < |r| && r[i].Ellipsis? ==>
          0 < i < |r| - 1 && r[i - 1].Page? && r[i + 1].Page? && r[i + 1].n >= r[i - 1].n + 2)
  }

  /** Numbered entries strictly increase from left to right. */
  ghost predicate Increasing(r: seq<PageItem>)
  {
    forall i, j :: 0 <= i < j < |r| && r[i].Page? && r[j].Page? ==> r[i].n < r[j].n
  }

  /** Up to five pages are listed in full, with no ellipsis. */
  lemma FewPagesListedInFull(totalPages: int, currentPage: int)
    requires totalPages <= MaxVisible
    ensures var r := VisiblePages(totalPages, currentPage);
      |r| == (if totalPages > 0 then totalPages else 0) &&
      forall i :: 0 <= i < |r| ==> r[i] == Page(i + 1)
  {
  }

  /** No two ellipses stand side by side. */
  ghost predicate NoAdjacentEllipses(r: seq<PageItem>)
  {
    forall i :: 0 <= i < |r| - 1 ==> !(r[i].Ellipsis? && r[i + 1].Ellipsis?)
  }

  /** The shape of the row once there are more than five pages. */
  ghost predicate Window(r: seq<PageItem>, totalPages: int)
  {
    && (|r| == 6 || |r| == 7)
    && r[0] == Page(1) && r[|r| - 1] == Page(totalPages)
    && GapsMarked(r)
  }

  lemma NearStart(totalPages: int, currentPage: int)
    requires totalPages > MaxVisible && currentPage <= 3
    ensures Window(VisiblePages(totalPages, currentPage), totalPages)
    ensures 1 <= currentPage ==> Page(currentPage) in VisiblePages(totalPages, currentPage)
  {
    var r := VisiblePages(totalPages, currentPage);
    assert r == [Page(1), Page(2), Page(3), Page(4), Ellipsis, Page(totalPages)];
    if 1 <= currentPage {
      assert r[currentPage - 1] == Page(currentPage);
    }
  }

  lemma NearEnd(totalPages: int, currentPage: int)
    requires totalPages > MaxVisible && 3 < currentPage && currentPage >= totalPages - 2
    ensures Window(VisiblePages(totalPages, currentPage), totalPages)
    ensures currentPage <= totalPages ==> Page(currentPage) in VisiblePages(totalPages, currentPage)
  {
    var r := VisiblePages(totalPages, currentPage);
    assert r == [Page(1), Ellipsis, Page(totalPages - 3), Page(totalPages - 2), Page(totalPages - 1), Page(totalPages)];
    TailWindow(totalPages);
    if currentPage <= totalPages {
      assert r[currentPage - totalPages + 5] == Page(currentPage);
    }
  }

  /** The row shown near the last page has the window shape. */
  lemma TailWindow(totalPages: int)
    requires totalPages > MaxVisible
    ensures Window([Page(1), Ellipsis, Page(totalPages - 3), Page(totalPages - 2), Page(totalPages - 1), Page(totalPages)], totalPages)
  {
  }

  lemma InTheMiddle(totalPages: int, currentPage: int)
    requires totalPages > MaxVisible && 3 < currentPage < totalPages - 2
    ensures Window(VisiblePages(totalPages, currentPage), totalPages)
    ensures Page(currentPage) in VisiblePages(totalPages, currentPage)
  {
    var r := VisiblePages(totalPages, currentPage);
    assert r == [Page(1), Ellipsis, Page(currentPage - 1), Page(currentPage), Page(currentPage + 1), Ellipsis, Page(totalPages)];
    assert r[3] == Page(currentPage);
  }

  /**
   * Beyond five pages the row has six or seven entries, runs from page 1 to the
   * last page, marks every gap with one ellipsis, and shows the current page.
   */
  lemma ManyPagesWindow(totalPages: int, currentPage: int)
    requires totalPages > MaxVisible
    ensures var r := VisiblePages(totalPages, currentPage);
      && Window(r, totalPages)
      && Increasing(r)
      && NoAdjacentEllipses(r)
      && (1 <= currentPage <= totalPages ==> Page(currentPage) in r)
  {
    var r := VisiblePages(totalPages, currentPage);
    if currentPage <= 3 {
      NearStart(totalPages, currentPage);
    } else if currentPage >= totalPages - 2 {
      NearEnd(totalPages, currentPage);
    } else {
      InTheMiddle(totalPages, currentPage);
    }
    GapsMarkedIncreasing(r);
    GapsMarkedSeparated(r);
  }

  /** An ellipsis is always followed by a number. */
  lemma GapsMarkedSeparated(r: seq<PageItem>)
    requires GapsMarked(r)
    ensures NoAdjacentEllipses(r)
  {
    forall i | 0 <= i < |r| - 1
      ensures !(r[i].Ellipsis? && r[i + 1].Ellipsis?)
    {
      if r[i].Ellipsis? {
        assert r[i + 1].Page?;
      }
    }
  }

  /** A row that marks its gaps has increasing numbers. */
  lemma {:induction false} GapsMarkedIncreasing(r: seq<PageItem>)
    requires GapsMarked(r) && |r| > 0 && r[0].Page?
    ensures Increasing(r)
  {
    forall i, j | 0 <= i < j < |r| && r[i].Page? && r[j].Page?
      ensures r[i].n < r[j].n
    {
      StepUp(r, i, j);
    }
  }

  lemma {:induction false} StepUp(r: seq<PageItem>, i: int, j: int)
    requires GapsMarked(r) && 0 <= i < j < |r| && r[i].Page? && r[j].Page?
    ensures r[i].n < r[j].n
    decreases j - i
  {
    if r[i + 1].Page? {
      if i + 1 < j {
        StepUp(r, i + 1, j);
      }
    } else {
      assert i + 1 < |r| - 1 by {
        assert r[j].Page? && i + 1 != j;
      }
      if i + 2 < j {
        StepUp(r, i + 2, j);
      }
    }
  }
}
