/**
 * The macOS `Pagination` helper (50 items a page) and the enablement rules
 * of `PaginationView`'s previous/next buttons.
 */
module Pagination {
  const PageSize: nat := 50

  function Min(a: int, b: int): int { if a <= b then a else b }

  /** `totalPages(for:)`: `max(1, ceil(count / 50))`, the ceiling taken on integers. */
  function TotalPages(count: nat): (r: nat)
    ensures r >= 1
    ensures count <= r * PageSize
    ensures r == 1 || (r - 1) * PageSize < count
  {
    var pages := (count + PageSize - 1) / PageSize;
    if pages < 1 then 1 else pages
  }

  /**
   * `page(items, page:)`: the items from `(page - 1) * 50` up to fifty
   * further, or none when that start is past the end. A page below 1
   * makes the start negative and traps in the slice, so it is excluded.
   */
  function Page<T>(items: seq<T>, page: int): (r: seq<T>)
    requires page >= 1
    ensures |r| <= PageSize
    ensures (page - 1) * PageSize >= |items| ==> r == []
    ensures (page - 1) * PageSize < |items| ==> |r| == Min(PageSize, |items| - (page - 1) * PageSize)
    ensures forall k :: 0 <= k < |r| ==> r[k] == items[(page - 1) * PageSize + k]
  {
    var start := (page - 1) * PageSize;
    var end := Min(start + PageSize, |items|);
    if start < |items| then items[start..end] else []
  }

  /** Pages `first` through `last`, one after the other. */
  function Pages<T>(items: seq<T>, first: nat, last: nat): seq<T>
    requires first >= 1
    decreases last + 1 - first
  {
    if first > last then [] else Page(items, first) + Pages(items, first + 1, last)
  }

  lemma {:induction false} PagesFrom<T>(items: seq<T>, from: nat)
    requires from >= 1 && (from - 1) * PageSize <= |items|
    ensures Pages(items, from, TotalPages(|items|)) == items[(from - 1) * PageSize..]
    decreases TotalPages(|items|) + 1 - from
  {
    var total := TotalPages(|items|);
    var start := (from - 1) * PageSize;
    if from > total {
      assert start >= |items|;
    } else if start + PageSize >= |items| {
      assert from == total;
      assert Pages(items, from + 1, total) == [];
      assert Page(items, from) == items[start..] || start == |items|;
    } else {
      PagesFrom(items, from + 1);
      assert items[start..] == items[start..start + PageSize] + items[start + PageSize..];
    }
  }

  /** The pages 1 through `totalPages` concatenate back to exactly the item list. */
  lemma PagesCoverItems<T>(items: seq<T>)
    ensures Pages(items, 1, TotalPages(|items|)) == items
  {
    PagesFrom(items, 1);
  }

  /** Item `i` is on page `i / 50 + 1`, which exists, at position `i % 50`. */
  lemma ItemPage<T>(items: seq<T>, i: nat)
    requires i < |items|
    ensures 1 <= i / PageSize + 1 <= TotalPages(|items|)
    ensures (i % PageSize) < |Page(items, i / PageSize + 1)|
    ensures Page(items, i / PageSize + 1)[i % PageSize] == items[i]
  {
    var p := i / PageSize + 1;
    assert (p - 1) * PageSize + i % PageSize == i;
  }

  // ---------------------------------------------------------------- PaginationView

  /** The control is shown only when there is more than one page. */
  predicate ShowsControls(totalPages: int) { totalPages > 1 }

  /** The previous button is disabled when `currentPage <= 1`. */
  predicate PreviousEnabled(currentPage: int) { !(currentPage <= 1) }

  /** The next button is disabled when `currentPage >= totalPages`. */
  predicate NextEnabled(currentPage: int, totalPages: int) { !(currentPage >= totalPages) }

  /** From a page in range, an enabled previous or next button leads to a page in range. */
  lemma ButtonsStayInRange(currentPage: int, totalPages: int)
    requires 1 <= currentPage <= totalPages
    ensures PreviousEnabled(currentPage) ==> 1 <= currentPage - 1 <= totalPages
    ensures NextEnabled(currentPage, totalPages) ==> 1 <= currentPage + 1 <= totalPages
    ensures !ShowsControls(totalPages) ==> !PreviousEnabled(currentPage) && !NextEnabled(currentPage, totalPages)
  {
  }
}
