/**
 * The pagination arithmetic shared by the item table
 * (`src/components/admin/data-view.tsx`) and the disagreement table
 * (`src/components/admin/disagreement-table.tsx`): `Math.ceil(n / rows)`
 * pages, the page slice `[(page - 1) * rows, page * rows)` taken with
 * `Array.prototype.slice`, and the clamped next/previous steps.
 */
module Paging {

  /** `Math.ceil(n / rows)` for a positive page size. */
  function TotalPages(n: nat, rows: nat): nat
    requires rows > 0
  {
    (n + rows - 1) / rows
  }

  /** The page count is the least number of pages of `rows` items that hold `n` items. */
  lemma TotalPagesIsCeiling(n: nat, rows: nat)
    requires rows > 0
    ensures TotalPages(n, rows) * rows >= n
    ensures n > 0 ==> (TotalPages(n, rows) - 1) * rows < n
    ensures TotalPages(n, rows) == 0 <==> n == 0
  {
    var t := TotalPages(n, rows);
    assert (n + rows - 1) == t * rows + (n + rows - 1) % rows;
  }

  /** How `slice` reads an index: negative counts from the end, and both are clamped to `[0, len]`. */
  function SliceIndex(i: int, len: nat): (k: nat)
    ensures k <= len
  {
    if i < 0 then (if len + i < 0 then 0 else len + i)
    else if i > len then len
    else i
  }

  /** `s.slice(start, end)`. */
  function Slice<T>(s: seq<T>, start: int, end: int): seq<T> {
    var a, b := SliceIndex(start, |s|), SliceIndex(end, |s|);
    if a < b then s[a..b] else []
  }

  /** `s.slice((page - 1) * rows, (page - 1) * rows + rows)`. */
  function Page<T>(s: seq<T>, page: int, rows: nat): seq<T> {
    Slice(s, (page - 1) * rows, (page - 1) * rows + rows)
  }

  /** A slice `r` from a non-negative `start` of length `rows` holds at most `rows` items, the ones from `start` on. */
  lemma SliceFrom<T>(s: seq<T>, start: nat, rows: nat, r: seq<T>)
    requires r == Slice(s, start, start + rows)
    ensures |r| <= rows
    ensures r != [] ==> start + |r| <= |s|
    ensures forall j :: 0 <= j < |r| ==> r[j] == s[start + j]
    ensures start + rows <= |s| ==> |r| == rows
  {
    if start < |s| {
      var end := if start + rows <= |s| then start + rows else |s|;
      assert r == s[start..end];
    }
  }

  /** The index a page from 1 on starts at, as a natural number. */
  function PageStart(before: nat, rows: nat): (start: nat)
    ensures start == before * rows
  {
    before * rows
  }

  /** A page from 1 on holds at most `rows` items, the ones from `(page - 1) * rows` on, in order. */
  lemma PageContents<T>(s: seq<T>, page: int, rows: nat)
    requires page >= 1
    ensures |Page(s, page, rows)| <= rows
    ensures Page(s, page, rows) != [] ==> (page - 1) * rows + |Page(s, page, rows)| <= |s|
    ensures forall j :: 0 <= j < |Page(s, page, rows)| ==> Page(s, page, rows)[j] == s[(page - 1) * rows + j]
    ensures (page - 1) * rows + rows <= |s| ==> |Page(s, page, rows)| == rows
  {
    var start := PageStart(page - 1, rows);
    SliceFrom(s, start, rows, Page(s, page, rows));
  }

  /** Every item is on page `k / rows + 1`, at position `k % rows`, and that page is one of the pages. */
  lemma ItemOnItsPage<T>(s: seq<T>, k: nat, rows: nat)
    requires rows > 0 && k < |s|
    ensures 1 <= k / rows + 1 <= TotalPages(|s|, rows)
    ensures k % rows < |Page(s, k / rows + 1, rows)|
    ensures Page(s, k / rows + 1, rows)[k % rows] == s[k]
  {
    var p, q := k / rows, k % rows;
    assert k == p * rows + q;
    assert (p + 1 - 1) * rows == p * rows;
    PageContents(s, p + 1, rows);
    var start := p * rows;
    assert start <= k < start + rows;
    assert SliceIndex(start, |s|) == start;
    assert start < SliceIndex(start + rows, |s|);
    PageBelowTotal(|s|, k, rows);
  }

  lemma PageBelowTotal(n: nat, k: nat, rows: nat)
    requires rows > 0 && k < n
    ensures k / rows + 1 <= TotalPages(n, rows)
  {
    var t := TotalPages(n, rows);
    TotalPagesIsCeiling(n, rows);
    var p := k / rows;
    assert p * rows <= k by {
      assert k == p * rows + k % rows;
    }
    if p + 1 > t {
      MulMonotone(t, p, rows);
    }
  }

  lemma MulMonotone(a: nat, b: nat, c: nat)
    requires a <= b
    ensures a * c <= b * c
  {
  }

  /** `Math.min(page + 1, totalPages)`. */
  function NextPage(page: int, totalPages: int): int {
    if page + 1 < totalPages then page + 1 else totalPages
  }

  /** `Math.max(page - 1, 1)`. */
  function PreviousPage(page: int): int {
    if page - 1 > 1 then page - 1 else 1
  }

  /**
   * Stepping never passes the last page nor goes below the first, and from a
   * page in `[1, totalPages]` both steps land in `[1, totalPages]`, moving by
   * one unless already at the end.
   */
  lemma NavigationStaysInRange(page: int, totalPages: int)
    ensures NextPage(page, totalPages) <= totalPages
    ensures PreviousPage(page) >= 1
    ensures 1 <= page <= totalPages ==> 1 <= NextPage(page, totalPages) <= totalPages && 1 <= PreviousPage(page) <= totalPages
    ensures page < totalPages ==> NextPage(page, totalPages) == page + 1
    ensures page > 1 ==> PreviousPage(page) == page - 1
  {
  }
}
