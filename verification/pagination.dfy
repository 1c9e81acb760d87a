/**
  Pagination arithmetic of the catalog view: a fixed page size, the page count
  `Math.ceil(n / ITEMS_PER_PAGE)`, and the visible slice
  `filtered.slice((page - 1) * ITEMS_PER_PAGE, page * ITEMS_PER_PAGE)`.
 */
module Pagination {

  const ItemsPerPage: nat := 6

  function Min(a: int, b: int): int {
    if a <= b then a else b
  }

  function Max(a: int, b: int): int {
    if a <= b then b else a
  }

  /** The number of pages needed for `count` items: the least page count whose pages hold them all. */
  function TotalPages(count: nat): (r: nat)
    ensures count <= r * ItemsPerPage
    ensures r > 0 ==> (r - 1) * ItemsPerPage < count
    ensures r == 0 <==> count == 0
  {
    (count + ItemsPerPage - 1) / ItemsPerPage
  }

  /**
    How `Array.prototype.slice` turns an index argument into a position in a
    sequence of length `len`: a negative index counts back from the end, and
    the result is clamped to `[0, len]`.
   */
  function RelativeIndex(i: int, len: nat): (r: nat)
    ensures r <= len
  {
    if i < 0 then Max(len + i, 0) else Min(i, len)
  }

  /**
    Between two index arguments on the same side of zero, moving right never
    moves the position left, nor further right than the index moved.
   */
  lemma RelativeIndexMonotonic(i: int, j: int, len: nat)
    ensures i <= j && (0 <= i || j < 0) ==> RelativeIndex(i, len) <= RelativeIndex(j, len)
    ensures i <= j && (0 <= i || j < 0) ==> RelativeIndex(j, len) - RelativeIndex(i, len) <= j - i
  {
  }

  /** `s.slice(start, end)` with the JavaScript rules for negative and out-of-range arguments. */
  function JsSlice<T>(s: seq<T>, start: int, end: int): (r: seq<T>)
    ensures |r| <= |s|
    ensures 0 <= start <= end ==> r == s[Min(start, |s|)..Min(end, |s|)]
    ensures start <= end < 0 ==> |r| <= end - start
    ensures end == 0 ==> r == []
  {
    var from := RelativeIndex(start, |s|);
    var to := RelativeIndex(end, |s|);
    RelativeIndexMonotonic(start, end, |s|);
    if from < to then s[from..to] else []
  }

  function StartIndex(page: int): int {
    (page - 1) * ItemsPerPage
  }

  function EndIndex(page: int): int {
    StartIndex(page) + ItemsPerPage
  }

  /** The items shown on `page`: never more than a page's worth. */
  function PageItems<T>(filtered: seq<T>, page: int): (r: seq<T>)
    ensures |r| <= ItemsPerPage
    ensures page >= 1 ==> r == filtered[Min(StartIndex(page), |filtered|)..Min(EndIndex(page), |filtered|)]
  {
    JsSlice(filtered, StartIndex(page), EndIndex(page))
  }

  /**
    Every page from 1 to the last is non-empty, every page before the last is
    full, and every page after the last is empty.
   */
  lemma PageOccupancy<T>(filtered: seq<T>, page: int)
    requires page >= 1
    ensures page <= TotalPages(|filtered|) ==> |PageItems(filtered, page)| > 0
    ensures page < TotalPages(|filtered|) ==> |PageItems(filtered, page)| == ItemsPerPage
    ensures page > TotalPages(|filtered|) ==> PageItems(filtered, page) == []
  {
  }

  /** Pages 1 through `k`, concatenated in order. */
  function PagesUpTo<T>(filtered: seq<T>, k: nat): seq<T> {
    if k == 0 then [] else PagesUpTo(filtered, k - 1) + PageItems(filtered, k)
  }

  /** The first `k` pages together are the first `k` pages' worth of items. */
  lemma {:induction false} PagesUpToIsPrefix<T>(filtered: seq<T>, k: nat)
    ensures PagesUpTo(filtered, k) == filtered[..Min(k * ItemsPerPage, |filtered|)]
  {
    if k > 0 {
      PagesUpToIsPrefix(filtered, k - 1);
      assert StartIndex(k) == (k - 1) * ItemsPerPage;
      var a := Min((k - 1) * ItemsPerPage, |filtered|);
      var b := Min(k * ItemsPerPage, |filtered|);
      assert filtered[..b] == filtered[..a] + filtered[a..b];
    }
  }

  /** The pages 1 to `TotalPages` partition the filtered list: their concatenation is the list itself. */
  lemma PagesPartition<T>(filtered: seq<T>)
    ensures PagesUpTo(filtered, TotalPages(|filtered|)) == filtered
  {
    PagesUpToIsPrefix(filtered, TotalPages(|filtered|));
  }
}
