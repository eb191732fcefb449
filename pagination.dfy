/**
 * `getPaginatedItems`: one page of a list plus its bookkeeping. JavaScript
 * numbers are modelled as integers; the defaults, lodash's `_.drop`,
 * `Array.prototype.slice` and `Math.ceil` keep their behaviour on zero and
 * negative arguments.
 */
module Pagination {

  datatype PageResult<T> = PageResult(page: int, pageSize: int, total: nat, totalPages: int, data: seq<T>)

  function Min(a: int, b: int): int { if a <= b then a else b }
  function Max(a: int, b: int): int { if a >= b then a else b }

  /** `n || d` for a number `n`: zero is falsy and is replaced by the default. */
  function OrDefault(n: int, d: int): int {
    if n == 0 then d else n
  }

  /** lodash `_.drop(s, n)`: a negative count drops nothing. */
  function Drop<T>(s: seq<T>, n: int): seq<T> {
    if n <= 0 then s else if n >= |s| then [] else s[n..]
  }

  /** `s.slice(0, end)`: a negative end counts back from the end of `s`. */
  function SliceTo<T>(s: seq<T>, end: int): seq<T> {
    if end >= |s| then s
    else if end >= 0 then s[..end]
    else if |s| + end > 0 then s[..|s| + end]
    else []
  }

  /** `Math.ceil(n / d)` for a natural `n` and a non-zero integer `d`. */
  function CeilDiv(n: nat, d: int): (q: int)
    requires d != 0
    ensures d > 0 ==> 0 <= q && (q - 1) * d < n <= q * d
    ensures d < 0 ==> q <= 0 && q * d <= n < (q - 1) * d
  {
    if d > 0 then
      var q := (n + d - 1) / d;
      assert n + d - 1 == q * d + (n + d - 1) % d;
      q
    else
      var f := n / -d;
      assert n == f * -d + n % -d;
      -f
  }

  /** `getPaginatedItems(items, page, pageSize)`. */
  function GetPaginatedItems<T>(items: seq<T>, page: int, pageSize: int): (r: PageResult<T>)
    ensures r.page != 0 && r.pageSize != 0
    ensures r.total == |items|
    ensures |r.data| <= |items|
  {
    var pg := OrDefault(page, 1);
    var pgSize := OrDefault(pageSize, 100);
    var offset := (pg - 1) * pgSize;
    PageResult(pg, pgSize, |items|, CeilDiv(|items|, pgSize), SliceTo(Drop(items, offset), pgSize))
  }

  /** A zero page means page 1 and a zero page size means 100. */
  lemma PageDefaults<T>(items: seq<T>, page: int, pageSize: int)
    ensures GetPaginatedItems(items, page, pageSize).page == if page == 0 then 1 else page
    ensures GetPaginatedItems(items, page, pageSize).pageSize == if pageSize == 0 then 100 else pageSize
  {
  }

  /**
   * For a page from 1 on and a positive size, the page is the contiguous slice
   * `items[(pg-1)*size .. pg*size]` cut off at the end of the list, so a page
   * past the end is empty rather than an error.
   */
  lemma PageIsSlice<T>(items: seq<T>, page: int, pageSize: int)
    requires page >= 0 && pageSize >= 0
    ensures var r := GetPaginatedItems(items, page, pageSize);
            var offset := (r.page - 1) * r.pageSize;
            && 0 <= offset
            && r.data == items[Min(offset, |items|)..Min(offset + r.pageSize, |items|)]
            && |r.data| == Min(r.pageSize, Max(0, |items| - offset))
            && (offset >= |items| ==> r.data == [])
  {
    var r := GetPaginatedItems(items, page, pageSize);
    var offset := (r.page - 1) * r.pageSize;
    assert r.page >= 1 && r.pageSize >= 1;
    assert 0 <= offset by {
      NonNegativeProduct(r.page - 1, r.pageSize);
    }
    var dropped := Drop(items, offset);
    assert dropped == items[Min(offset, |items|)..];
  }

  /** The same slice, stated directly in the page and the size a caller passes from page 1 on. */
  lemma PageFromOneIsSlice<T>(items: seq<T>, page: int, pageSize: int)
    requires page >= 1 && pageSize >= 1
    ensures 0 <= (page - 1) * pageSize
    ensures GetPaginatedItems(items, page, pageSize).data
            == items[Min((page - 1) * pageSize, |items|)..Min((page - 1) * pageSize + pageSize, |items|)]
  {
    PageIsSlice(items, page, pageSize);
  }

  lemma NonNegativeProduct(a: nat, b: nat)
    ensures a * b >= 0
  {
  }

  /** A negative page is truthy, its offset is negative and nothing is dropped: it shows page 1. */
  lemma NegativePageShowsFirstPage<T>(items: seq<T>, page: int, pageSize: int)
    requires page < 0 && pageSize >= 0
    ensures GetPaginatedItems(items, page, pageSize).data == GetPaginatedItems(items, 1, pageSize).data
  {
    var pgSize := OrDefault(pageSize, 100);
    assert (page - 1) * pgSize <= 0 by {
      NonNegativeProduct(1 - page, pgSize);
    }
  }

  /**
   * `total_pages` is the ceiling of `total / pageSize`: the fewest pages of
   * that size that hold every item, which is 0 for an empty list.
   */
  lemma TotalPagesIsCeiling<T>(items: seq<T>, page: int, pageSize: int)
    requires pageSize >= 0
    ensures var r := GetPaginatedItems(items, page, pageSize);
            && r.totalPages >= 0
            && (r.totalPages == 0 <==> |items| == 0)
            && |items| <= r.totalPages * r.pageSize
            && (r.totalPages - 1) * r.pageSize < |items|
  {
    var r := GetPaginatedItems(items, page, pageSize);
    assert r.pageSize >= 1;
    if r.totalPages > 0 {
      NonNegativeProduct(r.totalPages - 1, r.pageSize);
    }
  }

  /** Pages 1 to n of `items`, concatenated. */
  ghost function Pages<T>(items: seq<T>, pageSize: int, n: nat): seq<T>
  {
    if n == 0 then [] else Pages(items, pageSize, n - 1) + GetPaginatedItems(items, n, pageSize).data
  }

  /** Consecutive pages tile the list: pages 1 to n are its first n * size items. */
  lemma {:induction false} PagesTileItems<T>(items: seq<T>, pageSize: int, n: nat)
    requires pageSize > 0
    ensures Pages(items, pageSize, n) == items[..Min(n * pageSize, |items|)]
  {
    if n > 0 {
      PagesTileItems(items, pageSize, n - 1);
      PageIsSlice(items, n, pageSize);
      var lo := (n - 1) * pageSize;
      var hi := n * pageSize;
      assert lo + pageSize == hi by {
        MultiplyStep(n, pageSize);
      }
      NonNegativeProduct(n - 1, pageSize);
      AdjacentSlices(items, Min(lo, |items|), Min(hi, |items|));
    }
  }

  lemma MultiplyStep(n: int, d: int)
    ensures (n - 1) * d + d == n * d
  {
  }

  lemma AdjacentSlices<T>(s: seq<T>, lo: nat, hi: nat)
    requires lo <= hi <= |s|
    ensures s[..lo] + s[lo..hi] == s[..hi]
  {
  }

  /** The `total_pages` pages together hold exactly the list, in order. */
  lemma AllPagesAreTheItems<T>(items: seq<T>, pageSize: int)
    requires pageSize > 0
    ensures var q := GetPaginatedItems(items, 1, pageSize).totalPages;
            q >= 0 && Pages(items, pageSize, q) == items
  {
    var q := GetPaginatedItems(items, 1, pageSize).totalPages;
    TotalPagesIsCeiling(items, 1, pageSize);
    PagesTileItems(items, pageSize, q);
  }

  /** With 25 items and pages of 10: three pages, page 3 holds 5 items and page 4 none. */
  lemma TwentyFiveItemsInPagesOfTen<T>(items: seq<T>)
    requires |items| == 25
    ensures GetPaginatedItems(items, 3, 10).totalPages == 3
    ensures GetPaginatedItems(items, 3, 10).data == items[20..]
    ensures GetPaginatedItems(items, 4, 10).data == []
  {
    PageIsSlice(items, 3, 10);
    PageIsSlice(items, 4, 10);
  }
}
