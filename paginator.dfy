/**
 * TablePaginator: the page count by ceiling division, the clamp of the requested page, the
 * window of rows a page shows, and the next/previous queries.
 */
module Paging {
  import opened Wrappers
  import opened Values

  /** PHP's `max` and `min` on two integers. */
  function Max(a: int, b: int): (m: int)
    ensures m >= a && m >= b && (m == a || m == b)
  {
    if a >= b then a else b
  }

  function Min(a: int, b: int): (m: int)
    ensures m <= a && m <= b && (m == a || m == b)
  {
    if a <= b then a else b
  }

  /**
   * `ceil($n / $d)` for a count n and a non-zero divisor d: the least integer p with n <= p * d
   * when d is positive, and with p * d <= n when d is negative.
   */
  function CeilDiv(n: nat, d: int): (p: int)
    requires d != 0
    ensures d > 0 ==> (p - 1) * d < n <= p * d
    ensures d < 0 ==> p * d <= n < (p - 1) * d
  {
    if d > 0 then (n + d - 1) / d else -(n / -d)
  }

  /** With a positive divisor the page count is never negative, and it is 0 exactly for no rows. */
  lemma {:induction false} CeilDivPositive(n: nat, d: int)
    requires d > 0
    ensures CeilDiv(n, d) >= 0
    ensures CeilDiv(n, d) == 0 <==> n == 0
    ensures n > 0 ==> CeilDiv(n, d) >= 1
  {
    var p := CeilDiv(n, d);
    if p == 0 {
      assert n <= 0;
    }
  }

  /**
   * `max(1, min($requested, $count))`: the requested page where it lies in 1..count, the nearer
   * end otherwise, and page 1 when there is no page at all.
   */
  function ClampPage(requested: int, count: int): (p: int)
    ensures p >= 1
    ensures count >= 1 ==> p <= count
    ensures 1 <= requested <= count ==> p == requested
    ensures requested < 1 || count < 1 ==> p == 1
    ensures count >= 1 && requested > count ==> p == count
  {
    Max(1, Min(requested, count))
  }

  /**
   * `array_slice($s, $offset, $len)` for a non-negative offset and length: the rows from offset
   * on, at most len of them; nothing when the offset lies past the end.
   */
  function Slice(s: seq<Row>, offset: nat, len: nat): (r: seq<Row>)
    ensures offset >= |s| ==> r == []
    ensures offset < |s| ==> |r| == Min(len, |s| - offset)
    ensures forall i :: 0 <= i < |r| ==> offset + i < |s| && r[i] == s[offset + i]
  {
    if offset >= |s| then []
    else if offset + len <= |s| then s[offset..offset + len]
    else s[offset..]
  }

  /** The rows of page p (counted from 1) with rpp rows per page. */
  function Page(s: seq<Row>, rpp: nat, p: int): seq<Row>
    requires rpp > 0 && p >= 1
  {
    Slice(s, (p - 1) * rpp, rpp)
  }

  /** Pages 1 to m, one after the other. */
  function PagesUpTo(s: seq<Row>, rpp: nat, m: nat): seq<Row>
    requires rpp > 0
  {
    if m == 0 then [] else PagesUpTo(s, rpp, m - 1) + Page(s, rpp, m)
  }

  lemma MulStep(m: int, rpp: int)
    ensures (m - 1) * rpp + rpp == m * rpp
  {
  }

  lemma MulMonotone(a: int, b: int, c: nat)
    requires a <= b
    ensures a * c <= b * c
  {
  }

  /** The rows before `lo`, followed by the window of len rows from lo, are the rows before lo + len. */
  lemma {:induction false} SliceExtends(s: seq<Row>, lo: nat, len: nat)
    ensures (if lo <= |s| then s[..lo] else s) + Slice(s, lo, len) == (if lo + len <= |s| then s[..lo + len] else s)
  {
    if lo + len <= |s| {
      assert s[..lo + len] == s[..lo] + s[lo..lo + len];
    } else if lo < |s| {
      assert s == s[..lo] + s[lo..];
    }
  }

  /** Pages 1 to m hold the first m * rpp rows, in order, with no gap and no overlap. */
  lemma {:induction false} PagesUpToPrefix(s: seq<Row>, rpp: nat, m: nat)
    requires rpp > 0
    ensures PagesUpTo(s, rpp, m) == if m * rpp <= |s| then s[..m * rpp] else s
  {
    if m > 0 {
      PagesUpToPrefix(s, rpp, m - 1);
      MulStep(m, rpp);
      SliceExtends(s, (m - 1) * rpp, rpp);
    }
  }

  /** Concatenating every page from 1 to the page count gives back all the rows. */
  lemma {:induction false} PagesCoverData(s: seq<Row>, rpp: nat)
    requires rpp > 0
    ensures PagesUpTo(s, rpp, CeilDiv(|s|, rpp)) == s
  {
    CeilDivPositive(|s|, rpp);
    var m := CeilDiv(|s|, rpp);
    PagesUpToPrefix(s, rpp, m);
    if m * rpp <= |s| {
      assert m * rpp == |s|;
    }
  }

  class TablePaginator {
    var data: seq<Row>
    var currentPage: int
    var rowsPerPage: int
    /** `null` until a positive row count per page stores the page count. */
    var totalPages: Option<int>

    /** The state the constructor leaves: the page count stored for a positive row count, the page clamped. */
    predicate Valid()
      reads this
    {
      && currentPage >= 1
      && (rowsPerPage <= 0 ==> totalPages.None? && currentPage == 1)
      && (rowsPerPage > 0 ==> totalPages == Some(CeilDiv(|data|, rowsPerPage)))
      && (rowsPerPage > 0 && data != [] ==> currentPage <= totalPages.value)
    }

    /**
     * The constructor: the page count is computed (and stored for a positive row count), and the
     * requested page is clamped to `max(1, min(requested, count))`, where the count is 1 when the
     * row count per page is not positive.
     */
    constructor (data: seq<Row>, currentPage: int, rowsPerPage: int)
      ensures this.data == data && this.rowsPerPage == rowsPerPage
      ensures totalPages == if rowsPerPage <= 0 then None else Some(CeilDiv(|data|, rowsPerPage))
      ensures this.currentPage == ClampPage(currentPage, if rowsPerPage <= 0 then 1 else CeilDiv(|data|, rowsPerPage))
      ensures rowsPerPage > 0 && data == [] ==> totalPages == Some(0) && this.currentPage == 1
      ensures Valid()
    {
      this.data := data;
      this.rowsPerPage := rowsPerPage;
      this.totalPages := None;
      this.currentPage := 1;
      new;
      var count := CalculateTotalPages();
      this.currentPage := ClampPage(currentPage, count);
      if rowsPerPage > 0 {
        CeilDivPositive(|data|, rowsPerPage);
      }
    }

    /** `calculateTotalPages`: 1 for a row count that is not positive (nothing stored), else the ceiling. */
    method CalculateTotalPages() returns (count: int)
      modifies this`totalPages
      ensures rowsPerPage <= 0 ==> count == 1 && totalPages == old(totalPages)
      ensures rowsPerPage > 0 ==> count == CeilDiv(|data|, rowsPerPage) && totalPages == Some(count)
    {
      if rowsPerPage <= 0 {
        return 1;
      }
      totalPages := Some(CeilDiv(|data|, rowsPerPage));
      count := totalPages.value;
    }

    /**
     * `paginate`: all the rows when the row count per page is not positive; otherwise the rows of
     * the current page, which lie within the data for a non-empty set.
     */
    function Paginate(): (r: seq<Row>)
      reads this
      requires Valid()
      ensures rowsPerPage <= 0 ==> r == data
      ensures rowsPerPage > 0 ==> r == Page(data, rowsPerPage, currentPage)
      ensures rowsPerPage > 0 && data != [] ==> 1 <= |r| <= rowsPerPage
    {
      if rowsPerPage <= 0 then data
      else
        var offset := (currentPage - 1) * rowsPerPage;
        assert data != [] ==> offset < |data| by {
          if data != [] {
            MulMonotone(currentPage - 1, CeilDiv(|data|, rowsPerPage) - 1, rowsPerPage);
          }
        }
        Slice(data, offset, rowsPerPage)
    }

    /** `hasNextPage`: true exactly when `getNextPage` moves one page on. */
    function HasNextPage(): (b: bool)
      reads this
      ensures b <==> GetNextPage() == Some(currentPage + 1)
      ensures b ==> totalPages.Some? && currentPage < totalPages.value
    {
      totalPages.Some? && currentPage < totalPages.value
    }

    /** `hasPreviousPage`: true exactly when `getPreviousPage` moves one page back. */
    function HasPreviousPage(): (b: bool)
      reads this
      ensures b <==> GetPreviousPage() == currentPage - 1
      ensures b <==> currentPage > 1
    {
      currentPage > 1
    }

    /**
     * `getNextPage`: `min(currentPage + 1, totalPages)`; `null` while no page count is stored,
     * since PHP's `min` of an integer and `null` is `null`.
     */
    function GetNextPage(): (p: Option<int>)
      reads this
      ensures totalPages.None? <==> p.None?
      ensures p.Some? ==> p.value <= currentPage + 1 && p.value <= totalPages.value
      ensures p.Some? ==> p.value == currentPage + 1 || p.value == totalPages.value
      ensures Valid() && data != [] && p.Some? ==> 1 <= p.value <= totalPages.value
    {
      if totalPages.None? then None else Some(Min(currentPage + 1, totalPages.value))
    }

    /** `getPreviousPage`: `max(currentPage - 1, 1)`, never below the first page. */
    function GetPreviousPage(): (p: int)
      reads this
      ensures p >= 1 && p >= currentPage - 1
      ensures p == currentPage - 1 || p == 1
      ensures currentPage > 1 ==> p == currentPage - 1
      ensures currentPage <= 1 ==> p == 1
      ensures Valid() ==> p <= currentPage
    {
      Max(currentPage - 1, 1)
    }
  }
}
