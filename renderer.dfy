/**
 * TableRenderer: the stand-alone renderer whose links post the page and sort state back as forms.
 * Its page bar is modelled as a sequence of tokens (the previous control, the page information,
 * the numbered pages with ellipses, the next control) and each header cell as the sort form a
 * click submits.
 */
module Renderer {
  import opened Wrappers
  import opened Text
  import opened Values
  import opened Sorting
  import opened Paging
  import opened TableConfig
  import opened TableBody
  import Table

  // ---------------------------------------------------------------- page bar

  /** The sort state a page link posts back: the column, and the direction or `''` when it is null. */
  datatype Carry = Carry(column: string, direction: string)

  datatype PageToken =
    | PrevLink(target: int, carry: Option<Carry>)
    | PrevDisabled
    | Info(current: int, total: int)
    | PageLink(page: int, carry: Option<Carry>)
    | Active(page: int)
    | Ellipsis
    | NextLink(target: int, carry: Option<Carry>)
    | NextDisabled

  /** A link of the bar: a control or a page number that posts a form. */
  predicate IsLink(t: PageToken) {
    t.PrevLink? || t.PageLink? || t.NextLink?
  }

  /** `if ($this->sortColumn)`: a link carries the sort state exactly when the column is not empty. */
  function CarryOf(sortColumn: Option<string>, sortDirection: Option<string>): (c: Option<Carry>)
    ensures c.Some? <==> sortColumn.Some? && !IsEmptyString(sortColumn.value)
    ensures c.Some? ==> c.value.column == sortColumn.value
    ensures c.Some? ==> c.value.direction == sortDirection.GetOr("")
  {
    if sortColumn.Some? && !IsEmptyString(sortColumn.value) then Some(Carry(sortColumn.value, sortDirection.GetOr("")))
    else None
  }

  /** The first page of the numbered window of a long bar: two before the current one, at least 1. */
  function WindowStart(cp: int): (st: int)
    ensures st >= 1 && st >= cp - 2
    ensures cp >= 3 ==> st == cp - 2
    ensures cp < 3 ==> st == 1
  {
    Max(1, cp - 2)
  }

  /** The last page of the window: four after its first, at most the page count. */
  function WindowEnd(cp: int, tp: int): (en: int)
    ensures en <= tp && en <= WindowStart(cp) + 4
    ensures en == tp || en == WindowStart(cp) + 4
  {
    Min(tp, WindowStart(cp) + 4)
  }

  /** Page i as a number: the current page is shown, every other one is a link. */
  function NumberToken(i: int, cp: int, carry: Option<Carry>): (t: PageToken)
    ensures t.Active? <==> i == cp
    ensures t.Active? ==> t.page == cp
    ensures t.PageLink? ==> t == PageLink(i, carry)
    ensures t.Active? || t.PageLink?
  {
    if i == cp then Active(i) else PageLink(i, carry)
  }

  /** Pages lo to hi as numbers, in order; nothing when hi < lo. */
  function Run(lo: int, hi: int, cp: int, carry: Option<Carry>): (r: seq<PageToken>)
    ensures |r| == if hi >= lo then hi - lo + 1 else 0
  {
    seq(if hi >= lo then hi - lo + 1 else 0, k => NumberToken(lo + k, cp, carry))
  }

  /** What leads a long bar's window that starts at st: the link to page 1 and, after a gap, an ellipsis. */
  function Lead(st: int, carry: Option<Carry>): seq<PageToken> {
    if st > 1 then [PageLink(1, carry)] + (if st > 2 then [Ellipsis] else []) else []
  }

  /** What follows a long bar's window that ends at en: after a gap an ellipsis, and the link to the last page. */
  function Trail(en: int, tp: int, carry: Option<Carry>): seq<PageToken> {
    if en < tp then (if en < tp - 1 then [Ellipsis] else []) + [PageLink(tp, carry)] else []
  }

  /**
   * The numbered part of the bar: every page of a bar of at most ten pages; else the window, led
   * by a link to page 1 when the window starts later (with an ellipsis when it starts after page
   * 2) and followed by a link to the last page when it ends earlier (with an ellipsis when it ends
   * before the page next to the last).
   */
  function NumberTokens(cp: int, tp: int, carry: Option<Carry>): seq<PageToken> {
    if tp <= 10 then Run(1, tp, cp, carry)
    else Lead(WindowStart(cp), carry) + Run(WindowStart(cp), WindowEnd(cp, tp), cp, carry) + Trail(WindowEnd(cp, tp), tp, carry)
  }

  /** The whole bar of `renderPagination`: nothing for at most one page. */
  function PaginationTokens(cp: int, tp: int, carry: Option<Carry>): (r: seq<PageToken>)
    ensures tp <= 1 <==> r == []
    ensures tp > 1 ==> |r| >= 3
    ensures tp > 1 ==> r[0] == (if cp > 1 then PrevLink(cp - 1, carry) else PrevDisabled)
    ensures tp > 1 ==> r[1] == Info(cp, tp)
    ensures tp > 1 ==> r[|r| - 1] == (if cp < tp then NextLink(cp + 1, carry) else NextDisabled)
  {
    if tp <= 1 then []
    else
      [if cp > 1 then PrevLink(cp - 1, carry) else PrevDisabled, Info(cp, tp)]
      + NumberTokens(cp, tp, carry)
      + [if cp < tp then NextLink(cp + 1, carry) else NextDisabled]
  }

  lemma {:induction false} LeadTokens(st: int, carry: Option<Carry>)
    ensures forall t :: t in Lead(st, carry) ==> t == PageLink(1, carry) || t == Ellipsis
  {
  }

  lemma {:induction false} TrailTokens(en: int, tp: int, carry: Option<Carry>)
    ensures forall t :: t in Trail(en, tp, carry) ==> t == PageLink(tp, carry) || t == Ellipsis
  {
  }

  /** The numbers of a run: the current page when it lies within, and links posting the sort state. */
  lemma {:induction false} RunTokens(lo: int, hi: int, cp: int, carry: Option<Carry>)
    ensures forall t :: t in Run(lo, hi, cp, carry) ==> t == Active(cp) || (t.PageLink? && t.carry == carry)
    ensures lo <= cp <= hi ==> Active(cp) in Run(lo, hi, cp, carry)
  {
    var r := Run(lo, hi, cp, carry);
    forall t | t in r ensures t == Active(cp) || (t.PageLink? && t.carry == carry) {
      var k :| 0 <= k < |r| && r[k] == t;
      assert t == NumberToken(lo + k, cp, carry);
    }
    if lo <= cp <= hi {
      assert r[cp - lo] == NumberToken(cp, cp, carry);
    }
  }

  // ---------------------------------------------------------------- the bar, page by page

  /** Whether page p gets a number: every page of a short bar; else page 1, the last page and the window. */
  predicate Listed(p: int, cp: int, tp: int) {
    tp <= 10 || p == 1 || p == tp || WindowStart(cp) <= p <= WindowEnd(cp, tp)
  }

  /** What page p contributes: its number when listed, an ellipsis when it opens a run of unlisted pages. */
  function Slot(p: int, cp: int, tp: int, carry: Option<Carry>): seq<PageToken> {
    if Listed(p, cp, tp) then [NumberToken(p, cp, carry)]
    else if Listed(p - 1, cp, tp) then [Ellipsis]
    else []
  }

  /** The contributions of pages lo to hi, in page order. */
  function Slots(lo: int, hi: int, cp: int, tp: int, carry: Option<Carry>): seq<PageToken>
    decreases if hi >= lo then hi - lo + 1 else 0
  {
    if hi < lo then [] else Slots(lo, hi - 1, cp, tp, carry) + Slot(hi, cp, tp, carry)
  }

  lemma {:induction false} RunStep(lo: int, hi: int, cp: int, carry: Option<Carry>)
    requires lo <= hi
    ensures Run(lo, hi, cp, carry) == Run(lo, hi - 1, cp, carry) + [NumberToken(hi, cp, carry)]
  {
    var a := Run(lo, hi, cp, carry);
    var b := Run(lo, hi - 1, cp, carry) + [NumberToken(hi, cp, carry)];
    assert |a| == |b|;
    forall k | 0 <= k < |a| ensures a[k] == b[k] {
      if k < |a| - 1 {
        assert b[k] == Run(lo, hi - 1, cp, carry)[k];
      }
    }
  }

  /** The contributions of lo..mid followed by those of mid+1..hi are those of lo..hi. */
  lemma {:induction false} SlotsSplit(lo: int, mid: int, hi: int, cp: int, tp: int, carry: Option<Carry>)
    requires lo - 1 <= mid <= hi
    ensures Slots(lo, hi, cp, tp, carry) == Slots(lo, mid, cp, tp, carry) + Slots(mid + 1, hi, cp, tp, carry)
    decreases hi - mid
  {
    if mid < hi {
      SlotsSplit(lo, mid, hi - 1, cp, tp, carry);
      assert Slots(lo, hi, cp, tp, carry) == Slots(lo, hi - 1, cp, tp, carry) + Slot(hi, cp, tp, carry);
      assert Slots(mid + 1, hi, cp, tp, carry) == Slots(mid + 1, hi - 1, cp, tp, carry) + Slot(hi, cp, tp, carry);
    }
  }

  /** A stretch of listed pages contributes its numbers. */
  lemma {:induction false} SlotsListed(lo: int, hi: int, cp: int, tp: int, carry: Option<Carry>)
    requires forall p :: lo <= p <= hi ==> Listed(p, cp, tp)
    ensures Slots(lo, hi, cp, tp, carry) == Run(lo, hi, cp, carry)
    decreases if hi >= lo then hi - lo + 1 else 0
  {
    if lo <= hi {
      SlotsListed(lo, hi - 1, cp, tp, carry);
      RunStep(lo, hi, cp, carry);
      assert Listed(hi, cp, tp);
    }
  }

  /** A run of unlisted pages after a listed one contributes a single ellipsis. */
  lemma {:induction false} SlotsHidden(lo: int, hi: int, cp: int, tp: int, carry: Option<Carry>)
    requires lo <= hi && Listed(lo - 1, cp, tp)
    requires forall p :: lo <= p <= hi ==> !Listed(p, cp, tp)
    ensures Slots(lo, hi, cp, tp, carry) == [Ellipsis]
    decreases hi - lo
  {
    assert !Listed(hi, cp, tp);
    if lo < hi {
      SlotsHidden(lo, hi - 1, cp, tp, carry);
      assert !Listed(hi - 1, cp, tp);
      assert Slot(hi, cp, tp, carry) == [];
    } else {
      assert Slots(lo, hi, cp, tp, carry) == Slots(lo, lo - 1, cp, tp, carry) + Slot(lo, cp, tp, carry);
    }
  }

  /** Pages before the window of a long bar contribute the link to page 1 and, after a gap, one ellipsis. */
  lemma {:induction false} LeadSlots(cp: int, tp: int, carry: Option<Carry>)
    requires tp > 10 && cp <= tp + 2
    ensures Slots(1, WindowStart(cp) - 1, cp, tp, carry) == Lead(WindowStart(cp), carry)
  {
    var st := WindowStart(cp);
    if st > 1 {
      SlotsSplit(1, 1, st - 1, cp, tp, carry);
      SlotsListed(1, 1, cp, tp, carry);
      assert Run(1, 1, cp, carry) == [PageLink(1, carry)] by {
        assert Run(1, 1, cp, carry)[0] == NumberToken(1, cp, carry);
      }
      if st > 2 {
        SlotsHidden(2, st - 1, cp, tp, carry);
      }
    }
  }

  /** Pages after the window of a long bar contribute, after a gap, one ellipsis and the link to the last page. */
  lemma {:induction false} TrailSlots(cp: int, tp: int, carry: Option<Carry>)
    requires tp > 10 && cp <= tp + 2
    ensures Slots(WindowEnd(cp, tp) + 1, tp, cp, tp, carry) == Trail(WindowEnd(cp, tp), tp, carry)
  {
    var en := WindowEnd(cp, tp);
    if en < tp {
      SlotsSplit(en + 1, tp - 1, tp, cp, tp, carry);
      SlotsListed(tp, tp, cp, tp, carry);
      assert Run(tp, tp, cp, carry) == [PageLink(tp, carry)] by {
        assert Run(tp, tp, cp, carry)[0] == NumberToken(tp, cp, carry);
      }
      if en < tp - 1 {
        SlotsHidden(en + 1, tp - 1, cp, tp, carry);
      }
    }
  }

  /**
   * The numbered part of the bar goes through the pages in order: every listed page (all of a
   * short bar; page 1, the last page and the window of a long one) appears once as its number, and
   * each run of pages left out is marked by one ellipsis. This holds for any current page up to
   * two past the last.
   */
  lemma {:induction false} NumbersByPage(cp: int, tp: int, carry: Option<Carry>)
    requires cp <= tp + 2
    ensures NumberTokens(cp, tp, carry) == Slots(1, tp, cp, tp, carry)
  {
    if tp <= 10 {
      SlotsListed(1, tp, cp, tp, carry);
    } else {
      var st := WindowStart(cp);
      var en := WindowEnd(cp, tp);
      var lead := Slots(1, st - 1, cp, tp, carry);
      var window := Slots(st, en, cp, tp, carry);
      var trail := Slots(en + 1, tp, cp, tp, carry);
      SlotsSplit(1, st - 1, tp, cp, tp, carry);
      SlotsSplit(st, en, tp, cp, tp, carry);
      assert Slots(1, tp, cp, tp, carry) == lead + (window + trail);
      SlotsListed(st, en, cp, tp, carry);
      LeadSlots(cp, tp, carry);
      TrailSlots(cp, tp, carry);
      assert lead + (window + trail) == (lead + window) + trail;
    }
  }

  /** The window of a long bar: at most five pages, five unless it reaches the last page, and around the current page. */
  lemma {:induction false} WindowHoldsCurrent(cp: int, tp: int)
    requires tp > 10
    ensures 1 <= WindowStart(cp) && WindowEnd(cp, tp) <= tp
    ensures WindowEnd(cp, tp) - WindowStart(cp) <= 4
    ensures WindowEnd(cp, tp) - WindowStart(cp) == 4 || WindowEnd(cp, tp) == tp
    ensures 1 <= cp <= tp ==> WindowStart(cp) <= cp <= WindowEnd(cp, tp)
  {
  }

  lemma {:induction false} NumbersHoldCurrent(cp: int, tp: int, carry: Option<Carry>)
    requires 1 <= cp <= tp
    ensures Active(cp) in NumberTokens(cp, tp, carry)
    ensures forall t :: t in NumberTokens(cp, tp, carry) && t.Active? ==> t.page == cp
  {
    var lo := if tp <= 10 then 1 else WindowStart(cp);
    var hi := if tp <= 10 then tp else WindowEnd(cp, tp);
    if tp > 10 {
      WindowHoldsCurrent(cp, tp);
    }
    RunTokens(lo, hi, cp, carry);
    if tp > 10 {
      LeadTokens(lo, carry);
      TrailTokens(hi, tp, carry);
      assert NumberTokens(cp, tp, carry) == Lead(lo, carry) + Run(lo, hi, cp, carry) + Trail(hi, tp, carry);
    }
  }

  /** For a current page within the bar, the current page is shown as such and no other page is. */
  lemma {:induction false} CurrentIsActive(cp: int, tp: int, carry: Option<Carry>)
    requires 1 <= cp <= tp && tp > 1
    ensures Active(cp) in PaginationTokens(cp, tp, carry)
    ensures forall t :: t in PaginationTokens(cp, tp, carry) && t.Active? ==> t.page == cp
  {
    NumbersHoldCurrent(cp, tp, carry);
    var head := [if cp > 1 then PrevLink(cp - 1, carry) else PrevDisabled, Info(cp, tp)];
    var tail := [if cp < tp then NextLink(cp + 1, carry) else NextDisabled];
    assert PaginationTokens(cp, tp, carry) == head + NumberTokens(cp, tp, carry) + tail;
    assert forall t :: t in head ==> !t.Active?;
    assert forall t :: t in tail ==> !t.Active?;
  }

  lemma {:induction false} NumberLinksCarry(cp: int, tp: int, carry: Option<Carry>)
    ensures forall t :: t in NumberTokens(cp, tp, carry) && IsLink(t) ==> t.carry == carry
  {
    var lo := if tp <= 10 then 1 else WindowStart(cp);
    var hi := if tp <= 10 then tp else WindowEnd(cp, tp);
    RunTokens(lo, hi, cp, carry);
    if tp > 10 {
      LeadTokens(lo, carry);
      TrailTokens(hi, tp, carry);
      assert NumberTokens(cp, tp, carry) == Lead(lo, carry) + Run(lo, hi, cp, carry) + Trail(hi, tp, carry);
    }
  }

  /** Every link of the bar posts back the same sort state. */
  lemma {:induction false} LinksCarrySort(cp: int, tp: int, carry: Option<Carry>)
    ensures forall t :: t in PaginationTokens(cp, tp, carry) && IsLink(t) ==> t.carry == carry
  {
    if tp > 1 {
      NumberLinksCarry(cp, tp, carry);
      var head := [if cp > 1 then PrevLink(cp - 1, carry) else PrevDisabled, Info(cp, tp)];
      var tail := [if cp < tp then NextLink(cp + 1, carry) else NextDisabled];
      assert PaginationTokens(cp, tp, carry) == head + NumberTokens(cp, tp, carry) + tail;
      assert forall t :: t in head && IsLink(t) ==> t.carry == carry;
      assert forall t :: t in tail && IsLink(t) ==> t.carry == carry;
    }
  }

  // ---------------------------------------------------------------- header

  /** The hidden fields of a header cell's sort form. */
  datatype SortForm = SortForm(column: string, direction: string, page: Option<int>)

  /** A header cell: the escaped caption, the sort form and the sort icon (both only with sorting on). */
  datatype HeaderCell = HeaderCell(caption: string, form: Option<SortForm>, icon: Option<Table.Icon>)

  /** `$nextDirection`: a click sorts another column ascending, turns ascending into descending, and clears otherwise. */
  function NextDirection(key: string, sortColumn: Option<string>, sortDirection: Option<string>): (d: string)
    ensures sortColumn != Some(key) ==> d == "asc"
    ensures sortColumn == Some(key) && sortDirection == Some("asc") ==> d == "desc"
    ensures sortColumn == Some(key) && sortDirection != Some("asc") ==> d == ""
  {
    if sortColumn == Some(key) then (if sortDirection == Some("asc") then "desc" else "") else "asc"
  }

  /** The cell `renderHeader` writes for one header. */
  function HeaderCellOf(h: Header, sortingEnabled: bool, sortColumn: Option<string>, sortDirection: Option<string>,
                        page: int, mk: Markup): (cell: HeaderCell)
    ensures cell.caption == mk.escape(h.caption)
    ensures cell.form.Some? <==> sortingEnabled
    ensures cell.icon.Some? <==> sortingEnabled
    ensures cell.form.Some? ==> cell.form.value.direction == NextDirection(h.key, sortColumn, sortDirection)
    ensures cell.form.Some? && cell.form.value.direction == "" ==> cell.form.value.column == ""
    ensures cell.form.Some? && cell.form.value.direction != "" ==> cell.form.value.column == h.key
    ensures cell.form.Some? ==> (cell.form.value.page.Some? <==> page != 0)
    ensures cell.form.Some? && page != 0 ==> cell.form.value.page == Some(page)
    ensures cell.icon.Some? ==> (cell.icon.value == Table.NoneIcon <==> sortColumn != Some(h.key))
    ensures cell.icon.Some? ==> (cell.icon.value == Table.AscIcon <==> sortColumn == Some(h.key) && sortDirection == Some("asc"))
  {
    if !sortingEnabled then HeaderCell(mk.escape(h.caption), None, None)
    else
      var nd := NextDirection(h.key, sortColumn, sortDirection);
      var icon := if sortColumn != Some(h.key) then Table.NoneIcon
                  else if sortDirection == Some("asc") then Table.AscIcon
                  else Table.DescIcon;
      HeaderCell(mk.escape(h.caption), Some(SortForm(if nd != "" then h.key else "", nd, if page != 0 then Some(page) else None)), Some(icon))
  }

  /** The sort state `processRequest` sets from a header cell's form. */
  function ClickedSort(f: SortForm): Sorting.SortState {
    Table.RequestedSort(f.column, Some(f.direction))
  }

  /**
   * A click on a header whose key is not empty (`''` or `'0'`) moves the sort state as the sorter's
   * toggle does, unless it is the sorted column with a direction other than ascending or descending.
   */
  lemma {:induction false} HeaderClickToggles(h: Header, st: SortState, page: int, mk: Markup)
    requires !IsEmptyString(h.key)
    requires st.column != Some(h.key) || st.direction == Some("asc") || st.direction == Some("desc")
    ensures ClickedSort(HeaderCellOf(h, true, st.column, st.direction, page, mk).form.value) == Toggle(st, h.key)
  {
  }

  /** On the sorted column without a known direction the header clears the sort while the toggle sorts ascending. */
  lemma {:induction false} HeaderClickClearsUnknownDirection(key: string, page: int, mk: Markup)
    requires !IsEmptyString(key)
    ensures var st := SortState(Some(key), None);
      && ClickedSort(HeaderCellOf(Header(key, key), true, st.column, st.direction, page, mk).form.value) == SortState(None, None)
      && Toggle(st, key) == SortState(Some(key), Some("asc"))
  {
  }

  // ---------------------------------------------------------------- the whole table

  /** `$allData ? count($allData) : count($data)`: the full data set counts when it is given and not empty. */
  function ItemCount(data: seq<Row>, allData: Option<seq<Row>>): (n: nat)
    ensures allData.Some? && allData.value != [] ==> n == |allData.value|
    ensures allData.None? || allData.value == [] ==> n == |data|
  {
    if allData.Some? && allData.value != [] then |allData.value| else |data|
  }

  /** Whether the bar is written on the given side (`'top'` or `'bottom'`). */
  predicate BarOn(c: Config, side: string) {
    c.paginationEnabled && (c.paginationPosition == side || c.paginationPosition == "both")
  }

  datatype PageView = PageView(top: seq<PageToken>, tableId: string, header: seq<HeaderCell>, body: BodyView,
                               bottom: seq<PageToken>)

  /** `renderTable` either raises PHP 8's `DivisionByZeroError` for a zero page size or produces the view. */
  datatype Outcome = PageSizeZero | Produced(view: PageView)

  class TableRenderer {
    var config: Config
    var tableId: string
    var sortColumn: Option<string>
    var sortDirection: Option<string>
    var currentPage: int

    /**
     * The constructor: the configuration merged over the defaults, and the configured table id
     * unless it is empty, else `php-table-` followed by a unique id (a parameter here).
     */
    constructor (patch: ConfigPatch, sortColumn: Option<string>, sortDirection: Option<string>, currentPage: int, uid: string)
      ensures config == Merge(Defaults(), patch)
      ensures !IsEmptyString(config.tableId) ==> tableId == config.tableId
      ensures IsEmptyString(config.tableId) ==> tableId == "php-table-" + uid
      ensures this.sortColumn == sortColumn && this.sortDirection == sortDirection && this.currentPage == currentPage
    {
      config := Merge(Defaults(), patch);
      tableId := if !IsEmptyString(Merge(Defaults(), patch).tableId) then Merge(Defaults(), patch).tableId else "php-table-" + uid;
      this.sortColumn := sortColumn;
      this.sortDirection := sortDirection;
      this.currentPage := currentPage;
    }

    /** The numbered part of `renderPagination`. */
    method RenderNumbers(cp: int, tp: int, carry: Option<Carry>) returns (ns: seq<PageToken>)
      ensures ns == NumberTokens(cp, tp, carry)
    {
      var lo := 1;
      var hi := tp;
      var lead: seq<PageToken> := [];
      if tp > 10 {
        lo := Max(1, cp - 2);
        hi := Min(tp, lo + 4);
        if lo > 1 {
          lead := lead + [PageLink(1, carry)];
          if lo > 2 {
            lead := lead + [Ellipsis];
          }
        }
      }
      var run: seq<PageToken> := [];
      var i := lo;
      while i <= hi
        invariant lo <= i && (i <= hi + 1 || i == lo)
        invariant run == Run(lo, i - 1, cp, carry)
      {
        RunStep(lo, i, cp, carry);
        if i == cp {
          run := run + [Active(i)];
        } else {
          run := run + [PageLink(i, carry)];
        }
        i := i + 1;
      }
      var trail: seq<PageToken> := [];
      if tp > 10 && hi < tp {
        if hi < tp - 1 {
          trail := trail + [Ellipsis];
        }
        trail := trail + [PageLink(tp, carry)];
      }
      ns := lead + run + trail;
      if tp <= 10 {
        assert ns == run;
      } else {
        assert lead == Lead(WindowStart(cp), carry);
        assert run == Run(WindowStart(cp), WindowEnd(cp, tp), cp, carry);
        assert trail == Trail(WindowEnd(cp, tp), tp, carry);
      }
    }

    /** `renderPagination`: every link posts back the renderer's own sort state. */
    method RenderPagination(cp: int, tp: int) returns (tokens: seq<PageToken>)
      ensures tokens == PaginationTokens(cp, tp, CarryOf(sortColumn, sortDirection))
    {
      if tp <= 1 {
        return [];
      }
      var carry := CarryOf(sortColumn, sortDirection);
      var prev := PrevDisabled;
      if cp > 1 {
        prev := PrevLink(cp - 1, carry);
      }
      var ns := RenderNumbers(cp, tp, carry);
      var next := NextDisabled;
      if cp < tp {
        next := NextLink(cp + 1, carry);
      }
      tokens := [prev, Info(cp, tp)] + ns + [next];
    }

    /** `renderHeader`: one cell per header, in order; its form posts the renderer's own current page. */
    method RenderHeader(headers: seq<Header>, sortColumn: Option<string>, sortDirection: Option<string>, mk: Markup)
      returns (cells: seq<HeaderCell>)
      ensures |cells| == |headers|
      ensures forall j :: 0 <= j < |headers| ==>
        cells[j] == HeaderCellOf(headers[j], config.sortingEnabled, sortColumn, sortDirection, currentPage, mk)
    {
      cells := [];
      var j := 0;
      while j < |headers|
        invariant 0 <= j <= |headers| && |cells| == j
        invariant forall i :: 0 <= i < j ==>
          cells[i] == HeaderCellOf(headers[i], config.sortingEnabled, sortColumn, sortDirection, currentPage, mk)
      {
        var h := headers[j];
        var cell := HeaderCell(mk.escape(h.caption), None, None);
        if config.sortingEnabled {
          var nd := "asc";
          if sortColumn == Some(h.key) {
            nd := if sortDirection == Some("asc") then "desc" else "";
          }
          var page := if currentPage != 0 then Some(currentPage) else None;
          var icon := Table.NoneIcon;
          if sortColumn == Some(h.key) {
            icon := if sortDirection == Some("asc") then Table.AscIcon else Table.DescIcon;
          }
          cell := HeaderCell(cell.caption, Some(SortForm(if nd != "" then h.key else "", nd, page)), Some(icon));
        }
        cells := cells + [cell];
        j := j + 1;
      }
    }

    /**
     * `renderTable`: the page count over the full data set when one is given, the bar above and/or
     * below as configured, the header for the given sort state and the body of the given rows,
     * always escaped and aligned by the configured cell alignment.
     */
    method RenderTable(headers: seq<Header>, data: seq<Row>, sortColumn: Option<string>, sortDirection: Option<string>,
                       currentPage: int, allData: Option<seq<Row>>, mk: Markup)
      returns (out: Outcome)
      ensures out.PageSizeZero? <==> Table.DividesByZero(config)
      ensures out.Produced? ==> out.view.top == (if BarOn(config, "top") then PaginationTokens(currentPage, Table.TotalPages(config, ItemCount(data, allData)), CarryOf(this.sortColumn, this.sortDirection)) else [])
      ensures out.Produced? ==> out.view.bottom == (if BarOn(config, "bottom") then PaginationTokens(currentPage, Table.TotalPages(config, ItemCount(data, allData)), CarryOf(this.sortColumn, this.sortDirection)) else [])
      ensures out.Produced? ==> out.view.tableId == tableId
      ensures out.Produced? ==> |out.view.header| == |headers|
      ensures out.Produced? ==> forall j :: 0 <= j < |headers| ==>
        out.view.header[j] == HeaderCellOf(headers[j], config.sortingEnabled, sortColumn, sortDirection, this.currentPage, mk)
      ensures out.Produced? ==> Shows(out.view.body, headers, data, false, mk, map[], config.cellTextAlign)
    {
      if config.paginationEnabled && config.rowsPerPage == 0 {
        return PageSizeZero;
      }
      var totalItems := if allData.Some? && allData.value != [] then |allData.value| else |data|;
      var totalPages := 1;
      if config.paginationEnabled {
        totalPages := CeilDiv(totalItems, config.rowsPerPage);
      }
      assert totalPages == Table.TotalPages(config, ItemCount(data, allData));
      var top: seq<PageToken> := [];
      if config.paginationEnabled && (config.paginationPosition == "top" || config.paginationPosition == "both") {
        top := RenderPagination(currentPage, totalPages);
      }
      var header := RenderHeader(headers, sortColumn, sortDirection, mk);
      var body := RenderBody(headers, data, false, mk, map[], config.cellTextAlign);
      var bottom: seq<PageToken> := [];
      if config.paginationEnabled && (config.paginationPosition == "bottom" || config.paginationPosition == "both") {
        bottom := RenderPagination(currentPage, totalPages);
      }
      out := Produced(PageView(top, tableId, header, body, bottom));
    }
  }
}
