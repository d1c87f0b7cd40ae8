/**
 * PHPTable: the table object the page script configures through fluent setters and then renders.
 * Rendering resolves the sort state, sorts the whole original data, pages it, and hands the
 * resulting view to an output slot keyed by the five-digit table variable.
 */
module Table {
  import opened Wrappers
  import opened Text
  import opened Values
  import opened Sorting
  import opened Paging
  import opened TableConfig
  import opened TableBody

  /** The sort indicator of a header cell: the ascending icon, the descending icon or the unsorted one. */
  datatype Icon = AscIcon | DescIcon | NoneIcon

  datatype HeaderView = HeaderView(caption: string, icon: Icon)

  /** "Seite <current> von <total>". */
  datatype PageLabel = PageLabel(current: int, total: int)

  datatype TableView = TableView(header: seq<HeaderView>, body: BodyView, pageLabel: Option<PageLabel>)

  /**
   * What `render` ends in: the fixed error message when no table variable is set, the
   * `DivisionByZeroError` PHP 8 raises for a zero page size, or the view written to the slot.
   */
  datatype RenderResult = MissingTableVar | DivisionByZero | Rendered(view: TableView)

  /** The host platform's variables written by `SetValueString`, keyed by the table variable. */
  class OutputSlots {
    var values: map<int, TableView>

    constructor ()
      ensures values == map[]
    {
      values := map[];
    }
  }

  // ---------------------------------------------------------------- setter checks

  /** `is_int($v) && 10000 <= $v <= 99999`: exactly the five-digit integers. */
  predicate ValidTableVar(v: Scalar) {
    v.Int? && 10000 <= v.i <= 99999
  }

  predicate ValidAlignment(a: string) {
    a == "left" || a == "center" || a == "right"
  }

  predicate ValidFontStyle(s: string) {
    s == "normal" || s == "italic" || s == "oblique"
  }

  /** The keywords of `setCellFontWeight`; a boolean `true` equals each of them under loose comparison. */
  predicate WeightKeyword(w: Scalar) {
    || (w.Str? && (w.s == "normal" || w.s == "bold" || w.s == "lighter" || w.s == "bolder"))
    || w == Bool(true)
  }

  /** `in_array((int)$weight, range(100, 900, 100))`. */
  predicate WeightNumber(w: Scalar) {
    var n := IntCast(w);
    100 <= n <= 900 && n % 100 == 0
  }

  // ---------------------------------------------------------------- request

  /**
   * The sort state a request with a sort column parameter sets: the column unless it is empty
   * (`""` or `"0"`), and the direction unless it is absent or empty.
   */
  function RequestedSort(columnParam: string, directionParam: Option<string>): (st: SortState)
    ensures st.column.Some? <==> !IsEmptyString(columnParam)
    ensures st.column.Some? ==> st.column.value == columnParam
    ensures st.direction.Some? <==> directionParam.Some? && !IsEmptyString(directionParam.value)
    ensures st.direction.Some? ==> st.direction == directionParam
  {
    SortState(if !IsEmptyString(columnParam) then Some(columnParam) else None,
              if directionParam.Some? && !IsEmptyString(directionParam.value) then directionParam else None)
  }

  /** The page a request's page parameter selects: its integer cast, at least 1. */
  function RequestedPage(pageParam: string): (p: int)
    ensures p >= 1
    ensures IntOfString(pageParam) >= 1 ==> p == IntOfString(pageParam)
    ensures IntOfString(pageParam) < 1 ==> p == 1
  {
    Max(1, IntOfString(pageParam))
  }

  // ---------------------------------------------------------------- render, as functions

  /** `(string)` of the sort column: `null` becomes the empty string. */
  function ColumnText(c: Option<string>): (s: string)
    ensures c.Some? ==> s == c.value
    ensures c.None? ==> s == ""
  {
    if c.Some? then c.value else ""
  }

  /**
   * The sort state `render` works with: the configured default sort when no column is active and a
   * default column is set, else the active state.
   */
  function Resolve(st: SortState, c: Config): (r: SortState)
    ensures st.column.Some? ==> r == st
    ensures st.column.None? && c.defaultSortColumn.Some? ==> r == SortState(c.defaultSortColumn, c.defaultSortDirection)
    ensures st.column.None? && c.defaultSortColumn.None? ==> r == st
  {
    if st.column.None? && c.defaultSortColumn.Some? then SortState(c.defaultSortColumn, c.defaultSortDirection) else st
  }

  /** Resolving a resolved state changes nothing, so a second render sorts as the first did. */
  lemma {:induction false} ResolveIdempotent(st: SortState, c: Config)
    ensures Resolve(Resolve(st, c), c) == Resolve(st, c)
  {
  }

  /** Sorting is on for the resolved state: sorting enabled and a column chosen. */
  function Sorted(c: Config, st: SortState, rows: seq<Row>, mk: Markup): (r: seq<Row>)
    ensures multiset(r) == multiset(rows)
    ensures !(c.sortingEnabled && st.column.Some?) ==> r == rows
    ensures c.sortingEnabled && st.column.Some? ==> AdjacentOrdered(RowOrder(SortKey(st.column.value, st.direction, mk)), r)
  {
    if c.sortingEnabled && st.column.Some? then SortRows(SortKey(st.column.value, st.direction, mk), rows) else rows
  }

  /** A zero page size with paging on divides by zero before anything is paged. */
  predicate DividesByZero(c: Config) {
    c.paginationEnabled && c.rowsPerPage == 0
  }

  /** `$totalPages`: the ceiling of rows over page size with paging on, else 1. */
  function TotalPages(c: Config, n: nat): (tp: int)
    requires !DividesByZero(c)
    ensures !c.paginationEnabled ==> tp == 1
    ensures c.paginationEnabled && c.rowsPerPage > 0 ==> tp >= 0 && (tp == 0 <==> n == 0)
    ensures c.paginationEnabled && c.rowsPerPage > 0 ==> (tp - 1) * c.rowsPerPage < n <= tp * c.rowsPerPage
    ensures c.paginationEnabled ==> tp == CeilDiv(n, c.rowsPerPage)
  {
    if c.paginationEnabled then
      (if c.rowsPerPage > 0 then CeilDivPositive(n, c.rowsPerPage); CeilDiv(n, c.rowsPerPage) else CeilDiv(n, c.rowsPerPage))
    else 1
  }

  /** What a paginator built over the rows with the requested page returns. */
  function Paged(rows: seq<Row>, page: int, rpp: int): (r: seq<Row>)
    ensures rpp <= 0 ==> r == rows
    ensures rpp > 0 ==> r == Page(rows, rpp, ClampPage(page, CeilDiv(|rows|, rpp)))
  {
    if rpp <= 0 then rows else Page(rows, rpp, ClampPage(page, CeilDiv(|rows|, rpp)))
  }

  /** The rows `render` shows: the whole original data sorted, then paged when paging is on. */
  function ShownRows(c: Config, st: SortState, page: int, original: seq<Row>, mk: Markup): seq<Row>
    requires !DividesByZero(c)
  {
    var sorted := Sorted(c, st, original, mk);
    if c.paginationEnabled then Paged(sorted, page, c.rowsPerPage) else sorted
  }

  /**
   * Sorting comes before paging: with a positive page size, each page from 1 to the page count
   * shows exactly that piece of the whole sorted data, and together the pages show every row
   * of it once, in order.
   */
  lemma {:induction false} PagesOfSortedData(c: Config, st: SortState, original: seq<Row>, mk: Markup, p: int)
    requires c.paginationEnabled && c.rowsPerPage > 0
    requires 1 <= p <= TotalPages(c, |original|)
    ensures ShownRows(c, st, p, original, mk) == Page(Sorted(c, st, original, mk), c.rowsPerPage, p)
    ensures PagesUpTo(Sorted(c, st, original, mk), c.rowsPerPage, TotalPages(c, |original|)) == Sorted(c, st, original, mk)
    ensures multiset(Sorted(c, st, original, mk)) == multiset(original)
  {
    var sorted := Sorted(c, st, original, mk);
    assert |sorted| == |original| by {
      assert |multiset(sorted)| == |multiset(original)|;
    }
    PagesCoverData(sorted, c.rowsPerPage);
  }

  /** "Seite <current> von <total>" appears only with paging on and more than one page. */
  function PageLabelFor(c: Config, page: int, totalPages: int): (l: Option<PageLabel>)
    ensures l.Some? <==> c.paginationEnabled && totalPages > 1
    ensures l.Some? ==> l.value == PageLabel(page, totalPages)
  {
    if c.paginationEnabled && totalPages > 1 then Some(PageLabel(page, totalPages)) else None
  }

  /**
   * `renderTableHeader`: one cell per header, in order; the column whose key equals the sort
   * column as text carries the ascending icon for "asc" and the descending icon otherwise, and
   * every other column the unsorted icon.
   */
  predicate HeaderShows(hv: seq<HeaderView>, headers: seq<Header>, st: SortState, mk: Markup) {
    && |hv| == |headers|
    && forall j :: 0 <= j < |headers| ==>
      && hv[j].caption == mk.escape(headers[j].caption)
      && hv[j].icon == (if ColumnText(st.column) != headers[j].key then NoneIcon
                        else if st.direction == Some("asc") then AscIcon
                        else DescIcon)
  }

  method RenderTableHeader(headers: seq<Header>, st: SortState, mk: Markup) returns (hv: seq<HeaderView>)
    ensures HeaderShows(hv, headers, st, mk)
  {
    hv := [];
    var j := 0;
    while j < |headers|
      invariant 0 <= j <= |headers| && |hv| == j
      invariant HeaderShows(hv, headers[..j], st, mk)
    {
      var current := ColumnText(st.column) == headers[j].key;
      var icon := if !current then NoneIcon else if st.direction == Some("asc") then AscIcon else DescIcon;
      hv := hv + [HeaderView(mk.escape(headers[j].caption), icon)];
      j := j + 1;
    }
    assert headers[..j] == headers;
  }

  /**
   * The view a render produces: the header for the sort state, the body of the rows shown (sorted
   * whole, then paged), escaped unless HTML rendering is exactly `true`, and the page label.
   */
  predicate Presents(view: TableView, headers: seq<Header>, c: Config, st: SortState, page: int,
                     original: seq<Row>, alignments: map<string, string>, mk: Markup)
    requires !DividesByZero(c)
  {
    && HeaderShows(view.header, headers, st, mk)
    && Shows(view.body, headers, ShownRows(c, st, page, original, mk), c.renderHtml == Bool(true), mk, alignments, c.cellTextAlign)
    && view.pageLabel == PageLabelFor(c, page, TotalPages(c, |original|))
  }

  // ---------------------------------------------------------------- the class

  class PHPTable {
    var data: seq<Row>
    var originalData: seq<Row>
    var headers: seq<Header>
    var config: Config
    var sortColumn: Option<string>
    var sortDirection: Option<string>
    var currentPage: int
    var tableVar: Option<int>
    var columnAlignments: map<string, string>

    /** The constructor: the defaults merged with the given entries, no data, no sort, page 1. */
    constructor (patch: ConfigPatch)
      ensures config == Merge(Defaults(), patch)
      ensures data == [] && originalData == [] && headers == []
      ensures sortColumn == None && sortDirection == None && currentPage == 1
      ensures tableVar == None && columnAlignments == map[]
    {
      data := [];
      originalData := [];
      headers := [];
      config := Merge(Defaults(), patch);
      sortColumn := None;
      sortDirection := None;
      currentPage := 1;
      tableVar := None;
      columnAlignments := map[];
    }

    /** `setTableVar`: accepts exactly the five-digit integers; anything else throws and changes nothing. */
    method SetTableVar(v: Scalar) returns (ok: bool)
      modifies this`tableVar
      ensures ok <==> ValidTableVar(v)
      ensures ok ==> tableVar == Some(v.i)
      ensures !ok ==> tableVar == old(tableVar)
    {
      if !v.Int? || v.i < 10000 || v.i > 99999 {
        return false;
      }
      tableVar := Some(v.i);
      return true;
    }

    /** `setData`: the same rows become both the working and the original data. */
    method SetData(rows: seq<Row>)
      modifies this`data, this`originalData
      ensures data == rows && originalData == rows
    {
      data := rows;
      originalData := rows;
    }

    method SetHeaders(hs: seq<Header>)
      modifies this`headers
      ensures headers == hs
    {
      headers := hs;
    }

    /** `setConfig`: the given entries are merged over the current configuration. */
    method SetConfig(patch: ConfigPatch)
      modifies this`config
      ensures config == Merge(old(config), patch)
    {
      config := Merge(config, patch);
    }

    /**
     * `processRequest` with the request values passed in (`None` for an absent parameter). A sort
     * column parameter, when present, replaces the sort state: an empty value (`""` or `"0"`)
     * clears the column, and an absent or empty direction clears the direction. A page parameter
     * becomes the current page, at least 1.
     */
    method ProcessRequest(sortColumnParam: Option<string>, sortDirectionParam: Option<string>, pageParam: Option<string>)
      modifies this`sortColumn, this`sortDirection, this`currentPage
      ensures sortColumnParam.Some? ==>
        SortState(sortColumn, sortDirection) == RequestedSort(sortColumnParam.value, sortDirectionParam)
      ensures sortColumnParam.None? ==> sortColumn == old(sortColumn) && sortDirection == old(sortDirection)
      ensures pageParam.Some? ==> currentPage == RequestedPage(pageParam.value)
      ensures pageParam.None? ==> currentPage == old(currentPage)
    {
      if sortColumnParam.Some? {
        var requested := RequestedSort(sortColumnParam.value, sortDirectionParam);
        sortColumn := requested.column;
        sortDirection := requested.direction;
      }
      if pageParam.Some? {
        currentPage := RequestedPage(pageParam.value);
      }
    }

    /** `showPage`: the page number cast to an integer, at least 1. */
    method ShowPage(pageNumber: Scalar)
      modifies this`currentPage
      ensures currentPage >= 1
      ensures IntCast(pageNumber) >= 1 ==> currentPage == IntCast(pageNumber)
      ensures IntCast(pageNumber) < 1 ==> currentPage == 1
    {
      currentPage := Max(1, IntCast(pageNumber));
    }

    /** `enableHtmlRendering`: cell values are shown without escaping from now on. */
    method EnableHtmlRendering()
      modifies this`config
      ensures config == old(config).(renderHtml := Bool(true))
    {
      config := config.(renderHtml := Bool(true));
    }

    /** `disableHtmlRendering`: cell values are escaped again. */
    method DisableHtmlRendering()
      modifies this`config
      ensures config == old(config).(renderHtml := Bool(false))
    {
      config := config.(renderHtml := Bool(false));
    }

    /** `enablePagination`: paging on, with the given page size (10 when the caller gives none). */
    method EnablePagination(rowsPerPage: int)
      modifies this`config
      ensures config == old(config).(paginationEnabled := true, rowsPerPage := rowsPerPage)
    {
      config := config.(paginationEnabled := true, rowsPerPage := rowsPerPage);
    }

    method DisablePagination()
      modifies this`config
      ensures config == old(config).(paginationEnabled := false)
    {
      config := config.(paginationEnabled := false);
    }

    method EnableSorting()
      modifies this`config
      ensures config == old(config).(sortingEnabled := true)
    {
      config := config.(sortingEnabled := true);
    }

    method DisableSorting()
      modifies this`config
      ensures config == old(config).(sortingEnabled := false)
    {
      config := config.(sortingEnabled := false);
    }

    /** `setDefaultSort`: the configured default and the active sort are set together. */
    method SetDefaultSort(column: Option<string>, direction: Option<string>)
      modifies this`config, this`sortColumn, this`sortDirection
      ensures config == old(config).(defaultSortColumn := column, defaultSortDirection := direction)
      ensures sortColumn == column && sortDirection == direction
    {
      config := config.(defaultSortColumn := column, defaultSortDirection := direction);
      sortColumn := column;
      sortDirection := direction;
    }

    /** `setCellAlignment`: only left, center or right; otherwise it throws and changes nothing. */
    method SetCellAlignment(alignment: string) returns (ok: bool)
      modifies this`config
      ensures ok <==> ValidAlignment(alignment)
      ensures config == if ok then old(config).(cellTextAlign := alignment) else old(config)
    {
      ok := alignment == "left" || alignment == "center" || alignment == "right";
      if ok {
        config := config.(cellTextAlign := alignment);
      }
    }

    /** `setCellFontStyle`: only normal, italic or oblique; otherwise it throws and changes nothing. */
    method SetCellFontStyle(style: string) returns (ok: bool)
      modifies this`config
      ensures ok <==> ValidFontStyle(style)
      ensures config == if ok then old(config).(cellFontStyle := style) else old(config)
    {
      ok := style == "normal" || style == "italic" || style == "oblique";
      if ok {
        config := config.(cellFontStyle := style);
      }
    }

    /**
     * `setCellFontWeight`: a weight keyword, or a value whose integer cast is a multiple of 100
     * from 100 to 900; the value is stored as given. Otherwise it throws and changes nothing.
     */
    method SetCellFontWeight(weight: Scalar) returns (ok: bool)
      modifies this`config
      ensures ok <==> WeightKeyword(weight) || WeightNumber(weight)
      ensures config == if ok then old(config).(cellFontWeight := weight) else old(config)
    {
      var keyword := (weight.Str? && (weight.s == "normal" || weight.s == "bold" || weight.s == "lighter" || weight.s == "bolder"))
        || weight == Bool(true);
      var n := IntCast(weight);
      ok := keyword || (100 <= n <= 900 && n % 100 == 0);
      if ok {
        config := config.(cellFontWeight := weight);
      }
    }

    /**
     * `setColumnAlignment`: the alignment must be left, center or right and the column one of the
     * header keys; otherwise it throws and changes nothing.
     */
    method SetColumnAlignment(column: string, alignment: string) returns (ok: bool)
      modifies this`columnAlignments
      ensures ok <==> ValidAlignment(alignment) && column in Keys(headers)
      ensures columnAlignments == if ok then old(columnAlignments)[column := alignment] else old(columnAlignments)
    {
      if !(alignment == "left" || alignment == "center" || alignment == "right") {
        return false;
      }
      var keys := Keys(headers);
      if column !in keys {
        return false;
      }
      columnAlignments := columnAlignments[column := alignment];
      return true;
    }

    /** The sorting step of `render`: a sorter over the rows when sorting is enabled and a column is set. */
    method SortData(rows: seq<Row>, mk: Markup) returns (sorted: seq<Row>)
      ensures sorted == Sorted(config, SortState(sortColumn, sortDirection), rows, mk)
      ensures |sorted| == |rows|
      ensures config.sortingEnabled && sortColumn.Some? ==>
        AdjacentOrdered(RowOrder(SortKey(sortColumn.value, sortDirection, mk)), sorted)
    {
      sorted := rows;
      if config.sortingEnabled && sortColumn.Some? {
        var sorter := new TableSorter(rows, sortColumn, sortDirection);
        sorted := sorter.Sort(mk);
      }
      assert |sorted| == |rows| by {
        assert |multiset(sorted)| == |multiset(rows)|;
      }
    }

    /** The paging step of `render`: a paginator over the rows at the current page when paging is on. */
    method PaginateData(rows: seq<Row>) returns (page: seq<Row>)
      requires !DividesByZero(config)
      ensures config.paginationEnabled ==> page == Paged(rows, currentPage, config.rowsPerPage)
      ensures !config.paginationEnabled ==> page == rows
    {
      page := rows;
      if config.paginationEnabled {
        var paginator := new TablePaginator(rows, currentPage, config.rowsPerPage);
        page := paginator.Paginate();
      }
    }

    /** `renderTable`: the header, the body of the given rows, and the page label when there is more than one page. */
    method RenderTable(rows: seq<Row>, totalPages: int, mk: Markup) returns (view: TableView)
      ensures HeaderShows(view.header, headers, SortState(sortColumn, sortDirection), mk)
      ensures Shows(view.body, headers, rows, config.renderHtml == Bool(true), mk, columnAlignments, config.cellTextAlign)
      ensures view.pageLabel == PageLabelFor(config, currentPage, totalPages)
    {
      var header := RenderTableHeader(headers, SortState(sortColumn, sortDirection), mk);
      var body := RenderBody(headers, rows, config.renderHtml == Bool(true), mk, columnAlignments, config.cellTextAlign);
      var pageLabel := None;
      if config.paginationEnabled && totalPages > 1 {
        pageLabel := Some(PageLabel(currentPage, totalPages));
      }
      view := TableView(header, body, pageLabel);
    }

    /**
     * `render`. Without a table variable it returns the error and changes nothing. Otherwise it
     * adopts the default sort when no column is active, sorts the whole original data when sorting
     * is enabled and a column is chosen, divides by the page size when paging is on (a zero page
     * size raises before anything is written), pages the sorted rows, and writes the view to the
     * slot of the table variable. The original data is never changed, so renders do not compound.
     */
    method Render(mk: Markup, sink: OutputSlots) returns (result: RenderResult)
      modifies this`sortColumn, this`sortDirection, sink
      ensures result == MissingTableVar <==> tableVar.None?
      ensures tableVar.None? ==>
        sortColumn == old(sortColumn) && sortDirection == old(sortDirection) && sink.values == old(sink.values)
      ensures tableVar.Some? ==>
        SortState(sortColumn, sortDirection) == Resolve(SortState(old(sortColumn), old(sortDirection)), config)
      ensures result == DivisionByZero <==> tableVar.Some? && DividesByZero(config)
      ensures !result.Rendered? ==> sink.values == old(sink.values)
      ensures result.Rendered? ==>
        && sink.values == old(sink.values)[tableVar.value := result.view]
        && !DividesByZero(config)
        && Presents(result.view, headers, config, SortState(sortColumn, sortDirection), currentPage, originalData, columnAlignments, mk)
    {
      if tableVar.None? {
        return MissingTableVar;
      }
      ghost var slots := sink.values;
      if sortColumn.None? && config.defaultSortColumn.Some? {
        sortColumn := config.defaultSortColumn;
        sortDirection := config.defaultSortDirection;
      }
      var processed := SortData(originalData, mk);
      var totalItems := |processed|;
      if config.paginationEnabled && config.rowsPerPage == 0 {
        return DivisionByZero;
      }
      var totalPages := if config.paginationEnabled then CeilDiv(totalItems, config.rowsPerPage) else 1;
      processed := PaginateData(processed);
      var view := RenderTable(processed, totalPages, mk);
      assert Presents(view, headers, config, SortState(sortColumn, sortDirection), currentPage, originalData, columnAlignments, mk);
      assert sink.values == slots;
      sink.values := sink.values[tableVar.value := view];
      return Rendered(view);
    }
  }
}
