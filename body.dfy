/**
 * The table body as both renderers build it: one placeholder row when there is no data, else one
 * row per data row, one cell per header key in header order. The markup around each cell is not
 * modelled; a cell is its shown content and its alignment.
 */
module TableBody {
  import opened Wrappers
  import opened Values

  datatype CellView = CellView(content: string, align: string)

  /** A body row: whether its position is even (the even colours apply) and its cells. */
  datatype RowView = RowView(even: bool, cells: seq<CellView>)

  /** "Keine Daten vorhanden" spanning colspan columns, or the data rows. */
  datatype BodyView = Placeholder(colspan: nat) | Rows(rows: seq<RowView>)

  /** `isset($row[$key]) ? $row[$key] : ''`. */
  function CellValue(row: Row, key: string): (v: string)
    ensures IsSet(row, key) ==> v == row[key].value
    ensures !IsSet(row, key) ==> v == ""
  {
    if IsSet(row, key) then row[key].value else ""
  }

  /** The cell text as written into the page: as it is when raw, else through the HTML escaper. */
  function Shown(value: string, raw: bool, mk: Markup): (s: string)
    ensures raw ==> s == value
    ensures !raw ==> s == mk.escape(value)
  {
    if raw then value else mk.escape(value)
  }

  /** A column's own alignment where one is set, else the configured cell alignment. */
  function AlignOf(alignments: map<string, string>, defaultAlign: string, key: string): (a: string)
    ensures key in alignments ==> a == alignments[key]
    ensures key !in alignments ==> a == defaultAlign
  {
    if key in alignments then alignments[key] else defaultAlign
  }

  /** The cell of column `key` for a row. */
  function CellOf(row: Row, key: string, raw: bool, mk: Markup, alignments: map<string, string>, defaultAlign: string): CellView {
    CellView(Shown(CellValue(row, key), raw, mk), AlignOf(alignments, defaultAlign, key))
  }

  /**
   * What `renderTableBody` / `renderBody` produce: no data gives one placeholder spanning every
   * header; else row i is even exactly when i is, and has, for each header in order, the cell of
   * that header's key.
   */
  predicate Shows(body: BodyView, headers: seq<Header>, data: seq<Row>, raw: bool, mk: Markup,
                  alignments: map<string, string>, defaultAlign: string)
  {
    && (data == [] <==> body.Placeholder?)
    && (data == [] ==> body == Placeholder(|headers|))
    && (body.Rows? ==> |body.rows| == |data|)
    && (body.Rows? ==> forall i :: 0 <= i < |data| ==>
          && body.rows[i].even == (i % 2 == 0)
          && |body.rows[i].cells| == |headers|
          && (forall j :: 0 <= j < |headers| ==>
                body.rows[i].cells[j] == CellOf(data[i], headers[j].key, raw, mk, alignments, defaultAlign)))
  }

  method RenderBody(headers: seq<Header>, data: seq<Row>, raw: bool, mk: Markup,
                    alignments: map<string, string>, defaultAlign: string)
    returns (body: BodyView)
    ensures Shows(body, headers, data, raw, mk, alignments, defaultAlign)
  {
    if data == [] {
      return Placeholder(|headers|);
    }
    var rows: seq<RowView> := [];
    var i := 0;
    while i < |data|
      invariant 0 <= i <= |data| && |rows| == i
      invariant forall r :: 0 <= r < i ==>
        && rows[r].even == (r % 2 == 0)
        && |rows[r].cells| == |headers|
        && (forall j :: 0 <= j < |headers| ==>
              rows[r].cells[j] == CellOf(data[r], headers[j].key, raw, mk, alignments, defaultAlign))
    {
      var cells: seq<CellView> := [];
      var j := 0;
      while j < |headers|
        invariant 0 <= j <= |headers| && |cells| == j
        invariant forall c :: 0 <= c < j ==> cells[c] == CellOf(data[i], headers[c].key, raw, mk, alignments, defaultAlign)
      {
        var key := headers[j].key;
        var value := CellValue(data[i], key);
        var shown := if raw then value else mk.escape(value);
        var align := if key in alignments then alignments[key] else defaultAlign;
        cells := cells + [CellView(shown, align)];
        j := j + 1;
      }
      rows := rows + [RowView(i % 2 == 0, cells)];
      i := i + 1;
    }
    body := Rows(rows);
  }
}
