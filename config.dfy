/**
 * The configuration entries the ordering, paging and cell rules read, their defaults, and the
 * `array_merge` of a partial configuration over a full one. Styling entries that only feed markup
 * are not part of the record.
 */
module TableConfig {
  import opened Wrappers
  import opened Values

  datatype Config = Config(
    paginationEnabled: bool,
    rowsPerPage: int,
    /** 'top', 'bottom' or 'both'. */
    paginationPosition: string,
    sortingEnabled: bool,
    /** `null` when no default sort is configured. */
    defaultSortColumn: Option<string>,
    defaultSortDirection: Option<string>,
    /** Only the boolean `true` turns escaping off (`=== true`). */
    renderHtml: Scalar,
    cellTextAlign: string,
    cellFontStyle: string,
    /** A keyword or a weight; the setter accepts strings and integers. */
    cellFontWeight: Scalar,
    tableId: string)

  /** The defaults of `TableConfig::$defaults` for the entries above. */
  function Defaults(): (c: Config)
    ensures !c.paginationEnabled && c.rowsPerPage == 10 && c.paginationPosition == "bottom"
    ensures c.sortingEnabled && c.defaultSortColumn == None && c.defaultSortDirection == Some("asc")
    ensures c.renderHtml == Bool(false)
    ensures c.cellTextAlign == "left" && c.cellFontStyle == "normal" && c.cellFontWeight == Str("normal")
    ensures c.tableId == ""
  {
    Config(false, 10, "bottom", true, None, Some("asc"), Bool(false), "left", "normal", Str("normal"), "")
  }

  /**
   * A partial configuration as a caller passes it: `None` for an absent key. The two default-sort
   * entries can be given as `null`, hence the nested option.
   */
  datatype ConfigPatch = ConfigPatch(
    paginationEnabled: Option<bool>,
    rowsPerPage: Option<int>,
    paginationPosition: Option<string>,
    sortingEnabled: Option<bool>,
    defaultSortColumn: Option<Option<string>>,
    defaultSortDirection: Option<Option<string>>,
    renderHtml: Option<Scalar>,
    cellTextAlign: Option<string>,
    cellFontStyle: Option<string>,
    cellFontWeight: Option<Scalar>,
    tableId: Option<string>)

  function EmptyPatch(): ConfigPatch {
    ConfigPatch(None, None, None, None, None, None, None, None, None, None, None)
  }

  /** `array_merge($config, $patch)`: every key the patch gives wins; every other key keeps its value. */
  function Merge(c: Config, p: ConfigPatch): (r: Config)
    ensures r.paginationEnabled == p.paginationEnabled.GetOr(c.paginationEnabled)
    ensures r.rowsPerPage == p.rowsPerPage.GetOr(c.rowsPerPage)
    ensures r.paginationPosition == p.paginationPosition.GetOr(c.paginationPosition)
    ensures r.sortingEnabled == p.sortingEnabled.GetOr(c.sortingEnabled)
    ensures r.defaultSortColumn == p.defaultSortColumn.GetOr(c.defaultSortColumn)
    ensures r.defaultSortDirection == p.defaultSortDirection.GetOr(c.defaultSortDirection)
    ensures r.renderHtml == p.renderHtml.GetOr(c.renderHtml)
    ensures r.cellTextAlign == p.cellTextAlign.GetOr(c.cellTextAlign)
    ensures r.cellFontStyle == p.cellFontStyle.GetOr(c.cellFontStyle)
    ensures r.cellFontWeight == p.cellFontWeight.GetOr(c.cellFontWeight)
    ensures r.tableId == p.tableId.GetOr(c.tableId)
  {
    Config(
      p.paginationEnabled.GetOr(c.paginationEnabled),
      p.rowsPerPage.GetOr(c.rowsPerPage),
      p.paginationPosition.GetOr(c.paginationPosition),
      p.sortingEnabled.GetOr(c.sortingEnabled),
      p.defaultSortColumn.GetOr(c.defaultSortColumn),
      p.defaultSortDirection.GetOr(c.defaultSortDirection),
      p.renderHtml.GetOr(c.renderHtml),
      p.cellTextAlign.GetOr(c.cellTextAlign),
      p.cellFontStyle.GetOr(c.cellFontStyle),
      p.cellFontWeight.GetOr(c.cellFontWeight),
      p.tableId.GetOr(c.tableId))
  }

  /** The later of two patches wins key by key: `array_merge($p, $q)`. */
  function Then(p: ConfigPatch, q: ConfigPatch): ConfigPatch {
    ConfigPatch(
      if q.paginationEnabled.Some? then q.paginationEnabled else p.paginationEnabled,
      if q.rowsPerPage.Some? then q.rowsPerPage else p.rowsPerPage,
      if q.paginationPosition.Some? then q.paginationPosition else p.paginationPosition,
      if q.sortingEnabled.Some? then q.sortingEnabled else p.sortingEnabled,
      if q.defaultSortColumn.Some? then q.defaultSortColumn else p.defaultSortColumn,
      if q.defaultSortDirection.Some? then q.defaultSortDirection else p.defaultSortDirection,
      if q.renderHtml.Some? then q.renderHtml else p.renderHtml,
      if q.cellTextAlign.Some? then q.cellTextAlign else p.cellTextAlign,
      if q.cellFontStyle.Some? then q.cellFontStyle else p.cellFontStyle,
      if q.cellFontWeight.Some? then q.cellFontWeight else p.cellFontWeight,
      if q.tableId.Some? then q.tableId else p.tableId)
  }

  /** Merging nothing changes nothing. */
  lemma MergeEmpty(c: Config)
    ensures Merge(c, EmptyPatch()) == c
  {
  }

  /** Merging the same patch twice is merging it once. */
  lemma MergeIdempotent(c: Config, p: ConfigPatch)
    ensures Merge(Merge(c, p), p) == Merge(c, p)
  {
  }

  /** Two successive merges are one merge of the combined patch, the later patch winning. */
  lemma MergeSuccessive(c: Config, p: ConfigPatch, q: ConfigPatch)
    ensures Merge(Merge(c, p), q) == Merge(c, Then(p, q))
  {
  }
}
