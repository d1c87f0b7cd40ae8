# PHPTable ordering and windowing, in Dafny

PHPTable is a PHP library that renders an array of data rows as an HTML table. It can sort by a
column and split the rows into pages. This project models the decision logic behind that rendering,
and proves what it promises:

- **`TableSorter`** (`sorter.dfy`, `natural.dfy`, `text.dfy`). It cleans each cell value (strip
  tags, trim, decode entities, collapse whitespace) and then compares two values in one of three
  tiers:
  - episode labels `Name - S<d>E<d> - Title` compare by name, season and episode;
  - otherwise, when both values hold a digit, they compare by their first decimal number;
  - otherwise they compare case-insensitively.

  Only the direction `desc` reverses the result. `sort` reorders the rows by this comparator, and
  `toggleSortDirection` is the three-state header toggle.
- **`TablePaginator`** (`paginator.dfy`). It computes the page count by ceiling division and clamps
  the requested page. It returns the slice of one page and answers the next and previous page queries.
- **`PHPTable`** (`phptable.dfy`, `config.dfy`, `body.dfy`). This covers:
  - the fluent setters with their whitelists;
  - request handling;
  - `render`, which resolves the sort state, sorts the whole original data, pages it and writes the
    view into the output slot named by the five-digit table variable;
  - the body's cell selection.
- **`TableRenderer`** (`renderer.dfy`). Its page bar is modelled as a sequence of tokens: the
  previous control, "Seite x von y", the numbered pages with ellipses, and the next control. Each
  header cell is modelled as the sort form a click submits. `renderTable` is modelled as the view
  that places these.

Markup is abstract. A rendered table is a view value holding header cells, body rows and page
tokens, not HTML text. `strip_tags`, `html_entity_decode` and `htmlspecialchars` are uninterpreted
functions, carried in a `Markup` value. Request parameters, the output sink and the unique id are
parameters.

The main results:

- The row comparator is antisymmetric, and `desc` is the ascending order with the arguments swapped.
- The comparator is transitive when every comparison is decided in one tier. Across tiers it is not:
  `TiersMakeCycles` and `CycleExample` exhibit a three-value cycle.
- Sorting returns a permutation in which every adjacent pair is ordered. Every pair is ordered when
  all rows compare in one tier.
- Episode labels parse to (show, season, episode), so "S01E02" sorts before "S01E10".
- The pages `1..totalPages` put together are exactly the (sorted) data.
- The renderer's page bar equals an independent page-by-page reading: a page is listed when it is
  1, the last page, or in the window around the current page, and an ellipsis replaces each gap.
- A click on a header whose key is not empty moves the sort state as the sorter's toggle does. PHP
  counts `''` and `'0'` as empty; those keys are left out of the claim. The one other exception is a
  sorted column whose direction is neither `asc` nor `desc`: there a click clears the sort.

## Model

| member | source | states |
|---|---|---|
| Text.Trim | table.class.sorter.php:96 | the trimmed text neither starts nor ends with a character `trim` removes |
| Text.TrimOfTrimmed | table.class.sorter.php:45-46 | trimming a text that starts and ends with kept characters returns it unchanged |
| Text.Collapse | table.class.sorter.php:102 | the result has only single spaces as whitespace, never two whitespace characters in a row and no line feed; it is empty exactly when the input is, and starts with whitespace exactly when the input does |
| Text.CollapseKeepsNonSpace | table.class.sorter.php:102 | collapsing keeps every character that is not whitespace, in order, and adds none |
| Text.CollapseAppend | table.class.sorter.php:102 | a text ending in a non-space collapses independently of what follows it |
| Text.CollapseRun | table.class.sorter.php:102 | each maximal whitespace run between non-spaces (or at either end) becomes exactly one space, and the text around it collapses on its own |
| Text.CollapseIdempotent | table.class.sorter.php:102 | collapsing whitespace twice gives what collapsing once gives |
| Text.CaseCmp | table.class.sorter.php:83-84 | `strcasecmp` as a sign: -1, 0 or 1; which text comes first is stated by `CaseCmpLess` |
| Text.CaseCmpAntisymmetric | table.class.sorter.php:83-84 | swapping the arguments of `strcasecmp` negates its sign |
| Text.CaseCmpLess | table.class.sorter.php:83-84 | `strcasecmp` is negative exactly when the lower-cased first text comes first in dictionary order: a proper prefix, or smaller at the first difference |
| Text.CaseCmpZeroIff | table.class.sorter.php:83-84 | `strcasecmp` is 0 exactly when the ASCII lower-cased texts are equal |
| Text.CaseCmpTransitive | table.class.sorter.php:83-84 | `strcasecmp` order is transitive |
| Text.IntOfStringDigits | PHPTable.php:79 | `(int)` of a request value is the value of its leading digits after leading whitespace, and a digit string casts to its own value |
| Values.IntCast | PHPTable.php:87 | `(int)` keeps an integer and makes `null` and `false` 0 |
| Values.Keys | PHPTable.php:237 | `array_keys` of the headers: one key per header, in header order |
| TableConfig.Defaults | table.class.config.php:8-56 | paging off with 10 rows per page at the bottom, sorting on with no default column and direction `asc`, HTML rendering off, left/normal/normal cells, empty table id |
| TableConfig.Merge | PHPTable.php:66 | `array_merge`: every entry the patch gives wins, every other entry keeps its value |
| TableConfig.MergeEmpty | PHPTable.php:24 | merging an empty configuration changes nothing |
| TableConfig.MergeIdempotent | PHPTable.php:62-68 | calling `setConfig` twice with the same entries has the effect of calling it once |
| TableConfig.MergeSuccessive | PHPTable.php:62-68 | two successive `setConfig` calls equal one call with the second call's entries laid over the first's |
| TableBody.CellValue | PHPTable.php:238 | the cell is the row's value when it is set, else the empty text |
| TableBody.Shown | PHPTable.php:253-257 | the value is escaped unless HTML rendering is on |
| TableBody.AlignOf | PHPTable.php:244-246 | a column's own alignment when one is set, else the configured cell alignment |
| TableBody.RenderBody | PHPTable.php:215-268 | no rows give one placeholder spanning every header; else one row per data row, flagged even exactly at even positions, each with one cell per header key in header order, holding that key's value (`''` when unset), escaped unless raw, with the column's alignment |
| NaturalOrder.MatchTail | table.class.sorter.php:41 | a match of `\s*-\s*S(\d+)E(\d+)\s*-\s*(.+)$` at a position yields season and episode groups after that position, in order and inside the text; a match needs a digit and a dash |
| NaturalOrder.FindTail | table.class.sorter.php:41 | the lazy `(.+?)`: the name ends at the first position, at least one character in, where the rest of the pattern matches |
| NaturalOrder.ParseEpisode | table.class.sorter.php:41-64 | a value parses as an episode only if it holds a digit and a dash; the parse is (trimmed name, season value, episode value) |
| NaturalOrder.MatchTailIff | table.class.sorter.php:41 | the tail is found at a position with given groups exactly when, read off the pattern, spaces, a dash, spaces, `S`, the season digits, `E`, the episode digits, spaces, a dash and at least one more character follow there |
| NaturalOrder.FindTailShortest | table.class.sorter.php:41 | the lazy name group ends at the shortest length (from the given one on) after which the tail matches; no match means the tail matches after no length |
| NaturalOrder.ParseEpisodeNone | table.class.sorter.php:41-42 | `preg_match` fails exactly when no name of at least one character is followed by the tail |
| NaturalOrder.ParseEpisodeAt | table.class.sorter.php:41-64 | when the tail matches after a name of length j and after no shorter name, the parse is that name trimmed, with the values of the season and episode digits |
| NaturalOrder.NoEarlierMatch | table.class.sorter.php:41 | with a show name free of dashes, no split point inside the name matches, so the lazy group captures the whole name |
| NaturalOrder.ParseLabel | table.class.sorter.php:41-64 | a label `show - S<season>E<episode> - title` with a dash-free, trimmed show name parses to exactly that show, season value and episode value, whatever the title |
| NaturalOrder.ExtractNumber | table.class.sorter.php:113-118 | `extractNumber` finds a number exactly when the value holds a digit (it never fails then), and the number is a digit string with an optional digit fraction |
| NaturalOrder.ExtractNumberMatch | table.class.sorter.php:114 | the number is the first run of digits, extended by `.` and digits only when a digit follows the point |
| NaturalOrder.IntCmp | table.class.sorter.php:66 | `<=>` on integers: 0 exactly on equality, negative exactly when less |
| NaturalOrder.RealCmp | table.class.sorter.php:77 | `<=>` on the extracted numbers: 0 exactly on equality, negative exactly when less |
| NaturalOrder.EpisodeCmp | table.class.sorter.php:47-67 | episodes are equal exactly when name (ignoring case), season and episode are; different names order as `strcasecmp` (dictionary order of the lower-cased names); with the same name the lower season comes first; with the same name and season the episodes decide |
| NaturalOrder.TierOf | table.class.sorter.php:41-80 | the episode tier is chosen exactly when both values parse as episodes; otherwise the number tier exactly when both hold a digit; otherwise the text tier |
| NaturalOrder.NaturalCmp | table.class.sorter.php:41-84 | episode tier: the episode comparison; number tier: the order of the first numbers, equal numbers giving 0 with no text fallback; text tier: 0 exactly when the texts agree ignoring case, negative exactly when the lower-cased first text comes first in dictionary order |
| NaturalOrder.EpisodeCmpAntisymmetric | table.class.sorter.php:47-67 | swapping two episodes negates their comparison |
| NaturalOrder.NaturalCmpAntisymmetric | table.class.sorter.php:41-84 | swapping two values negates their comparison, in every tier |
| NaturalOrder.EpisodeCmpTransitive | table.class.sorter.php:47-67 | the episode order is transitive |
| NaturalOrder.NaturalCmpTransitive | table.class.sorter.php:41-84 | the value order is transitive over three values whose three pairs share one tier |
| NaturalOrder.ParsedCompareAsEpisodes | table.class.sorter.php:41-67 | two values that both parse as episodes compare as their episodes |
| NaturalOrder.LabelsCompareAsEpisodes | table.class.sorter.php:41-67 | two episode labels compare by show name, season and episode only; the titles play no part |
| NaturalOrder.LowerEpisodeFirst | table.class.sorter.php:63-67 | within one show and season, the label with the lower episode number comes first |
| NaturalOrder.EpisodeTwoBeforeTen | table.class.sorter.php:63-67 | "Foo Show - S01E02 - Pilot" comes before "Foo Show - S01E10 - Finale": episodes compare as numbers, not as text |
| NaturalOrder.NumberOfShaped | table.class.sorter.php:71-79 | the first number of a label whose show name has no digit is its season |
| NaturalOrder.NumberTierAgainstLabel | table.class.sorter.php:71-79 | a value with a digit and no dash, compared with any value with a digit, is decided in the number tier |
| NaturalOrder.TiersMakeCycles | table.class.sorter.php:41-84 | because the tier is chosen per pair, two labels and a plain number can form a cycle a < b < m < a, so the comparator is not transitive in general |
| NaturalOrder.CycleExample | table.class.sorter.php:41-84 | a concrete cycle: "A - S3E1 - t" < "B - S1E1 - t" < "2" < "A - S3E1 - t" |
| Sorting.Clean | table.class.sorter.php:91-105 | the cleaned text has whitespace collapsed, and is empty exactly when the stripped, trimmed, decoded text is |
| Sorting.CleanIsCollapseFixpoint | table.class.sorter.php:91-105 | collapsing a cleaned text again leaves it unchanged |
| Sorting.Directed | table.class.sorter.php:84 | only the direction `desc` negates a result; any other direction, `null` included, keeps it |
| Sorting.Compare | table.class.sorter.php:25-85 | rows compare as 0 when either lacks the column or holds `null` there; otherwise ascending order is the value order of the cleaned cells |
| Sorting.CompareAntisymmetric | table.class.sorter.php:25-85 | swapping two rows negates their comparison |
| Sorting.DescendingIsSwappedAscending | table.class.sorter.php:25-85 | comparing in `desc` is comparing ascending with the rows swapped |
| Sorting.RowOrderAntisymmetric | table.class.sorter.php:25-85 | the comparator closure handed to `usort` is antisymmetric on all rows |
| Sorting.CompareTransitive | table.class.sorter.php:25-85 | the comparator is transitive on rows that all hold the column and whose pairs share one tier |
| Sorting.OneTierTransitive | table.class.sorter.php:25-85 | on such rows the comparator closure is transitive |
| Sorting.SortBy | table.class.sorter.php:25 | `usort` returns a permutation of its rows, of the same length, with every adjacent pair in comparator order |
| Sorting.SortRows | table.class.sorter.php:25 | sorting by a column gives a permutation of the rows with every adjacent pair ordered |
| Sorting.SortRowsOrdered | table.class.sorter.php:25-85 | when every row holds the column and all pairs share one tier, every pair of the sorted rows is ordered, not just adjacent ones |
| Sorting.Toggle | table.class.sorter.php:120-136 | the new state is the column with `asc` or `desc`, or no sort; it is `desc` exactly from (column, `asc`) and no sort exactly from (column, `desc`) |
| Sorting.ToggleCycle | table.class.sorter.php:120-136 | no sort goes to `asc`, `asc` goes to `desc`, and `desc` goes to no sort |
| Sorting.ToggleThrice | table.class.sorter.php:120-136 | after a first toggle, three more toggles of the same column come back to the same state |
| Sorting.TableSorter.constructor | table.class.sorter.php:11-15 | the sorter holds the given data, column and direction |
| Sorting.TableSorter.Sort | table.class.sorter.php:17-88 | with no column the data is unchanged; otherwise it becomes the rows sorted by column and direction; either way it is a permutation of the old data, ordered pairwise-adjacent, and it is returned |
| Sorting.TableSorter.ToggleSortDirection | table.class.sorter.php:120-136 | the fields move by the toggle and the returned pair equals the new fields; the data is untouched |
| Paging.CeilDiv | table.class.paginator.php:32 | the page count p is the least with p pages of the page size covering the rows |
| Paging.CeilDivPositive | table.class.paginator.php:32 | with a positive page size the count is 0 exactly for no rows, and at least 1 otherwise |
| Paging.ClampPage | table.class.paginator.php:15 | the page is at least 1 and at most a positive count; a requested page in range is kept, one below 1 or with no pages gives 1, one past the end gives the last page |
| Paging.Slice | table.class.paginator.php:24 | `array_slice`: empty from past the end, else `min(len, n - offset)` rows, each the row at offset plus its position |
| Paging.PagesUpToPrefix | table.class.paginator.php:23-24 | the first m pages put together are the first m times page-size rows, or all rows |
| Paging.PagesCoverData | table.class.paginator.php:18-34 | pages 1 to the page count put together are exactly the data: no gap, no overlap |
| Paging.TablePaginator.constructor | table.class.paginator.php:12-16 | the page count is stored for a positive page size; the current page is `max(1, min(requested, count))`, so 1 for empty data (count 0) or a page size of at most 0 |
| Paging.TablePaginator.CalculateTotalPages | table.class.paginator.php:27-34 | 1 without storing for a page size of at most 0; otherwise the ceiling of rows over page size, stored |
| Paging.TablePaginator.Paginate | table.class.paginator.php:18-25 | all data for a page size of at most 0; otherwise the current page's slice, holding 1 to page-size rows when there is data |
| Paging.TablePaginator.HasNextPage | table.class.paginator.php:44-46 | true exactly when the next page query moves one page on, which needs a stored count above the current page |
| Paging.TablePaginator.HasPreviousPage | table.class.paginator.php:48-50 | true exactly when the current page is above 1, which is exactly when the previous page query moves one page back |
| Paging.TablePaginator.GetNextPage | table.class.paginator.php:52-54 | `null` exactly while no count is stored; else the smaller of one past the current page and the count, a page in range for non-empty data |
| Paging.TablePaginator.GetPreviousPage | table.class.paginator.php:56-58 | one before the current page when that is above 1, else page 1: `max(currentPage - 1, 1)`; never past the current page |
| Table.RequestedSort | PHPTable.php:73-76 | a sort column parameter sets the column unless it is empty (`''` or `'0'`), and the direction exactly when that parameter is present and not empty |
| Table.RequestedPage | PHPTable.php:78-80 | the page parameter's integer value when at least 1, else 1 |
| Table.ColumnText | PHPTable.php:197 | `(string)` of the sort column: its text, or `''` for `null` |
| Table.Resolve | PHPTable.php:115-118 | an active sort column is kept; with none, the configured default column and direction are adopted when a default column is set |
| Table.ResolveIdempotent | PHPTable.php:115-118 | resolving again changes nothing, so a second render sorts as the first did |
| Table.Sorted | PHPTable.php:121-124 | a permutation of the rows, left unchanged unless sorting is on and a column is set; when it sorts, every adjacent pair is in the comparator's order for that column and direction |
| Table.TotalPages | PHPTable.php:127-129 | 1 with paging off; with paging on the ceiling of rows over page size: with a positive page size the least count whose pages cover the rows, 0 exactly for no rows |
| Table.Paged | PHPTable.php:132-139 | the paginator's page: all rows for a page size of at most 0, else the slice of the clamped page |
| Table.PagesOfSortedData | PHPTable.php:121-139 | render sorts the whole original data before paging: each page in range shows that piece of the sorted data, and the pages together show the sorted data, a permutation of the original |
| Table.PageLabelFor | PHPTable.php:173-175 | "Seite x von y" appears exactly with paging on and more than one page, and shows the current page and the count |
| Table.RenderTableHeader | PHPTable.php:183-212 | one cell per header, caption escaped; the column whose key equals the sort column as text shows the `asc` icon for `asc` and the `desc` icon otherwise, every other column the unsorted icon |
| Table.PHPTable.constructor | PHPTable.php:23-28 | the configuration is the defaults merged with the given entries; no data, headers, sort, column alignments or table variable; page 1 |
| Table.PHPTable.SetTableVar | PHPTable.php:31-38 | accepted exactly for five-digit integers, which are stored; anything else fails and leaves the table variable unchanged |
| Table.PHPTable.SetData | PHPTable.php:45-52 | the same rows become both the working and the original data |
| Table.PHPTable.SetHeaders | PHPTable.php:54-60 | the headers are replaced |
| Table.PHPTable.SetConfig | PHPTable.php:62-68 | the entries are merged over the current configuration |
| Table.PHPTable.ProcessRequest | PHPTable.php:71-83 | a sort column parameter replaces the sort state (an empty one clears it); a page parameter sets the page, at least 1; absent parameters change nothing |
| Table.PHPTable.ShowPage | PHPTable.php:86-89 | the page becomes the integer cast of the argument, or 1 when that is below 1 |
| Table.PHPTable.EnableHtmlRendering | PHPTable.php:92-95 | HTML rendering becomes exactly `true`; nothing else changes |
| Table.PHPTable.DisableHtmlRendering | PHPTable.php:98-101 | HTML rendering becomes `false`; nothing else changes |
| Table.PHPTable.EnablePagination | PHPTable.php:282-286 | paging on with the given page size; nothing else changes |
| Table.PHPTable.DisablePagination | PHPTable.php:288-291 | paging off; nothing else changes |
| Table.PHPTable.EnableSorting | PHPTable.php:293-296 | sorting on; nothing else changes |
| Table.PHPTable.DisableSorting | PHPTable.php:298-301 | sorting off; nothing else changes |
| Table.PHPTable.SetDefaultSort | PHPTable.php:303-309 | the configured default and the active sort are both set to the column and direction |
| Table.PHPTable.SetCellAlignment | PHPTable.php:329-335 | accepted exactly for left, center or right, which are stored; otherwise the configuration is unchanged |
| Table.PHPTable.SetCellFontStyle | PHPTable.php:337-343 | accepted exactly for normal, italic or oblique, which are stored; otherwise the configuration is unchanged |
| Table.PHPTable.SetCellFontWeight | PHPTable.php:345-352 | accepted exactly for a weight keyword or a value whose integer cast is a multiple of 100 from 100 to 900, stored as given; otherwise the configuration is unchanged |
| Table.PHPTable.SetColumnAlignment | PHPTable.php:362-373 | accepted exactly for left, center or right on a column that is a header key, and recorded for that column only; otherwise the alignments are unchanged |
| Table.PHPTable.SortData | PHPTable.php:120-124 | the rows sorted by the active sort when sorting is on and a column is set, every adjacent pair then in the comparator's order; else the rows; the count is kept |
| Table.PHPTable.PaginateData | PHPTable.php:131-139 | the paginator's page of the rows at the current page with paging on, else all rows |
| Table.PHPTable.RenderTable | PHPTable.php:151-180 | the header for the active sort, the body of the given rows (raw exactly when HTML rendering is `true`, with the column alignments), and the page label for the count |
| Table.PHPTable.Render | PHPTable.php:104-148 | without a table variable: the error result, with no state change and no output; otherwise the sort state is resolved, a zero page size with paging on is the division error, and a render writes into the table variable's slot exactly the view of the whole original data sorted, then paged |
| Renderer.CarryOf | table.class.renderer.php:171-174 | a link carries the sort column and direction (`''` for `null`) exactly when the renderer's sort column is not empty |
| Renderer.WindowStart | table.class.renderer.php:203 | the window starts two pages before the current page, or at page 1 when that would be before page 1 |
| Renderer.WindowEnd | table.class.renderer.php:204 | the window ends four pages after its start, or at the last page when that comes first |
| Renderer.NumberToken | table.class.renderer.php:188-199 | a page number is the active marker exactly for the current page, else a link to that page carrying the sort |
| Renderer.Run | table.class.renderer.php:221-234 | a run of page numbers has one token per page from its first to its last |
| Renderer.PaginationTokens | table.class.renderer.php:160-268 | no bar for at most one page; else it opens with a link to the previous page when there is one (else the disabled control), then "Seite x von y", and closes with a link to the next page when there is one (else the disabled control) |
| Renderer.RunTokens | table.class.renderer.php:221-234 | a run holds only links carrying the sort and the active current page, and holds the current page when it lies in the run |
| Renderer.LeadSlots | table.class.renderer.php:206-219 | in a long bar, pages before the window read as a link to page 1 when the window starts later, then an ellipsis when it starts after page 2 |
| Renderer.TrailSlots | table.class.renderer.php:236-249 | in a long bar, pages after the window read as an ellipsis when the window ends before the page next to the last, then a link to the last page when it ends earlier |
| Renderer.NumbersByPage | table.class.renderer.php:185-249 | the numbered part equals the page-by-page reading: up to ten pages all listed in order once each; beyond that page 1, the last page and the window listed, each run of unlisted pages shown as one ellipsis |
| Renderer.WindowHoldsCurrent | table.class.renderer.php:203-204 | a long bar's window lies within the pages, spans at most five pages (five unless it reaches the last page), and holds the current page when that is in range |
| Renderer.NumbersHoldCurrent | table.class.renderer.php:185-234 | a current page in range appears among the numbers as the active marker, and no other page does |
| Renderer.CurrentIsActive | table.class.renderer.php:160-268 | in the whole bar, the current page in range is active and is the only active page |
| Renderer.NumberLinksCarry | table.class.renderer.php:185-249 | every numbered link carries the sort state |
| Renderer.LinksCarrySort | table.class.renderer.php:168-264 | every link of the bar, previous and next included, carries the sort state |
| Renderer.NextDirection | table.class.renderer.php:83-86 | `asc` for a column that is not the sorted one; `desc` for the sorted column in `asc`; `''` for the sorted column otherwise |
| Renderer.HeaderCellOf | table.class.renderer.php:77-115 | the caption is escaped; with sorting on the cell has a form and an icon, without it neither; the form posts the next direction, the column exactly when that direction is not `''` (else `''`), and the current page exactly when it is not 0; the icon is the unsorted one exactly for a column other than the sort column, and the `asc` one exactly for the sort column in `asc` |
| Renderer.HeaderClickToggles | table.class.renderer.php:83-91 | for a non-empty key, submitting a header form sets the sort state the sorter's toggle would, unless the column is sorted with a direction other than `asc` or `desc` |
| Renderer.HeaderClickClearsUnknownDirection | table.class.renderer.php:83-91 | for a column sorted with no direction, a click clears the sort, where the toggle would give `asc` |
| Renderer.ItemCount | table.class.renderer.php:27 | the count of all data when it is given and not empty, else of the shown data |
| Renderer.TableRenderer.constructor | table.class.renderer.php:13-21 | the defaults merged with the given entries; the configured table id unless it is empty, else `php-table-` and the unique id; the sort state and page as given |
| Renderer.TableRenderer.RenderNumbers | table.class.renderer.php:185-249 | the tokens the loops build are the numbered part of the bar |
| Renderer.TableRenderer.RenderPagination | table.class.renderer.php:160-268 | the bar is the token sequence for the current page and count, with links carrying the renderer's own sort state |
| Renderer.TableRenderer.RenderHeader | table.class.renderer.php:70-119 | one cell per header, in order, each the header cell for the given sort state and the renderer's page |
| Renderer.TableRenderer.RenderTable | table.class.renderer.php:23-68 | a zero page size with paging on is the division error; else the bar at the top and/or bottom as the position says (only with paging on) for the page count of all data (else the shown data) or 1 with paging off, the table id, the header cells, and the escaped body |

## Left out

- HTML and CSS. The attribute strings, colours, padding and icon texts are not modelled. The views
  hold what decides them: the even-row flag, the alignment, the icon kind and the tokens.
- `htmlspecialchars`, `strip_tags` and `html_entity_decode` are uninterpreted functions. Their
  results are not described beyond being functions of their input.
- `$_GET` and the posted forms. `ProcessRequest` takes the request values as parameters. Which
  request array (GET or POST) carries them is not modelled.
- `SetValueString` of the host platform is a map from table variable to view (`OutputSlots`),
  written once per successful render.
- `uniqid()` is a parameter of the `TableRenderer` constructor.
- `renderDataForm` is not modelled: it always returns the empty string.
- Getters (`getTableVar`, `getCurrentPage`, `getTotalPages`, `getSortColumn`, `getSortDirection`)
  are not modelled: the model's fields are read directly.
- The colour setters (`setAlternateRowColors`, `setAlternateTextColors`, `setBorderColor`,
  `setTextColor`) are not modelled: they only write styling entries, which the configuration record
  does not hold.
- `setData`, `setHeaders` and `setConfig` throw for a non-array argument. That path is not modelled,
  because the parameters are typed.
- Table.PHPTable.constructor: the `tableVar` entry of the constructor's configuration array is not
  modelled; the table variable is set by `SetTableVar`.
- NaturalOrder.RealCmp: compares the extracted numbers as exact decimals, where `floatval` can round
  two different long decimals to the same float.
- Sorting.SortBy: `usort` is modelled as a stable insertion sort. PHP's own order of ties, and its
  order when the comparator is not transitive, are not modelled. The contracts state only
  permutation and adjacent order. With a transitive comparator every sort meets these; across tiers
  the comparator has cycles, and PHP's result there need not have every adjacent pair ordered.
- Sorting.SortRowsOrdered: order over all pairs is proved only for rows compared in one tier,
  because across tiers the comparator has cycles (`NaturalOrder.CycleExample`).
- Text.IntOfStringDigits: PHP's `(int)` of strings with exponents, hexadecimal forms or values beyond
  64 bits is not modelled. Integers are unbounded.
- Table.PHPTable.SetCellAlignment: takes a string only, so the loose `in_array` match of `true`
  against the allowed words is not modelled. The same holds for `SetCellFontStyle` and
  `SetColumnAlignment`. `SetCellFontWeight` takes any scalar, and its keyword test does accept `true`.
- TableBody.RenderBody: the even flag is taken from the row's position in the rows shown. The source
  takes it from the row's array key. The two agree for a list, and for rows that `usort` or
  `array_slice` numbered from 0, so they differ only for an unsorted, unpaged array whose keys are not
  0, 1, 2, … The data is a sequence here; array keys of rows are not modelled.
- Table.PHPTable.ShowPage: a float page number, which `(int)` truncates, is not modelled: argument
  values have no float variant.
- NaturalOrder.ParseLabel: stated for show names without a dash. With a dash in the name the lazy
  group may stop early; `ParseEpisodeAt` and `ParseEpisodeNone` give the parse of every text.
- Header keys are strings. PHP turns numeric array keys into integers, so the `===` and `(string)`
  key comparisons of integer keys are not modelled.
- `ceil` returns a float in PHP. Page counts here are integers.
- Renderer.NumbersByPage: the page-by-page reading is proved for a current page up to two past the
  last page. Further out the window lies wholly past the last page, and the bar shows the link to
  page 1 and an ellipsis but no link to the last page. `NumberTokens` still defines that output.
- Characters are compared as single code units. There is no multibyte handling, and case folding is
  ASCII only, as `strcasecmp` does.
