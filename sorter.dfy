/**
 * TableSorter: the row comparator built from the normalised cell texts of one column, the sort
 * itself (PHP's `usort` with that comparator) and the click cycle of a column header
 * (ascending, descending, unsorted).
 */
module Sorting {
  import opened Wrappers
  import opened Text
  import opened Values
  import opened NaturalOrder

  // ---------------------------------------------------------------- normalisation

  /**
   * `cleanStringForSorting`: strip the tags, trim, decode the entities, then collapse every run of
   * `\s` into one space. The result has no whitespace but single plain spaces, so no line feed.
   */
  function Clean(mk: Markup, s: string): (r: Plain)
    ensures Collapsed(r)
    ensures r == [] <==> mk.decodeEntities(Trim(mk.stripTags(s))) == []
  {
    Collapse(mk.decodeEntities(Trim(mk.stripTags(s))))
  }

  /** Normalising the decoded text a second time changes nothing. */
  lemma {:induction false} CleanIsCollapseFixpoint(mk: Markup, s: string)
    ensures Collapse(Clean(mk, s)) == Clean(mk, s)
  {
    CollapseIdempotent(mk.decodeEntities(Trim(mk.stripTags(s))));
  }

  // ---------------------------------------------------------------- the comparator

  /** What the comparator closure captures: the column, the direction and the markup library. */
  datatype SortKey = SortKey(column: string, direction: Option<string>, mk: Markup)

  /** `$direction == 'desc' ? -$r : $r`: only the direction "desc" reverses; any other leaves the order ascending. */
  function Directed(direction: Option<string>, r: int): (d: int)
    ensures direction == Some("desc") ==> d == -r
    ensures direction != Some("desc") ==> d == r
  {
    if direction == Some("desc") then -r else r
  }

  /** The normalised text of the sort column of a row where it is set. */
  function Cell(k: SortKey, row: Row): Plain
    requires IsSet(row, k.column)
  {
    Clean(k.mk, row[k.column].value)
  }

  /**
   * The comparator closure of `sort`: a row whose sort cell is not set ties with every row;
   * otherwise the natural comparison of the two normalised texts, reversed for "desc".
   */
  function Compare(k: SortKey, a: Row, b: Row): (r: int)
    ensures -1 <= r <= 1
    ensures !IsSet(a, k.column) || !IsSet(b, k.column) ==> r == 0
    ensures IsSet(a, k.column) && IsSet(b, k.column) && k.direction != Some("desc") ==>
      (r == 0 <==> NaturalCmp(Cell(k, a), Cell(k, b)) == 0) &&
      (r < 0 <==> NaturalCmp(Cell(k, a), Cell(k, b)) < 0)
  {
    if !IsSet(a, k.column) || !IsSet(b, k.column) then 0
    else Directed(k.direction, NaturalCmp(Cell(k, a), Cell(k, b)))
  }

  /** Swapping the two rows negates the result, in either direction. */
  lemma {:induction false} CompareAntisymmetric(k: SortKey, a: Row, b: Row)
    ensures Compare(k, a, b) == -Compare(k, b, a)
  {
    if IsSet(a, k.column) && IsSet(b, k.column) {
      NaturalCmpAntisymmetric(Cell(k, a), Cell(k, b));
    }
  }

  /** The descending comparator is the ascending one with its arguments swapped. */
  lemma {:induction false} DescendingIsSwappedAscending(column: string, mk: Markup, other: Option<string>, a: Row, b: Row)
    requires other != Some("desc")
    ensures Compare(SortKey(column, Some("desc"), mk), a, b) == Compare(SortKey(column, other, mk), b, a)
  {
    var k := SortKey(column, other, mk);
    if IsSet(a, column) && IsSet(b, column) {
      NaturalCmpAntisymmetric(Cell(k, a), Cell(k, b));
    }
  }

  /** The comparator as the closure `usort` receives. */
  function RowOrder(k: SortKey): (cmp: (Row, Row) -> int)
    ensures forall a, b :: cmp(a, b) == Compare(k, a, b)
  {
    (a, b) => Compare(k, a, b)
  }

  ghost predicate Antisymmetric(cmp: (Row, Row) -> int) {
    forall a, b :: cmp(a, b) == -cmp(b, a)
  }

  lemma {:induction false} RowOrderAntisymmetric(k: SortKey)
    ensures Antisymmetric(RowOrder(k))
  {
    forall a, b ensures RowOrder(k)(a, b) == -RowOrder(k)(b, a) {
      CompareAntisymmetric(k, a, b);
    }
  }

  /** Every row of the set has its sort cell set, and every pair of cells is decided by tier t. */
  predicate OneTier(k: SortKey, rows: seq<Row>, t: Tier) {
    && (forall a :: a in rows ==> IsSet(a, k.column))
    && (forall a, b :: a in rows && b in rows ==> TierOf(Cell(k, a), Cell(k, b)) == t)
  }

  /** Where all three pairs are decided by one tier, the comparator is transitive. */
  lemma {:induction false} CompareTransitive(k: SortKey, a: Row, b: Row, c: Row, t: Tier)
    requires OneTier(k, [a, b, c], t)
    requires Compare(k, a, b) <= 0 && Compare(k, b, c) <= 0
    ensures Compare(k, a, c) <= 0
  {
    assert a in [a, b, c] && b in [a, b, c] && c in [a, b, c];
    var x, y, z := Cell(k, a), Cell(k, b), Cell(k, c);
    if k.direction == Some("desc") {
      NaturalCmpAntisymmetric(x, y);
      NaturalCmpAntisymmetric(y, z);
      NaturalCmpAntisymmetric(x, z);
      assert TierOf(z, y) == TierOf(y, x) == TierOf(z, x) == t;
      NaturalCmpTransitive(z, y, x);
    } else {
      NaturalCmpTransitive(x, y, z);
    }
  }

  /** The comparator is transitive on every triple drawn from the rows. */
  predicate TransitiveOn(cmp: (Row, Row) -> int, rows: seq<Row>) {
    forall a, b, c :: a in rows && b in rows && c in rows && cmp(a, b) <= 0 && cmp(b, c) <= 0 ==> cmp(a, c) <= 0
  }

  lemma {:induction false} OneTierTransitive(k: SortKey, rows: seq<Row>, t: Tier)
    requires OneTier(k, rows, t)
    ensures TransitiveOn(RowOrder(k), rows)
  {
    forall a, b, c | a in rows && b in rows && c in rows && Compare(k, a, b) <= 0 && Compare(k, b, c) <= 0
      ensures Compare(k, a, c) <= 0
    {
      assert OneTier(k, [a, b, c], t) by {
        forall x | x in [a, b, c] ensures x in rows { }
      }
      CompareTransitive(k, a, b, c, t);
    }
  }

  // ---------------------------------------------------------------- usort

  /** No row is placed before a neighbour that the comparator puts ahead of it. */
  predicate AdjacentOrdered(cmp: (Row, Row) -> int, rows: seq<Row>) {
    forall i :: 0 <= i < |rows| - 1 ==> cmp(rows[i], rows[i + 1]) <= 0
  }

  /** Every row is placed no later than every row after it, by the comparator. */
  predicate Ordered(cmp: (Row, Row) -> int, rows: seq<Row>) {
    forall i, j :: 0 <= i < j < |rows| ==> cmp(rows[i], rows[j]) <= 0
  }

  /** Inserts x into an ordered sequence, after every row it does not come before. */
  function Insert(cmp: (Row, Row) -> int, x: Row, s: seq<Row>): (r: seq<Row>)
    requires Antisymmetric(cmp) && AdjacentOrdered(cmp, s)
    ensures |r| == |s| + 1
    ensures AdjacentOrdered(cmp, r)
    ensures r[|r| - 1] == x || (s != [] && r[|r| - 1] == s[|s| - 1])
  {
    if s == [] then [x]
    else
      var last := s[|s| - 1];
      if cmp(last, x) <= 0 then s + [x]
      else
        var front := s[..|s| - 1];
        FrontOrdered(cmp, s);
        var r0 := Insert(cmp, x, front);
        assert cmp(r0[|r0| - 1], last) <= 0 by {
          if r0[|r0| - 1] == x {
            assert cmp(x, last) == -cmp(last, x);
          } else {
            assert r0[|r0| - 1] == s[|s| - 2];
          }
        }
        assert AdjacentOrdered(cmp, r0 + [last]) by {
          forall i | 0 <= i < |r0| ensures cmp((r0 + [last])[i], (r0 + [last])[i + 1]) <= 0 {
            if i < |r0| - 1 {
              assert (r0 + [last])[i] == r0[i] && (r0 + [last])[i + 1] == r0[i + 1];
            }
          }
        }
        r0 + [last]
  }

  lemma {:induction false} FrontOrdered(cmp: (Row, Row) -> int, s: seq<Row>)
    requires s != [] && AdjacentOrdered(cmp, s)
    ensures AdjacentOrdered(cmp, s[..|s| - 1])
  {
    var front := s[..|s| - 1];
    forall i | 0 <= i < |front| - 1 ensures cmp(front[i], front[i + 1]) <= 0 {
      assert front[i] == s[i] && front[i + 1] == s[i + 1];
    }
  }

  /** Inserting adds exactly the one row. */
  lemma {:induction false} InsertPermutes(cmp: (Row, Row) -> int, x: Row, s: seq<Row>)
    requires Antisymmetric(cmp) && AdjacentOrdered(cmp, s)
    ensures multiset(Insert(cmp, x, s)) == multiset(s) + multiset{x}
  {
    if s != [] {
      var last := s[|s| - 1];
      var front := s[..|s| - 1];
      assert s == front + [last];
      if cmp(last, x) > 0 {
        FrontOrdered(cmp, s);
        InsertPermutes(cmp, x, front);
      }
    }
  }

  /**
   * `usort` as a stable insertion sort (PHP's sort has been stable since 8.0). For an antisymmetric
   * comparator the result is a permutation of the rows with no neighbour pair out of order.
   */
  function SortBy(cmp: (Row, Row) -> int, rows: seq<Row>): (r: seq<Row>)
    requires Antisymmetric(cmp)
    ensures multiset(r) == multiset(rows)
    ensures |r| == |rows|
    ensures AdjacentOrdered(cmp, r)
  {
    if rows == [] then []
    else
      var front := rows[..|rows| - 1];
      assert rows == front + [rows[|rows| - 1]];
      var sorted := SortBy(cmp, front);
      InsertPermutes(cmp, rows[|rows| - 1], sorted);
      Insert(cmp, rows[|rows| - 1], sorted)
  }

  /** `usort($data, <comparator>)`. */
  function SortRows(k: SortKey, rows: seq<Row>): (r: seq<Row>)
    ensures multiset(r) == multiset(rows)
    ensures |r| == |rows|
    ensures AdjacentOrdered(RowOrder(k), r)
  {
    RowOrderAntisymmetric(k);
    SortBy(RowOrder(k), rows)
  }

  /** A permutation keeps membership. */
  lemma {:induction false} SameMembers(r: seq<Row>, rows: seq<Row>)
    requires multiset(r) == multiset(rows)
    ensures forall a :: a in r <==> a in rows
  {
    forall a ensures a in r <==> a in rows {
      assert a in r <==> a in multiset(r);
      assert a in rows <==> a in multiset(rows);
    }
  }

  /** Adjacent order extends to every pair where the comparator is transitive. */
  lemma {:induction false} AdjacentToOrdered(cmp: (Row, Row) -> int, rows: seq<Row>, i: nat, j: nat)
    requires TransitiveOn(cmp, rows) && AdjacentOrdered(cmp, rows)
    requires i < j < |rows|
    ensures cmp(rows[i], rows[j]) <= 0
    decreases j - i
  {
    if i + 1 < j {
      AdjacentToOrdered(cmp, rows, i + 1, j);
      assert rows[i] in rows && rows[i + 1] in rows && rows[j] in rows;
    }
  }

  /**
   * When every row has its sort cell set and one tier decides every pair of cells, the sort puts
   * the rows in order: no row comes after a row the comparator places after it.
   */
  lemma {:induction false} SortRowsOrdered(k: SortKey, rows: seq<Row>, t: Tier)
    requires OneTier(k, rows, t)
    ensures Ordered(RowOrder(k), SortRows(k, rows))
  {
    var r := SortRows(k, rows);
    SameMembers(r, rows);
    assert OneTier(k, r, t);
    OneTierTransitive(k, r, t);
    forall i, j | 0 <= i < j < |r| ensures RowOrder(k)(r[i], r[j]) <= 0 {
      AdjacentToOrdered(RowOrder(k), r, i, j);
    }
  }

  // ---------------------------------------------------------------- the header click cycle

  /** The sort state: `['column' => …, 'direction' => …]`. */
  datatype SortState = SortState(column: Option<string>, direction: Option<string>)

  /**
   * `toggleSortDirection`: a click on the sorted column moves ascending to descending and
   * descending to unsorted (any other direction becomes ascending); a click on another column
   * sorts it ascending.
   */
  function Toggle(st: SortState, column: string): (r: SortState)
    ensures r.column == Some(column) || r == SortState(None, None)
    ensures r.column == Some(column) ==> r.direction == Some("asc") || r.direction == Some("desc")
    ensures r.direction == Some("desc") <==> st == SortState(Some(column), Some("asc"))
    ensures r == SortState(None, None) <==> st == SortState(Some(column), Some("desc"))
  {
    if st.column == Some(column) then
      if st.direction == Some("asc") then SortState(st.column, Some("desc"))
      else if st.direction == Some("desc") then SortState(None, None)
      else SortState(st.column, Some("asc"))
    else SortState(Some(column), Some("asc"))
  }

  /** Three clicks on one column bring the unsorted table back to unsorted, through ascending and descending. */
  lemma {:induction false} ToggleCycle(column: string)
    ensures Toggle(SortState(None, None), column) == SortState(Some(column), Some("asc"))
    ensures Toggle(SortState(Some(column), Some("asc")), column) == SortState(Some(column), Some("desc"))
    ensures Toggle(SortState(Some(column), Some("desc")), column) == SortState(None, None)
  {
  }

  /** From any state, a click on a column sorts that column or clears the sort, and three clicks repeat. */
  lemma {:induction false} ToggleThrice(st: SortState, column: string)
    ensures var s1 := Toggle(st, column);
      Toggle(Toggle(Toggle(s1, column), column), column) == s1
  {
    ToggleCycle(column);
  }

  // ---------------------------------------------------------------- the class

  class TableSorter {
    var data: seq<Row>
    var sortColumn: Option<string>
    var sortDirection: Option<string>

    constructor (data: seq<Row>, sortColumn: Option<string>, sortDirection: Option<string>)
      ensures this.data == data && this.sortColumn == sortColumn && this.sortDirection == sortDirection
    {
      this.data := data;
      this.sortColumn := sortColumn;
      this.sortDirection := sortDirection;
    }

    /**
     * `sort`: without a sort column the rows stay as they are; otherwise they are sorted by the
     * comparator, which keeps every row and leaves no neighbour pair out of order.
     */
    method Sort(mk: Markup) returns (r: seq<Row>)
      modifies this
      ensures sortColumn == old(sortColumn) && sortDirection == old(sortDirection)
      ensures sortColumn.None? ==> data == old(data)
      ensures sortColumn.Some? ==> data == SortRows(SortKey(sortColumn.value, sortDirection, mk), old(data))
      ensures multiset(data) == multiset(old(data))
      ensures sortColumn.Some? ==> AdjacentOrdered(RowOrder(SortKey(sortColumn.value, sortDirection, mk)), data)
      ensures r == data
    {
      if sortColumn.None? {
        return data;
      }
      data := SortRows(SortKey(sortColumn.value, sortDirection, mk), data);
      return data;
    }

    /** `toggleSortDirection`: the new state is the click cycle applied to the old one. */
    method ToggleSortDirection(column: string) returns (st: SortState)
      modifies this
      ensures SortState(sortColumn, sortDirection) == Toggle(SortState(old(sortColumn), old(sortDirection)), column)
      ensures st == SortState(sortColumn, sortDirection)
      ensures data == old(data)
    {
      if sortColumn == Some(column) {
        if sortDirection == Some("asc") {
          sortDirection := Some("desc");
        } else if sortDirection == Some("desc") {
          sortColumn := None;
          sortDirection := None;
        } else {
          sortDirection := Some("asc");
        }
      } else {
        sortColumn := Some(column);
        sortDirection := Some("asc");
      }
      st := SortState(sortColumn, sortDirection);
    }
  }
}
