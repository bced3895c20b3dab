/** Table of processors/table/table_processer.py: one cell map and the indexes over it. */
module SheetTable {
  import opened Text
  import opened SheetLists

  /** The fields of a Table. Dictionaries are a map and, where order is used, the list of their keys or
      (for the inner dictionaries) of their values, oldest first. */
  datatype Indexes = Indexes(
    cells: map<Pos, Cell>,
    order: seq<Pos>,
    rowIndex: map<int, seq<Cell>>,
    rowOrder: seq<int>,
    colIndex: map<int, seq<Cell>>,
    colOrder: seq<int>,
    cellIndex: map<CellType, seq<Pos>>,
    rows: set<int>,
    cols: set<int>)

  // ---------- what the fields should say ----------

  ghost predicate CellsShown(s: Indexes, list: seq<Cell>) {
    && Fresh(list)
    && s.order == Positions(list)
    && (forall p :: p in s.cells <==> p in s.order)
    && (forall k :: 0 <= k < |list| ==> PosOf(list[k]) in s.cells && s.cells[PosOf(list[k])] == list[k])
  }

  ghost predicate RowsShown(s: Indexes, list: seq<Cell>) {
    && s.rowOrder == RowOrder(list)
    && (forall r :: r in s.rows <==> r in s.rowOrder)
    && (forall r :: r in s.rowIndex <==> r in s.rowOrder)
    && (forall r :: r in s.rowIndex ==> s.rowIndex[r] == OfRow(list, r))
  }

  ghost predicate ColsShown(s: Indexes, list: seq<Cell>) {
    && s.colOrder == ColOrder(list)
    && (forall c :: c in s.cols <==> c in s.colOrder)
    && (forall c :: c in s.colIndex <==> c in s.colOrder)
    && (forall c :: c in s.colIndex ==> s.colIndex[c] == OfCol(list, c))
  }

  ghost predicate TypesShown(s: Indexes, list: seq<Cell>) {
    && (forall t :: t in s.cellIndex <==> OfType(list, t) != [])
    && (forall t :: t in s.cellIndex ==> s.cellIndex[t] == Positions(OfType(list, t)))
  }

  /** Cell map and indexes describe exactly the cells of `list`, added in that order. */
  ghost predicate Shown(s: Indexes, list: seq<Cell>) {
    CellsShown(s, list) && RowsShown(s, list) && ColsShown(s, list) && TypesShown(s, list)
  }

  // ---------- what the methods do to the fields ----------

  /** pop of one key from an inner dictionary. */
  function Without(cells: seq<Cell>, pos: Pos): seq<Cell> {
    if cells == [] then []
    else if PosOf(cells[0]) == pos then cells[1..]
    else [cells[0]] + Without(cells[1..], pos)
  }

  function Removed(s: Indexes, cell: Cell): Indexes
    requires cell.row in s.rowIndex && cell.col in s.colIndex
  {
    s.(rowIndex := s.rowIndex[cell.row := Without(s.rowIndex[cell.row], PosOf(cell))],
       colIndex := s.colIndex[cell.col := Without(s.colIndex[cell.col], PosOf(cell))])
  }

  function Inserted(s: Indexes, cell: Cell): Indexes {
    var pos := PosOf(cell);
    Indexes(
      s.cells[pos := cell],
      if pos in s.cells then s.order else s.order + [pos],
      s.rowIndex[cell.row := (if cell.row in s.rowIndex then s.rowIndex[cell.row] else []) + [cell]],
      if cell.row in s.rowIndex then s.rowOrder else s.rowOrder + [cell.row],
      s.colIndex[cell.col := (if cell.col in s.colIndex then s.colIndex[cell.col] else []) + [cell]],
      if cell.col in s.colIndex then s.colOrder else s.colOrder + [cell.col],
      s.cellIndex[cell.ctype := (if cell.ctype in s.cellIndex then s.cellIndex[cell.ctype] else []) + [pos]],
      s.rows + {cell.row},
      s.cols + {cell.col})
  }

  // ---------- fresh positions ----------

  lemma InsertCells(s: Indexes, cell: Cell, list: seq<Cell>)
    requires CellsShown(s, list) && PosOf(cell) !in s.cells
    ensures CellsShown(Inserted(s, cell), list + [cell])
  {
    assert Positions(list + [cell]) == Positions(list) + [PosOf(cell)];
    forall k | 0 <= k < |list|
      ensures PosOf(list[k]) != PosOf(cell)
    {
      assert Positions(list)[k] in s.order;
    }
  }

  lemma {:induction false} NoRowNoCells(list: seq<Cell>, row: int)
    requires row !in RowOrder(list)
    ensures OfRow(list, row) == []
  {
    if list != [] {
      NoRowNoCells(list[..|list| - 1], row);
    }
  }

  lemma {:induction false} NoColNoCells(list: seq<Cell>, col: int)
    requires col !in ColOrder(list)
    ensures OfCol(list, col) == []
  {
    if list != [] {
      NoColNoCells(list[..|list| - 1], col);
    }
  }

  lemma InsertRows(s: Indexes, cell: Cell, list: seq<Cell>)
    requires RowsShown(s, list)
    ensures RowsShown(Inserted(s, cell), list + [cell])
  {
    assert (list + [cell])[..|list|] == list;
    if cell.row !in s.rowIndex {
      NoRowNoCells(list, cell.row);
    }
  }

  lemma InsertCols(s: Indexes, cell: Cell, list: seq<Cell>)
    requires ColsShown(s, list)
    ensures ColsShown(Inserted(s, cell), list + [cell])
  {
    assert (list + [cell])[..|list|] == list;
    if cell.col !in s.colIndex {
      NoColNoCells(list, cell.col);
    }
  }

  lemma InsertTypes(s: Indexes, cell: Cell, list: seq<Cell>)
    requires TypesShown(s, list)
    ensures TypesShown(Inserted(s, cell), list + [cell])
  {
    assert (list + [cell])[..|list|] == list;
    var mine := OfType(list, cell.ctype);
    assert Positions(mine + [cell]) == Positions(mine) + [PosOf(cell)];
  }

  lemma InsertShows(s: Indexes, cell: Cell, list: seq<Cell>)
    requires Shown(s, list) && PosOf(cell) !in s.cells
    ensures Shown(Inserted(s, cell), list + [cell])
  {
    InsertCells(s, cell, list);
    InsertRows(s, cell, list);
    InsertCols(s, cell, list);
    InsertTypes(s, cell, list);
  }

  // ---------- occupied positions ----------

  lemma OccupiedIndexed(s: Indexes, list: seq<Cell>, pos: Pos)
    requires Shown(s, list) && pos in s.cells
    ensures pos.0 in s.rowIndex && pos.1 in s.colIndex
    ensures s.cells[pos] in list && PosOf(s.cells[pos]) == pos
  {
    var k :| 0 <= k < |s.order| && s.order[k] == pos;
    var c := list[k];
    assert PosOf(c) == pos && c in list;
    RowOrderMeaning(list);
    ColOrderHas(list, k);
  }

  lemma {:induction false} ColOrderHas(list: seq<Cell>, k: nat)
    requires k < |list|
    ensures list[k].col in ColOrder(list)
  {
    if k < |list| - 1 {
      ColOrderHas(list[..|list| - 1], k);
    }
  }

  /** The list a set of indexes shows is read off its cell map. */
  lemma OneList(s: Indexes, a: seq<Cell>, b: seq<Cell>)
    requires CellsShown(s, a) && CellsShown(s, b)
    ensures a == b
  {
    forall k | 0 <= k < |a|
      ensures a[k] == b[k]
    {
      assert Positions(a)[k] == Positions(b)[k];
    }
    assert |Positions(a)| == |a| && |Positions(b)| == |b|;
  }

  lemma {:induction false} WithoutShorter(cells: seq<Cell>, pos: Pos)
    requires exists c :: c in cells && PosOf(c) == pos
    ensures |Without(cells, pos)| == |cells| - 1
  {
    if PosOf(cells[0]) != pos {
      var c :| c in cells && PosOf(c) == pos;
      assert c in cells[1..];
      WithoutShorter(cells[1..], pos);
    }
  }

  /** After a KeyError the cell is in the map but no longer in its row. */
  lemma RemovedShowsNothing(s: Indexes, cell: Cell, list: seq<Cell>, any: seq<Cell>)
    requires Shown(s, list) && PosOf(cell) in s.cells
    requires cell.row in s.rowIndex && cell.col in s.colIndex
    ensures !Shown(Removed(s, cell), any)
  {
    var s' := Removed(s, cell);
    if Shown(s', any) {
      OneList(s, list, any);
      OccupiedIndexed(s, list, PosOf(cell));
      OfRowMeaning(list, cell.row);
      assert s.cells[PosOf(cell)] in OfRow(list, cell.row);
      WithoutShorter(OfRow(list, cell.row), PosOf(cell));
    }
  }

  lemma PositionsDistinct(list: seq<Cell>, t: CellType, j: nat, k: nat)
    requires Fresh(list) && j < k < |Positions(OfType(list, t))|
    ensures Positions(OfType(list, t))[j] != Positions(OfType(list, t))[k]
  {
    FreshPart(list, t);
  }

  /** After an overwrite the type index lists the position twice, or under a type it no longer has. */
  lemma OverwrittenShowsNothing(s: Indexes, cell: Cell, list: seq<Cell>, any: seq<Cell>)
    requires Shown(s, list) && PosOf(cell) in s.cells && cell.ctype in s.cellIndex
    requires cell.row in s.rowIndex && cell.col in s.colIndex
    ensures !Shown(Inserted(Removed(s, cell), cell), any)
  {
    var pos := PosOf(cell);
    var s' := Inserted(Removed(s, cell), cell);
    OccupiedIndexed(s, list, pos);
    var was := s.cells[pos];
    OfTypeMeaning(list, was.ctype);
    assert was in OfType(list, was.ctype);
    var k :| 0 <= k < |OfType(list, was.ctype)| && OfType(list, was.ctype)[k] == was;
    assert s.cellIndex[was.ctype][k] == pos;
    if Shown(s', any) {
      if was.ctype == cell.ctype {
        PositionsDistinct(any, cell.ctype, k, |s.cellIndex[cell.ctype]|);
      } else {
        OfTypeMeaning(any, was.ctype);
      }
    }
  }

  // ---------- the indexes of a list ----------

  const NO_INDEXES := Indexes(map[], [], map[], [], map[], [], map[], {}, {})

  /** The fields after adding the cells of a list to an empty table. */
  ghost function IndexesOf(list: seq<Cell>): Indexes {
    if list == [] then NO_INDEXES else Inserted(IndexesOf(list[..|list| - 1]), list[|list| - 1])
  }

  lemma FreshPrefix(list: seq<Cell>)
    requires Fresh(list) && list != []
    ensures Fresh(list[..|list| - 1])
  {
  }

  lemma LastIsNew(s: Indexes, front: seq<Cell>, last: Cell)
    requires Fresh(front + [last]) && CellsShown(s, front)
    ensures PosOf(last) !in s.cells
  {
    assert (front + [last])[|front|] == last;
    assert forall k :: 0 <= k < |front| ==> (front + [last])[k] == front[k];
  }

  /** Fresh adds keep every index in step with the cell map. */
  lemma {:induction false} IndexesShown(list: seq<Cell>)
    requires Fresh(list)
    ensures Shown(IndexesOf(list), list)
  {
    if list != [] {
      var front, last := list[..|list| - 1], list[|list| - 1];
      FreshPrefix(list);
      IndexesShown(front);
      assert list == front + [last];
      LastIsNew(IndexesOf(front), front, last);
      InsertShows(IndexesOf(front), last, front);
    }
  }

  // ---------- the class ----------

  class Table {
    var cells: map<Pos, Cell>
    var order: seq<Pos>
    var rowIndex: map<int, seq<Cell>>
    var rowOrder: seq<int>
    var colIndex: map<int, seq<Cell>>
    var colOrder: seq<int>
    var cellIndex: map<CellType, seq<Pos>>
    var rows: set<int>
    var cols: set<int>

    ghost function View(): Indexes reads this {
      Indexes(cells, order, rowIndex, rowOrder, colIndex, colOrder, cellIndex, rows, cols)
    }

    /** Cell map and indexes are those of `list`, and no position was added twice. */
    ghost predicate Shows(list: seq<Cell>) reads this { Fresh(list) && View() == IndexesOf(list) }

    constructor ()
      ensures Shows([])
    {
      cells, order := map[], [];
      rowIndex, rowOrder, colIndex, colOrder := map[], [], map[], [];
      cellIndex, rows, cols := map[], {}, {};
    }

    /** False where the source has a KeyError. The loop over the type index ends before it deletes. */
    method RemoveFromIndexes(cell: Cell) returns (ok: bool)
      requires cell.row in rowIndex && cell.col in colIndex
      modifies this
      ensures View() == Removed(old(View()), cell) && ok == (cell.ctype in old(cellIndex))
    {
      rowIndex := rowIndex[cell.row := Without(rowIndex[cell.row], PosOf(cell))];
      colIndex := colIndex[cell.col := Without(colIndex[cell.col], PosOf(cell))];
      ok := cell.ctype in cellIndex;
    }

    method IndexRow(cell: Cell)
      modifies this`rowIndex, this`rowOrder
      ensures rowIndex == old(rowIndex)[cell.row :=
                (if cell.row in old(rowIndex) then old(rowIndex)[cell.row] else []) + [cell]]
      ensures rowOrder == if cell.row in old(rowIndex) then old(rowOrder) else old(rowOrder) + [cell.row]
    {
      if cell.row !in rowIndex {
        rowIndex, rowOrder := rowIndex[cell.row := []], rowOrder + [cell.row];
      }
      rowIndex := rowIndex[cell.row := rowIndex[cell.row] + [cell]];
    }

    method IndexCol(cell: Cell)
      modifies this`colIndex, this`colOrder
      ensures colIndex == old(colIndex)[cell.col :=
                (if cell.col in old(colIndex) then old(colIndex)[cell.col] else []) + [cell]]
      ensures colOrder == if cell.col in old(colIndex) then old(colOrder) else old(colOrder) + [cell.col]
    {
      if cell.col !in colIndex {
        colIndex, colOrder := colIndex[cell.col := []], colOrder + [cell.col];
      }
      colIndex := colIndex[cell.col := colIndex[cell.col] + [cell]];
    }

    method IndexType(cell: Cell)
      modifies this`cellIndex
      ensures cellIndex == old(cellIndex)[cell.ctype :=
                (if cell.ctype in old(cellIndex) then old(cellIndex)[cell.ctype] else []) + [PosOf(cell)]]
    {
      if cell.ctype !in cellIndex {
        cellIndex := cellIndex[cell.ctype := []];
      }
      cellIndex := cellIndex[cell.ctype := cellIndex[cell.ctype] + [PosOf(cell)]];
    }

    /** The part of add_cell after the test for an occupied position. */
    method Insert(cell: Cell)
      modifies this
      ensures View() == Inserted(old(View()), cell)
    {
      if PosOf(cell) !in cells {
        order := order + [PosOf(cell)];
      }
      cells := cells[PosOf(cell) := cell];
      IndexRow(cell);
      IndexCol(cell);
      IndexType(cell);
      rows, cols := rows + {cell.row}, cols + {cell.col};
    }

    /** The indexes stay in step with the cell map exactly when the position is fresh. */
    method AddCell(cell: Cell, ghost list: seq<Cell>) returns (ok: bool)
      requires Shows(list)
      modifies this
      ensures ok <==> PosOf(cell) !in old(cells) || cell.ctype in old(cellIndex)
      ensures PosOf(cell) !in old(cells) ==> Shows(list + [cell])
      ensures PosOf(cell) in old(cells) ==> forall any :: !Shown(View(), any)
    {
      ok := true;
      ghost var was := View();
      IndexesShown(list);
      if PosOf(cell) in cells {
        OccupiedIndexed(was, list, PosOf(cell));
        ok := RemoveFromIndexes(cell);
        if !ok {
          forall any ensures !Shown(View(), any) {
            RemovedShowsNothing(was, cell, list, any);
          }
          return;
        }
        Insert(cell);
        forall any ensures !Shown(View(), any) {
          OverwrittenShowsNothing(was, cell, list, any);
        }
      } else {
        Insert(cell);
        InsertCells(was, cell, list);
        assert (list + [cell])[..|list|] == list;
      }
    }

    function Get(row: int, col: int): (r: Option<Cell>)
      reads this
    {
      if (row, col) in cells then Some(cells[(row, col)]) else None
    }

    predicate IsEmpty()
      reads this
    {
      order == []
    }

    /** The cells standing at the given positions. */
    method CellsAt(positions: seq<Pos>, ghost part: seq<Cell>) returns (found: seq<Cell>)
      requires positions == Positions(part)
      requires forall k :: 0 <= k < |part| ==> Get(part[k].row, part[k].col) == Some(part[k])
      ensures found == part
    {
      found := [];
      for k := 0 to |positions|
        invariant |found| == k && found <= part
      {
        assert positions[k] == PosOf(part[k]);
        found := found + [Get(positions[k].0, positions[k].1).value];
      }
    }

    lemma PartStored(list: seq<Cell>, part: seq<Cell>)
      requires Shows(list) && forall c :: c in part ==> c in list
      ensures forall k :: 0 <= k < |part| ==> Get(part[k].row, part[k].col) == Some(part[k])
    {
      IndexesShown(list);
      forall k | 0 <= k < |part|
        ensures Get(part[k].row, part[k].col) == Some(part[k])
      {
        assert part[k] in list;
        var i :| 0 <= i < |list| && list[i] == part[k];
      }
    }

    lemma TypeStored(list: seq<Cell>, t: CellType)
      requires Shows(list)
      ensures t in cellIndex <==> OfType(list, t) != []
      ensures t in cellIndex ==> cellIndex[t] == Positions(OfType(list, t))
    {
      IndexesShown(list);
    }

    lemma OrderStored(list: seq<Cell>)
      requires Shows(list)
      ensures order == Positions(list)
    {
      IndexesShown(list);
    }

    /** get_by_type: the cells of that type, in order, as a table of their own. */
    method GetByType(t: CellType, ghost list: seq<Cell>) returns (r: Table)
      requires Shows(list)
      ensures fresh(r) && r.Shows(OfType(list, t))
    {
      r := new Table();
      TypeStored(list, t);
      if t in cellIndex {
        OfTypeMeaning(list, t);
        PartStored(list, OfType(list, t));
        var found := CellsAt(cellIndex[t], OfType(list, t));
        FreshPart(list, t);
        r.AddAll(found, [], found);
      }
    }

    method AddAll(list: seq<Cell>, ghost before: seq<Cell>, ghost all: seq<Cell>)
      requires Shows(before) && all == before + list && Fresh(all)
      modifies this
      ensures Shows(all)
    {
      ghost var shown := before;
      for k := 0 to |list|
        invariant |shown| == |before| + k && shown <= all && Shows(shown)
      {
        assert all[|shown|] == list[k];
        shown := AddNext(list[k], all, shown);
      }
      assert shown == all;
    }

    /** Adding the next cell of a fresh list to a table showing the cells before it. */
    method AddNext(cell: Cell, ghost list: seq<Cell>, ghost shown: seq<Cell>) returns (ghost shown': seq<Cell>)
      requires Fresh(list) && shown <= list && |shown| < |list| && list[|shown|] == cell && Shows(shown)
      modifies this
      ensures shown' <= list && |shown'| == |shown| + 1 && Shows(shown')
    {
      NotYet(list, shown);
      shown' := shown + [cell];
      var ok := AddCell(cell, shown);
    }

    static lemma NotYet(list: seq<Cell>, shown: seq<Cell>)
      requires Fresh(list) && shown <= list && |shown| < |list|
      ensures PosOf(list[|shown|]) !in IndexesOf(shown).cells
    {
      IndexesShown(shown);
    }

    /** merge: add the other table's cells in order. */
    method Merge(other: Table, ghost mine: seq<Cell>, ghost theirs: seq<Cell>)
      requires other != this && Shows(mine) && other.Shows(theirs) && Fresh(mine + theirs)
      modifies this
      ensures Shows(mine + theirs)
    {
      other.OrderStored(theirs);
      other.PartStored(theirs, theirs);
      var list := other.CellsAt(other.order, theirs);
      AddAll(list, mine, mine + theirs);
    }
  }
}
