/** A sheet's cells as the list they were added in, and what the indexes of Table
    (processors/table/table_processer.py) say about such a list. */
module SheetLists {

  datatype CellType =
    | PlainText | Number | SizeH | LengthH | WidthH | HeightH | AmountH | MatH | BarcodeH | MarkingH

  /** row, column, cleaned text, type given by the classifier */
  datatype Cell = Cell(row: int, col: int, value: string, ctype: CellType)

  type Pos = (int, int)

  function PosOf(c: Cell): Pos { (c.row, c.col) }

  function Positions(cells: seq<Cell>): seq<Pos> {
    seq(|cells|, k requires 0 <= k < |cells| => PosOf(cells[k]))
  }

  /** No position twice. */
  ghost predicate Fresh(cells: seq<Cell>) {
    forall j, k :: 0 <= j < k < |cells| ==> PosOf(cells[j]) != PosOf(cells[k])
  }

  function OfRow(cells: seq<Cell>, row: int): seq<Cell> {
    if cells == [] then []
    else
      var before := OfRow(cells[..|cells| - 1], row);
      if cells[|cells| - 1].row == row then before + [cells[|cells| - 1]] else before
  }

  function OfCol(cells: seq<Cell>, col: int): seq<Cell> {
    if cells == [] then []
    else
      var before := OfCol(cells[..|cells| - 1], col);
      if cells[|cells| - 1].col == col then before + [cells[|cells| - 1]] else before
  }

  function OfType(cells: seq<Cell>, t: CellType): seq<Cell> {
    if cells == [] then []
    else
      var before := OfType(cells[..|cells| - 1], t);
      if cells[|cells| - 1].ctype == t then before + [cells[|cells| - 1]] else before
  }

  /** Rows in the order of their first cell. */
  function RowOrder(cells: seq<Cell>): seq<int> {
    if cells == [] then []
    else
      var before := RowOrder(cells[..|cells| - 1]);
      var row := cells[|cells| - 1].row;
      if row in before then before else before + [row]
  }

  function ColOrder(cells: seq<Cell>): seq<int> {
    if cells == [] then []
    else
      var before := ColOrder(cells[..|cells| - 1]);
      var col := cells[|cells| - 1].col;
      if col in before then before else before + [col]
  }

  function Types(cells: seq<Cell>): seq<CellType> {
    seq(|cells|, k requires 0 <= k < |cells| => cells[k].ctype)
  }

  function Cols(cells: seq<Cell>): seq<int> {
    seq(|cells|, k requires 0 <= k < |cells| => cells[k].col)
  }

  // ---------- basic facts ----------

  lemma {:induction false} OfRowMeaning(cells: seq<Cell>, row: int)
    ensures forall c :: c in OfRow(cells, row) <==> c in cells && c.row == row
  {
    if cells != [] {
      OfRowMeaning(cells[..|cells| - 1], row);
      assert cells == cells[..|cells| - 1] + [cells[|cells| - 1]];
    }
  }

  lemma {:induction false} OfTypeMeaning(cells: seq<Cell>, t: CellType)
    ensures forall c :: c in OfType(cells, t) <==> c in cells && c.ctype == t
  {
    if cells != [] {
      OfTypeMeaning(cells[..|cells| - 1], t);
      assert cells == cells[..|cells| - 1] + [cells[|cells| - 1]];
    }
  }

  lemma {:induction false} RowOrderMeaning(cells: seq<Cell>)
    ensures forall r :: r in RowOrder(cells) <==> exists c :: c in cells && c.row == r
    ensures forall j, k :: 0 <= j < k < |RowOrder(cells)| ==> RowOrder(cells)[j] != RowOrder(cells)[k]
  {
    if cells != [] {
      var front, last := cells[..|cells| - 1], cells[|cells| - 1];
      RowOrderMeaning(front);
      assert cells == front + [last];
      forall r
        ensures r in RowOrder(cells) <==> exists c :: c in cells && c.row == r
      {
        if r in RowOrder(front) {
          var c :| c in front && c.row == r;
          assert c in cells;
        } else if r == last.row {
          assert last in cells;
        }
      }
    }
  }

  lemma {:induction false} OfRowConcat(a: seq<Cell>, b: seq<Cell>, row: int)
    ensures OfRow(a + b, row) == OfRow(a, row) + OfRow(b, row)
  {
    if b == [] {
      assert a + b == a;
    } else {
      assert (a + b)[..|a + b| - 1] == a + b[..|b| - 1];
      OfRowConcat(a, b[..|b| - 1], row);
    }
  }

  lemma {:induction false} OfTypeConcat(a: seq<Cell>, b: seq<Cell>, t: CellType)
    ensures OfType(a + b, t) == OfType(a, t) + OfType(b, t)
  {
    if b == [] {
      assert a + b == a;
    } else {
      assert (a + b)[..|a + b| - 1] == a + b[..|b| - 1];
      OfTypeConcat(a, b[..|b| - 1], t);
    }
  }

  lemma {:induction false} RowTypeSwap(cells: seq<Cell>, row: int, t: CellType)
    ensures OfRow(OfType(cells, t), row) == OfType(OfRow(cells, row), t)
  {
    if cells != [] {
      var front, last := cells[..|cells| - 1], cells[|cells| - 1];
      RowTypeSwap(front, row, t);
      if last.ctype == t {
        assert (OfType(front, t) + [last])[..|OfType(front, t)|] == OfType(front, t);
      }
      if last.row == row {
        assert (OfRow(front, row) + [last])[..|OfRow(front, row)|] == OfRow(front, row);
      }
    }
  }

  lemma {:induction false} FreshPart(cells: seq<Cell>, t: CellType)
    requires Fresh(cells)
    ensures Fresh(OfType(cells, t))
  {
    if cells != [] {
      var front, last := cells[..|cells| - 1], cells[|cells| - 1];
      FreshPart(front, t);
      OfTypeMeaning(front, t);
      forall k | 0 <= k < |OfType(front, t)|
        ensures PosOf(OfType(front, t)[k]) != PosOf(last)
      {
        assert OfType(front, t)[k] in OfType(front, t);
      }
    }
  }

  /** Pieces of one fresh list, taken by different types, do not meet. */
  lemma FreshTypes(cells: seq<Cell>, merged: seq<Cell>, t: CellType)
    requires Fresh(cells) && Fresh(merged)
    requires forall c :: c in merged ==> c in cells && c.ctype != t
    ensures Fresh(merged + OfType(cells, t))
  {
    FreshPart(cells, t);
    OfTypeMeaning(cells, t);
    forall j, k | 0 <= j < |merged| && 0 <= k < |OfType(cells, t)|
      ensures PosOf(merged[j]) != PosOf(OfType(cells, t)[k])
    {
      var a, b := merged[j], OfType(cells, t)[k];
      assert a in merged && b in OfType(cells, t);
      SamePosSameCell(cells, a, b);
    }
  }

  lemma SamePosSameCell(cells: seq<Cell>, a: Cell, b: Cell)
    requires Fresh(cells) && a in cells && b in cells
    ensures PosOf(a) == PosOf(b) ==> a == b
  {
    var j :| 0 <= j < |cells| && cells[j] == a;
    var k :| 0 <= k < |cells| && cells[k] == b;
  }
}
