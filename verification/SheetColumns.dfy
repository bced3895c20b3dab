/** Sheets as grids of values (TableWorker.open_and_clean, processors/table/table_processer.py), and why
    the order of a sheet's columns does not matter. */
module SheetColumns {
  import opened Text
  import opened SheetLists
  import opened SheetParser

  /** What Cell keeps of a value: the cleaned text and its type. */
  datatype Entry = Entry(value: string, ctype: CellType)

  type Row = seq<Option<Entry>>

  /** A sheet row by row, None where there is no value or only white space. */
  type Grid = seq<Row>

  function DropNbsp(s: string): string {
    if s == [] then []
    else if s[0] == '\U{A0}' then DropNbsp(s[1..])
    else [s[0]] + DropNbsp(s[1..])
  }

  /** Cell(..., autoclean, dropempty, autoclassify): the classifier sees the cleaned text. */
  function EntryOf(raw: Option<string>, classify: string -> CellType): Option<Entry> {
    if raw.Some? && Strip(raw.value) != []
    then Some(Entry(DropNbsp(Strip(raw.value)), classify(DropNbsp(Strip(raw.value)))))
    else None
  }

  ghost predicate ReadsRow(raws: seq<Option<string>>, row: Row, classify: string -> CellType) {
    |row| == |raws| && forall c :: 0 <= c < |row| ==> row[c] == EntryOf(raws[c], classify)
  }

  /** grid holds the entries of the values a spreadsheet library yields row by row. */
  ghost predicate Reads(raws: seq<seq<Option<string>>>, grid: Grid, classify: string -> CellType) {
    |grid| == |raws| && forall r :: 0 <= r < |grid| ==> ReadsRow(raws[r], grid[r], classify)
  }

  function CellOf(entry: Option<Entry>, row: int, col: int): Option<Cell> {
    if entry.Some? then Some(Cell(row, col, entry.value.value, entry.value.ctype)) else None
  }

  function ListOf(cell: Option<Cell>): seq<Cell> {
    if cell.Some? then [cell.value] else []
  }

  /** The cells of the first n columns of one row. */
  function RowCells(row: Row, r: int, n: nat): seq<Cell>
    requires n <= |row|
  {
    if n == 0 then [] else RowCells(row, r, n - 1) + ListOf(CellOf(row[n - 1], r, n - 1))
  }

  function RowPart(grid: Grid, r: nat): seq<Cell>
    requires r < |grid|
  {
    RowCells(grid[r], r, |grid[r]|)
  }

  /** The cells of the first n rows. */
  function CellsUpTo(grid: Grid, n: nat): seq<Cell>
    requires n <= |grid|
  {
    if n == 0 then []
    else CellsUpTo(grid, n - 1) + RowPart(grid, n - 1)
  }

  function GridCells(grid: Grid): seq<Cell> { CellsUpTo(grid, |grid|) }

  // ---------- every add while opening is fresh ----------

  ghost predicate InRow(row: Row, r: int, n: nat, c: Cell)
    requires n <= |row|
  {
    0 <= c.col < n && CellOf(row[c.col], r, c.col) == Some(c)
  }

  /** c is the cell the grid has at its position. */
  ghost predicate InGrid(grid: Grid, n: nat, c: Cell)
    requires n <= |grid|
  {
    0 <= c.row < n && InRow(grid[c.row], c.row, |grid[c.row]|, c)
  }

  lemma {:induction false} RowCellsMeaning(row: Row, r: int, n: nat)
    requires n <= |row|
    ensures forall c :: c in RowCells(row, r, n) <==> InRow(row, r, n, c)
  {
    if n > 0 {
      RowCellsMeaning(row, r, n - 1);
    }
  }

  lemma {:induction false} RowCellsFresh(row: Row, r: int, n: nat)
    requires n <= |row|
    ensures Fresh(RowCells(row, r, n))
  {
    if n > 0 {
      RowCellsFresh(row, r, n - 1);
      RowCellsMeaning(row, r, n - 1);
      FreshConcat(RowCells(row, r, n - 1), ListOf(CellOf(row[n - 1], r, n - 1)));
    }
  }

  lemma {:induction false} CellsUpToMeaning(grid: Grid, n: nat)
    requires n <= |grid|
    ensures forall c :: c in CellsUpTo(grid, n) <==> InGrid(grid, n, c)
  {
    if n > 0 {
      CellsUpToMeaning(grid, n - 1);
      RowCellsMeaning(grid[n - 1], n - 1, |grid[n - 1]|);
    }
  }

  lemma {:induction false} CellsUpToFresh(grid: Grid, n: nat)
    requires n <= |grid|
    ensures Fresh(CellsUpTo(grid, n))
  {
    if n > 0 {
      CellsUpToFresh(grid, n - 1);
      CellsUpToMeaning(grid, n - 1);
      var row := RowPart(grid, n - 1);
      RowCellsMeaning(grid[n - 1], n - 1, |grid[n - 1]|);
      RowCellsFresh(grid[n - 1], n - 1, |grid[n - 1]|);
      FreshConcat(CellsUpTo(grid, n - 1), row);
    }
  }

  lemma FreshConcat(a: seq<Cell>, b: seq<Cell>)
    requires Fresh(a) && Fresh(b)
    requires forall x, y :: x in a && y in b ==> PosOf(x) != PosOf(y)
    ensures Fresh(a + b)
  {
    forall j, k | 0 <= j < k < |a + b|
      ensures PosOf((a + b)[j]) != PosOf((a + b)[k])
    {
      if j < |a| <= k {
        assert a[j] in a && b[k - |a|] in b;
      }
    }
  }

  /** The body of the inner loop of open_and_clean. */
  method AddEntry(table: SheetTable.Table, entry: Option<Entry>, r: int, col: int,
                  ghost shown: seq<Cell>, ghost whole: seq<Cell>)
    returns (ghost shown': seq<Cell>)
    requires table.Shows(shown) && Fresh(whole) && shown + ListOf(CellOf(entry, r, col)) <= whole
    modifies table
    ensures shown' == shown + ListOf(CellOf(entry, r, col)) && table.Shows(shown')
  {
    shown' := shown;
    var cell := CellOf(entry, r, col);
    if cell.Some? {
      assert (shown + [cell.value])[|shown|] == cell.value;
      shown' := table.AddNext(cell.value, whole, shown);
      assert shown' == shown + [cell.value];
    }
  }

  lemma {:induction false} RowCellsPrefix(row: Row, r: int, n: nat, m: nat)
    requires n <= m <= |row|
    ensures RowCells(row, r, n) <= RowCells(row, r, m)
  {
    if n < m {
      RowCellsPrefix(row, r, n, m - 1);
    }
  }

  /** What is written before column col of a row. */
  ghost function Upto(before: seq<Cell>, row: Row, r: int, col: nat): seq<Cell>
    requires col <= |row|
  {
    before + RowCells(row, r, col)
  }

  lemma NextCell(before: seq<Cell>, row: Row, r: int, col: nat)
    requires col < |row|
    ensures Upto(before, row, r, col) + ListOf(CellOf(row[col], r, col)) == Upto(before, row, r, col + 1)
    ensures Upto(before, row, r, col + 1) <= Upto(before, row, r, |row|)
  {
    RowCellsPrefix(row, r, col + 1, |row|);
  }

  lemma NothingYet(before: seq<Cell>, row: Row, r: int)
    ensures Upto(before, row, r, 0) == before
  {
  }

  /** The inner loop of open_and_clean. */
  method AddEntries(table: SheetTable.Table, raws: seq<Option<string>>, r: nat, classify: string -> CellType,
                    ghost row: Row, ghost before: seq<Cell>, ghost whole: seq<Cell>)
    requires ReadsRow(raws, row, classify)
    requires table.Shows(before) && whole == Upto(before, row, r, |row|) && Fresh(whole)
    modifies table
    ensures table.Shows(whole)
  {
    ghost var shown := before;
    NothingYet(before, row, r);
    for col := 0 to |raws|
      invariant shown == Upto(before, row, r, col) && table.Shows(shown)
    {
      NextCell(before, row, r, col);
      shown := AddEntry(table, EntryOf(raws[col], classify), r, col, shown, whole);
    }
  }

  lemma NextRow(grid: Grid, r: nat)
    requires r < |grid|
    ensures CellsUpTo(grid, r + 1) == CellsUpTo(grid, r) + RowCells(grid[r], r, |grid[r]|)
    ensures Fresh(CellsUpTo(grid, r + 1))
  {
    CellsUpToFresh(grid, r + 1);
  }

  method AddRow(table: SheetTable.Table, raws: seq<Option<string>>, r: nat, classify: string -> CellType,
                ghost grid: Grid)
    requires r < |grid| && ReadsRow(raws, grid[r], classify) && table.Shows(CellsUpTo(grid, r))
    modifies table
    ensures table.Shows(CellsUpTo(grid, r + 1))
  {
    NextRow(grid, r);
    AddEntries(table, raws, r, classify, grid[r], CellsUpTo(grid, r), CellsUpTo(grid, r + 1));
  }

  method AddRows(table: SheetTable.Table, raws: seq<seq<Option<string>>>, classify: string -> CellType,
                 ghost grid: Grid)
    requires Reads(raws, grid, classify) && table.Shows([])
    modifies table
    ensures table.Shows(GridCells(grid))
  {
    ghost var shown: seq<Cell> := [];
    for row := 0 to |raws|
      invariant shown == CellsUpTo(grid, row) && table.Shows(shown)
    {
      AddRow(table, raws[row], row, classify, grid);
      shown := CellsUpTo(grid, row + 1);
    }
  }

  /** Opening one sheet: the table shows every filled cell, row by row, and no position is written twice. */
  method OpenSheet(raws: seq<seq<Option<string>>>, classify: string -> CellType, ghost grid: Grid)
    returns (table: SheetTable.Table)
    requires Reads(raws, grid, classify)
    ensures fresh(table) && table.Shows(GridCells(grid))
  {
    table := new SheetTable.Table();
    AddRows(table, raws, classify, grid);
  }

  // ---------- moving columns ----------

  /** move and back are inverse bijections of the columns 0..w. */
  ghost predicate Inverse(move: seq<nat>, back: seq<nat>, w: nat) {
    && |move| == |back| == w
    && (forall c :: 0 <= c < w ==> move[c] < w && back[move[c]] == c)
    && (forall c :: 0 <= c < w ==> back[c] < w && move[back[c]] == c)
  }

  ghost predicate RowMoved(row: Row, row': Row, move: seq<nat>, back: seq<nat>) {
    && Inverse(move, back, |row|) && |row'| == |row|
    && forall c :: 0 <= c < |row| ==> row'[move[c]] == row[c]
  }

  /** grid' is grid with column c moved to move[c]. */
  ghost predicate Moved(grid: Grid, grid': Grid, move: seq<nat>, back: seq<nat>) {
    |grid'| == |grid| && forall r :: 0 <= r < |grid| ==> RowMoved(grid[r], grid'[r], move, back)
  }

  // ---------- a row keeps its number of cells of each type ----------

  /** The columns among the first n whose entry has type t. */
  ghost function TypedCols(row: Row, n: nat, t: CellType): set<nat>
    requires n <= |row|
  {
    if n == 0 then {}
    else if row[n - 1].Some? && row[n - 1].value.ctype == t then TypedCols(row, n - 1, t) + {n - 1}
    else TypedCols(row, n - 1, t)
  }

  lemma {:induction false} TypedColsMeaning(row: Row, n: nat, t: CellType)
    requires n <= |row|
    ensures forall c: nat :: c in TypedCols(row, n, t) <==> c < n && row[c].Some? && row[c].value.ctype == t
  {
    if n > 0 {
      TypedColsMeaning(row, n - 1, t);
    }
  }

  lemma OneCell(entry: Option<Entry>, r: int, c: int, t: CellType)
    ensures |OfType(ListOf(CellOf(entry, r, c)), t)| == if entry.Some? && entry.value.ctype == t then 1 else 0
  {
    if entry.Some? {
      assert [CellOf(entry, r, c).value][..0] == [];
    }
  }

  lemma CountStep(row: Row, r: int, n: nat, t: CellType)
    requires n < |row|
    ensures |OfType(RowCells(row, r, n + 1), t)| - |OfType(RowCells(row, r, n), t)|
            == |TypedCols(row, n + 1, t)| - |TypedCols(row, n, t)|
  {
    OneCell(row[n], r, n, t);
    TypedColsMeaning(row, n, t);
    OfTypeConcat(RowCells(row, r, n), ListOf(CellOf(row[n], r, n)), t);
  }

  lemma {:induction false} CountTyped(row: Row, r: int, n: nat, t: CellType)
    requires n <= |row|
    ensures |OfType(RowCells(row, r, n), t)| == |TypedCols(row, n, t)|
  {
    if n > 0 {
      CountTyped(row, r, n - 1, t);
      CountStep(row, r, n - 1, t);
    }
  }

  lemma {:induction false} ImageSize(s: set<nat>, s': set<nat>, move: seq<nat>, back: seq<nat>, w: nat)
    requires Inverse(move, back, w)
    requires forall c :: c in s ==> c < w && move[c] in s'
    requires forall c :: c in s' ==> c < w && back[c] in s
    ensures |s| == |s'|
  {
    if s == {} {
      assert s' == {};
    } else {
      var c :| c in s;
      ImageSize(s - {c}, s' - {move[c]}, move, back, w);
    }
  }

  lemma SameCount(row: Row, row': Row, r: int, t: CellType, move: seq<nat>, back: seq<nat>)
    requires RowMoved(row, row', move, back)
    ensures |OfType(RowCells(row, r, |row|), t)| == |OfType(RowCells(row', r, |row|), t)|
  {
    CountTyped(row, r, |row|, t);
    CountTyped(row', r, |row|, t);
    TypedColsMeaning(row, |row|, t);
    TypedColsMeaning(row', |row|, t);
    ImageSize(TypedCols(row, |row|, t), TypedCols(row', |row|, t), move, back, |row|);
  }

  // ---------- so the header cells keep their rows and types, in order ----------

  ghost function Keys(cells: seq<Cell>): seq<(int, CellType)> {
    if cells == [] then []
    else Keys(cells[..|cells| - 1]) + [(cells[|cells| - 1].row, cells[|cells| - 1].ctype)]
  }

  lemma {:induction false} SameKeys(a: seq<Cell>, b: seq<Cell>, key: (int, CellType))
    requires |a| == |b|
    requires forall c :: c in a || c in b ==> (c.row, c.ctype) == key
    ensures Keys(a) == Keys(b)
  {
    if a != [] {
      var n := |a| - 1;
      assert a[n] in a && b[n] in b;
      SameKeys(a[..n], b[..n], key);
    }
  }

  /** Keys of the cells of one type. */
  ghost function TypeKeys(cells: seq<Cell>, t: CellType): seq<(int, CellType)> {
    if cells == [] then []
    else
      var last := cells[|cells| - 1];
      TypeKeys(cells[..|cells| - 1], t) + if last.ctype == t then [(last.row, t)] else []
  }

  lemma {:induction false} TypeKeysAre(cells: seq<Cell>, t: CellType)
    ensures TypeKeys(cells, t) == Keys(OfType(cells, t))
  {
    if cells != [] {
      TypeKeysAre(cells[..|cells| - 1], t);
    }
  }

  lemma {:induction false} TypeKeysConcat(a: seq<Cell>, b: seq<Cell>, t: CellType)
    ensures TypeKeys(a + b, t) == TypeKeys(a, t) + TypeKeys(b, t)
  {
    if b == [] {
      assert a + b == a;
    } else {
      assert (a + b)[..|a + b| - 1] == a + b[..|b| - 1];
      TypeKeysConcat(a, b[..|b| - 1], t);
    }
  }

  lemma SameRowKeys(row: Row, row': Row, r: int, t: CellType, move: seq<nat>, back: seq<nat>)
    requires RowMoved(row, row', move, back)
    ensures TypeKeys(RowCells(row, r, |row|), t) == TypeKeys(RowCells(row', r, |row'|), t)
  {
    SameCount(row, row', r, t, move, back);
    RowCellsMeaning(row, r, |row|);
    RowCellsMeaning(row', r, |row'|);
    var cells, cells' := RowCells(row, r, |row|), RowCells(row', r, |row'|);
    OfTypeMeaning(cells, t);
    OfTypeMeaning(cells', t);
    SameKeys(OfType(cells, t), OfType(cells', t), (r, t));
    TypeKeysAre(cells, t);
    TypeKeysAre(cells', t);
  }

  /** TypeKeys of a grid, row by row. */
  ghost function GridKeys(grid: Grid, n: nat, t: CellType): seq<(int, CellType)>
    requires n <= |grid|
  {
    if n == 0 then [] else GridKeys(grid, n - 1, t) + TypeKeys(RowPart(grid, n - 1), t)
  }

  lemma {:induction false} GridKeysAre(grid: Grid, n: nat, t: CellType)
    requires n <= |grid|
    ensures TypeKeys(CellsUpTo(grid, n), t) == GridKeys(grid, n, t)
  {
    if n > 0 {
      GridKeysAre(grid, n - 1, t);
      TypeKeysConcat(CellsUpTo(grid, n - 1), RowPart(grid, n - 1), t);
    }
  }

  lemma {:induction false} SameTyped(grid: Grid, grid': Grid, n: nat, t: CellType)
    requires n <= |grid| && n <= |grid'|
    requires forall r: nat :: r < n ==> TypeKeys(RowPart(grid, r), t) == TypeKeys(RowPart(grid', r), t)
    ensures GridKeys(grid, n, t) == GridKeys(grid', n, t)
  {
    if n > 0 {
      SameTyped(grid, grid', n - 1, t);
    }
  }

  lemma {:induction false} KeysConcat(a: seq<Cell>, b: seq<Cell>)
    ensures Keys(a + b) == Keys(a) + Keys(b)
  {
    if b == [] {
      assert a + b == a;
    } else {
      assert (a + b)[..|a + b| - 1] == a + b[..|b| - 1];
      KeysConcat(a, b[..|b| - 1]);
    }
  }

  lemma MovedTyped(grid: Grid, grid': Grid, t: CellType, move: seq<nat>, back: seq<nat>)
    requires Moved(grid, grid', move, back)
    ensures Keys(OfType(GridCells(grid), t)) == Keys(OfType(GridCells(grid'), t))
  {
    forall r: nat | r < |grid|
      ensures TypeKeys(RowPart(grid, r), t) == TypeKeys(RowPart(grid', r), t)
    {
      SameRowKeys(grid[r], grid'[r], r, t, move, back);
    }
    SameTyped(grid, grid', |grid|, t);
    GridKeysAre(grid, |grid|, t);
    GridKeysAre(grid', |grid|, t);
    TypeKeysAre(GridCells(grid), t);
    TypeKeysAre(GridCells(grid'), t);
  }

  lemma {:induction false} SameHeaders(list: seq<Cell>, list': seq<Cell>, k: nat)
    requires k <= |HEADER_TYPES|
    requires forall t :: Keys(OfType(list, t)) == Keys(OfType(list', t))
    ensures Keys(Headers(list, k)) == Keys(Headers(list', k))
  {
    if k > 0 {
      SameHeaders(list, list', k - 1);
      KeysConcat(Headers(list, k - 1), OfType(list, HEADER_TYPES[k - 1]));
      KeysConcat(Headers(list', k - 1), OfType(list', HEADER_TYPES[k - 1]));
    }
  }

  /** Row order and header types depend on the rows and types alone. */
  lemma {:induction false} KeysDecide(a: seq<Cell>, b: seq<Cell>, r: int)
    requires Keys(a) == Keys(b)
    ensures RowOrder(a) == RowOrder(b) && Types(OfRow(a, r)) == Types(OfRow(b, r))
  {
    if a != [] {
      var m, n := |a| - 1, |b| - 1;
      assert Keys(a)[|Keys(a)| - 1] == Keys(b)[|Keys(b)| - 1];
      assert Keys(a)[..|Keys(a)| - 1] == Keys(a[..m]) && Keys(b)[..|Keys(b)| - 1] == Keys(b[..n]);
      KeysDecide(a[..m], b[..n], r);
      TypesSnoc(OfRow(a[..m], r), a[m]);
      TypesSnoc(OfRow(b[..n], r), b[n]);
    }
  }

  lemma TypesSnoc(cells: seq<Cell>, last: Cell)
    ensures Types(cells + [last]) == Types(cells) + [last.ctype]
  {
  }
}
