/** What _parse_sheet reads from a sheet (processors/table/table_processer.py), whatever the order of its columns. */
module SheetOrder {
  import opened Text
  import opened SheetLists
  import opened SheetParser
  import opened SheetColumns

  // ---------- rows ----------

  lemma {:induction false} RowOrderStep(a: seq<Cell>, b: seq<Cell>, r: int)
    requires forall c :: c in b ==> c.row == r
    requires r !in RowOrder(a)
    ensures RowOrder(a + b) == RowOrder(a) + if b == [] then [] else [r]
  {
    if b == [] {
      assert a + b == a;
    } else {
      var n := |b| - 1;
      assert (a + b)[..|a + b| - 1] == a + b[..n];
      assert b[n] in b;
      RowOrderStep(a, b[..n], r);
    }
  }

  predicate Used(row: Row) { exists c :: 0 <= c < |row| && row[c].Some? }

  /** The rows of a grid that have a cell, in sheet order. */
  function UsedRows(grid: Grid, n: nat): seq<int>
    requires n <= |grid|
  {
    if n == 0 then []
    else UsedRows(grid, n - 1) + if Used(grid[n - 1]) then [n - 1] else []
  }

  lemma {:induction false} UsedRowsMeaning(grid: Grid, n: nat)
    requires n <= |grid|
    ensures forall r :: r in UsedRows(grid, n) <==> 0 <= r < n && Used(grid[r])
    ensures forall j, k :: 0 <= j < k < |UsedRows(grid, n)| ==> UsedRows(grid, n)[j] < UsedRows(grid, n)[k]
  {
    if n > 0 {
      UsedRowsMeaning(grid, n - 1);
      var before := UsedRows(grid, n - 1);
      forall j | 0 <= j < |before|
        ensures before[j] < n - 1
      {
        assert before[j] in before;
      }
    }
  }

  lemma PartEmpty(grid: Grid, r: nat)
    requires r < |grid|
    ensures RowPart(grid, r) != [] <==> Used(grid[r])
    ensures forall c :: c in RowPart(grid, r) ==> c.row == r
  {
    RowCellsMeaning(grid[r], r, |grid[r]|);
    if RowPart(grid, r) != [] {
      assert RowPart(grid, r)[0] in RowPart(grid, r);
    }
    if c :| 0 <= c < |grid[r]| && grid[r][c].Some? {
      assert CellOf(grid[r][c], r, c).value in RowPart(grid, r);
    }
  }

  lemma AddUsed(cells: seq<Cell>, part: seq<Cell>, rows: seq<int>, n: int, used: bool)
    requires RowOrder(cells) == rows && n !in rows && (part != [] <==> used) && forall c :: c in part ==> c.row == n
    ensures RowOrder(cells + part) == rows + if used then [n] else []
  {
    RowOrderStep(cells, part, n);
  }

  lemma NextUsedRow(grid: Grid, n: nat, next: nat)
    requires next == n + 1 <= |grid| && RowOrder(CellsUpTo(grid, n)) == UsedRows(grid, n)
    ensures RowOrder(CellsUpTo(grid, next)) == UsedRows(grid, next)
  {
    PartEmpty(grid, n);
    assert n !in UsedRows(grid, n) by {
      UsedRowsMeaning(grid, n);
    }
    AddUsed(CellsUpTo(grid, n), RowPart(grid, n), UsedRows(grid, n), n, Used(grid[n]));
  }

  /** iter_rows of an opened sheet goes down the sheet. */
  lemma {:induction false} RowsInSheetOrder(grid: Grid, n: nat)
    requires n <= |grid|
    ensures RowOrder(CellsUpTo(grid, n)) == UsedRows(grid, n)
  {
    if n == 0 {
      assert CellsUpTo(grid, 0) == [] && UsedRows(grid, 0) == [];
    } else {
      RowsInSheetOrder(grid, n - 1);
      NextUsedRow(grid, n - 1, n);
    }
  }

  lemma {:induction false} SameUsedRows(grid: Grid, grid': Grid, n: nat, move: seq<nat>, back: seq<nat>)
    requires Moved(grid, grid', move, back) && n <= |grid|
    ensures UsedRows(grid, n) == UsedRows(grid', n)
  {
    if n > 0 {
      SameUsedRows(grid, grid', n - 1, move, back);
      SameUse(grid[n - 1], grid'[n - 1], move, back);
    }
  }

  lemma SameUse(row: Row, row': Row, move: seq<nat>, back: seq<nat>)
    requires RowMoved(row, row', move, back)
    ensures Used(row) <==> Used(row')
  {
    if c :| 0 <= c < |row| && row[c].Some? {
      assert row'[move[c]].Some?;
    }
    if c :| 0 <= c < |row'| && row'[c].Some? {
      assert row[back[c]].Some?;
    }
  }

  // ---------- cells ----------

  function EntryAt(grid: Grid, r: int, c: int): Option<Entry> {
    if 0 <= r < |grid| && 0 <= c < |grid[r]| then grid[r][c] else None
  }

  lemma GridLookup(grid: Grid, r: int, c: int)
    ensures Lookup(GridCells(grid), r, c) == CellOf(EntryAt(grid, r, c), r, c)
  {
    LookupMeaning(GridCells(grid), r, c);
    CellsUpToMeaning(grid, |grid|);
    if EntryAt(grid, r, c).Some? {
      assert InGrid(grid, |grid|, CellOf(EntryAt(grid, r, c), r, c).value);
    }
  }

  /** The same entries under the header columns, row by row. */
  ghost predicate SameEntries(grid: Grid, grid': Grid, cols: seq<int>, cols': seq<int>) {
    |cols| == |cols'| && forall r, k :: 0 <= k < |cols| ==> EntryAt(grid, r, cols[k]) == EntryAt(grid', r, cols'[k])
  }

  lemma SameGoodRow(grid: Grid, grid': Grid, r: int, variant: seq<CellType>, cols: seq<int>, cols': seq<int>)
    requires |cols| == |variant| && SameEntries(grid, grid', cols, cols')
    ensures GoodRow(GridCells(grid), r, variant, cols) <==> GoodRow(GridCells(grid'), r, variant, cols')
  {
    forall k | 0 <= k < |variant|
      ensures Lookup(GridCells(grid), r, cols[k]) == CellOf(EntryAt(grid, r, cols[k]), r, cols[k])
      ensures Lookup(GridCells(grid'), r, cols'[k]) == CellOf(EntryAt(grid', r, cols'[k]), r, cols'[k])
    {
      GridLookup(grid, r, cols[k]);
      GridLookup(grid', r, cols'[k]);
    }
  }

  lemma {:induction false} SameGoodRows(grid: Grid, grid': Grid, rows: seq<int>, h: int, variant: seq<CellType>,
                                        cols: seq<int>, cols': seq<int>)
    requires |cols| == |variant| && SameEntries(grid, grid', cols, cols')
    ensures GoodRows(GridCells(grid), rows, h, variant, cols) == GoodRows(GridCells(grid'), rows, h, variant, cols')
  {
    if rows != [] {
      SameGoodRows(grid, grid', rows[..|rows| - 1], h, variant, cols, cols');
      SameGoodRow(grid, grid', rows[|rows| - 1], variant, cols, cols');
    }
  }

  lemma SameColumn(grid: Grid, grid': Grid, rows: seq<int>, t: CellType, variant: seq<CellType>, cols: seq<int>,
                   cols': seq<int>)
    requires |cols| == |variant| && SameEntries(grid, grid', cols, cols')
    ensures Column(GridCells(grid), rows, t, variant, cols) == Column(GridCells(grid'), rows, t, variant, cols')
  {
    if t in variant {
      var k := IndexOf(variant, t);
      var column := Column(GridCells(grid), rows, t, variant, cols).value;
      var column' := Column(GridCells(grid'), rows, t, variant, cols').value;
      forall i | 0 <= i < |rows|
        ensures column[i] == column'[i]
      {
        GridLookup(grid, rows[i], cols[k]);
        GridLookup(grid', rows[i], cols'[k]);
      }
      assert column == column';
    }
  }

  // ---------- header columns ----------

  predicate Distinct(variant: seq<CellType>) {
    forall j, k :: 0 <= j < k < |variant| ==> variant[j] != variant[k]
  }

  const OPTIONS: seq<seq<CellType>> := [[BarcodeH, MarkingH], [MarkingH, BarcodeH], [BarcodeH], [MarkingH], []]

  /** A variant is a base and a choice of the optional columns. */
  lemma VariantParts(v: seq<CellType>) returns (base: nat, option: nat)
    requires v in VARIANTS
    ensures base < 3 && option < 5 && v == BASES[base] + OPTIONS[option]
  {
    var n :| 0 <= n < |VARIANTS| && VARIANTS[n] == v;
    base := if n < 12 then n % 6 / 2 else n - 12;
    option := if n < 6 then n % 2 else if n < 12 then 2 + n % 2 else 4;
    assert BASES[base] + [] == BASES[base];
  }

  lemma BasesAndOptions(base: nat, option: nat)
    requires base < 3 && option < 5
    ensures Distinct(BASES[base]) && Distinct(OPTIONS[option])
    ensures forall t :: t in BASES[base] ==> t !in OPTIONS[option]
  {
  }

  lemma DistinctConcat(a: seq<CellType>, b: seq<CellType>)
    requires Distinct(a) && Distinct(b) && forall t :: t in a ==> t !in b
    ensures Distinct(a + b)
  {
    forall j, k | 0 <= j < |a| && 0 <= k < |b|
      ensures a[j] != b[k]
    {
      assert a[j] in a && b[k] in b;
    }
  }

  lemma VariantsDistinct(v: seq<CellType>)
    requires v in VARIANTS
    ensures Distinct(v)
  {
    var base, option := VariantParts(v);
    BasesAndOptions(base, option);
    DistinctConcat(BASES[base], OPTIONS[option]);
  }

  lemma HeaderMember(list: seq<Cell>, c: Cell)
    requires Fresh(list)
    ensures c in HeaderCells(list) <==> c in list && c.ctype in HEADER_TYPES
  {
    HeadersMeaning(list, |HEADER_TYPES|);
    assert HEADER_TYPES[..|HEADER_TYPES|] == HEADER_TYPES;
  }

  lemma HeaderInGrid(grid: Grid, c: Cell)
    ensures c in HeaderCells(GridCells(grid)) <==> InGrid(grid, |grid|, c) && c.ctype in HEADER_TYPES
  {
    CellsUpToFresh(grid, |grid|);
    CellsUpToMeaning(grid, |grid|);
    HeaderMember(GridCells(grid), c);
  }

  /** A header column moves with the other columns. */
  lemma HeaderColumnMoves(grid: Grid, grid': Grid, h: int, k: nat, move: seq<nat>, back: seq<nat>)
    requires Moved(grid, grid', move, back)
    requires var row, row' := OfRow(HeaderCells(GridCells(grid)), h), OfRow(HeaderCells(GridCells(grid')), h);
             Types(row) == Types(row') && Distinct(Types(row)) && k < |row|
    ensures var row, row' := OfRow(HeaderCells(GridCells(grid)), h), OfRow(HeaderCells(GridCells(grid')), h);
            && k < |row'| && 0 <= h < |grid| && 0 <= row[k].col < |move|
            && row'[k].col == move[row[k].col]
  {
    var row, row' := OfRow(HeaderCells(GridCells(grid)), h), OfRow(HeaderCells(GridCells(grid')), h);
    var c := row[k];
    assert c in row;
    OfRowMeaning(HeaderCells(GridCells(grid)), h);
    HeaderInGrid(grid, c);
    assert RowMoved(grid[h], grid'[h], move, back);
    var c' := c.(col := move[c.col]);
    assert InGrid(grid', |grid'|, c');
    HeaderInGrid(grid', c');
    OfRowMeaning(HeaderCells(GridCells(grid')), h);
    var j :| 0 <= j < |row'| && row'[j] == c';
    assert Types(row)[k] == Types(row')[j] == Types(row)[j];
  }

  lemma HeaderColumnsMove(grid: Grid, grid': Grid, h: int, move: seq<nat>, back: seq<nat>)
    requires Moved(grid, grid', move, back)
    requires Types(OfRow(HeaderCells(GridCells(grid)), h)) == Types(OfRow(HeaderCells(GridCells(grid')), h))
    requires Distinct(Types(OfRow(HeaderCells(GridCells(grid)), h)))
    ensures SameEntries(grid, grid', Cols(OfRow(HeaderCells(GridCells(grid)), h)),
                        Cols(OfRow(HeaderCells(GridCells(grid')), h)))
  {
    var row, row' := OfRow(HeaderCells(GridCells(grid)), h), OfRow(HeaderCells(GridCells(grid')), h);
    assert |Types(row)| == |Types(row')|;
    forall r, k | 0 <= k < |row|
      ensures EntryAt(grid, r, Cols(row)[k]) == EntryAt(grid', r, Cols(row')[k])
    {
      HeaderColumnMoves(grid, grid', h, k, move, back);
      if 0 <= r < |grid| {
        assert RowMoved(grid[r], grid'[r], move, back);
      }
    }
  }

  // ---------- the theorem ----------

  lemma SameFilled(grid: Grid, grid': Grid, h: int, variant: seq<CellType>, cols: seq<int>, cols': seq<int>,
                   move: seq<nat>, back: seq<nat>)
    requires Moved(grid, grid', move, back) && |cols| == |variant| && SameEntries(grid, grid', cols, cols')
    ensures SheetParser.Filled(GridCells(grid), h, variant, cols)
            == SheetParser.Filled(GridCells(grid'), h, variant, cols')
  {
    RowsInSheetOrder(grid, |grid|);
    RowsInSheetOrder(grid', |grid|);
    SameUsedRows(grid, grid', |grid|, move, back);
    var used := RowOrder(GridCells(grid));
    SameGoodRows(grid, grid', used, h, variant, cols, cols');
    var rows := GoodRows(GridCells(grid), used, h, variant, cols);
    forall t
      ensures Column(GridCells(grid), rows, t, variant, cols) == Column(GridCells(grid'), rows, t, variant, cols')
    {
      SameColumn(grid, grid', rows, t, variant, cols, cols');
    }
  }

  lemma SameMatch(a: seq<Cell>, b: seq<Cell>, variant: seq<CellType>)
    requires Keys(a) == Keys(b)
    ensures AllMatch(a, variant) <==> AllMatch(b, variant)
  {
    KeysDecide(a, b, 0);
    forall r
      ensures RowMatches(a, r, variant) <==> RowMatches(b, r, variant)
    {
      KeysDecide(a, b, r);
    }
  }

  lemma MovedHeaders(grid: Grid, grid': Grid, move: seq<nat>, back: seq<nat>)
    requires Moved(grid, grid', move, back)
    ensures Keys(HeaderCells(GridCells(grid))) == Keys(HeaderCells(GridCells(grid')))
  {
    forall t
      ensures Keys(OfType(GridCells(grid), t)) == Keys(OfType(GridCells(grid'), t))
    {
      MovedTyped(grid, grid', t, move, back);
    }
    SameHeaders(GridCells(grid), GridCells(grid'), |HEADER_TYPES|);
  }

  /** The order of a sheet's columns changes neither whether it is accepted nor what is read from it. */
  lemma ColumnOrderIrrelevant(grid: Grid, grid': Grid, move: seq<nat>, back: seq<nat>)
    requires Moved(grid, grid', move, back)
    ensures SheetResult(GridCells(grid')) == SheetResult(GridCells(grid))
  {
    var a, b := HeaderCells(GridCells(grid)), HeaderCells(GridCells(grid'));
    MovedHeaders(grid, grid', move, back);
    if a != [] {
      RowOrderNonEmpty(a);
      var h := RowOrder(a)[0];
      KeysDecide(a, b, h);
      var variant := Types(OfRow(a, h));
      SameMatch(a, b, variant);
      if variant in VARIANTS {
        VariantsDistinct(variant);
        HeaderColumnsMove(grid, grid', h, move, back);
        SameFilled(grid, grid', h, variant, Cols(OfRow(a, h)), Cols(OfRow(b, h)), move, back);
      }
    }
  }
}
