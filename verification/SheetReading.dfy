/** Acceptance and contents of a sheet, said of the grid alone (processors/table/table_processer.py). */
module SheetReading {
  import opened Text
  import opened SheetTypes
  import opened SheetLists
  import opened SheetParser
  import opened SheetColumns
  import opened SheetOrder
  import opened SheetMeaning

  predicate HasHeader(row: Row) {
    exists c :: 0 <= c < |row| && row[c].Some? && row[c].value.ctype in HEADER_TYPES
  }

  /** One header cell of every type of the variant, none of any other type. */
  ghost predicate HeaderIs(row: Row, variant: seq<CellType>) {
    forall i :: 0 <= i < |HEADER_TYPES| ==> |TypedCols(row, |row|, HEADER_TYPES[i])| == Once(variant, HEADER_TYPES[i])
  }

  ghost predicate Accepts(grid: Grid, variant: seq<CellType>) {
    && variant in VARIANTS && Ascends(variant)
    && (exists r :: 0 <= r < |grid| && HasHeader(grid[r]))
    && (forall r :: 0 <= r < |grid| && HasHeader(grid[r]) ==> HeaderIs(grid[r], variant))
  }

  // ---------- acceptance ----------

  lemma {:induction false} OfRowAll(cells: seq<Cell>, r: int)
    ensures (forall c :: c in cells ==> c.row == r) ==> OfRow(cells, r) == cells
    ensures (forall c :: c in cells ==> c.row != r) ==> OfRow(cells, r) == []
  {
    if cells != [] {
      OfRowAll(cells[..|cells| - 1], r);
      assert cells == cells[..|cells| - 1] + [cells[|cells| - 1]];
    }
  }

  lemma RowOfParts(before: seq<Cell>, part: seq<Cell>, n: int, r: int)
    requires forall c :: c in before ==> c.row < n
    requires forall c :: c in part ==> c.row == n
    ensures OfRow(before + part, r) == if r == n then part else OfRow(before, r)
  {
    OfRowConcat(before, part, r);
    OfRowAll(before, r);
    OfRowAll(part, r);
  }

  lemma GridRowStep(grid: Grid, n: nat, r: nat)
    requires r < n <= |grid|
    ensures r == n - 1 ==> OfRow(CellsUpTo(grid, n), r) == RowPart(grid, r)
    ensures r < n - 1 ==> OfRow(CellsUpTo(grid, n), r) == OfRow(CellsUpTo(grid, n - 1), r)
  {
    PartEmpty(grid, n - 1);
    CellsUpToMeaning(grid, n - 1);
    RowOfParts(CellsUpTo(grid, n - 1), RowPart(grid, n - 1), n - 1, r);
  }

  lemma {:induction false} GridRow(grid: Grid, n: nat, r: nat)
    requires r < n <= |grid|
    ensures OfRow(CellsUpTo(grid, n), r) == RowPart(grid, r)
  {
    GridRowStep(grid, n, r);
    if r < n - 1 {
      GridRow(grid, n - 1, r);
    }
  }

  lemma HeaderCountsOfGrid(grid: Grid, r: nat, variant: seq<CellType>)
    requires r < |grid|
    ensures CountsAre(GridCells(grid), r, variant, |HEADER_TYPES|) <==> HeaderIs(grid[r], variant)
  {
    GridRow(grid, |grid|, r);
    forall i | 0 <= i < |HEADER_TYPES|
      ensures CountOf(GridCells(grid), r, HEADER_TYPES[i]) == |TypedCols(grid[r], |grid[r]|, HEADER_TYPES[i])|
    {
      CountTyped(grid[r], r, |grid[r]|, HEADER_TYPES[i]);
    }
  }

  lemma HeaderRowsMeaning(grid: Grid, r: int)
    ensures r in RowOrder(HeaderCells(GridCells(grid))) <==> 0 <= r < |grid| && HasHeader(grid[r])
  {
    var headers := HeaderCells(GridCells(grid));
    RowOrderMeaning(headers);
    if r in RowOrder(headers) {
      var c :| c in headers && c.row == r;
      HeaderInGrid(grid, c);
    }
    if 0 <= r < |grid| && HasHeader(grid[r]) {
      var c :| 0 <= c < |grid[r]| && grid[r][c].Some? && grid[r][c].value.ctype in HEADER_TYPES;
      HeaderInGrid(grid, CellOf(grid[r][c], r, c).value);
    }
  }

  lemma MatchesIff(grid: Grid, variant: seq<CellType>)
    requires variant in VARIANTS
    ensures Accepts(grid, variant) <==>
            HeaderCells(GridCells(grid)) != [] && AllMatch(HeaderCells(GridCells(grid)), variant)
  {
    var headers := HeaderCells(GridCells(grid));
    forall r
      ensures r in RowOrder(headers) <==> 0 <= r < |grid| && HasHeader(grid[r])
      ensures r in RowOrder(headers) ==>
                (RowMatches(headers, r, variant) <==> Ascends(variant) && HeaderIs(grid[r], variant))
    {
      HeaderRowsMeaning(grid, r);
      if r in RowOrder(headers) {
        VariantMatch(GridCells(grid), r, variant);
        HeaderCountsOfGrid(grid, r, variant);
      }
    }
    if headers != [] {
      RowOrderNonEmpty(headers);
      assert RowOrder(headers)[0] in RowOrder(headers);
    }
  }

  /** A sheet is accepted exactly when it has a header and every row with a header cell has the header of one
      and the same variant, in any order of columns. */
  lemma AcceptedIff(grid: Grid)
    ensures SheetResult(GridCells(grid)).material.Some? <==> exists variant :: Accepts(grid, variant)
  {
    var list := GridCells(grid);
    var headers := HeaderCells(list);
    if variant :| Accepts(grid, variant) {
      MatchesIff(grid, variant);
      VariantIsFirstRow(headers, variant);
      VariantTypes(variant);
    }
    if SheetResult(list).material.Some? {
      MatchesIff(grid, Types(OfRow(headers, RowOrder(headers)[0])));
    }
  }

  lemma HeaderAlone(variant: seq<CellType>, row: Row, t: CellType)
    requires Distinct(variant) && |row| == |variant|
    requires forall k :: 0 <= k < |row| ==> row[k].Some? && row[k].value.ctype == variant[k]
    ensures |TypedCols(row, |row|, t)| == Once(variant, t)
  {
    TypedColsMeaning(row, |row|, t);
    if t in variant {
      var k := IndexOf(variant, t);
      assert TypedCols(row, |row|, t) == {k};
    } else {
      assert TypedCols(row, |row|, t) == {};
    }
  }

  /** Every variant in merge order is the header of some accepted sheet, so those are exactly the live ones. */
  lemma LiveVariants(variant: seq<CellType>) returns (grid: Grid)
    requires variant in VARIANTS
    ensures Accepts(grid, variant) <==> Ascends(variant)
  {
    var row: Row := seq(|variant|, k requires 0 <= k < |variant| => Some(Entry("", variant[k])));
    grid := [row];
    VariantsDistinct(variant);
    VariantTypes(variant);
    forall i | 0 <= i < |HEADER_TYPES|
      ensures |TypedCols(row, |row|, HEADER_TYPES[i])| == Once(variant, HEADER_TYPES[i])
    {
      HeaderAlone(variant, row, HEADER_TYPES[i]);
    }
    var k := IndexOf(variant, MatH);
    assert MatH == HEADER_TYPES[0] && row[k].value.ctype in HEADER_TYPES;
    assert HasHeader(grid[0]);
  }

  // ---------- contents ----------

  /** One entry under every header column, of a type allowed there. */
  predicate Admissible(grid: Grid, r: int, variant: seq<CellType>, cols: seq<int>)
    requires |cols| == |variant|
  {
    forall k :: 0 <= k < |cols| ==>
      EntryAt(grid, r, cols[k]).Some? && Allowed(variant[k], EntryAt(grid, r, cols[k]).value.ctype)
  }

  predicate IsHeader(grid: Grid, h: int, variant: seq<CellType>, cols: seq<int>) {
    && |cols| == |variant|
    && forall k :: 0 <= k < |cols| ==>
         EntryAt(grid, h, cols[k]).Some? && EntryAt(grid, h, cols[k]).value.ctype == variant[k]
  }

  predicate FirstHeader(grid: Grid, h: int) {
    0 <= h < |grid| && HasHeader(grid[h]) && forall r :: 0 <= r < h ==> !HasHeader(grid[r])
  }

  /** One list of the result: absent when the variant has no such column, else one value per row. */
  predicate Lists(field: Option<seq<string>>, grid: Grid, rows: seq<int>, t: CellType, variant: seq<CellType>,
                  cols: seq<int>)
    requires |cols| == |variant|
  {
    && (field.Some? <==> t in variant)
    && (field.Some? ==> |field.value| == |rows| && forall i :: 0 <= i < |rows| ==>
          EntryAt(grid, rows[i], cols[IndexOf(variant, t)]).Some?
          && field.value[i] == EntryAt(grid, rows[i], cols[IndexOf(variant, t)]).value.value)
  }

  /** Entry i of every list comes from row rows[i] of the sheet. */
  predicate AllLists(res: TableParseResults, grid: Grid, rows: seq<int>, variant: seq<CellType>, cols: seq<int>)
    requires |cols| == |variant|
  {
    && Lists(res.material, grid, rows, MatH, variant, cols)
    && Lists(res.width, grid, rows, WidthH, variant, cols)
    && Lists(res.length, grid, rows, LengthH, variant, cols)
    && Lists(res.height, grid, rows, HeightH, variant, cols)
    && Lists(res.amount, grid, rows, AmountH, variant, cols)
    && Lists(res.barcode, grid, rows, BarcodeH, variant, cols)
    && Lists(res.marking, grid, rows, MarkingH, variant, cols)
  }

  /** rows: the admissible rows below h, each once and in sheet order. */
  ghost predicate RowsBelow(grid: Grid, rows: seq<int>, h: int, variant: seq<CellType>, cols: seq<int>)
    requires |cols| == |variant|
  {
    && (forall i, j :: 0 <= i < j < |rows| ==> rows[i] < rows[j])
    && (forall r :: r in rows <==> r > h && Admissible(grid, r, variant, cols))
  }

  ghost predicate ReadFrom(res: TableParseResults, grid: Grid, h: int, variant: seq<CellType>, cols: seq<int>,
                           rows: seq<int>)
  {
    && Accepts(grid, variant) && FirstHeader(grid, h) && IsHeader(grid, h, variant, cols)
    && RowsBelow(grid, rows, h, variant, cols)
    && AllLists(res, grid, rows, variant, cols) && res.size == |rows|
  }

  lemma GoodIsAdmissible(grid: Grid, r: int, variant: seq<CellType>, cols: seq<int>)
    requires |cols| == |variant|
    ensures GoodRow(GridCells(grid), r, variant, cols) <==> Admissible(grid, r, variant, cols)
  {
    forall k | 0 <= k < |variant|
      ensures Lookup(GridCells(grid), r, cols[k]) == CellOf(EntryAt(grid, r, cols[k]), r, cols[k])
    {
      GridLookup(grid, r, cols[k]);
    }
  }

  lemma {:induction false} GoodRowsMeaning(list: seq<Cell>, rows: seq<int>, h: int, variant: seq<CellType>,
                                           cols: seq<int>)
    requires |cols| == |variant|
    requires forall i, j :: 0 <= i < j < |rows| ==> rows[i] < rows[j]
    ensures var good := GoodRows(list, rows, h, variant, cols);
            && (forall r :: r in good <==> r in rows && r > h && GoodRow(list, r, variant, cols))
            && (forall i, j :: 0 <= i < j < |good| ==> good[i] < good[j])
  {
    if rows != [] {
      var n := |rows| - 1;
      GoodRowsMeaning(list, rows[..n], h, variant, cols);
      assert rows == rows[..n] + [rows[n]];
      var before := GoodRows(list, rows[..n], h, variant, cols);
      forall i | 0 <= i < |before|
        ensures before[i] < rows[n]
      {
        assert before[i] in before;
      }
    }
  }

  lemma RowsReadAreBelow(grid: Grid, h: int, variant: seq<CellType>, cols: seq<int>)
    requires |cols| == |variant| > 0
    ensures RowsBelow(grid, GoodRows(GridCells(grid), RowOrder(GridCells(grid)), h, variant, cols), h, variant, cols)
  {
    RowsInSheetOrder(grid, |grid|);
    UsedRowsMeaning(grid, |grid|);
    GoodRowsMeaning(GridCells(grid), RowOrder(GridCells(grid)), h, variant, cols);
    forall r
      ensures GoodRow(GridCells(grid), r, variant, cols) <==> Admissible(grid, r, variant, cols)
      ensures Admissible(grid, r, variant, cols) ==> r in UsedRows(grid, |grid|)
    {
      GoodIsAdmissible(grid, r, variant, cols);
      if Admissible(grid, r, variant, cols) {
        assert EntryAt(grid, r, cols[0]).Some?;
      }
    }
  }

  lemma ColumnLists(grid: Grid, rows: seq<int>, t: CellType, variant: seq<CellType>, cols: seq<int>)
    requires |cols| == |variant| && forall r :: r in rows ==> Admissible(grid, r, variant, cols)
    ensures Lists(Column(GridCells(grid), rows, t, variant, cols), grid, rows, t, variant, cols)
  {
    if t in variant {
      var k := IndexOf(variant, t);
      forall i | 0 <= i < |rows|
        ensures EntryAt(grid, rows[i], cols[k]).Some?
        ensures Column(GridCells(grid), rows, t, variant, cols).value[i] == EntryAt(grid, rows[i], cols[k]).value.value
      {
        assert rows[i] in rows;
        GridLookup(grid, rows[i], cols[k]);
      }
    }
  }

  lemma HeaderColumns(grid: Grid, h: int, variant: seq<CellType>)
    requires Types(OfRow(HeaderCells(GridCells(grid)), h)) == variant
    ensures IsHeader(grid, h, variant, Cols(OfRow(HeaderCells(GridCells(grid)), h)))
  {
    var row := OfRow(HeaderCells(GridCells(grid)), h);
    assert |Types(row)| == |row|;
    forall k | 0 <= k < |row|
      ensures EntryAt(grid, h, Cols(row)[k]).Some? && EntryAt(grid, h, Cols(row)[k]).value.ctype == variant[k]
    {
      assert row[k] in row && Types(row)[k] == row[k].ctype;
      OfRowMeaning(HeaderCells(GridCells(grid)), h);
      HeaderInGrid(grid, row[k]);
    }
  }

  // ---------- the first header row is the topmost one ----------

  ghost predicate GoesDown(cells: seq<Cell>) {
    forall i, j :: 0 <= i < j < |cells| ==> cells[i].row <= cells[j].row
  }

  lemma {:induction false} GridGoesDown(grid: Grid, n: nat)
    requires n <= |grid|
    ensures GoesDown(CellsUpTo(grid, n))
  {
    if n > 0 {
      GridGoesDown(grid, n - 1);
      CellsUpToMeaning(grid, n - 1);
      PartEmpty(grid, n - 1);
      var before, part := CellsUpTo(grid, n - 1), RowPart(grid, n - 1);
      forall i | 0 <= i < |before|
        ensures before[i].row < n - 1
      {
        assert before[i] in before;
      }
      forall i | 0 <= i < |part|
        ensures part[i].row == n - 1
      {
        assert part[i] in part;
      }
    }
  }

  lemma {:induction false} TypeGoesDown(cells: seq<Cell>, t: CellType)
    requires GoesDown(cells)
    ensures GoesDown(OfType(cells, t))
  {
    if cells != [] {
      var n := |cells| - 1;
      TypeGoesDown(cells[..n], t);
      OfTypeMeaning(cells[..n], t);
      var before := OfType(cells[..n], t);
      forall i | 0 <= i < |before|
        ensures before[i].row <= cells[n].row
      {
        assert before[i] in before;
        var j :| 0 <= j < n && cells[..n][j] == before[i];
      }
    }
  }

  lemma {:induction false} MaterialFirst(list: seq<Cell>, k: nat)
    requires 1 <= k <= |HEADER_TYPES|
    ensures OfType(list, MatH) <= Headers(list, k)
  {
    if k > 1 {
      MaterialFirst(list, k - 1);
    } else {
      assert Headers(list, 0) + OfType(list, MatH) == OfType(list, MatH);
    }
  }

  lemma MaterialInRow(grid: Grid, r: int, variant: seq<CellType>) returns (c: Cell)
    requires Accepts(grid, variant) && 0 <= r < |grid| && HasHeader(grid[r])
    ensures c in OfType(GridCells(grid), MatH) && c.row == r
  {
    VariantTypes(variant);
    assert HEADER_TYPES[0] == MatH;
    var cols := TypedCols(grid[r], |grid[r]|, MatH);
    TypedColsMeaning(grid[r], |grid[r]|, MatH);
    assert cols != {};
    var col :| col in cols;
    c := CellOf(grid[r][col], r, col).value;
    CellsUpToMeaning(grid, |grid|);
    OfTypeMeaning(GridCells(grid), MatH);
    assert InGrid(grid, |grid|, c);
  }

  lemma HeaderIsTopmost(grid: Grid, variant: seq<CellType>)
    requires Accepts(grid, variant)
    ensures HeaderCells(GridCells(grid)) != [] && FirstHeader(grid, RowOrder(HeaderCells(GridCells(grid)))[0])
  {
    var headers, materials := HeaderCells(GridCells(grid)), OfType(GridCells(grid), MatH);
    MatchesIff(grid, variant);
    RowOrderNonEmpty(headers);
    var h := RowOrder(headers)[0];
    HeaderRowsMeaning(grid, h);
    MaterialFirst(GridCells(grid), |HEADER_TYPES|);
    GridGoesDown(grid, |grid|);
    TypeGoesDown(GridCells(grid), MatH);
    forall r | 0 <= r < |grid| && HasHeader(grid[r])
      ensures h <= r
    {
      var c := MaterialInRow(grid, r, variant);
      var k :| 0 <= k < |materials| && materials[k] == c;
      assert headers[0] == materials[0];
    }
  }

  /** What _parse_sheet reads: the admissible rows below the topmost header row, once each and in sheet order,
      every list holding the values of one column in those rows. */
  lemma ResultMeaning(grid: Grid) returns (h: int, variant: seq<CellType>, cols: seq<int>, rows: seq<int>)
    ensures SheetResult(GridCells(grid)).material.Some? ==>
              ReadFrom(SheetResult(GridCells(grid)), grid, h, variant, cols, rows)
  {
    AcceptedIff(grid);
    if accepted :| Accepts(grid, accepted) {
      h, variant, cols, rows := AcceptedMeaning(grid, accepted);
    } else {
      h, variant, cols, rows := 0, [], [], [];
    }
  }

  lemma AcceptedMeaning(grid: Grid, accepted: seq<CellType>)
    returns (h: int, variant: seq<CellType>, cols: seq<int>, rows: seq<int>)
    requires Accepts(grid, accepted)
    ensures ReadFrom(SheetResult(GridCells(grid)), grid, h, variant, cols, rows)
  {
    variant := accepted;
    var list, headers := GridCells(grid), HeaderCells(GridCells(grid));
    HeaderIsTopmost(grid, variant);
    h := RowOrder(headers)[0];
    MatchesIff(grid, variant);
    VariantIsFirstRow(headers, variant);
    VariantTypes(variant);
    cols := Cols(OfRow(headers, h));
    HeaderColumns(grid, h, variant);
    RowsReadAreBelow(grid, h, variant, cols);
    rows := GoodRows(list, RowOrder(list), h, variant, cols);
    forall t
      ensures Lists(Column(list, rows, t, variant, cols), grid, rows, t, variant, cols)
    {
      ColumnLists(grid, rows, t, variant, cols);
    }
    assert SheetResult(list) == SheetParser.Filled(list, h, variant, cols);
  }

  /** An accepted sheet has amounts and widths, and either lengths or heights but not both. */
  lemma OneDimensionMissing(grid: Grid)
    ensures var res := SheetResult(GridCells(grid));
            res.material.Some? ==> res.amount.Some? && res.width.Some? && (res.length.Some? <==> res.height.None?)
  {
    var h, variant, cols, rows := ResultMeaning(grid);
    if SheetResult(GridCells(grid)).material.Some? {
      AscendingVariants(variant);
    }
  }

  lemma AscendingVariants(variant: seq<CellType>)
    requires variant in VARIANTS && Ascends(variant)
    ensures AmountH in variant && WidthH in variant && (LengthH in variant <==> HeightH !in variant)
  {
    var n :| 0 <= n < |VARIANTS| && VARIANTS[n] == variant;
    WhichAreDead(n);
  }
}
