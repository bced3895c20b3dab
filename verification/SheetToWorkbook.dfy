/** From the sheet a customer sends to the rows of the workbooks (processors/table/table_processer.py). */
module SheetToWorkbook {
  import opened Text
  import opened SheetTypes
  import opened SheetLists
  import opened SheetColumns
  import opened SheetOrder
  import opened SheetReading
  import opened Workbooks
  import opened DocumentLoop

  lemma ListsAreShaped(res: TableParseResults, grid: Grid, rows: seq<int>, variant: seq<CellType>, cols: seq<int>)
    requires |cols| == |variant| && AllLists(res, grid, rows, variant, cols) && res.size == |rows|
    ensures Shaped(res)
  {
  }

  /** The builders find X and Y in every accepted sheet, never index past a list, and leave out
      exactly the sheets without rows. */
  lemma ParsedSheetFitsBuilders(grid: Grid)
    ensures var res := SheetParser.SheetResult(GridCells(grid));
            && Shaped(res)
            && (Skipped(res) <==> res.IsEmpty())
            && (res.material.Some? ==> SideX(res) == res.width
                                       && SideY(res) == if res.height.Some? then res.height else res.length)
  {
    var res := SheetParser.SheetResult(GridCells(grid));
    if res.material.Some? {
      var h, variant, cols, rows := ResultMeaning(grid);
      ListsAreShaped(res, grid, rows, variant, cols);
      OneDimensionMissing(grid);
    } else {
      RejectedIsEmpty(grid);
    }
  }

  lemma RejectedIsEmpty(grid: Grid)
    requires SheetParser.SheetResult(GridCells(grid)).material.None?
    ensures SheetParser.SheetResult(GridCells(grid)) == NO_RESULTS
  {
    var headers := SheetParser.HeaderCells(GridCells(grid));
    if headers != [] {
      SheetParser.RowOrderNonEmpty(headers);
      var variant := Types(OfRow(headers, RowOrder(headers)[0]));
      if variant in SheetParser.VARIANTS {
        SheetMeaning.VariantTypes(variant);
      }
    }
  }

  /** The text under the header of type t in a row of the sheet. */
  function TextAt(grid: Grid, r: int, t: CellType, variant: seq<CellType>, cols: seq<int>): string
    requires |cols| == |variant| && t in variant
  {
    var e := EntryAt(grid, r, cols[SheetParser.IndexOf(variant, t)]);
    if e.Some? then e.value.value else ""
  }

  function OptionalText(grid: Grid, r: int, t: CellType, variant: seq<CellType>, cols: seq<int>): string
    requires |cols| == |variant|
  {
    if t in variant then TextAt(grid, r, t, variant, cols) else ""
  }

  /** A row of the sheet as the builders see it. */
  function RowRecord(grid: Grid, r: int, variant: seq<CellType>, cols: seq<int>, i: nat): Record
    requires |cols| == |variant| && MatH in variant && WidthH in variant && AmountH in variant
    requires LengthH in variant <==> HeightH !in variant
  {
    Record(i, TextAt(grid, r, MatH, variant, cols), TextAt(grid, r, WidthH, variant, cols),
           TextAt(grid, r, if HeightH in variant then HeightH else LengthH, variant, cols),
           TextAt(grid, r, AmountH, variant, cols),
           OptionalText(grid, r, MarkingH, variant, cols), OptionalText(grid, r, BarcodeH, variant, cols))
  }

  lemma ListText(field: Option<seq<string>>, grid: Grid, rows: seq<int>, t: CellType, variant: seq<CellType>,
                 cols: seq<int>, i: nat)
    requires |cols| == |variant| && Lists(field, grid, rows, t, variant, cols) && i < |rows|
    ensures field.Some? <==> t in variant
    ensures field.Some? ==> field.value[i] == TextAt(grid, rows[i], t, variant, cols)
  {
  }

  /** The builders' records are the admissible rows below the header, in sheet order. */
  lemma RecordsAreRows(res: TableParseResults, grid: Grid, h: int, variant: seq<CellType>, cols: seq<int>,
                       rows: seq<int>, i: nat)
    requires ReadFrom(res, grid, h, variant, cols, rows) && i < |rows|
    ensures MatH in variant && WidthH in variant && AmountH in variant && (LengthH in variant <==> HeightH !in variant)
    ensures Shaped(res) && |Records(res)| == |rows| && Records(res)[i] == RowRecord(grid, rows[i], variant, cols, i)
  {
    SheetMeaning.VariantTypes(variant);
    AscendingVariants(variant);
    ListsAreShaped(res, grid, rows, variant, cols);
    ListText(res.material, grid, rows, MatH, variant, cols, i);
    ListText(res.width, grid, rows, WidthH, variant, cols, i);
    ListText(res.length, grid, rows, LengthH, variant, cols, i);
    ListText(res.height, grid, rows, HeightH, variant, cols, i);
    ListText(res.amount, grid, rows, AmountH, variant, cols, i);
    ListText(res.barcode, grid, rows, BarcodeH, variant, cols, i);
    ListText(res.marking, grid, rows, MarkingH, variant, cols, i);
  }

  /** A cell holds the number a text stands for, with a comma read as a point. */
  ghost predicate ShowsNumber(ws: Sheet, row: int, col: int, text: string, number: Conversion) {
    var n := number(DotForComma(text));
    n.Some? && At(ws, row, col) == Some(Value.Number(n.value))
  }

  /** Row 3 + i of the request workbook holds the i-th admissible row of the sheet: material, width, height or length,
      amount, marking and barcode, each in its column, and the material's postfix. */
  lemma RequestShowsTheRow(res: TableParseResults, grid: Grid, h: int, variant: seq<CellType>, cols: seq<int>,
                           rows: seq<int>, i: nat, ws: Sheet, elements: map<string, Element>, number: Conversion,
                           headings: Sheet)
    requires ReadFrom(res, grid, h, variant, cols, rows) && i < |rows|
    requires RequestPage(ws, res, elements, number, headings)
    ensures MatH in variant && WidthH in variant && AmountH in variant && (LengthH in variant <==> HeightH !in variant)
    ensures var r, row := rows[i], 3 + i;
            var material := TextAt(grid, r, MatH, variant, cols);
            && At(ws, row, 1) == Some(Words(material)) && material in elements
            && ShowsNumber(ws, row, 11, TextAt(grid, r, WidthH, variant, cols), number)
            && ShowsNumber(ws, row, 12, TextAt(grid, r, if HeightH in variant then HeightH else LengthH, variant, cols),
                           number)
            && ShowsNumber(ws, row, 13, TextAt(grid, r, AmountH, variant, cols), number)
            && At(ws, row, 14) == Some(Words(OptionalText(grid, r, MarkingH, variant, cols)))
            && At(ws, row, 16) == Some(Words(OptionalText(grid, r, BarcodeH, variant, cols)))
            && (elements[material].parsed.postfix.Some? ==>
                  At(ws, row, 18) == Some(Words(elements[material].parsed.postfix.value)))
  {
    RecordsAreRows(res, grid, h, variant, cols, rows, i);
    RecordShown(ws, headings, Records(res), elements, number, i);
  }

  lemma RecordShown(ws: Sheet, headings: Sheet, recs: seq<Record>, elements: map<string, Element>, number: Conversion,
                    i: nat)
    requires AllPlaceable(recs, elements, number) && RequestSheet(ws, headings, recs, elements, number) && i < |recs|
    ensures var rec := recs[i];
            && At(ws, 3 + i, 1) == Some(Words(rec.material)) && rec.material in elements
            && ShowsNumber(ws, 3 + i, 11, rec.x, number) && ShowsNumber(ws, 3 + i, 12, rec.y, number)
            && ShowsNumber(ws, 3 + i, 13, rec.amount, number)
            && At(ws, 3 + i, 14) == Some(Words(rec.marking)) && At(ws, 3 + i, 16) == Some(Words(rec.barcode))
            && (elements[rec.material].parsed.postfix.Some? ==>
                  At(ws, 3 + i, 18) == Some(Words(elements[rec.material].parsed.postfix.value)))
  {
    assert Placeable(recs[i], elements, number);
  }

  /** The fixed columns of a row of the calculation workbook. */
  ghost predicate CalculationCells(ws: Sheet, row: int, place: nat, x: string, y: string, amount: string,
                                   number: Conversion)
  {
    && At(ws, row, 1) == Some(Words(Decimal(place))) && At(ws, row, 17) == Some(Words("YES"))
    && ShowsNumber(ws, row, 2, amount, number)
    && ShowsNumber(ws, row, 10, x, number) && ShowsNumber(ws, row, 11, y, number)
  }

  lemma CalculationShown(ws: Sheet, row: int, rec: Record, elements: map<string, Element>, number: Conversion)
    requires RowHolds(ws, row, rec, elements, number)
    ensures CalculationCells(ws, row, rec.index + 1, rec.x, rec.y, rec.amount, number)
  {
  }

  lemma RecordFields(res: TableParseResults, grid: Grid, h: int, variant: seq<CellType>, cols: seq<int>, rows: seq<int>,
                     i: nat)
    requires ReadFrom(res, grid, h, variant, cols, rows) && i < |rows| && Shaped(res) && i < |Records(res)|
    ensures WidthH in variant && AmountH in variant && (LengthH in variant <==> HeightH !in variant)
    ensures var rec := Records(res)[i];
            && rec.index == i && rec.x == TextAt(grid, rows[i], WidthH, variant, cols)
            && rec.y == TextAt(grid, rows[i], if HeightH in variant then HeightH else LengthH, variant, cols)
            && rec.amount == TextAt(grid, rows[i], AmountH, variant, cols)
  {
    RecordsAreRows(res, grid, h, variant, cols, rows, i);
  }

  lemma RowShown(res: TableParseResults, grid: Grid, h: int, variant: seq<CellType>, cols: seq<int>, rows: seq<int>,
                 i: nat, ws: Sheet, row: int, rec: Record, elements: map<string, Element>, number: Conversion)
    requires ReadFrom(res, grid, h, variant, cols, rows) && i < |rows| && Shaped(res) && i < |Records(res)|
    requires rec == Records(res)[i] && RowHolds(ws, row, rec, elements, number)
    ensures WidthH in variant && AmountH in variant && (LengthH in variant <==> HeightH !in variant)
    ensures CalculationCells(ws, row, i + 1, TextAt(grid, rows[i], WidthH, variant, cols),
                             TextAt(grid, rows[i], if HeightH in variant then HeightH else LengthH, variant, cols),
                             TextAt(grid, rows[i], AmountH, variant, cols), number)
  {
    CalculationShown(ws, row, rec, elements, number);
    RecordFields(res, grid, h, variant, cols, rows, i);
  }

  lemma RowsAndRecords(res: TableParseResults, grid: Grid, h: int, variant: seq<CellType>, cols: seq<int>,
                       rows: seq<int>, i: nat)
    requires ReadFrom(res, grid, h, variant, cols, rows) && i < |rows|
    ensures WidthH in variant && AmountH in variant && (LengthH in variant <==> HeightH !in variant)
    ensures Shaped(res) && i < |Records(res)|
  {
    RecordsAreRows(res, grid, h, variant, cols, rows, i);
  }

  /** In the calculation workbook the i-th admissible row of sheet s stands below the rows of the sheets before: its
      place, the width, the height or length, and the amount. */
  lemma CalculationShowsTheRow(sheets: seq<TableParseResults>, s: nat, grid: Grid, h: int, variant: seq<CellType>,
                               cols: seq<int>, rows: seq<int>, i: nat, ws: Sheet, elements: map<string, Element>,
                               number: Conversion, headings: Sheet)
    requires AllShaped(sheets) && s < |sheets| && ReadFrom(sheets[s], grid, h, variant, cols, rows) && i < |rows|
    requires AllPlaceable(AllRecords(sheets), elements, number)
    requires CalculationSheet(ws, headings, AllRecords(sheets), elements, number)
    ensures WidthH in variant && AmountH in variant && (LengthH in variant <==> HeightH !in variant)
    ensures CalculationCells(ws, RowOf(sheets, s, i), i + 1,
                             TextAt(grid, rows[i], WidthH, variant, cols),
                             TextAt(grid, rows[i], if HeightH in variant then HeightH else LengthH, variant, cols),
                             TextAt(grid, rows[i], AmountH, variant, cols), number)
  {
    RowsAndRecords(sheets[s], grid, h, variant, cols, rows, i);
    PageRow(ws, headings, sheets, elements, number, s, i);
    RowShown(sheets[s], grid, h, variant, cols, rows, i, ws, RowOf(sheets, s, i), Records(sheets[s])[i],
             elements, number);
  }
}
