/** TableWorker.simple_parser (processors/table/table_processer.py): finding the header and reading the
    rows under it. */
module SheetParser {
  import opened Text
  import opened SheetTypes
  import opened SheetLists
  import SheetTable

  // ---------- header variants ----------

  const BASES: seq<seq<CellType>> := [
    [MatH, WidthH, HeightH, AmountH],
    [MatH, WidthH, LengthH, AmountH],
    [MatH, LengthH, HeightH, AmountH]]

  /** Every base with both optional columns in either order, with one of them, and alone: longest first. */
  const VARIANTS: seq<seq<CellType>> :=
    [BASES[0] + [BarcodeH, MarkingH], BASES[0] + [MarkingH, BarcodeH],
     BASES[1] + [BarcodeH, MarkingH], BASES[1] + [MarkingH, BarcodeH],
     BASES[2] + [BarcodeH, MarkingH], BASES[2] + [MarkingH, BarcodeH],
     BASES[0] + [BarcodeH], BASES[0] + [MarkingH],
     BASES[1] + [BarcodeH], BASES[1] + [MarkingH],
     BASES[2] + [BarcodeH], BASES[2] + [MarkingH],
     BASES[0], BASES[1], BASES[2]]

  /** The keys of columnrules1, in its order. */
  const HEADER_TYPES: seq<CellType> := [MatH, WidthH, HeightH, LengthH, AmountH, BarcodeH, MarkingH]

  /** columnrules1: what a cell under this header must be. */
  predicate Allowed(header: CellType, t: CellType) {
    match header
    case MatH => t.PlainText?
    case BarcodeH => t.PlainText? || t.Number?
    case MarkingH => t.PlainText? || t.Number?
    case _ => t.Number?
  }

  // ---------- specification on the list of cells ----------

  /** The cells merged into the header table: type after type. */
  function Headers(list: seq<Cell>, k: nat): seq<Cell>
    requires k <= |HEADER_TYPES|
  {
    if k == 0 then [] else Headers(list, k - 1) + OfType(list, HEADER_TYPES[k - 1])
  }

  function HeaderCells(list: seq<Cell>): seq<Cell> { Headers(list, |HEADER_TYPES|) }

  predicate RowMatches(headers: seq<Cell>, row: int, variant: seq<CellType>) {
    Types(OfRow(headers, row)) == variant
  }

  predicate AllMatch(headers: seq<Cell>, variant: seq<CellType>) {
    forall r :: r in RowOrder(headers) ==> RowMatches(headers, r, variant)
  }

  function Lookup(list: seq<Cell>, row: int, col: int): Option<Cell> {
    if list == [] then None
    else if PosOf(list[|list| - 1]) == (row, col) then Some(list[|list| - 1])
    else Lookup(list[..|list| - 1], row, col)
  }

  /** A row that gives one good cell under every header. */
  predicate GoodRow(list: seq<Cell>, row: int, variant: seq<CellType>, cols: seq<int>)
    requires |cols| == |variant|
  {
    forall k :: 0 <= k < |variant| ==>
      Lookup(list, row, cols[k]).Some? && Allowed(variant[k], Lookup(list, row, cols[k]).value.ctype)
  }

  /** The rows read from a sheet: the good rows below h, in the order given. */
  function GoodRows(list: seq<Cell>, rows: seq<int>, h: int, variant: seq<CellType>, cols: seq<int>): seq<int>
    requires |cols| == |variant|
  {
    if rows == [] then []
    else
      var before := GoodRows(list, rows[..|rows| - 1], h, variant, cols);
      var r := rows[|rows| - 1];
      if r > h && GoodRow(list, r, variant, cols) then before + [r] else before
  }

  function ValueAt(list: seq<Cell>, row: int, col: int): string {
    if Lookup(list, row, col).Some? then Lookup(list, row, col).value.value else []
  }

  function Column(list: seq<Cell>, rows: seq<int>, t: CellType, variant: seq<CellType>, cols: seq<int>)
    : Option<seq<string>>
    requires |cols| == |variant|
  {
    if t in variant then
      var k := IndexOf(variant, t);
      Some(seq(|rows|, i requires 0 <= i < |rows| => ValueAt(list, rows[i], cols[k])))
    else None
  }

  function IndexOf(variant: seq<CellType>, t: CellType): (k: nat)
    requires t in variant
    ensures k < |variant| && variant[k] == t
  {
    if variant[0] == t then 0 else 1 + IndexOf(variant[1..], t)
  }

  function Filled(list: seq<Cell>, h: int, variant: seq<CellType>, cols: seq<int>): TableParseResults
    requires |cols| == |variant|
  {
    var rows := GoodRows(list, RowOrder(list), h, variant, cols);
    TableParseResults(
      Column(list, rows, MatH, variant, cols),
      Column(list, rows, WidthH, variant, cols),
      Column(list, rows, LengthH, variant, cols),
      Column(list, rows, HeightH, variant, cols),
      Column(list, rows, AmountH, variant, cols),
      Column(list, rows, BarcodeH, variant, cols),
      Column(list, rows, MarkingH, variant, cols),
      |rows|)
  }

  /** What _parse_sheet makes of a sheet given as the list of its cells. */
  function SheetResult(list: seq<Cell>): TableParseResults {
    var headers := HeaderCells(list);
    if headers == [] then NO_RESULTS
    else
      var h := RowOrder(headers)[0];
      var variant := Types(OfRow(headers, h));
      if variant in VARIANTS && AllMatch(headers, variant)
      then Filled(list, h, variant, Cols(OfRow(headers, h)))
      else NO_RESULTS
  }

  lemma {:induction false} RowOrderNonEmpty(list: seq<Cell>)
    requires list != []
    ensures RowOrder(list) != [] && RowOrder(list)[0] == list[0].row
  {
    if |list| > 1 {
      RowOrderNonEmpty(list[..|list| - 1]);
    }
  }

  // ---------- the header table ----------

  lemma {:induction false} HeadersMeaning(list: seq<Cell>, k: nat)
    requires k <= |HEADER_TYPES| && Fresh(list)
    ensures Fresh(Headers(list, k))
    ensures forall c :: c in Headers(list, k) <==> c in list && c.ctype in HEADER_TYPES[..k]
  {
    if k > 0 {
      HeadersMeaning(list, k - 1);
      OfTypeMeaning(list, HEADER_TYPES[k - 1]);
      assert HEADER_TYPES[..k] == HEADER_TYPES[..k - 1] + [HEADER_TYPES[k - 1]];
      assert HEADER_TYPES[k - 1] !in HEADER_TYPES[..k - 1];
      FreshTypes(list, Headers(list, k - 1), HEADER_TYPES[k - 1]);
    }
  }

  lemma HeadersFresh(list: seq<Cell>, k: nat)
    requires k <= |HEADER_TYPES| && Fresh(list)
    ensures Fresh(Headers(list, k))
  {
    HeadersMeaning(list, k);
  }

  method MergeType(table: SheetTable.Table, headers: SheetTable.Table, t: CellType, ghost list: seq<Cell>,
                   ghost merged: seq<Cell>, ghost merged': seq<Cell>)
    requires table != headers && table.Shows(list) && headers.Shows(merged)
    requires merged' == merged + OfType(list, t) && Fresh(merged')
    modifies headers
    ensures headers.Shows(merged')
  {
    var part := table.GetByType(t, list);
    headers.Merge(part, merged, OfType(list, t));
  }

  method HeaderTable(table: SheetTable.Table, ghost list: seq<Cell>) returns (headers: SheetTable.Table)
    requires table.Shows(list)
    ensures fresh(headers) && headers.Shows(HeaderCells(list))
  {
    headers := new SheetTable.Table();
    ghost var merged: seq<Cell> := [];
    for k := 0 to |HEADER_TYPES|
      invariant fresh(headers) && headers != table
      invariant merged == Headers(list, k) && headers.Shows(merged)
    {
      HeadersFresh(list, k + 1);
      ghost var next := Headers(list, k + 1);
      MergeType(table, headers, HEADER_TYPES[k], list, merged, next);
      merged := next;
    }
  }

  // ---------- matching ----------

  lemma RowsStored(table: SheetTable.Table, list: seq<Cell>)
    requires table.Shows(list)
    ensures table.rowOrder == RowOrder(list)
    ensures forall r :: r in table.rowOrder ==> r in table.rowIndex && table.rowIndex[r] == OfRow(list, r)
  {
    SheetTable.IndexesShown(list);
  }

  /** One header row against one variant: its columns when it matches. */
  method MatchRow(headers: SheetTable.Table, idx: int, variant: seq<CellType>, ghost cells: seq<Cell>)
    returns (cols: Option<seq<int>>)
    requires headers.Shows(cells) && idx in headers.rowOrder
    ensures cols.Some? <==> RowMatches(cells, idx, variant)
    ensures cols.Some? ==> cols.value == Cols(OfRow(cells, idx))
  {
    RowsStored(headers, cells);
    var row := headers.rowIndex[idx];
    if |row| != |variant| || Types(row) != variant {
      return None;
    }
    return Some(Cols(row));
  }

  /** The loop over the header rows for one variant. */
  method MatchVariant(headers: SheetTable.Table, variant: seq<CellType>, ghost cells: seq<Cell>)
    returns (ok: bool, targets: map<int, seq<int>>)
    requires headers.Shows(cells)
    ensures ok <==> AllMatch(cells, variant)
    ensures ok ==> forall r :: r in RowOrder(cells) ==> r in targets && targets[r] == Cols(OfRow(cells, r))
  {
    RowsStored(headers, cells);
    targets := map[];
    var rows := headers.rowOrder;
    for n := 0 to |rows|
      invariant forall j :: 0 <= j < n ==> RowMatches(cells, rows[j], variant)
      invariant forall j :: 0 <= j < n ==> rows[j] in targets && targets[rows[j]] == Cols(OfRow(cells, rows[j]))
    {
      var cols := MatchRow(headers, rows[n], variant, cells);
      if cols.None? {
        return false, map[];
      }
      targets := targets[rows[n] := cols.value];
    }
    return true, targets;
  }

  /** The loop over the variants. */
  method FindVariant(headers: SheetTable.Table, ghost cells: seq<Cell>)
    returns (variant: Option<seq<CellType>>, targets: map<int, seq<int>>)
    requires headers.Shows(cells)
    ensures variant.None? <==> forall v :: v in VARIANTS ==> !AllMatch(cells, v)
    ensures variant.Some? ==> variant.value in VARIANTS && AllMatch(cells, variant.value)
    ensures variant.Some? ==> forall r :: r in RowOrder(cells) ==> r in targets && targets[r] == Cols(OfRow(cells, r))
  {
    for n := 0 to |VARIANTS|
      invariant forall j :: 0 <= j < n ==> !AllMatch(cells, VARIANTS[j])
    {
      var ok;
      ok, targets := MatchVariant(headers, VARIANTS[n], cells);
      if ok {
        return Some(VARIANTS[n]), targets;
      }
    }
    return None, map[];
  }

  /** The variant is the type list of the first header row, if any variant matches. */
  lemma VariantIsFirstRow(cells: seq<Cell>, v: seq<CellType>)
    requires cells != [] && AllMatch(cells, v)
    ensures RowOrder(cells) != [] && v == Types(OfRow(cells, RowOrder(cells)[0]))
  {
    RowOrderNonEmpty(cells);
    assert RowOrder(cells)[0] in RowOrder(cells);
  }

  // ---------- reading the rows ----------

  lemma {:induction false} LookupMeaning(list: seq<Cell>, row: int, col: int)
    ensures Lookup(list, row, col).Some? ==>
              Lookup(list, row, col).value in list && PosOf(Lookup(list, row, col).value) == (row, col)
    ensures Lookup(list, row, col).None? ==> forall c :: c in list ==> PosOf(c) != (row, col)
  {
    if list != [] {
      LookupMeaning(list[..|list| - 1], row, col);
      assert list == list[..|list| - 1] + [list[|list| - 1]];
    }
  }

  lemma GetIsLookup(table: SheetTable.Table, list: seq<Cell>, row: int, col: int)
    requires table.Shows(list)
    ensures table.Get(row, col) == Lookup(list, row, col)
  {
    SheetTable.IndexesShown(list);
    LookupMeaning(list, row, col);
    if (row, col) in table.cells {
      var k :| 0 <= k < |table.order| && table.order[k] == (row, col);
      assert PosOf(list[k]) == (row, col) && list[k] in list;
      SamePosSameCell(list, list[k], Lookup(list, row, col).value);
    }
  }

  /** The cells of one row under the headers; None when one is missing or of the wrong type. */
  method ReadRow(table: SheetTable.Table, row: int, variant: seq<CellType>, cols: seq<int>, ghost list: seq<Cell>)
    returns (values: Option<seq<Cell>>)
    requires table.Shows(list) && |cols| == |variant|
    ensures values.Some? <==> GoodRow(list, row, variant, cols)
    ensures values.Some? ==> |values.value| == |variant|
    ensures values.Some? ==> forall k :: 0 <= k < |variant| ==> values.value[k].value == ValueAt(list, row, cols[k])
  {
    var found: seq<Cell> := [];
    for k := 0 to |variant|
      invariant |found| == k
      invariant forall j :: 0 <= j < k ==>
                  Lookup(list, row, cols[j]) == Some(found[j]) && Allowed(variant[j], found[j].ctype)
    {
      GetIsLookup(table, list, row, cols[k]);
      var cell := table.Get(row, cols[k]);
      if cell.None? || !Allowed(variant[k], cell.value.ctype) {
        return None;
      }
      found := found + [cell.value];
    }
    return Some(found);
  }

  /** results[header] for every header of the variant, after reading the given good rows. */
  ghost predicate Collected(results: map<CellType, seq<string>>, list: seq<Cell>, good: seq<int>,
                            variant: seq<CellType>, cols: seq<int>)
    requires |cols| == |variant|
  {
    && (forall t :: t in results <==> t in variant)
    && (forall t :: t in results ==> Some(results[t]) == Column(list, good, t, variant, cols))
  }

  /** results[header].append for every header of the variant. */
  function Appended(results: map<CellType, seq<string>>, variant: seq<CellType>, values: seq<Cell>)
    : map<CellType, seq<string>>
    requires |values| == |variant| && forall t :: t in results ==> t in variant
  {
    map t | t in results :: results[t] + [values[IndexOf(variant, t)].value]
  }

  lemma ColumnSnoc(list: seq<Cell>, good: seq<int>, row: int, t: CellType, variant: seq<CellType>, cols: seq<int>)
    requires |cols| == |variant| && t in variant
    ensures Column(list, good + [row], t, variant, cols).value
            == Column(list, good, t, variant, cols).value + [ValueAt(list, row, cols[IndexOf(variant, t)])]
  {
  }

  lemma CollectOne(results: map<CellType, seq<string>>, list: seq<Cell>, good: seq<int>, variant: seq<CellType>,
                   cols: seq<int>, row: int, values: seq<Cell>)
    requires |cols| == |variant| == |values| && Collected(results, list, good, variant, cols)
    requires forall k :: 0 <= k < |variant| ==> values[k].value == ValueAt(list, row, cols[k])
    ensures Collected(Appended(results, variant, values), list, good + [row], variant, cols)
  {
    forall t | t in variant
      ensures Column(list, good + [row], t, variant, cols) == Some(results[t] + [values[IndexOf(variant, t)].value])
    {
      ColumnSnoc(list, good, row, t, variant, cols);
    }
  }

  lemma NothingCollected(list: seq<Cell>, variant: seq<CellType>, cols: seq<int>)
    requires |cols| == |variant|
    ensures Collected(map t | t in variant :: [], list, [], variant, cols)
  {
  }

  method ReadRows(table: SheetTable.Table, h: int, variant: seq<CellType>, cols: seq<int>, ghost list: seq<Cell>)
    returns (results: map<CellType, seq<string>>)
    requires table.Shows(list) && |cols| == |variant|
    ensures Collected(results, list, GoodRows(list, RowOrder(list), h, variant, cols), variant, cols)
  {
    RowsStored(table, list);
    results := map t | t in variant :: [];
    var rows := table.rowOrder;
    NothingCollected(list, variant, cols);
    ghost var seen: seq<int>, good: seq<int> := [], [];
    for n := 0 to |rows|
      invariant |seen| == n && seen <= rows && good == GoodRows(list, seen, h, variant, cols)
      invariant Collected(results, list, good, variant, cols)
    {
      var idx := rows[n];
      assert (seen + [idx])[..n] == seen;
      seen := seen + [idx];
      if idx > h {
        var values := ReadRow(table, idx, variant, cols, list);
        if values.Some? {
          CollectOne(results, list, good, variant, cols, idx, values.value);
          results := Appended(results, variant, values.value);
          good := good + [idx];
        }
      }
    }
    assert seen == rows;
  }

  function Field(results: map<CellType, seq<string>>, t: CellType): Option<seq<string>> {
    if t in results then Some(results[t]) else None
  }

  /** From the header on. */
  method ReadUnderHeader(table: SheetTable.Table, headers: SheetTable.Table, ghost list: seq<Cell>,
                         ghost cells: seq<Cell>)
    returns (r: TableParseResults)
    requires table.Shows(list) && headers.Shows(cells) && cells == HeaderCells(list) && cells != []
    ensures r == SheetResult(list)
  {
    RowsStored(headers, cells);
    RowOrderNonEmpty(cells);
    var variant, targets := FindVariant(headers, cells);
    if variant.None? {
      return NO_RESULTS;
    }
    VariantIsFirstRow(cells, variant.value);
    var h := headers.rowOrder[0];
    assert h in RowOrder(cells);
    var cols := targets[h];
    var results := ReadRows(table, h, variant.value, cols, list);
    r := FromResults(results, list, h, variant.value, cols);
  }

  method FromResults(results: map<CellType, seq<string>>, ghost list: seq<Cell>, ghost h: int,
                     ghost variant: seq<CellType>, ghost cols: seq<int>)
    returns (r: TableParseResults)
    requires |cols| == |variant| && variant in VARIANTS
    requires Collected(results, list, GoodRows(list, RowOrder(list), h, variant, cols), variant, cols)
    ensures r == Filled(list, h, variant, cols)
  {
    assert MatH in variant;
    r := TableParseResults(Field(results, MatH), Field(results, WidthH), Field(results, LengthH),
                           Field(results, HeightH), Field(results, AmountH), Field(results, BarcodeH),
                           Field(results, MarkingH), |results[MatH]|);
  }

  /** _parse_sheet. */
  method ParseSheet(table: SheetTable.Table, ghost list: seq<Cell>) returns (r: TableParseResults)
    requires table.Shows(list)
    ensures r == SheetResult(list)
  {
    SheetTable.IndexesShown(list);
    if table.IsEmpty() {
      assert |Positions(list)| == |list|;
      EmptyHasNoHeaders(|HEADER_TYPES|);
      return NO_RESULTS;
    }
    var headers := HeaderTable(table, list);
    SheetTable.IndexesShown(HeaderCells(list));
    if headers.IsEmpty() {
      assert |Positions(HeaderCells(list))| == |HeaderCells(list)|;
      return NO_RESULTS;
    }
    r := ReadUnderHeader(table, headers, list, HeaderCells(list));
  }

  lemma {:induction false} EmptyHasNoHeaders(k: nat)
    requires k <= |HEADER_TYPES|
    ensures Headers([], k) == []
  {
    if k > 0 {
      EmptyHasNoHeaders(k - 1);
    }
  }
}
