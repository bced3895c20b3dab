/** make_request_xlsx and make_callculation_xlsx (processors/table/table_processer.py): where the values of a
    parsed sheet end up in the workbooks. */
module Workbooks {
  import opened Text
  import opened SheetTypes
  import opened Mappings
  import opened DocumentLoop

  datatype Value = Words(text: string) | Number(n: int)

  /** Cells by row and column, counted from 1. */
  type Sheet = map<(int, int), Value>

  datatype Built = Error | Nothing | Workbook(sheets: seq<Sheet>)

  /** int(float(text)); None where it raises. */
  type Conversion = string -> Option<int>

  function At(ws: Sheet, row: int, col: int): Option<Value> {
    if (row, col) in ws then Some(ws[(row, col)]) else None
  }

  // ---------- the records of a sheet ----------

  /** Every list of a result has one entry per row (SheetReading.ResultMeaning). */
  predicate Shaped(sheet: TableParseResults) {
    var lists := [sheet.material, sheet.width, sheet.length, sheet.height, sheet.amount, sheet.barcode, sheet.marking];
    forall list :: list in lists ==> list.Some? ==> |list.value| == sheet.size
  }

  function SideX(sheet: TableParseResults): Option<seq<string>> {
    if sheet.width.None? then sheet.length else if sheet.length.None? || sheet.height.None? then sheet.width else None
  }

  function SideY(sheet: TableParseResults): Option<seq<string>> {
    if sheet.width.None? || sheet.length.None? then sheet.height else if sheet.height.None? then sheet.length else None
  }

  /** The three tests that leave a sheet out. */
  predicate Skipped(sheet: TableParseResults) {
    sheet.IsEmpty() || sheet.amount.None? || SideX(sheet).None? || SideY(sheet).None?
  }

  /** index: the place in its own sheet */
  datatype Record = Record(
    index: nat, material: string, x: string, y: string, amount: string, marking: string, barcode: string)

  function RecordOf(sheet: TableParseResults, i: nat): Record
    requires Shaped(sheet) && !Skipped(sheet) && i < sheet.size
  {
    Record(i, sheet.material.value[i], SideX(sheet).value[i], SideY(sheet).value[i], sheet.amount.value[i],
           if sheet.marking.Some? then sheet.marking.value[i] else "",
           if sheet.barcode.Some? then sheet.barcode.value[i] else "")
  }

  function Records(sheet: TableParseResults): seq<Record>
    requires Shaped(sheet)
  {
    if Skipped(sheet) then [] else seq(sheet.size, i requires 0 <= i < sheet.size => RecordOf(sheet, i))
  }

  ghost predicate AllShaped(sheets: seq<TableParseResults>) {
    forall s :: 0 <= s < |sheets| ==> Shaped(sheets[s])
  }

  ghost function Pages(sheets: seq<TableParseResults>): (pages: seq<seq<Record>>)
    requires AllShaped(sheets)
  {
    seq(|sheets|, s requires 0 <= s < |sheets| => Records(sheets[s]))
  }

  /** The first n pages end to end. */
  ghost function Joined(pages: seq<seq<Record>>, n: nat): seq<Record>
    requires n <= |pages|
  {
    if n == 0 then [] else Joined(pages, n - 1) + pages[n - 1]
  }

  /** The records of all sheets, in order. */
  ghost function AllRecords(sheets: seq<TableParseResults>): seq<Record>
    requires AllShaped(sheets)
  {
    Joined(Pages(sheets), |sheets|)
  }

  function DotForComma(s: string): string {
    if s == [] then [] else [if s[0] == ',' then '.' else s[0]] + DotForComma(s[1..])
  }

  lemma {:induction false} CommasReplaced(s: string)
    ensures |DotForComma(s)| == |s|
    ensures forall k :: 0 <= k < |s| ==> DotForComma(s)[k] == if s[k] == ',' then '.' else s[k]
  {
    if s != [] {
      CommasReplaced(s[1..]);
    }
  }

  function Whole(number: Conversion, text: string): Option<int> { number(DotForComma(text)) }

  /** A record the builders can place: its material is known and its numbers convert. */
  predicate Placeable(rec: Record, elements: map<string, Element>, number: Conversion) {
    && rec.material in elements
    && Whole(number, rec.x).Some? && Whole(number, rec.y).Some? && Whole(number, rec.amount).Some?
  }

  predicate AllPlaceable(recs: seq<Record>, elements: map<string, Element>, number: Conversion) {
    forall i :: 0 <= i < |recs| ==> Placeable(recs[i], elements, number)
  }

  // ---------- what each cell should hold ----------

  function WordsOf(text: Option<string>): Option<Value> {
    if text.Some? then Some(Words(text.value)) else None
  }

  /** The match standing in a column when the matches start at column `start`. */
  function MatchAt(matches: seq<Match>, start: int, col: int): Option<Match> {
    if start <= col < start + |matches| then Some(matches[col - start]) else None
  }

  function TargetAt(matches: seq<Match>, col: int): Option<Value> {
    if MatchAt(matches, 2, col).Some? then WordsOf(MatchAt(matches, 2, col).value.target) else None
  }

  function ArticleAt(matches: seq<Match>, col: int): Option<Value> {
    if MatchAt(matches, 3, col).Some? then WordsOf(MatchAt(matches, 3, col).value.article) else None
  }

  function Or(first: Option<Value>, second: Option<Value>): Option<Value> { if first.Some? then first else second }

  function RequestField(rec: Record, elements: map<string, Element>, number: Conversion, col: int): Option<Value>
    requires Placeable(rec, elements, number)
  {
    var matches := elements[rec.material].matches;
    match col
    case 1 => Some(Words(rec.material))
    case 11 => Some(Number(Whole(number, rec.x).value))
    case 12 => Some(Number(Whole(number, rec.y).value))
    case 13 => Some(Number(Whole(number, rec.amount).value))
    case 14 => Some(Words(rec.marking))
    case 16 => Some(Words(rec.barcode))
    case 18 => Or(WordsOf(elements[rec.material].parsed.postfix), TargetAt(matches, 18))
    case _ => TargetAt(matches, col)
  }

  function CalculationField(rec: Record, elements: map<string, Element>, number: Conversion, col: int): Option<Value>
    requires Placeable(rec, elements, number)
  {
    match col
    case 1 => Some(Words(Decimal(rec.index + 1)))
    case 2 => Some(Number(Whole(number, rec.amount).value))
    case 10 => Some(Number(Whole(number, rec.x).value))
    case 11 => Some(Number(Whole(number, rec.y).value))
    case 17 => Some(Words("YES"))
    case _ => ArticleAt(elements[rec.material].matches, col)
  }

  ghost predicate Headings(ws: Sheet) { forall p :: p in ws ==> 1 <= p.0 <= 2 }

  /** The headings, and from row 3 on one row for each record. */
  ghost predicate RequestSheet(ws: Sheet, headings: Sheet, recs: seq<Record>, elements: map<string, Element>,
                               number: Conversion)
    requires AllPlaceable(recs, elements, number)
  {
    forall row, col ::
      At(ws, row, col)
      == if 3 <= row < 3 + |recs| then RequestField(recs[row - 3], elements, number, col) else At(headings, row, col)
  }

  ghost predicate CalculationSheet(ws: Sheet, headings: Sheet, recs: seq<Record>, elements: map<string, Element>,
                                   number: Conversion)
    requires AllPlaceable(recs, elements, number)
  {
    forall row, col ::
      At(ws, row, col)
      == if 3 <= row < 3 + |recs| then CalculationField(recs[row - 3], elements, number, col)
         else At(headings, row, col)
  }

  // ---------- writing one row ----------

  /** ws.cell(row, column, value): None leaves the cell as it is. */
  method Put(ws: Sheet, row: int, col: int, value: Option<Value>) returns (ws': Sheet)
    ensures forall r, c :: At(ws', r, c) == if r == row && c == col then Or(value, At(ws, r, c)) else At(ws, r, c)
  {
    ws' := if value.Some? then ws[(row, col) := value.value] else ws;
  }

  /** Values side by side from column `start` on. */
  method PutAll(ws: Sheet, row: int, start: int, values: seq<Option<Value>>) returns (ws': Sheet)
    ensures forall r, c :: At(ws', r, c) ==
              if r == row && start <= c < start + |values| then Or(values[c - start], At(ws, r, c)) else At(ws, r, c)
  {
    ws' := ws;
    for k := 0 to |values|
      invariant forall r, c :: At(ws', r, c) ==
                  if r == row && start <= c < start + k then Or(values[c - start], At(ws, r, c)) else At(ws, r, c)
    {
      ws' := Put(ws', row, start + k, values[k]);
    }
  }

  method PutTargets(ws: Sheet, row: int, matches: seq<Match>) returns (ws': Sheet)
    requires forall c :: At(ws, row, c).None?
    ensures forall r, c :: At(ws', r, c) == if r == row then TargetAt(matches, c) else At(ws, r, c)
  {
    ws' := PutAll(ws, row, 2, seq(|matches|, k requires 0 <= k < |matches| => WordsOf(matches[k].target)));
  }

  method PutArticles(ws: Sheet, row: int, matches: seq<Match>) returns (ws': Sheet)
    requires forall c :: At(ws, row, c).None?
    ensures forall r, c :: At(ws', r, c) == if r == row then ArticleAt(matches, c) else At(ws, r, c)
  {
    ws' := PutAll(ws, row, 3, seq(|matches|, k requires 0 <= k < |matches| => WordsOf(matches[k].article)));
  }

  /** One record of the request workbook: the targets first, then the fixed columns over them. */
  method RequestRow(ws: Sheet, row: int, rec: Record, elements: map<string, Element>, number: Conversion)
    returns (ws': Option<Sheet>)
    requires forall c :: At(ws, row, c).None?
    ensures ws'.Some? <==> Placeable(rec, elements, number)
    ensures ws'.Some? ==> forall r, c ::
              At(ws'.value, r, c) == if r == row then RequestField(rec, elements, number, c) else At(ws, r, c)
  {
    if rec.material !in elements {
      return None;
    }
    var element := elements[rec.material];
    var s := PutTargets(ws, row, element.matches);
    s := Put(s, row, 1, Some(Words(rec.material)));
    var x, y, amount := Whole(number, rec.x), Whole(number, rec.y), Whole(number, rec.amount);
    if x.None? || y.None? || amount.None? {
      return None;
    }
    s := Put(s, row, 11, Some(Number(x.value)));
    s := Put(s, row, 12, Some(Number(y.value)));
    s := Put(s, row, 13, Some(Number(amount.value)));
    s := Put(s, row, 14, Some(Words(rec.marking)));
    s := Put(s, row, 16, Some(Words(rec.barcode)));
    s := Put(s, row, 18, WordsOf(element.parsed.postfix));
    return Some(s);
  }

  method CalculationRow(ws: Sheet, row: int, rec: Record, elements: map<string, Element>, number: Conversion)
    returns (ws': Option<Sheet>)
    requires forall c :: At(ws, row, c).None?
    ensures ws'.Some? <==> Placeable(rec, elements, number)
    ensures ws'.Some? ==> forall r, c ::
              At(ws'.value, r, c) == if r == row then CalculationField(rec, elements, number, c) else At(ws, r, c)
  {
    if rec.material !in elements {
      return None;
    }
    var s := PutArticles(ws, row, elements[rec.material].matches);
    s := Put(s, row, 1, Some(Words(Decimal(rec.index + 1))));
    var x, y, amount := Whole(number, rec.x), Whole(number, rec.y), Whole(number, rec.amount);
    if x.None? || y.None? || amount.None? {
      return None;
    }
    s := Put(s, row, 2, Some(Number(amount.value)));
    s := Put(s, row, 10, Some(Number(x.value)));
    s := Put(s, row, 11, Some(Number(y.value)));
    s := Put(s, row, 17, Some(Words("YES")));
    return Some(s);
  }

  // ---------- the request workbook ----------

  predicate Fits(sheet: TableParseResults, elements: map<string, Element>, number: Conversion) {
    Shaped(sheet) && AllPlaceable(Records(sheet), elements, number)
  }

  ghost predicate RequestPage(ws: Sheet, sheet: TableParseResults, elements: map<string, Element>, number: Conversion,
                              headings: Sheet)
  {
    Fits(sheet, elements, number) && RequestSheet(ws, headings, Records(sheet), elements, number)
  }

  /** The rows of one sheet of the request workbook. */
  method RequestRows(sheet: TableParseResults, elements: map<string, Element>, number: Conversion, headings: Sheet)
    returns (ws: Option<Sheet>)
    requires Headings(headings) && Shaped(sheet)
    ensures ws.Some? <==> Fits(sheet, elements, number)
    ensures ws.Some? ==> RequestPage(ws.value, sheet, elements, number, headings)
  {
    if Skipped(sheet) {
      return Some(headings);
    }
    ghost var recs := Records(sheet);
    var s := headings;
    var currentRow := 3;
    for i := 0 to sheet.size
      invariant currentRow == 3 + i && AllPlaceable(recs[..i], elements, number)
      invariant RequestSheet(s, headings, recs[..i], elements, number)
    {
      var rec := RecordOf(sheet, i);
      assert recs[..i + 1] == recs[..i] + [rec];
      var next := RequestRow(s, currentRow, rec, elements, number);
      if next.None? {
        assert !Placeable(recs[i], elements, number);
        return None;
      }
      s := next.value;
      currentRow := currentRow + 1;
    }
    assert recs[..sheet.size] == recs;
    return Some(s);
  }

  lemma PagesAdd(book: seq<Sheet>, ws: Sheet, sheets: seq<TableParseResults>, elements: map<string, Element>,
                 number: Conversion, headings: Sheet)
    requires |book| < |sheets| && RequestPage(ws, sheets[|book|], elements, number, headings)
    requires forall j :: 0 <= j < |book| ==> RequestPage(book[j], sheets[j], elements, number, headings)
    ensures forall j :: 0 <= j < |book + [ws]| ==> RequestPage((book + [ws])[j], sheets[j], elements, number, headings)
  {
    forall j | 0 <= j < |book + [ws]|
      ensures RequestPage((book + [ws])[j], sheets[j], elements, number, headings)
    {
      var page := (book + [ws])[j];
      if j < |book| {
        assert page == book[j];
      } else {
        assert page == ws && j == |book|;
      }
      assert RequestPage(page, sheets[j], elements, number, headings);
    }
  }

  /** make_request_xlsx: a workbook sheet per parsed sheet. */
  method MakeRequest(sheets: seq<TableParseResults>, elements: map<string, Element>, number: Conversion,
                     headings: Sheet)
    returns (r: Built)
    requires Headings(headings) && AllShaped(sheets)
    ensures r.Error? <==> exists s :: 0 <= s < |sheets| && !Fits(sheets[s], elements, number)
    ensures r.Nothing? ==> forall s :: 0 <= s < |sheets| ==> Skipped(sheets[s])
    ensures r.Workbook? ==> |r.sheets| == |sheets|
    ensures r.Workbook? ==> forall s :: 0 <= s < |sheets| ==>
              RequestPage(r.sheets[s], sheets[s], elements, number, headings)
    ensures r.Workbook? ==> exists s :: 0 <= s < |sheets| && !Skipped(sheets[s])
  {
    var book: seq<Sheet> := [];
    var allEmpty := true;
    for s := 0 to |sheets|
      invariant |book| == s
      invariant forall j :: 0 <= j < s ==> RequestPage(book[j], sheets[j], elements, number, headings)
      invariant allEmpty <==> forall j :: 0 <= j < s ==> Skipped(sheets[j])
    {
      var ws := RequestRows(sheets[s], elements, number, headings);
      if ws.None? {
        return Error;
      }
      PagesAdd(book, ws.value, sheets, elements, number, headings);
      book := book + [ws.value];
      allEmpty := allEmpty && Skipped(sheets[s]);
    }
    if allEmpty {
      return Nothing;
    }
    return Workbook(book);
  }

  // ---------- the calculation workbook ----------

  /** The rows of one parsed sheet, below those already written. */
  method CalculationRows(ws: Sheet, row: int, more: seq<Record>, elements: map<string, Element>, number: Conversion,
                         ghost headings: Sheet, ghost recs: seq<Record>)
    returns (ws': Option<Sheet>, row': int)
    requires Headings(headings) && row == 3 + |recs|
    requires AllPlaceable(recs, elements, number) && CalculationSheet(ws, headings, recs, elements, number)
    ensures ws'.Some? <==> AllPlaceable(recs + more, elements, number)
    ensures ws'.Some? ==> row' == row + |more|
    ensures ws'.Some? ==> CalculationSheet(ws'.value, headings, recs + more, elements, number)
  {
    var s := ws;
    row' := row;
    ghost var shown := recs;
    for i := 0 to |more|
      invariant shown == recs + more[..i] && row' == row + i && AllPlaceable(shown, elements, number)
      invariant CalculationSheet(s, headings, shown, elements, number)
    {
      assert more[..i + 1] == more[..i] + [more[i]];
      var next := CalculationRow(s, row', more[i], elements, number);
      if next.None? {
        assert !Placeable((recs + more)[|recs| + i], elements, number);
        return None, row';
      }
      CalculationAdd(s, next.value, headings, shown, more[i], elements, number);
      s, shown, row' := next.value, shown + [more[i]], row' + 1;
    }
    assert shown == recs + more;
    return Some(s), row';
  }

  lemma CalculationAdd(ws: Sheet, ws': Sheet, headings: Sheet, recs: seq<Record>, rec: Record,
                       elements: map<string, Element>, number: Conversion)
    requires Headings(headings) && AllPlaceable(recs, elements, number)
    requires CalculationSheet(ws, headings, recs, elements, number)
    requires Placeable(rec, elements, number)
    requires forall r, c ::
               At(ws', r, c) == if r == 3 + |recs| then CalculationField(rec, elements, number, c) else At(ws, r, c)
    ensures AllPlaceable(recs + [rec], elements, number)
    ensures CalculationSheet(ws', headings, recs + [rec], elements, number)
  {
  }

  /** The worksheet before the next sheet is added: empty at first. */
  ghost predicate Started(ws: Sheet, headings: Sheet, recs: seq<Record>, elements: map<string, Element>,
                          number: Conversion, first: bool)
    requires AllPlaceable(recs, elements, number)
  {
    if first then ws == map[] && recs == [] else CalculationSheet(ws, headings, recs, elements, number)
  }

  /** Writing the headings once more changes nothing. */
  lemma HeadingsAgain(ws: Sheet, headings: Sheet, recs: seq<Record>, elements: map<string, Element>, number: Conversion,
                      first: bool)
    requires Headings(headings) && AllPlaceable(recs, elements, number)
    requires Started(ws, headings, recs, elements, number, first)
    ensures CalculationSheet(ws + headings, headings, recs, elements, number)
  {
    if !first {
      forall row, col
        ensures At(ws + headings, row, col) == At(ws, row, col)
      {
        assert (row, col) in headings ==> At(ws, row, col) == At(headings, row, col);
      }
    }
  }

  lemma {:induction false} JoinedPrefix(pages: seq<seq<Record>>, n: nat, m: nat)
    requires n <= m <= |pages|
    ensures Joined(pages, n) <= Joined(pages, m)
  {
    if n < m {
      JoinedPrefix(pages, n, m - 1);
    }
  }

  lemma SkippedMeansNone(sheet: TableParseResults)
    requires Shaped(sheet)
    ensures Skipped(sheet) <==> Records(sheet) == []
  {
  }

  /** The worksheet after some sheets, with the row to write next and whether nothing was written so far. */
  datatype Progress = Progress(ws: Sheet, row: int, empty: bool)

  ghost predicate Reached(p: Progress, headings: Sheet, recs: seq<Record>, elements: map<string, Element>,
                          number: Conversion, first: bool)
  {
    && AllPlaceable(recs, elements, number) && Started(p.ws, headings, recs, elements, number, first)
    && p.row == 3 + |recs| && p.empty == (recs == [])
  }

  /** The body of the loop over the parsed sheets. */
  method AddSheet(p: Progress, sheet: TableParseResults, elements: map<string, Element>, number: Conversion,
                  headings: Sheet, ghost recs: seq<Record>, ghost recs': seq<Record>, ghost first: bool)
    returns (p': Option<Progress>)
    requires Headings(headings) && Shaped(sheet) && Reached(p, headings, recs, elements, number, first)
    requires recs' == recs + Records(sheet)
    ensures p'.Some? <==> AllPlaceable(recs', elements, number)
    ensures p'.Some? ==> Reached(p'.value, headings, recs', elements, number, false)
  {
    HeadingsAgain(p.ws, headings, recs, elements, number, first);
    SkippedMeansNone(sheet);
    var ws, row := CalculationRows(p.ws + headings, p.row, Records(sheet), elements, number, headings, recs);
    if ws.None? {
      return None;
    }
    return Some(Progress(ws.value, row, p.empty && Skipped(sheet)));
  }

  lemma NextPage(sheets: seq<TableParseResults>, s: nat, elements: map<string, Element>, number: Conversion)
    requires AllShaped(sheets) && s < |sheets|
    ensures Joined(Pages(sheets), s + 1) == Joined(Pages(sheets), s) + Records(sheets[s])
    ensures AllPlaceable(AllRecords(sheets), elements, number) ==>
              AllPlaceable(Joined(Pages(sheets), s + 1), elements, number)
  {
    JoinedPrefix(Pages(sheets), s + 1, |sheets|);
  }

  /** make_callculation_xlsx: all sheets one below the other on one workbook sheet. */
  method MakeCalculation(sheets: seq<TableParseResults>, elements: map<string, Element>, number: Conversion,
                         headings: Sheet)
    returns (r: Built)
    requires Headings(headings) && AllShaped(sheets)
    ensures r.Error? <==> !AllPlaceable(AllRecords(sheets), elements, number)
    ensures r.Nothing? ==> AllRecords(sheets) == []
    ensures r.Workbook? ==> AllRecords(sheets) != [] && |r.sheets| == 1
    ensures r.Workbook? ==> CalculationSheet(r.sheets[0], headings, AllRecords(sheets), elements, number)
  {
    var p := Progress(map[], 3, true);
    ghost var recs: seq<Record> := [];
    for s := 0 to |sheets|
      invariant recs == Joined(Pages(sheets), s) && Reached(p, headings, recs, elements, number, s == 0)
    {
      NextPage(sheets, s, elements, number);
      ghost var next := Joined(Pages(sheets), s + 1);
      var p' := AddSheet(p, sheets[s], elements, number, headings, recs, next, s == 0);
      if p'.None? {
        return Error;
      }
      p, recs := p'.value, next;
    }
    if p.empty {
      return Nothing;
    }
    return Workbook([p.ws]);
  }

  // ---------- every record has its own row ----------

  /** The number of records on the pages before page s. */
  ghost function Offset(pages: seq<seq<Record>>, s: nat): nat
    requires s <= |pages|
  {
    if s == 0 then 0 else Offset(pages, s - 1) + |pages[s - 1]|
  }

  lemma {:induction false} OffsetIsLength(pages: seq<seq<Record>>, n: nat)
    requires n <= |pages|
    ensures |Joined(pages, n)| == Offset(pages, n)
  {
    if n > 0 {
      OffsetIsLength(pages, n - 1);
    }
  }

  lemma Behind(a: seq<Record>, b: seq<Record>, whole: seq<Record>, i: nat)
    requires a + b <= whole && i < |b|
    ensures |a| + i < |whole| && whole[|a| + i] == b[i]
  {
    assert (a + b)[|a| + i] == b[i];
  }

  /** Record i of page s is record Offset(s) + i of the calculation workbook. */
  lemma RecordPlace(pages: seq<seq<Record>>, s: nat, i: nat)
    requires s < |pages| && i < |pages[s]|
    ensures Offset(pages, s) + i < |Joined(pages, |pages|)|
    ensures Joined(pages, |pages|)[Offset(pages, s) + i] == pages[s][i]
  {
    OffsetIsLength(pages, s);
    JoinedPrefix(pages, s + 1, |pages|);
    Behind(Joined(pages, s), pages[s], Joined(pages, |pages|), i);
  }

  /** A row of the calculation workbook holds a record. */
  ghost predicate RowHolds(ws: Sheet, row: int, rec: Record, elements: map<string, Element>, number: Conversion) {
    Placeable(rec, elements, number) && forall col :: At(ws, row, col) == CalculationField(rec, elements, number, col)
  }

  lemma RecordRow(ws: Sheet, headings: Sheet, recs: seq<Record>, elements: map<string, Element>, number: Conversion,
                  row: int, rec: Record)
    requires AllPlaceable(recs, elements, number) && CalculationSheet(ws, headings, recs, elements, number)
    requires 3 <= row < 3 + |recs| && rec == recs[row - 3]
    ensures RowHolds(ws, row, rec, elements, number)
  {
    assert Placeable(recs[row - 3], elements, number);
  }

  /** The row of record i of sheet s: below the records of the sheets before. */
  ghost function RowOf(sheets: seq<TableParseResults>, s: nat, i: nat): int
    requires AllShaped(sheets) && s < |sheets|
  {
    3 + Offset(Pages(sheets), s) + i
  }

  lemma RecordOfRow(sheets: seq<TableParseResults>, s: nat, i: nat, row: int)
    requires AllShaped(sheets) && s < |sheets| && i < |Records(sheets[s])| && row == RowOf(sheets, s, i)
    ensures 3 <= row < 3 + |AllRecords(sheets)| && AllRecords(sheets)[row - 3] == Records(sheets[s])[i]
  {
    var pages := Pages(sheets);
    assert |pages| == |sheets| && pages[s] == Records(sheets[s]);
    PlaceOfRecord(pages, s, i, row - 3, pages[s], Joined(pages, |pages|));
  }

  lemma PlaceOfRecord(pages: seq<seq<Record>>, s: nat, i: nat, k: int, page: seq<Record>, all: seq<Record>)
    requires s < |pages| && i < |pages[s]| && page == pages[s] && all == Joined(pages, |pages|)
    requires k == Offset(pages, s) + i
    ensures 0 <= k < |all| && all[k] == page[i]
  {
    RecordPlace(pages, s, i);
  }

  lemma PageRow(ws: Sheet, headings: Sheet, sheets: seq<TableParseResults>, elements: map<string, Element>,
                number: Conversion, s: nat, i: nat)
    requires AllShaped(sheets) && s < |sheets| && i < |Records(sheets[s])|
    requires AllPlaceable(AllRecords(sheets), elements, number)
    requires CalculationSheet(ws, headings, AllRecords(sheets), elements, number)
    ensures RowHolds(ws, RowOf(sheets, s, i), Records(sheets[s])[i], elements, number)
  {
    var row, rec, recs := RowOf(sheets, s, i), Records(sheets[s])[i], AllRecords(sheets);
    RecordOfRow(sheets, s, i, row);
    RecordRow(ws, headings, recs, elements, number, row, rec);
  }

  lemma {:induction false} OffsetsApart(pages: seq<seq<Record>>, s: nat, t: nat)
    requires s < t <= |pages|
    ensures Offset(pages, s) + |pages[s]| <= Offset(pages, t)
  {
    if s < t - 1 {
      OffsetsApart(pages, s, t - 1);
    }
  }

  /** Two different records of the calculation workbook stand in different rows. */
  lemma OwnRow(pages: seq<seq<Record>>, s: nat, i: nat, t: nat, j: nat)
    requires s < |pages| && t < |pages| && i < |pages[s]| && j < |pages[t]|
    ensures Offset(pages, s) + i == Offset(pages, t) + j <==> s == t && i == j
  {
    if s < t {
      OffsetsApart(pages, s, t);
    } else if t < s {
      OffsetsApart(pages, t, s);
    }
  }
}
