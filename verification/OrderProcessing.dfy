/** process_request_excel and process_calculation_excel (processors/main.py) with the material parser and the
    workbook builders of the repository put in. */
module OrderProcessing {
  import opened Text
  import opened BracketWords
  import opened SheetTypes
  import opened Mappings
  import opened MaterialParser
  import opened DocumentLoop
  import opened Workbooks

  // ---------- the parser ----------

  /** What ParserV2(DELIMETERS).parse makes of a name. */
  function ReadMaterial(name: string): Option<MaterialRules.Parsed> { MaterialRules.FinalParse(name, DELIMITERS) }

  /** The parser object computes this function. */
  method ReadWithParser(name: string) returns (r: Option<ParseResults>)
    ensures r.None? <==> ReadMaterial(name).None?
    ensures r.Some? ==> fresh(r.value) && Some(r.value.View()) == ReadMaterial(name)
  {
    var parser := new ParserV2(DELIMITERS);
    r := parser.Parse(name);
  }

  lemma ReadsIffBalanced(name: string)
    ensures ReadMaterial(name).Some? <==> Balanced(Strip(name))
  {
    MaterialBlocks.TreeAccepts(Strip(name), DELIMITERS);
  }

  /** Some part of a readable name is missing from the human's answers. */
  ghost predicate LeftOut(name: string, manual: Option<map<string, Match>>) {
    manual.Some? && exists p :: p in PartList(name, ReadMaterial) && p !in manual.value
  }

  /** A name makes the handler raise iff its brackets are unbalanced or one of its parts was left out. */
  lemma TroubleIff(name: string, manual: Option<map<string, Match>>)
    ensures Trouble(name, manual, ReadMaterial) <==> !Balanced(Strip(name)) || LeftOut(name, manual)
  {
    ReadsIffBalanced(name);
  }

  // ---------- the builders ----------

  /** How either builder ends. */
  function BuildOutcome(sheets: seq<TableParseResults>, elements: map<string, Element>, number: Conversion): BuildResult
  {
    if exists s :: 0 <= s < |sheets| && !Fits(sheets[s], elements, number) then BuildResult.Failed
    else if forall s :: 0 <= s < |sheets| ==> Skipped(sheets[s]) then NoBook
    else BuildResult.Book
  }

  ghost predicate SameOutcome(built: Built, outcome: BuildResult) {
    (built.Error? <==> outcome.Failed?) && (built.Nothing? <==> outcome.NoBook?) && (built.Workbook? <==> outcome.Book?)
  }

  method BuildRequest(sheets: seq<TableParseResults>, elements: map<string, Element>, number: Conversion,
                      headings: Sheet)
    returns (r: Built)
    requires Headings(headings) && AllShaped(sheets)
    ensures SameOutcome(r, BuildOutcome(sheets, elements, number))
    ensures r.Workbook? ==> |r.sheets| == |sheets|
    ensures r.Workbook? ==> forall s :: 0 <= s < |sheets| ==>
              RequestPage(r.sheets[s], sheets[s], elements, number, headings)
  {
    r := MakeRequest(sheets, elements, number, headings);
  }

  method BuildCalculation(sheets: seq<TableParseResults>, elements: map<string, Element>, number: Conversion,
                          headings: Sheet)
    returns (r: Built)
    requires Headings(headings) && AllShaped(sheets)
    ensures SameOutcome(r, BuildOutcome(sheets, elements, number))
  {
    r := MakeCalculation(sheets, elements, number, headings);
    AllFitIff(sheets, elements, number);
    NoneIff(sheets);
  }

  lemma AllFitIff(sheets: seq<TableParseResults>, elements: map<string, Element>, number: Conversion)
    requires AllShaped(sheets)
    ensures AllPlaceable(AllRecords(sheets), elements, number) <==>
              forall s :: 0 <= s < |sheets| ==> Fits(sheets[s], elements, number)
  {
    PagesPlaceable(Pages(sheets), |sheets|, elements, number);
    forall s | 0 <= s < |sheets|
      ensures Fits(sheets[s], elements, number) <==> AllPlaceable(Pages(sheets)[s], elements, number)
    {
    }
  }

  lemma NoneIff(sheets: seq<TableParseResults>)
    requires AllShaped(sheets)
    ensures AllRecords(sheets) == [] <==> forall s :: 0 <= s < |sheets| ==> Skipped(sheets[s])
  {
    NoRecordsIff(Pages(sheets), |sheets|);
    forall s | 0 <= s < |sheets|
      ensures Skipped(sheets[s]) <==> Pages(sheets)[s] == []
    {
      SkippedMeansNone(sheets[s]);
    }
  }

  lemma {:induction false} PagesPlaceable(pages: seq<seq<Record>>, n: nat, elements: map<string, Element>,
                                          number: Conversion)
    requires n <= |pages|
    ensures AllPlaceable(Joined(pages, n), elements, number)
            <==> forall s :: 0 <= s < n ==> AllPlaceable(pages[s], elements, number)
  {
    if n > 0 {
      PagesPlaceable(pages, n - 1, elements, number);
      PlaceableConcat(Joined(pages, n - 1), pages[n - 1], elements, number);
    }
  }

  lemma PlaceableConcat(a: seq<Record>, b: seq<Record>, elements: map<string, Element>, number: Conversion)
    ensures AllPlaceable(a + b, elements, number) <==>
              AllPlaceable(a, elements, number) && AllPlaceable(b, elements, number)
  {
    if AllPlaceable(a + b, elements, number) {
      forall i | 0 <= i < |a|
        ensures Placeable(a[i], elements, number)
      {
        assert (a + b)[i] == a[i];
      }
      forall i | 0 <= i < |b|
        ensures Placeable(b[i], elements, number)
      {
        assert (a + b)[|a| + i] == b[i];
      }
    }
  }

  lemma {:induction false} NoRecordsIff(pages: seq<seq<Record>>, n: nat)
    requires n <= |pages|
    ensures Joined(pages, n) == [] <==> forall s :: 0 <= s < n ==> pages[s] == []
  {
    if n > 0 {
      NoRecordsIff(pages, n - 1);
    }
  }

  // ---------- what the builders are given ----------

  /** The surroundings of the document loop: the repository's builders, and any uploads. */
  function Builders(number: Conversion, uploadFails: (nat, Kind) -> bool): Surroundings {
    Surroundings((sheets, elements) => BuildOutcome(sheets, elements, number),
                 (sheets, elements) => BuildOutcome(sheets, elements, number), uploadFails)
  }

  predicate Converts(rec: Record, number: Conversion) {
    Whole(number, rec.x).Some? && Whole(number, rec.y).Some? && Whole(number, rec.amount).Some?
  }

  /** A record whose material is known, with the matches of its own parts, one to one. */
  ghost predicate Ready(rec: Record, elements: map<string, Element>, table: map<string, Match>, reading: Reading) {
    var parts := PartList(rec.material, reading);
    && rec.material in elements && |elements[rec.material].matches| == |parts|
    && forall j :: 0 <= j < |parts| ==> parts[j] in table && elements[rec.material].matches[j] == table[parts[j]]
  }

  lemma RecordMaterial(sheets: seq<TableParseResults>, s: nat, i: nat)
    requires s < |sheets| && Shaped(sheets[s]) && i < |Records(sheets[s])|
    ensures Records(sheets[s])[i].material in Materials(sheets)
  {
    assert sheets[s] in sheets && !sheets[s].IsEmpty();
    assert sheets[s].material.value[i] in sheets[s].material.value;
  }

  /** Every record of a document that is built is ready, so only a number can keep a builder from placing it. */
  lemma BuiltRecordReady(b: Build, kind: Kind, around: Surroundings, docs: seq<Document>,
                         manual: Option<map<string, Match>>, mappings: map<string, Match>, reading: Reading,
                         number: Conversion, s: nat, i: nat)
    requires GoodBuild(b, kind, around, docs, manual, mappings, reading)
    requires s < |docs[b.doc].content.tables| && Shaped(docs[b.doc].content.tables[s])
    requires i < |Records(docs[b.doc].content.tables[s])|
    ensures var rec := Records(docs[b.doc].content.tables[s])[i];
            && Ready(rec, b.elements, Table(manual, mappings), reading)
            && (Placeable(rec, b.elements, number) <==> Converts(rec, number))
  {
    RecordMaterial(docs[b.doc].content.tables, s, i);
  }

  ghost predicate AllConvert(sheets: seq<TableParseResults>, number: Conversion) {
    forall s :: 0 <= s < |sheets| && Shaped(sheets[s]) ==>
      forall i :: 0 <= i < |Records(sheets[s])| ==> Converts(Records(sheets[s])[i], number)
  }

  /** A builder raises on a document of the loop iff some number of it does not convert. */
  lemma RaisesIffNumber(b: Build, kind: Kind, around: Surroundings, docs: seq<Document>,
                        manual: Option<map<string, Match>>, mappings: map<string, Match>, reading: Reading,
                        number: Conversion)
    requires GoodBuild(b, kind, around, docs, manual, mappings, reading) && AllShaped(docs[b.doc].content.tables)
    ensures BuildOutcome(docs[b.doc].content.tables, b.elements, number).Failed? <==>
              !AllConvert(docs[b.doc].content.tables, number)
  {
    var sheets := docs[b.doc].content.tables;
    forall s | 0 <= s < |sheets|
      ensures Fits(sheets[s], b.elements, number) <==>
              forall i :: 0 <= i < |Records(sheets[s])| ==> Converts(Records(sheets[s])[i], number)
    {
      forall i | 0 <= i < |Records(sheets[s])|
        ensures Placeable(Records(sheets[s])[i], b.elements, number) <==> Converts(Records(sheets[s])[i], number)
      {
        BuiltRecordReady(b, kind, around, docs, manual, mappings, reading, number, s, i);
      }
    }
  }

  lemma FieldIsTarget(rec: Record, elements: map<string, Element>, number: Conversion, table: map<string, Match>,
                      reading: Reading, j: nat)
    requires Ready(rec, elements, table, reading) && Placeable(rec, elements, number) && j < 9
    ensures var parts := PartList(rec.material, reading);
            && (j < |parts| ==> parts[j] in table)
            && RequestField(rec, elements, number, 2 + j)
               == if j < |parts| then WordsOf(table[parts[j]].target) else None
  {
  }

  lemma CellOfRecord(ws: Sheet, sheet: TableParseResults, elements: map<string, Element>, number: Conversion,
                     headings: Sheet, i: nat, col: int)
    requires RequestPage(ws, sheet, elements, number, headings) && i < |Records(sheet)|
    ensures Placeable(Records(sheet)[i], elements, number)
    ensures At(ws, 3 + i, col) == RequestField(Records(sheet)[i], elements, number, col)
  {
  }

  /** In the request workbook the columns from 2 on show the targets of the record's own parts, in order: those of
      the human's answers when there are any, whatever the mapping table holds, and those of the table otherwise. */
  lemma TargetsOfParts(b: Build, kind: Kind, around: Surroundings, docs: seq<Document>,
                       manual: Option<map<string, Match>>, mappings: map<string, Match>, reading: Reading,
                       number: Conversion, headings: Sheet, ws: Sheet, s: nat, i: nat, j: nat)
    requires GoodBuild(b, kind, around, docs, manual, mappings, reading)
    requires s < |docs[b.doc].content.tables|
    requires RequestPage(ws, docs[b.doc].content.tables[s], b.elements, number, headings)
    requires i < |Records(docs[b.doc].content.tables[s])| && j < 9
    ensures var rec := Records(docs[b.doc].content.tables[s])[i];
            var parts := PartList(rec.material, reading);
            if j < |parts| then
              if manual.Some? then
                parts[j] in manual.value && At(ws, 3 + i, 2 + j) == WordsOf(manual.value[parts[j]].target)
              else parts[j] in mappings && At(ws, 3 + i, 2 + j) == WordsOf(mappings[parts[j]].target)
            else At(ws, 3 + i, 2 + j).None?
  {
    var sheet := docs[b.doc].content.tables[s];
    BuiltRecordReady(b, kind, around, docs, manual, mappings, reading, number, s, i);
    CellOfRecord(ws, sheet, b.elements, number, headings, i, 2 + j);
    FieldIsTarget(Records(sheet)[i], b.elements, number, Table(manual, mappings), reading, j);
  }

  /** In the calculation workbook the columns from 3 on show the articles of the record's own parts, in order. */
  lemma ArticlesOfParts(b: Build, kind: Kind, around: Surroundings, docs: seq<Document>,
                        manual: Option<map<string, Match>>, mappings: map<string, Match>, reading: Reading,
                        number: Conversion, headings: Sheet, ws: Sheet, s: nat, i: nat, j: nat)
    requires GoodBuild(b, kind, around, docs, manual, mappings, reading)
    requires AllShaped(docs[b.doc].content.tables) && s < |docs[b.doc].content.tables|
    requires AllPlaceable(AllRecords(docs[b.doc].content.tables), b.elements, number)
    requires CalculationSheet(ws, headings, AllRecords(docs[b.doc].content.tables), b.elements, number)
    requires i < |Records(docs[b.doc].content.tables[s])| && j < 7
    ensures var sheets := docs[b.doc].content.tables;
            var parts := PartList(Records(sheets[s])[i].material, reading);
            var cell := At(ws, RowOf(sheets, s, i), 3 + j);
            if j < |parts| then
              if manual.Some? then parts[j] in manual.value && cell == WordsOf(manual.value[parts[j]].article)
              else parts[j] in mappings && cell == WordsOf(mappings[parts[j]].article)
            else cell.None?
  {
    var sheets := docs[b.doc].content.tables;
    BuiltRecordReady(b, kind, around, docs, manual, mappings, reading, number, s, i);
    PageRow(ws, headings, sheets, b.elements, number, s, i);
    ArticleCell(ws, RowOf(sheets, s, i), Records(sheets[s])[i], b.elements, number,
                Table(manual, mappings), reading, j);
  }

  lemma ArticleCell(ws: Sheet, row: int, rec: Record, elements: map<string, Element>, number: Conversion,
                    table: map<string, Match>, reading: Reading, j: nat)
    requires RowHolds(ws, row, rec, elements, number) && Ready(rec, elements, table, reading) && j < 7
    ensures var parts := PartList(rec.material, reading);
            && (j < |parts| ==> parts[j] in table)
            && At(ws, row, 3 + j) == if j < |parts| then WordsOf(table[parts[j]].article) else None
  {
  }

  ghost predicate ParsedDocs(docs: seq<Document>) {
    forall k :: 0 <= k < |docs| && docs[k].content.Sheets? ==> AllShaped(docs[k].content.tables)
  }

  /** The error a built document leaves: that of a number that does not convert, else that of having no row at all,
      else none. */
  lemma ErrorWhen(b: Build, kind: Kind, docs: seq<Document>, manual: Option<map<string, Match>>,
                  mappings: map<string, Match>, number: Conversion, uploadFails: (nat, Kind) -> bool)
    requires ParsedDocs(docs)
    requires GoodBuild(b, kind, Builders(number, uploadFails), docs, manual, mappings, ReadMaterial)
    ensures var sheets := docs[b.doc].content.tables;
            BuildErrorOf(Builders(number, uploadFails), kind, sheets, b.elements)
            == if !AllConvert(sheets, number) then Some(FileError.BuildError)
               else if forall s :: 0 <= s < |sheets| ==> Skipped(sheets[s]) then Some(EmptyOutput)
               else None
  {
    RaisesIffNumber(b, kind, Builders(number, uploadFails), docs, manual, mappings, ReadMaterial, number);
  }

  // ---------- the handlers ----------

  /** The document loop with parser and builders in place. It raises iff a name is unbalanced or a part of one
      was left out of the answers; a document that is built is stored iff all its numbers convert, it has a
      row, and its uploads succeed. */
  method ProcessOrder(kind: Kind, number: Conversion, uploadFails: (nat, Kind) -> bool, docs: seq<Document>,
                      manual: Option<map<string, Match>>, mappings: map<string, Match>)
    returns (outcome: Outcome, builds: seq<Build>)
    requires ParsedDocs(docs)
    ensures outcome.Raised? <==>
            exists m :: m in MaterialsUpTo(docs, |docs|) && (!Balanced(Strip(m)) || LeftOut(m, manual))
    ensures !outcome.Raised? ==> forall n :: 0 <= n < |builds| ==>
              && GoodBuild(builds[n], kind, Builders(number, uploadFails), docs, manual, mappings, ReadMaterial)
              && StoredIff(builds[n], kind, docs, number, uploadFails)
  {
    outcome, builds := ProcessDocuments(kind, Builders(number, uploadFails), docs, manual, mappings, ReadMaterial);
    forall m
      ensures Trouble(m, manual, ReadMaterial) <==> !Balanced(Strip(m)) || LeftOut(m, manual)
    {
      TroubleIff(m, manual);
    }
    if !outcome.Raised? {
      forall n | 0 <= n < |builds|
        ensures StoredIff(builds[n], kind, docs, number, uploadFails)
      {
        StoredWhen(builds[n], kind, docs, manual, mappings, number, uploadFails);
      }
    }
  }

  ghost predicate StoredIff(b: Build, kind: Kind, docs: seq<Document>, number: Conversion,
                            uploadFails: (nat, Kind) -> bool)
    requires b.doc < |docs| && docs[b.doc].content.Sheets?
  {
    var sheets := docs[b.doc].content.tables;
    b.stored <==>
      && AllConvert(sheets, number) && (exists s :: 0 <= s < |sheets| && !Skipped(sheets[s]))
      && !uploadFails(b.doc, Request) && (kind.Calculation? ==> !uploadFails(b.doc, Calculation))
  }

  lemma StoredWhen(b: Build, kind: Kind, docs: seq<Document>, manual: Option<map<string, Match>>,
                   mappings: map<string, Match>, number: Conversion, uploadFails: (nat, Kind) -> bool)
    requires ParsedDocs(docs)
    requires GoodBuild(b, kind, Builders(number, uploadFails), docs, manual, mappings, ReadMaterial)
    ensures StoredIff(b, kind, docs, number, uploadFails)
  {
    RaisesIffNumber(b, kind, Builders(number, uploadFails), docs, manual, mappings, ReadMaterial, number);
  }
}
