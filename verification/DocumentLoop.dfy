/** The document loop shared by process_request_excel and process_calculation_excel
    (processors/main.py): which parts are looked up, when a human is asked, what the workbook
    builders are given. */
module DocumentLoop {
  import opened Text
  import opened SheetTypes
  import opened MaterialRules
  import opened Mappings
  import opened MaterialParser

  /** What became of one attachment before its materials are looked at. */
  datatype Content =
    | Unreadable
    | NotOpened
    | NoTables
    | NotParsed
    | Sheets(tables: seq<TableParseResults>)

  datatype Document = Document(key: string, content: Content)

  datatype FileError = AccessError | OpenError | ReadError | ParserError | BuildError | EmptyOutput

  datatype Kind = Request | Calculation

  /** What a builder sees of one entry of the material dictionary. */
  datatype Element = Element(parsed: Parsed, matches: seq<Match>)

  datatype BuildResult = Failed | NoBook | Book

  /** Builders and object store, as functions of what they are given. */
  datatype Surroundings = Surroundings(
    request: (seq<TableParseResults>, map<string, Element>) -> BuildResult,
    calculation: (seq<TableParseResults>, map<string, Element>) -> BuildResult,
    uploadFails: (nat, Kind) -> bool)  // by the place of the document

  /** One use of the builders: for which document, on what, and whether everything was stored. */
  datatype Build = Build(doc: nat, elements: map<string, Element>, stored: bool)

  /** part -> is it black-listed (true) or unknown (false) */
  type Questions = map<string, bool>

  datatype Outcome =
    | Raised
    | Review(questions: Questions)
    | Completed
    | NothingStored(errors: map<string, FileError>)

  // ---------- specification ----------

  function Materials(tables: seq<TableParseResults>): set<string> {
    set t, m | t in tables && !t.IsEmpty() && m in t.material.value :: m
  }

  function DocMaterials(d: Document): set<string> {
    if d.content.Sheets? then Materials(d.content.tables) else {}
  }

  /** The materials of the first n documents. */
  function MaterialsUpTo(docs: seq<Document>, n: nat): set<string>
    requires n <= |docs|
  {
    if n == 0 then {} else MaterialsUpTo(docs, n - 1) + DocMaterials(docs[n - 1])
  }

  /** What the material parser makes of a name; None where it raises. */
  type Reading = string -> Option<Parsed>

  function PartList(material: string, reading: Reading): seq<string> {
    if reading(material).Some? then reading(material).value.parts else []
  }

  function PartsOf(materials: set<string>, reading: Reading): set<string> {
    set m, p | m in materials && p in PartList(m, reading) :: p
  }

  function PartSet(material: string, reading: Reading): set<string> {
    set p | p in PartList(material, reading)
  }

  lemma PartsOfMore(materials: set<string>, m: string, reading: Reading)
    ensures PartsOf(materials + {m}, reading) == PartsOf(materials, reading) + PartSet(m, reading)
  {
  }

  predicate Unsettled(part: string, mappings: map<string, Match>) {
    part !in mappings || mappings[part].blackListed
  }

  function QuestionsFor(parts: set<string>, mappings: map<string, Match>): Questions {
    map p | p in parts && Unsettled(p, mappings) :: p in mappings
  }

  function MapParts(parts: seq<string>, table: map<string, Match>): seq<Match>
    requires forall p :: p in parts ==> p in table
  {
    seq(|parts|, k requires 0 <= k < |parts| => table[parts[k]])
  }

  ghost predicate Covered(material: string, reading: Reading, table: map<string, Match>) {
    forall p :: p in PartList(material, reading) ==> p in table
  }

  /** Every material of the document has an entry whose matches are its own parts, one to one. */
  ghost predicate Answered(materials: set<string>, elements: map<string, Element>, reading: Reading,
                           table: map<string, Match>)
  {
    forall m :: m in materials ==>
      && m in elements && reading(m) == Some(elements[m].parsed)
      && Covered(m, reading, table)
      && elements[m].matches == MapParts(PartList(m, reading), table)
  }

  // ---------- the dictionary ----------

  ghost predicate Dictionary(dict: map<string, ParseResults>, reading: Reading)
    reads dict.Values`material, dict.Values`prefix, dict.Values`postfix, dict.Values`parts, dict.Values`partsCount
  {
    && (forall m :: m in dict ==> reading(m) == Some(dict[m].View()))
    && (forall m, n :: m in dict && n in dict && m != n ==> dict[m] != dict[n])
  }

  lemma DictionaryGrows(dict: map<string, ParseResults>, material: string, r: ParseResults, reading: Reading)
    requires Dictionary(dict, reading) && reading(material) == Some(r.View()) && forall m :: m in dict ==> dict[m] != r
    ensures Dictionary(dict[material := r], reading)
  {
  }

  function ToSet(list: seq<string>): set<string> {
    if list == [] then {} else ToSet(list[..|list| - 1]) + {list[|list| - 1]}
  }

  lemma {:induction false} ToSetMembers(list: seq<string>)
    ensures forall e :: e in ToSet(list) <==> e in list
  {
    if list != [] {
      ToSetMembers(list[..|list| - 1]);
      assert list == list[..|list| - 1] + [list[|list| - 1]];
    }
  }

  /** list(set): the elements in some order, each once. */
  method ToList(elements: set<string>) returns (list: seq<string>)
    ensures ToSet(list) == elements
    ensures forall j, k :: 0 <= j < k < |list| ==> list[j] != list[k]
  {
    list := [];
    var todo := elements;
    while todo != {}
      invariant todo <= elements && ToSet(list) == elements - todo
      invariant forall j, k :: 0 <= j < k < |list| ==> list[j] != list[k]
      decreases |todo|
    {
      var e :| e in todo;
      ToSetMembers(list);
      assert (list + [e])[..|list|] == list;
      list := list + [e];
      todo := todo - {e};
    }
  }

  /** dict' is dict with the entries of `done` put in or replaced. */
  ghost predicate Replaced(dict: map<string, ParseResults>, dict': map<string, ParseResults>, done: set<string>) {
    && dict'.Keys == dict.Keys + done
    && forall m :: m in dict && m !in done ==> dict'[m] == dict[m]
  }

  lemma ReplacedMore(dict: map<string, ParseResults>, dict': map<string, ParseResults>, done: set<string>, m: string,
                     r: ParseResults)
    requires Replaced(dict, dict', done)
    ensures Replaced(dict, dict'[m := r], done + {m})
  {
  }

  /** Parsing the new materials: each gets a fresh entry, even one already known. */
  method ParseMaterials(reading: Reading, materials: seq<string>, dict: map<string, ParseResults>, parts: set<string>)
    returns (ok: bool, dict': map<string, ParseResults>, parts': set<string>)
    requires Dictionary(dict, reading)
    ensures ok <==> forall m :: m in ToSet(materials) ==> reading(m).Some?
    ensures ok ==> Dictionary(dict', reading) && Replaced(dict, dict', ToSet(materials))
    ensures ok ==> parts' == parts + PartsOf(ToSet(materials), reading)
    ensures ok ==> NewEntries(dict', ToSet(materials), reading) && forall m :: m in ToSet(materials) ==> fresh(dict'[m])
  {
    ok, dict', parts' := true, dict, parts;
    ghost var done: set<string> := {};
    for k := 0 to |materials|
      invariant done == ToSet(materials[..k])
      invariant ok && Dictionary(dict', reading) && Replaced(dict, dict', done)
      invariant parts' == parts + PartsOf(done, reading)
      invariant NewEntries(dict', done, reading)
      invariant forall m :: m in done ==> fresh(dict'[m])
    {
      var material := materials[k];
      assert materials[..k + 1][..k] == materials[..k];
      PartsOfMore(done, material, reading);
      UnionAssoc(parts, PartsOf(done, reading), PartSet(material, reading));
      ghost var before := dict';
      ok, dict', parts' := ParseMaterial(reading, material, dict', parts', done);
      if !ok {
        InToSet(materials, k);
        return;
      }
      ReplacedMore(dict, before, done, material, dict'[material]);
      done := done + {material};
    }
    assert materials[..|materials|] == materials;
  }

  lemma UnionAssoc(a: set<string>, b: set<string>, c: set<string>)
    ensures (a + b) + c == a + (b + c)
  {
  }

  lemma {:induction false} InToSet(list: seq<string>, k: nat)
    requires k < |list|
    ensures list[k] in ToSet(list)
  {
    if k < |list| - 1 {
      InToSet(list[..|list| - 1], k);
    }
  }

  method ParseMaterial(reading: Reading, material: string, dict: map<string, ParseResults>, parts: set<string>,
                       ghost done: set<string>)
    returns (ok: bool, dict': map<string, ParseResults>, parts': set<string>)
    requires Dictionary(dict, reading) && NewEntries(dict, done, reading)
    ensures ok <==> reading(material).Some?
    ensures ok ==> material in dict' && fresh(dict'[material]) && dict' == dict[material := dict'[material]]
    ensures ok ==> Dictionary(dict', reading) && NewEntries(dict', done + {material}, reading)
    ensures ok ==> parts' == parts + PartSet(material, reading)
  {
    var parsed := reading(material);
    if parsed.None? {
      return false, dict, parts;
    }
    var result := new ParseResults(parsed.value);
    DictionaryGrows(dict, material, result, reading);
    NewEntriesGrow(dict, done, material, result, reading);
    return true, dict[material := result], parts + PartSet(material, reading);
  }

  ghost predicate NewEntries(dict: map<string, ParseResults>, keys: set<string>, reading: Reading)
    reads dict.Values
  {
    forall m :: m in keys ==> m in dict && reading(m).Some? && dict[m].matches == []
  }

  lemma NewEntriesGrow(dict: map<string, ParseResults>, keys: set<string>, material: string, r: ParseResults,
                       reading: Reading)
    requires NewEntries(dict, keys, reading) && reading(material).Some? && r.matches == []
    ensures NewEntries(dict[material := r], keys + {material}, reading)
  {
  }

  /** Appending the matches of every entry's parts; false where the source has a KeyError. */
  method AppendMatches(dict: map<string, ParseResults>, table: map<string, Match>, ghost reading: Reading)
    returns (ok: bool)
    requires Dictionary(dict, reading)
    modifies dict.Values`matches
    ensures ok <==> forall m :: m in dict ==> Covered(m, reading, table)
    ensures ok ==> Dictionary(dict, reading)
    ensures ok ==> forall m :: m in dict ==>
              dict[m].matches == old(dict[m].matches) + MapParts(PartList(m, reading), table)
  {
    var items := ToList(dict.Keys);
    ToSetMembers(items);
    ok := AppendItems(dict, items, table, reading);
    assert forall m :: m in dict ==> m in items;
  }

  method AppendItems(dict: map<string, ParseResults>, items: seq<string>, table: map<string, Match>,
                     ghost reading: Reading)
    returns (ok: bool)
    requires Dictionary(dict, reading) && forall m :: m in items ==> m in dict
    requires forall j, k :: 0 <= j < k < |items| ==> items[j] != items[k]
    modifies dict.Values`matches
    ensures ok <==> forall m :: m in items ==> Covered(m, reading, table)
    ensures ok ==> forall m :: m in items ==>
              dict[m].matches == old(dict[m].matches) + MapParts(PartList(m, reading), table)
  {
    assert forall k :: 0 <= k < |items| ==> items[k] in items;
    var entries := seq(|items|, k requires 0 <= k < |items| => dict[items[k]]);
    ok := AppendAll(entries, table);
    assert forall k :: 0 <= k < |items| ==> entries[k].parts == PartList(items[k], reading);
  }

  method AppendAll(entries: seq<ParseResults>, table: map<string, Match>) returns (ok: bool)
    requires forall j, k :: 0 <= j < k < |entries| ==> entries[j] != entries[k]
    modifies (set e | e in entries)`matches
    ensures ok <==> forall k :: 0 <= k < |entries| ==> forall p :: p in entries[k].parts ==> p in table
    ensures ok ==> forall k :: 0 <= k < |entries| ==>
              entries[k].matches == old(entries[k].matches) + MapParts(entries[k].parts, table)
  {
    ok := true;
    for n := 0 to |entries|
      invariant ok && forall k :: 0 <= k < n ==> forall p :: p in entries[k].parts ==> p in table
      invariant forall k :: n <= k < |entries| ==> entries[k].matches == old(entries[k].matches)
      invariant forall k :: 0 <= k < n ==>
                  entries[k].matches == old(entries[k].matches) + MapParts(entries[k].parts, table)
    {
      ok := AppendEntry(entries[n], table);
      if !ok {
        return;
      }
    }
  }

  method AppendEntry(entry: ParseResults, table: map<string, Match>) returns (ok: bool)
    modifies entry`matches
    ensures ok <==> forall p :: p in entry.parts ==> p in table
    ensures ok ==> entry.matches == old(entry.matches) + MapParts(entry.parts, table)
  {
    for k := 0 to |entry.parts|
      invariant forall j :: 0 <= j < k ==> entry.parts[j] in table
      invariant entry.matches == old(entry.matches) + MapParts(entry.parts[..k], table)
    {
      if entry.parts[k] !in table {
        return false;
      }
      assert entry.parts[..k + 1] == entry.parts[..k] + [entry.parts[k]];
      entry.matches := entry.matches + [table[entry.parts[k]]];
    }
    assert entry.parts[..|entry.parts|] == entry.parts;
    return true;
  }

  /** batch_find and the loop over its result: the parts nobody has settled. */
  method FindQuestions(parts: set<string>, mappings: map<string, Match>) returns (questions: Questions)
    ensures questions == QuestionsFor(parts, mappings)
  {
    var found := map p | p in parts :: if p in mappings then Some(mappings[p]) else None;
    questions := map[];
    var todo := parts;
    while todo != {}
      invariant todo <= parts
      invariant questions == QuestionsFor(parts - todo, mappings)
      decreases |todo|
    {
      var part :| part in todo;
      if found[part].None? {
        questions := questions[part := false];
      } else if found[part].value.blackListed {
        questions := questions[part := true];
      }
      todo := todo - {part};
    }
    assert parts - todo == parts;
  }

  // ---------- one document ----------

  /** The local variables of the loop. */
  datatype Totals = Totals(
    dict: map<string, ParseResults>,
    parts: set<string>,
    questions: Questions,
    stored: bool,
    errors: map<string, FileError>,
    builds: seq<Build>)

  function Elements(dict: map<string, ParseResults>): map<string, Element>
    reads dict.Values
  {
    map m | m in dict ::
      Element(Parsed(dict[m].material, dict[m].prefix, dict[m].postfix, dict[m].parts, dict[m].partsCount),
              dict[m].matches)
  }

  /** A human's decision wins over the mapping table. */
  function Table(manual: Option<map<string, Match>>, mappings: map<string, Match>): map<string, Match> {
    if manual.Some? then manual.value else mappings
  }

  function Asks(manual: Option<map<string, Match>>, mappings: map<string, Match>, parts: set<string>): Questions {
    if manual.Some? then map[] else QuestionsFor(parts, mappings)
  }

  predicate Stores(around: Surroundings, kind: Kind, docs: seq<Document>, n: nat, elements: map<string, Element>)
    requires n < |docs|
  {
    && docs[n].content.Sheets?
    && around.request(docs[n].content.tables, elements).Book?
    && (kind.Calculation? ==> around.calculation(docs[n].content.tables, elements).Book?)
    && !around.uploadFails(n, Request)
    && (kind.Calculation? ==> !around.uploadFails(n, Calculation))
  }

  /** The error a document's workbooks leave behind; a failed upload leaves none. */
  function BuildErrorOf(around: Surroundings, kind: Kind, tables: seq<TableParseResults>,
                        elements: map<string, Element>)
    : Option<FileError>
  {
    var first := around.request(tables, elements);
    var second := if kind.Calculation? then around.calculation(tables, elements) else Book;
    if first.Failed? || second.Failed? then Some(BuildError)
    else if first.NoBook? || second.NoBook? then Some(EmptyOutput)
    else None
  }

  /** The builders and the upload, after the matches are in place. */
  method BuildAndStore(kind: Kind, around: Surroundings, docs: seq<Document>, n: nat, elements: map<string, Element>)
    returns (stored: bool, error: Option<FileError>)
    requires n < |docs| && docs[n].content.Sheets?
    ensures stored == Stores(around, kind, docs, n, elements)
    ensures error == BuildErrorOf(around, kind, docs[n].content.tables, elements)
  {
    var tables := docs[n].content.tables;
    var first := around.request(tables, elements);
    if first.Failed? {
      return false, Some(BuildError);
    }
    var second := Book;
    if kind.Calculation? {
      second := around.calculation(tables, elements);
      if second.Failed? {
        return false, Some(BuildError);
      }
    }
    if first.NoBook? || second.NoBook? {
      return false, Some(EmptyOutput);
    }
    if around.uploadFails(n, Request) {
      return false, None;
    }
    if kind.Calculation? && around.uploadFails(n, Calculation) {
      return false, None;
    }
    return true, None;
  }

  // ---------- recorded errors ----------

  /** The build made for a document, if its turn got that far. */
  function BuildFor(builds: seq<Build>, n: nat): Option<Build> {
    if builds == [] then None
    else if builds[|builds| - 1].doc == n then Some(builds[|builds| - 1])
    else BuildFor(builds[..|builds| - 1], n)
  }

  function ContentError(content: Content): Option<FileError> {
    match content
    case Unreadable => Some(AccessError)
    case NotOpened => Some(OpenError)
    case NoTables => Some(ReadError)
    case NotParsed => Some(ParserError)
    case Sheets(_) => None
  }

  /** What a document's turn puts into file_errors. */
  function ErrorAt(around: Surroundings, kind: Kind, docs: seq<Document>, builds: seq<Build>, n: nat): Option<FileError>
    requires n < |docs|
  {
    if !docs[n].content.Sheets? then ContentError(docs[n].content)
    else if BuildFor(builds, n).None? then None
    else BuildErrorOf(around, kind, docs[n].content.tables, BuildFor(builds, n).value.elements)
  }

  /** file_errors after n documents. */
  function ErrorsUpTo(around: Surroundings, kind: Kind, docs: seq<Document>, builds: seq<Build>, n: nat)
    : map<string, FileError>
    requires n <= |docs|
  {
    if n == 0 then map[]
    else
      var before := ErrorsUpTo(around, kind, docs, builds, n - 1);
      var e := ErrorAt(around, kind, docs, builds, n - 1);
      if e.Some? then before[docs[n - 1].key := e.value] else before
  }

  /** A file has an error iff one of the documents under its key left one, and it is the last of those. */
  lemma {:induction false} ErrorsMeaning(around: Surroundings, kind: Kind, docs: seq<Document>, builds: seq<Build>,
                                         n: nat, key: string)
    requires n <= |docs|
    ensures var errors := ErrorsUpTo(around, kind, docs, builds, n);
            if key in errors then
              exists k ::
                && 0 <= k < n && docs[k].key == key
                && ErrorAt(around, kind, docs, builds, k) == Some(errors[key])
                && forall j :: k < j < n && docs[j].key == key ==> ErrorAt(around, kind, docs, builds, j).None?
            else
              forall k :: 0 <= k < n && docs[k].key == key ==> ErrorAt(around, kind, docs, builds, k).None?
  {
    if n > 0 {
      ErrorsMeaning(around, kind, docs, builds, n - 1, key);
      var errors := ErrorsUpTo(around, kind, docs, builds, n);
      var e := ErrorAt(around, kind, docs, builds, n - 1);
      if e.Some? && docs[n - 1].key == key {
        assert docs[n - 1].key == key && e == Some(errors[key]);
      } else if key in errors {
        var k :| 0 <= k < n - 1 && docs[k].key == key && ErrorAt(around, kind, docs, builds, k) == Some(errors[key])
                 && forall j :: k < j < n - 1 && docs[j].key == key ==> ErrorAt(around, kind, docs, builds, j).None?;
        assert forall j :: k < j < n && docs[j].key == key ==> ErrorAt(around, kind, docs, builds, j).None?;
      }
    }
  }

  lemma {:induction false} NoBuildYet(builds: seq<Build>, n: nat)
    requires forall j :: 0 <= j < |builds| ==> builds[j].doc != n
    ensures BuildFor(builds, n).None?
  {
    if builds != [] {
      NoBuildYet(builds[..|builds| - 1], n);
    }
  }

  /** A later build changes nothing for the documents before. */
  lemma {:induction false} ErrorsKept(around: Surroundings, kind: Kind, docs: seq<Document>, builds: seq<Build>,
                                      b: Build, n: nat)
    requires n <= |docs| && b.doc >= n
    ensures ErrorsUpTo(around, kind, docs, builds + [b], n) == ErrorsUpTo(around, kind, docs, builds, n)
  {
    if n > 0 {
      ErrorsKept(around, kind, docs, builds, b, n - 1);
      assert (builds + [b])[..|builds|] == builds;
    }
  }

  ghost predicate Consistent(t: Totals, reading: Reading)
    reads t.dict.Values
  {
    && Dictionary(t.dict, reading)
    && t.parts == PartsOf(t.dict.Keys, reading)
  }

  lemma PartsOfUnion(a: set<string>, b: set<string>, reading: Reading)
    ensures PartsOf(a, reading) + PartsOf(b, reading) == PartsOf(a + b, reading)
  {
  }

  /** Parsing one book's materials and collecting what a human has to be asked. */
  method ParseBook(tables: seq<TableParseResults>, t: Totals, manual: Option<map<string, Match>>,
                   mappings: map<string, Match>, reading: Reading)
    returns (ok: bool, t': Totals, asked: bool)
    requires Consistent(t, reading)
    ensures ok <==> forall m :: m in Materials(tables) ==> reading(m).Some?
    ensures ok ==> Consistent(t', reading) && t'.dict.Keys == t.dict.Keys + Materials(tables)
    ensures ok ==> asked == (Asks(manual, mappings, t'.parts) != map[])
    ensures ok ==> t' == t.(dict := t'.dict, parts := t'.parts,
                            questions := t.questions + Asks(manual, mappings, t'.parts))
    ensures ok ==> NewEntries(t'.dict, Materials(tables), reading)
    ensures ok ==> forall m :: m in t'.dict ==> fresh(t'.dict[m]) || (m in t.dict && t'.dict[m] == t.dict[m])
  {
    var order := ToList(Materials(tables));
    var dict, parts;
    ok, dict, parts := ParseMaterials(reading, order, t.dict, t.parts);
    if !ok {
      return ok, t, false;
    }
    PartsOfUnion(t.dict.Keys, Materials(tables), reading);
    var local: Questions := map[];
    if manual.None? {
      local := FindQuestions(parts, mappings);
    }
    t' := t.(dict := dict, parts := parts, questions := t.questions + local);
    asked := local != map[];
  }

  lemma CoveredByMappings(t: Totals, mappings: map<string, Match>, reading: Reading)
    requires Consistent(t, reading) && QuestionsFor(t.parts, mappings) == map[]
    ensures forall m :: m in t.dict ==> Covered(m, reading, mappings)
  {
    forall m, p | m in t.dict && p in PartList(m, reading)
      ensures p in mappings
    {
      assert p in t.parts;
      assert p !in QuestionsFor(t.parts, mappings);
    }
  }

  lemma EntriesAnswered(dict: map<string, ParseResults>, materials: set<string>, reading: Reading,
                        table: map<string, Match>)
    requires Dictionary(dict, reading)
    requires forall m :: m in materials ==>
               m in dict && Covered(m, reading, table) && dict[m].matches == MapParts(PartList(m, reading), table)
    ensures Answered(materials, Elements(dict), reading, table)
  {
  }

  /** The exception that leaves the loop: a name that does not parse, or a part the human left out. */
  ghost predicate Trouble(m: string, manual: Option<map<string, Match>>, reading: Reading) {
    reading(m).None? || (manual.Some? && !Covered(m, reading, manual.value))
  }

  method SettleParts(tables: seq<TableParseResults>, t: Totals, manual: Option<map<string, Match>>,
                     mappings: map<string, Match>, reading: Reading)
    returns (raised: bool, t': Totals, asked: bool)
    requires Consistent(t, reading)
    modifies t.dict.Values`matches
    ensures raised <==> exists m :: m in t.dict.Keys + Materials(tables) && Trouble(m, manual, reading)
    ensures !raised ==> Consistent(t', reading) && t'.dict.Keys == t.dict.Keys + Materials(tables)
    ensures !raised ==> asked == (Asks(manual, mappings, t'.parts) != map[])
    ensures !raised ==> t' == t.(dict := t'.dict, parts := t'.parts,
                                 questions := t.questions + Asks(manual, mappings, t'.parts))
    ensures !raised && !asked ==> Answered(Materials(tables), Elements(t'.dict), reading, Table(manual, mappings))
    ensures !raised ==> forall m :: m in t'.dict ==> fresh(t'.dict[m]) || (m in t.dict && t'.dict[m] == t.dict[m])
  {
    var ok;
    ok, t', asked := ParseBook(tables, t, manual, mappings, reading);
    if !ok {
      ghost var m :| m in Materials(tables) && reading(m).None?;
      assert Trouble(m, manual, reading);
      raised := true;
      return;
    }
    raised := false;
    if !asked {
      if manual.None? {
        CoveredByMappings(t', mappings, reading);
      }
      ok := AppendMatches(t'.dict, Table(manual, mappings), reading);
      raised := !ok;
      if ok {
        EntriesAnswered(t'.dict, Materials(tables), reading, Table(manual, mappings));
      }
    }
  }

  // ---------- the whole loop ----------

  /** A document whose turn ends with a workbook being built. */
  ghost predicate Reaches(docs: seq<Document>, k: nat, manual: Option<map<string, Match>>, mappings: map<string, Match>,
                          reading: Reading)
    requires k < |docs|
  {
    docs[k].content.Sheets? && Asks(manual, mappings, PartsOf(MaterialsUpTo(docs, k + 1), reading)) == map[]
  }

  ghost predicate GoodBuild(b: Build, kind: Kind, around: Surroundings, docs: seq<Document>,
                            manual: Option<map<string, Match>>, mappings: map<string, Match>, reading: Reading)
  {
    && b.doc < |docs| && Reaches(docs, b.doc, manual, mappings, reading)
    && Answered(DocMaterials(docs[b.doc]), b.elements, reading, Table(manual, mappings))
    && b.stored == Stores(around, kind, docs, b.doc, b.elements)
  }

  /** The state of the loop after n documents. */
  ghost predicate LoopState(t: Totals, n: nat, kind: Kind, around: Surroundings, docs: seq<Document>,
                            manual: Option<map<string, Match>>, mappings: map<string, Match>, reading: Reading)
    requires n <= |docs|
    reads t.dict.Values
  {
    && Consistent(t, reading) && t.dict.Keys == MaterialsUpTo(docs, n)
    && t.questions == Asks(manual, mappings, t.parts)
    && BuildsOk(t, n, kind, around, docs, manual, mappings, reading)
    && t.errors == ErrorsUpTo(around, kind, docs, t.builds, n)
  }

  ghost predicate BuildsOk(t: Totals, n: nat, kind: Kind, around: Surroundings, docs: seq<Document>,
                           manual: Option<map<string, Match>>, mappings: map<string, Match>, reading: Reading)
    requires n <= |docs|
  {
    && (forall j :: 0 <= j < |t.builds| ==>
         t.builds[j].doc < n && GoodBuild(t.builds[j], kind, around, docs, manual, mappings, reading))
    && (forall k :: 0 <= k < n && Reaches(docs, k, manual, mappings, reading) ==>
         exists j :: 0 <= j < |t.builds| && t.builds[j].doc == k)
    && (t.stored <==> exists j :: 0 <= j < |t.builds| && t.builds[j].stored)
  }

  lemma QuestionsGrow(a: set<string>, b: set<string>, manual: Option<map<string, Match>>, mappings: map<string, Match>,
                      reading: Reading)
    requires a <= b
    ensures Asks(manual, mappings, PartsOf(a, reading)) + Asks(manual, mappings, PartsOf(b, reading))
            == Asks(manual, mappings, PartsOf(b, reading))
  {
  }

  lemma BuildsSkip(t: Totals, t': Totals, n: nat, kind: Kind, around: Surroundings, docs: seq<Document>,
                   manual: Option<map<string, Match>>, mappings: map<string, Match>, reading: Reading)
    requires n < |docs| && BuildsOk(t, n, kind, around, docs, manual, mappings, reading)
    requires t'.builds == t.builds && t'.stored == t.stored && !Reaches(docs, n, manual, mappings, reading)
    ensures BuildsOk(t', n + 1, kind, around, docs, manual, mappings, reading)
  {
  }

  lemma BuildsAdd(t: Totals, t': Totals, b: Build, n: nat, kind: Kind, around: Surroundings, docs: seq<Document>,
                  manual: Option<map<string, Match>>, mappings: map<string, Match>, reading: Reading)
    requires n < |docs| && BuildsOk(t, n, kind, around, docs, manual, mappings, reading)
    requires b.doc == n && GoodBuild(b, kind, around, docs, manual, mappings, reading)
    requires t'.builds == t.builds + [b] && t'.stored == (t.stored || b.stored)
    ensures BuildsOk(t', n + 1, kind, around, docs, manual, mappings, reading)
  {
    forall k | 0 <= k < n + 1 && Reaches(docs, k, manual, mappings, reading)
      ensures exists j :: 0 <= j < |t'.builds| && t'.builds[j].doc == k
    {
      if k == n {
        assert t'.builds[|t.builds|].doc == k;
      } else {
        var j :| 0 <= j < |t.builds| && t.builds[j].doc == k;
        assert t'.builds[j].doc == k;
      }
    }
    if t.stored {
      var j :| 0 <= j < |t.builds| && t.builds[j].stored;
      assert t'.builds[j].stored;
    }
    if b.stored {
      assert t'.builds[|t.builds|].stored;
    }
  }

  method ProcessSheets(n: nat, kind: Kind, around: Surroundings, docs: seq<Document>, t: Totals,
                       manual: Option<map<string, Match>>, mappings: map<string, Match>, reading: Reading)
    returns (raised: bool, t': Totals)
    requires n < |docs| && docs[n].content.Sheets? && LoopState(t, n, kind, around, docs, manual, mappings, reading)
    modifies t.dict.Values`matches
    ensures raised <==> exists m :: m in MaterialsUpTo(docs, n + 1) && Trouble(m, manual, reading)
    ensures !raised ==> LoopState(t', n + 1, kind, around, docs, manual, mappings, reading)
    ensures !raised ==> forall m :: m in t'.dict ==> fresh(t'.dict[m]) || (m in t.dict && t'.dict[m] == t.dict[m])
  {
    var asked;
    raised, t', asked := SettleParts(docs[n].content.tables, t, manual, mappings, reading);
    if raised {
      return;
    }
    QuestionsGrow(t.dict.Keys, t'.dict.Keys, manual, mappings, reading);
    assert t'.questions == Asks(manual, mappings, t'.parts) && t'.dict.Keys == MaterialsUpTo(docs, n + 1);
    if asked {
      BuildsSkip(t, t', n, kind, around, docs, manual, mappings, reading);
      NoBuildYet(t.builds, n);
      return;
    }
    t' := BuildBooks(n, kind, around, docs, t', manual, mappings, reading);
  }

  /** The workbooks of a document whose parts are settled. */
  method BuildBooks(n: nat, kind: Kind, around: Surroundings, docs: seq<Document>, t: Totals,
                    manual: Option<map<string, Match>>, mappings: map<string, Match>, reading: Reading)
    returns (t': Totals)
    requires n < |docs| && docs[n].content.Sheets? && Reaches(docs, n, manual, mappings, reading)
    requires BuildsOk(t, n, kind, around, docs, manual, mappings, reading)
    requires t.errors == ErrorsUpTo(around, kind, docs, t.builds, n)
    requires Answered(DocMaterials(docs[n]), Elements(t.dict), reading, Table(manual, mappings))
    ensures t' == t.(builds := t'.builds, stored := t'.stored, errors := t'.errors)
    ensures BuildsOk(t', n + 1, kind, around, docs, manual, mappings, reading)
    ensures t'.errors == ErrorsUpTo(around, kind, docs, t'.builds, n + 1)
  {
    var elements := Elements(t.dict);
    var stored, error := BuildAndStore(kind, around, docs, n, elements);
    var b := Build(n, elements, stored);
    t' := t.(builds := t.builds + [b], stored := t.stored || stored,
             errors := if error.Some? then t.errors[docs[n].key := error.value] else t.errors);
    BuildsAdd(t, t', b, n, kind, around, docs, manual, mappings, reading);
    ErrorsKept(around, kind, docs, t.builds, b, n);
  }

  /** No name of the first n documents raises. */
  ghost predicate Smooth(docs: seq<Document>, n: nat, manual: Option<map<string, Match>>, reading: Reading)
    requires n <= |docs|
  {
    forall m :: m in MaterialsUpTo(docs, n) ==> !Trouble(m, manual, reading)
  }

  method ProcessDocument(n: nat, kind: Kind, around: Surroundings, docs: seq<Document>, t: Totals,
                         manual: Option<map<string, Match>>, mappings: map<string, Match>, reading: Reading)
    returns (raised: bool, t': Totals)
    requires n < |docs| && LoopState(t, n, kind, around, docs, manual, mappings, reading)
    requires Smooth(docs, n, manual, reading)
    modifies t.dict.Values`matches
    ensures raised <==> !Smooth(docs, n + 1, manual, reading)
    ensures !raised ==> LoopState(t', n + 1, kind, around, docs, manual, mappings, reading)
    ensures !raised ==> forall m :: m in t'.dict ==> fresh(t'.dict[m]) || (m in t.dict && t'.dict[m] == t.dict[m])
  {
    if docs[n].content.Sheets? {
      raised, t' := ProcessSheets(n, kind, around, docs, t, manual, mappings, reading);
    } else {
      var error := ContentError(docs[n].content);
      raised, t' := false, t.(errors := t.errors[docs[n].key := error.value]);
      BuildsSkip(t, t', n, kind, around, docs, manual, mappings, reading);
    }
  }

  ghost predicate Unanswered(docs: seq<Document>, mappings: map<string, Match>, reading: Reading, part: string) {
    && part in PartsOf(MaterialsUpTo(docs, |docs|), reading)
    && (part !in mappings || mappings[part].blackListed)
  }

  /** The accumulators before the first document. */
  method NoTotals(kind: Kind, around: Surroundings, docs: seq<Document>,
                  manual: Option<map<string, Match>>, mappings: map<string, Match>, reading: Reading)
    returns (t: Totals)
    ensures t.dict == map[] && LoopState(t, 0, kind, around, docs, manual, mappings, reading)
  {
    t := Totals(map[], {}, map[], false, map[], []);
    assert PartsOf({}, reading) == {};
  }

  method RunDocuments(kind: Kind, around: Surroundings, docs: seq<Document>,
                      manual: Option<map<string, Match>>, mappings: map<string, Match>, reading: Reading)
    returns (raised: bool, t: Totals)
    ensures raised <==> !Smooth(docs, |docs|, manual, reading)
    ensures !raised ==> LoopState(t, |docs|, kind, around, docs, manual, mappings, reading)
  {
    t := NoTotals(kind, around, docs, manual, mappings, reading);
    for n := 0 to |docs|
      invariant LoopState(t, n, kind, around, docs, manual, mappings, reading)
      invariant Smooth(docs, n, manual, reading) && forall m :: m in t.dict ==> fresh(t.dict[m])
    {
      raised, t := ProcessDocument(n, kind, around, docs, t, manual, mappings, reading);
      if raised {
        MaterialsGrow(docs, n + 1, |docs|);
        return;
      }
    }
    raised := false;
  }

  /** The loop and the decision after it.
      Raised: some name does not parse or a part is missing from the human's answers, in any document.
      Otherwise: the questions are exactly the unsettled parts of everything parsed; with none, the task
      is completed iff some workbook was stored; every workbook was built from complete, right matches,
      and exactly the documents no question had come up by were built. */
  method ProcessDocuments(kind: Kind, around: Surroundings, docs: seq<Document>,
                          manual: Option<map<string, Match>>, mappings: map<string, Match>, reading: Reading)
    returns (outcome: Outcome, builds: seq<Build>)
    ensures outcome.Raised? <==> exists m :: m in MaterialsUpTo(docs, |docs|) && Trouble(m, manual, reading)
    ensures !outcome.Raised? ==>
              var parts := PartsOf(MaterialsUpTo(docs, |docs|), reading);
              && (outcome.Review? <==> Asks(manual, mappings, parts) != map[])
              && (outcome.Review? ==> outcome.questions == Asks(manual, mappings, parts))
              && (!outcome.Review? ==> (outcome.Completed? <==> exists j :: 0 <= j < |builds| && builds[j].stored))
              && (outcome.NothingStored? ==> outcome.errors == ErrorsUpTo(around, kind, docs, builds, |docs|))
              && (forall j :: 0 <= j < |builds| ==> GoodBuild(builds[j], kind, around, docs, manual, mappings, reading))
              && (forall k :: 0 <= k < |docs| && Reaches(docs, k, manual, mappings, reading) ==>
                    exists j :: 0 <= j < |builds| && builds[j].doc == k)
  {
    var raised, t := RunDocuments(kind, around, docs, manual, mappings, reading);
    if raised {
      return Raised, [];
    }
    builds := t.builds;
    if t.questions != map[] {
      outcome := Review(t.questions);
    } else if t.stored {
      outcome := Completed;
    } else {
      outcome := NothingStored(t.errors);
    }
  }

  lemma {:induction false} MaterialsGrow(docs: seq<Document>, n: nat, m: nat)
    requires n <= m <= |docs|
    ensures MaterialsUpTo(docs, n) <= MaterialsUpTo(docs, m)
    decreases m
  {
    if n < m {
      MaterialsGrow(docs, n, m - 1);
    }
  }

  /** With no human decision and every name readable, a human is asked iff some part of some parsed
      document is unknown or black-listed. */
  lemma AskedIffUnsettled(docs: seq<Document>, mappings: map<string, Match>, reading: Reading)
    ensures Asks(None, mappings, PartsOf(MaterialsUpTo(docs, |docs|), reading)) != map[]
            <==> exists p :: Unanswered(docs, mappings, reading, p)
    ensures forall p ::
              (p in Asks(None, mappings, PartsOf(MaterialsUpTo(docs, |docs|), reading)))
              == Unanswered(docs, mappings, reading, p)
  {
    var asks := Asks(None, mappings, PartsOf(MaterialsUpTo(docs, |docs|), reading));
    forall p
      ensures (p in asks) == Unanswered(docs, mappings, reading, p)
    {
    }
    if asks != map[] {
      var p :| p in asks;
      assert Unanswered(docs, mappings, reading, p);
    }
  }

  /** Once a document raises a question, no later document reaches the builders. */
  lemma NoBuildAfterQuestion(docs: seq<Document>, j: nat, k: nat, manual: Option<map<string, Match>>,
                             mappings: map<string, Match>, reading: Reading)
    requires j <= k < |docs| && docs[j].content.Sheets? && !Reaches(docs, j, manual, mappings, reading)
    ensures !Reaches(docs, k, manual, mappings, reading)
  {
    MaterialsGrow(docs, j + 1, k + 1);
    PartsOfUnion(MaterialsUpTo(docs, j + 1), MaterialsUpTo(docs, k + 1), reading);
    assert MaterialsUpTo(docs, j + 1) + MaterialsUpTo(docs, k + 1) == MaterialsUpTo(docs, k + 1);
    var early := Asks(manual, mappings, PartsOf(MaterialsUpTo(docs, j + 1), reading));
    var p :| p in early;
    assert p in Asks(manual, mappings, PartsOf(MaterialsUpTo(docs, k + 1), reading));
  }
}
