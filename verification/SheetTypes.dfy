/** The value a sheet parser hands on (TableParseResults of processors/table/table_processer.py). */
module SheetTypes {
  import opened Text

  datatype TableParseResults = TableParseResults(
    material: Option<seq<string>>,
    width: Option<seq<string>>,
    length: Option<seq<string>>,
    height: Option<seq<string>>,
    amount: Option<seq<string>>,
    barcode: Option<seq<string>>,
    marking: Option<seq<string>>,
    size: nat)
  {
    predicate IsEmpty() { size == 0 || material.None? }
  }

  const NO_RESULTS := TableParseResults(None, None, None, None, None, None, None, 0)
}
