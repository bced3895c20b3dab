# Order mail: verified models

Orders for glass units arrive by mail. A Go agent stores each message with its attachments and a task; a Python worker
classifies the mail, reads the attached sheets, splits every material formula into parts, looks the parts up and builds
workbooks; a web application lets people classify mails and answer questions about unknown parts; the agent also sends
replies. The Dafny files here model the five components of that system that carry state, recursion or concurrency, and
prove what they keep.

- **Material formulas** (`BracketWords`, `MaterialBlocks`, `MaterialTree`, `MaterialCut`, `MaterialRules`,
  `MaterialShapes` on values; `MaterialObjects`, `MaterialScanner`, `MaterialParser` as the objects and loops of the
  source). A formula is accepted exactly when it is a balanced word over three kinds of brackets; the blocks found form a
  forest whose levels are nesting depths; splitting and joining are inverse; no text is lost; the clean-up of the last
  part never fires; and which result a formula gets is stated on its text alone, for every formula.
- **Task lifecycle** (`TaskStore`, `Lifecycle`, `StaleReview`, `TaskOutcomes`, `TaskWorker`, `QueueDrain`,
  `DrainResults`, `DocumentLoop`). Every interleaving of mail inserts, worker writes and web requests, with the worker
  acting on stale snapshots; what each handler leaves in the database; the drain loop's termination, exceptions
  included, and what the drained queue holds; the loop over a task's documents; and `OrderProcessing`, where that loop
  gets the material parser and the workbook builders.
- **Sheets and workbooks** (`SheetLists`, `SheetTable`, `SheetParser`, `SheetColumns`, `SheetOrder`, `SheetMeaning`,
  `SheetReading`, `Workbooks`, `SheetToWorkbook`). The redundant indexes, header matching, why the order of columns is
  irrelevant, exactly which sheets are accepted and what is read from them, and where it lands in the workbooks.
- **Mail formats** (`LineEndings`, `Base64`, `MailMessage`, `MailReader`, `QuotedPrintable`). Round trips against
  RFC 5322, RFC 2045 and RFC 2046, through a reader that goes by the header fields it finds.
- **Supervisor and ingest** (`Supervisor`, `ObjectKeys`, `Ingest`, `IngestRows`). Goroutines and database transactions
  as interleaved steps: what can never happen, and what always can.

`dafny verify dfyconfig.toml` checks everything.

## Where the code and what one might expect of it differ

- A stored manual decision is not final. If the worker fetched the task before the decision was stored, it can put the
  task back into `materials_review` afterwards. `StaleReview.AskedAgainIffStale` gives the exact condition, and
  `StaleReview.DecisionLost` a run.
- A failing `batch_add` leaves the task where it was, so it is fetched again: `Lifecycle.GiveUpLoops`.
- Seven of the fifteen header variants can match no sheet, because header cells are compared in the order in which
  their types are merged: `SheetMeaning.DeadVariants`, `SheetMeaning.WhichAreDead`. So an accepted sheet always has
  widths, and either lengths or heights.
- `_remove_from_indexes` never removes a position from the type index: `SheetTable.Table.AddCell` states that the
  indexes stay in step with the cells exactly when the position is fresh. Every add in the repository is.
- `decodeQuotedPrintable` also undoes a soft line break at the very end of its input, and also takes `=_A` for the byte
  10, because an underscore may follow the prefix `0x` in `ParseUint` with base 0.
- A message body with a line that starts with the boundary delimiter is cut by a reader: `MailMessage.RecoveredIff`.
- `onExit` never forgets a user: a worker leaves its loop only after `shuttingDown` is set, so over the life of the
  process a user gets at most one worker.

## Model

| member | source | states |
|---|---|---|
| BracketWords.ClosedIffBalanced | processors/materials/parser.py:168-199 | the stack discipline accepts a text iff it is a word of the bracket grammar |
| BracketWords.SameBrackets | processors/materials/parser.py:168-169 | the scanner's bracket tables are those of the three pairs the grammar spells out |
| BracketWords.CutBalanced | processors/materials/parser.py:120-135 | cutting a balanced word at a delimiter outside all brackets leaves a balanced rest |
| BracketWords.StripKeepsBalance | processors/materials/parser.py:171 | stripping white space neither adds nor removes balance |
| MaterialBlocks.TopsMeaning | processors/materials/parser.py:192-196 | the positions recorded for a delimiter are exactly its occurrences outside every nested bracket, ascending |
| MaterialBlocks.ScanToOk | processors/materials/parser.py:179-196 | the scan survives exactly the prefixes the grammar machine survives, and then every open and closed block holds the level, text, own delimiters and majority delimiter it should |
| MaterialBlocks.TreeAccepts | processors/materials/parser.py:167-202 | a tree is returned iff the line is a balanced word, and then every block is a bracket pair of the line with its inner text, depth and own delimiters |
| MaterialTree.NestedOrDisjoint | processors/materials/parser.py:179-190 | two blocks of an accepted line are equal, disjoint, or one encloses the other on a lower level |
| MaterialTree.ScanLeavesNoGaps | processors/materials/parser.py:180-189 | at every point of the scan each opening bracket read so far has its block and each deeper block its parent |
| MaterialTree.TreeIsForest | processors/materials/parser.py:156-164 | the blocks of an accepted line form a forest: one block per opening bracket, each of level k+1 inside one of level k |
| MaterialTree.AncestorUnique | processors/materials/parser.py:156-164 | a block has at most one enclosing block per level, and only on lower levels |
| MaterialTree.AncestorExists | processors/materials/parser.py:156-164 | a block has an enclosing block on every lower level from 1 |
| MaterialTree.LevelIsDepth | processors/materials/parser.py:180-189 | a block's level is its nesting depth: enclosed exactly once on each level below its own and on no other |
| MaterialCut.PiecesMeaning | processors/materials/parser.py:120-135 | splitting gives count + 1 parts, each balanced and free of the delimiter at its own level, and joining them gives the text back |
| MaterialCut.SplitJoin | processors/materials/parser.py:120-135 | joining balanced parts free of the delimiter and splitting gives the same parts: the split is the only one |
| MaterialRules.TreeComplete | processors/materials/parser.py:167-202 | every block the rules look at has its end, its text and in-range delimiter positions, so no rule can raise |
| MaterialRules.FavouriteWins | processors/materials/parser.py:109-118 | the favourite delimiter is the one with most top-level occurrences, the first to reach that count on a tie; there is none iff no delimiter occurs |
| MaterialRules.WinnerUnique | processors/materials/parser.py:115-118 | the winning delimiter of a text is unique |
| MaterialRules.CutAtWinner | processors/materials/parser.py:318-327 | a line whose winner occurs at least twice outside brackets is cut at it, whatever the brackets hold |
| MaterialRules.PartsBalanced | processors/materials/parser.py:220-247 | every part returned for an accepted line is balanced by itself |
| MaterialRules.ParseLosesNothing | processors/materials/parser.py:304-344 | one of four shapes (the whole line; parts joined; one delimiter and postfix; prefix, bracket, parts, bracket, postfix) rebuilds the stripped line exactly |
| MaterialRules.NothingToClean | processors/materials/parser.py:282-302 | a balanced part has no closing round bracket before every opening one, so the clean-up finds nothing |
| MaterialShapes.FavouriteCount | processors/materials/parser.py:109-118 | for an accepted line exactly one number k is how often its favourite delimiter occurs outside brackets (0 without a delimiter) |
| MaterialShapes.PlainLine | processors/materials/parser.py:226-230 | no brackets and no delimiter: the result is the whole stripped line |
| MaterialShapes.HeadAndPostfix | processors/materials/parser.py:232-239 | no brackets and a favourite that occurs once: the text before it is the part, the text behind it the postfix |
| MaterialShapes.CutInBrackets | processors/materials/parser.py:249-256 | brackets, a favourite that occurs k <= 1 times outside them, and exactly one outermost pair whose text has a winner occurring more than k times and at least twice: prefix before the pair, parts cut from its text at that winner, postfix behind it |
| MaterialShapes.KeptWhole | processors/materials/parser.py:329-344 | brackets, k <= 1 and no such pair or several: the whole line as given |
| MaterialShapes.FinalFields | processors/materials/parser.py:346-384 | parse strips every part, prefix and postfix, and drops the last part iff it is blank |
| MaterialObjects.DelimetersList.Add | processors/materials/parser.py:28-30 | the count stays the number of recorded positions |
| MaterialObjects.Block.AddDelim | processors/materials/parser.py:109-118 | records the position and moves the favourite only when its count is exceeded; nothing else of the block changes |
| MaterialObjects.Block.SplitByDelim | processors/materials/parser.py:120-135 | raises iff the delimiter is unknown; otherwise cuts the text at the recorded positions shifted by the block's start |
| MaterialObjects.BlockLevels.AddBlock | processors/materials/parser.py:156-164 | the block is filed last on its level, nothing else moves, depth stays the largest level |
| MaterialScanner.Turn | processors/materials/parser.py:179-196 | one symbol changes the stack, the blocks and the levels as one step of the scan on values does |
| MaterialScanner.ScanLine | processors/materials/parser.py:179-196 | the loop over the symbols shows the scan of the whole line, or fails with it |
| MaterialScanner.SymbolsTree | processors/materials/parser.py:167-202 | the objects returned show the tree of the stripped line, and None (the exceptions) is returned iff there is none |
| MaterialScanner.NoWayBack | processors/materials/parser.py:184-191 | once the scan has raised no longer line is accepted |
| MaterialParser.ParserV2.NoBracketsRule | processors/materials/parser.py:220-247 | the result for a line without brackets, by the favourite's count |
| MaterialParser.ParserV2.FindCandidates | processors/materials/parser.py:249-256 | exactly the level-1 blocks with a count above 1 and above the line's, in order |
| MaterialParser.ParserV2.ChooseParts | processors/materials/parser.py:313-344 | the choice between cutting the line, cutting the one candidate and keeping the line |
| MaterialParser.ParserV2.ParseLine | processors/materials/parser.py:304-344 | raises iff the value-level parse does, and returns what it returns |
| MaterialParser.ParserV2.CleanLastPart | processors/materials/parser.py:282-302 | unchanged part and empty postfix unless a closing round bracket comes before every opening one; then the text is cut there |
| MaterialParser.ParserV2.CleanUp | processors/materials/parser.py:358-384 | on balanced parts: strip everything and drop a blank last part; the postfix is never overwritten |
| MaterialParser.ParserV2.Parse | processors/materials/parser.py:358-384 | raises iff the stripped line is unbalanced; otherwise the stripped parts of `_parse` minus a blank last one |
| TaskStore.UpsertMeaning | processors/database/repositories.py:95-102 | the table after batch_add is the one table in which every answered part has the new text where there is some, else the text it had, and the new flag, and no other row changed |
| TaskStore.UpsertTwice | processors/database/repositories.py:85-104 | adding the same answers again changes nothing |
| Lifecycle.PlanOk | processors/main.py:42-114 | every plan of writes a handler can choose from a usable snapshot keeps what the statuses promise |
| Lifecycle.StepInvariant | processors/main.py:497-541 | every mail insert, fetch, single database write, failure, restart and web request keeps the invariant on rows, snapshots and pending submissions |
| Lifecycle.RunInvariant | processors/main.py:511-556 | so does every run |
| Lifecycle.StatusPromises | frontend/mail-client/app/routers/queue.py:549-624 | in every reachable state: downloaded, files_saved and ml_processing never occur; ml_classified, materials_review and manual_review_done have an email decision; manual_review_done a non-empty manual decision; materials_review non-empty questions |
| Lifecycle.GiveUpLoops | processors/main.py:479-485 | a failing batch_add brings the whole system back to the state before the fetch |
| Lifecycle.DecideMeaning | frontend/mail-client/app/routers/queue.py:549-624 | after a decision by hand the task is in question iff that is the decision and pending otherwise, its email holds the decision, and no other row changes |
| Lifecycle.StoreMeaning | frontend/mail-client/app/routers/queue.py:699-743 | after answers are stored the task is pending in manual_review_done with exactly those answers, and nothing else changes |
| StaleReview.SettledForever | processors/main.py:189-218 | a decided task no stale snapshot threatens keeps its decision and never returns to materials_review, in every continuation |
| StaleReview.UndisturbedSubmissionSticks | frontend/mail-client/app/routers/queue.py:699-743 | a decision stored with nothing between its SELECT and its UPDATE is final in every later state of every run |
| StaleReview.AskedAgainIffStale | processors/database/repositories.py:307-325 | a decided task can come back to materials_review iff the worker holds a snapshot of it from before the decision |
| StaleReview.DecisionLost | processors/main.py:258-263 | a concrete run in which a stored decision is followed by materials_review |
| TaskWorker.Repositories.FetchPending | processors/database/repositories.py:307-325 | at most the limit of distinct pending tasks as they are, all of them when there are fewer than the limit, and nothing only when none is pending |
| TaskWorker.Repositories.BatchAdd | processors/database/repositories.py:85-104 | row by row: every answered part is present afterwards, target and article are the new text if there is some and the old otherwise, the flag is the new one, every other row and table is untouched |
| TaskOutcomes.ErrorIff | processors/main.py:42-114 | without an exception a handler leaves its task in error iff the email is missing, its class is unsupported, no answers were stored, or the document loop raised or stored nothing |
| TaskOutcomes.WhereTo | processors/main.py:458-494 | otherwise: new goes to ml_classified or ml_review with the email decided; an undecided task goes back to new; a question to question; answers to ml_classified; an order to materials_review or completed |
| TaskWorker.MailProcessor.ProcessNew | processors/main.py:42-76 | the email gets the verdict's class, or review below the threshold, and the task ml_classified or ml_review to match; error and one more retry without the email; nothing else changes |
| TaskWorker.MailProcessor.ProcessExcel | processors/main.py:117-274 | materials_review, with exactly the unsettled parts as questions, iff nothing raised and somebody must be asked; completed iff nothing raised, nobody must be asked and a workbook was stored; error and one more retry otherwise; the workbooks are those of the kind the email was decided to be |
| TaskWorker.MailProcessor.Conclude | processors/main.py:258-274 | each outcome of the document loop gets its row: raised or nothing stored error, review the questions, completed completed |
| TaskWorker.MailProcessor.ProcessClassified | processors/main.py:79-114 | the row for each decision: back to new without one, the order's outcome for request and calculation, question for question, error for any other or a missing email |
| TaskWorker.MailProcessor.ProcessManual | processors/main.py:458-487 | error without answers or email, back to new without a decision, else ml_classified with the answers merged into the mappings |
| TaskWorker.MailProcessor.ProcessSingleTask | processors/main.py:490-508 | each status with a handler leaves what that handler leaves, a status without one nothing; the writes are a plan |
| QueueDrain.RanksBound | processors/main.py:490-494 | at most two handler calls per task are possible |
| QueueDrain.HandlerLowers | processors/main.py:497-541 | every handler call on a fresh row strictly lowers the sum of ranks and touches no other task |
| QueueDrain.InterruptionLowers | processors/main.py:504-541 | wherever a handler raises among its writes, the except branch that catches it leaves the task in error, touches no other task and lowers the sum of ranks |
| QueueDrain.HandleTask | processors/main.py:524-541 | the body of the loop: without an exception the database is as the handler leaves it at its end, with one as its writes so far and those of the except branch leave it; either way the sum of ranks falls and only the task's row is touched |
| QueueDrain.HandleBatch | processors/main.py:524-541 | one such turn for each task of the batch, in order, from the database before to the one after |
| QueueDrain.DrainQueue | processors/main.py:518-541 | with nobody else writing the drain loop ends and leaves no task pending, by a log of right turns, whatever classifier, documents, builders and uploads do at each call and wherever handlers raise |
| DrainResults.DrainMeaning | processors/main.py:516-541 | when nothing raises: a task that was not pending is as it was; any other ends in error iff its last turn found it hopeless, else in ml_review, question, materials_review or completed; the email of every new task is decided |
| DocumentLoop.ParseMaterials | processors/main.py:180-186 | each material of the document gets a fresh, empty entry, also when already known; parts grow by exactly its parts |
| DocumentLoop.FindQuestions | processors/database/repositories.py:60-70 | the questions are exactly the parts without mapping or with a black-listed one |
| DocumentLoop.AppendMatches | processors/main.py:221-223 | every entry's matches grow by its parts' matches in order; a missing part raises |
| DocumentLoop.SettleParts | processors/main.py:179-223 | raises iff a name does not parse or the human left a part out; if it neither raises nor asks, every material of the document has matches equal to its parts mapped one to one |
| DocumentLoop.BuildAndStore | processors/main.py:225-256 | a document counts as stored iff every builder yields a workbook and every upload succeeds; the error recorded is that of a raising builder, else that of a missing workbook, else none |
| DocumentLoop.ErrorsMeaning | processors/main.py:135-170 | a file has an error at the end iff a document under its key left one, and it is that of the last such document |
| DocumentLoop.ProcessDocuments | processors/main.py:131-274 | raised, review with exactly the unsettled parts, completed iff something was stored, else exactly the errors the documents left; every workbook is built from complete and right matches, and exactly the documents without an earlier question are built |
| DocumentLoop.AskedIffUnsettled | processors/main.py:195-218 | without a manual decision a human is asked iff some part of a parsed document is unknown or black-listed, and about exactly those parts |
| DocumentLoop.NoBuildAfterQuestion | processors/main.py:212-219 | once a document raises a question no later document reaches the builders |
| OrderProcessing.ReadWithParser | processors/materials/parser.py:358-384 | the parser object computes the function from names to results that the document loop is given |
| OrderProcessing.TroubleIff | processors/main.py:180-223 | a name makes the handler raise iff its stripped brackets are unbalanced or a part of it is missing from the human's answers |
| OrderProcessing.BuildRequest | processors/table/table_processer.py:514-621 | the request builder raises, yields nothing or yields a workbook as the document loop takes it to |
| OrderProcessing.BuildCalculation | processors/table/table_processer.py:624-694 | so does the calculation builder, under the same conditions |
| OrderProcessing.BuiltRecordReady | processors/main.py:221-226 | every record of a document that is built has a known material with the matches of its own parts, so only a number can keep it from being placed |
| OrderProcessing.RaisesIffNumber | processors/main.py:225-236 | a builder raises on a document of the loop iff a number of it does not convert |
| OrderProcessing.TargetsOfParts | processors/table/table_processer.py:597-601 | columns 2 to 10 of record i show the targets of its material's parts, one to one and in order, and nothing behind them: those of the human's answers when there are any, whatever the mapping table holds |
| OrderProcessing.ArticlesOfParts | processors/table/table_processer.py:676-680 | columns 3 to 9 of the record's row in the calculation workbook show the articles of its material's parts likewise |
| OrderProcessing.ErrorWhen | processors/main.py:225-240 | the error a built document leaves is that of a number that does not convert, else that of having no row, else none |
| OrderProcessing.ProcessOrder | processors/main.py:117-274 | with parser and builders in place: raises iff a name is unbalanced or a part was left out; a built document is stored iff all its numbers convert, it has a row and its uploads succeed |
| SheetTable.IndexesShown | processors/table/table_processer.py:253-268 | after any sequence of fresh adds the row, column and type indexes and the row and column sets describe exactly the stored cells |
| SheetTable.RemovedShowsNothing | processors/table/table_processer.py:270-280 | after a KeyError in an overwrite the indexes describe no list of cells |
| SheetTable.OverwrittenShowsNothing | processors/table/table_processer.py:270-280 | after an overwrite the type index lists a position twice or under a lost type |
| SheetTable.Table.AddCell | processors/table/table_processer.py:253-268 | fails iff an occupied position gets a new type; the indexes stay in step iff the position is fresh |
| SheetTable.Table.GetByType | processors/table/table_processer.py:225-234 | a new table of exactly the cells of that type, in order |
| SheetTable.Table.Merge | processors/table/table_processer.py:282-284 | the other table's cells in order behind its own, with all indexes in step |
| SheetParser.HeadersFresh | processors/table/table_processer.py:428-430 | every add while merging header types goes to a fresh position |
| SheetParser.HeaderTable | processors/table/table_processer.py:428-430 | the header table holds the header cells type after type |
| SheetParser.MatchVariant | processors/table/table_processer.py:439-449 | a variant matches iff the type list of every header row equals it; the columns kept are those of the header cells |
| SheetParser.FindVariant | processors/table/table_processer.py:439-456 | finds a matching variant iff there is one |
| SheetParser.ReadRow | processors/table/table_processer.py:468-480 | a row is taken iff every header column has a cell of an allowed type |
| SheetParser.ReadRows | processors/table/table_processer.py:466-484 | every header's list holds the values of the good rows below the header, in order |
| SheetParser.ParseSheet | processors/table/table_processer.py:424-505 | the result is that of the specification on the list of cells |
| SheetColumns.OpenSheet | processors/table/table_processer.py:406-417 | the opened table shows every cell that has text, row by row, and no position is written twice |
| SheetColumns.CellsUpToMeaning | processors/table/table_processer.py:392-417 | a cell is in the list iff the grid has it at its position |
| SheetColumns.SameCount | processors/table/table_processer.py:225-234 | moving columns keeps the number of cells of each type in a row |
| SheetColumns.KeysDecide | processors/table/table_processer.py:443-446 | row order and row types of the header table depend on rows and types of its cells alone |
| SheetOrder.RowsInSheetOrder | processors/table/table_processer.py:245-247 | iter_rows of an opened sheet goes down the used rows of the sheet |
| SheetOrder.HeaderColumnMoves | processors/table/table_processer.py:447-448 | each header column moves with the permutation of the columns |
| SheetOrder.ColumnOrderIrrelevant | processors/table/table_processer.py:424-505 | permuting a sheet's columns changes neither its acceptance nor anything read from it |
| SheetMeaning.MatchMeaning | processors/table/table_processer.py:443-446 | a header row matches a variant iff the variant lists its types in merge order and the row has each of them once and no other |
| SheetMeaning.DeadVariants | processors/table/table_processer.py:287-315 | a variant whose columns are not in merge order matches no sheet |
| SheetMeaning.WhichAreDead | processors/table/table_processer.py:305-325 | which of the fifteen variants those are |
| SheetReading.LiveVariants | processors/table/table_processer.py:305-325 | every variant in merge order is the header of some accepted sheet |
| SheetReading.AcceptedIff | processors/table/table_processer.py:432-456 | a sheet is accepted iff it has a header and all rows with header cells hold one and the same live variant, in any column order |
| SheetReading.HeaderIsTopmost | processors/table/table_processer.py:462-464 | the header row chosen is the topmost row with a header cell |
| SheetReading.ResultMeaning | processors/table/table_processer.py:459-505 | the rows read are the admissible rows below the topmost header row, once each and in sheet order; all filled lists have length size, entry i of each from the same sheet row |
| SheetReading.OneDimensionMissing | processors/table/table_processer.py:459-505 | an accepted sheet has amounts and widths, and lengths or heights but not both |
| Workbooks.RequestRow | processors/table/table_processer.py:584-617 | the row's final cells: targets from column 2, the fixed columns over them; fails iff the material is unknown or a number does not convert |
| Workbooks.MakeRequest | processors/table/table_processer.py:514-621 | cell by cell: headings, then from row 3 one row per record and nothing else; raises iff some record cannot be placed, no workbook iff all sheets are left out |
| Workbooks.CalculationRow | processors/table/table_processer.py:669-690 | the row's final cells: articles from column 3, the fixed columns over them |
| Workbooks.CommasReplaced | processors/table/table_processer.py:603-605 | before conversion every comma of a number becomes a point and nothing else changes |
| Workbooks.MakeCalculation | processors/table/table_processer.py:624-694 | the records of all sheets one below the other from row 3, headings unharmed by being written again; raises iff some record cannot be placed |
| Workbooks.RecordPlace | processors/table/table_processer.py:669-690 | record i of sheet s stands in the row after all records of the sheets before |
| Workbooks.OwnRow | processors/table/table_processer.py:669-690 | different records stand in different rows |
| SheetToWorkbook.ParsedSheetFitsBuilders | processors/table/table_processer.py:562-579 | the builders find X and Y in every accepted sheet, never index past a list, and leave out exactly the empty ones |
| SheetToWorkbook.RecordsAreRows | processors/table/table_processer.py:584-596 | the builders' records are the admissible rows of the sheet, in order, field by field |
| SheetToWorkbook.RequestShowsTheRow | processors/table/table_processer.py:583-617 | row 3 + i of the workbook shows the i-th admissible row of the sheet: material in column 1, width in 11, height or length in 12, amount in 13, marking in 14, barcode in 16, postfix in 18 |
| SheetToWorkbook.CalculationShowsTheRow | processors/table/table_processer.py:669-690 | in the calculation workbook the row below those of the sheets before shows it: its place, amount in column 2, width in 10, height or length in 11 |
| LineEndings.NormalizedJoinsLines | mail/internal/smtp/client.go:276-278 | the three passes equal a single pass and yield the lines joined by CR LF |
| LineEndings.LinesKept | mail/internal/smtp/client.go:192-194 | the rewrite keeps the sequence of lines and is idempotent |
| LineEndings.NormalizedHasOnlyPairs | mail/internal/smtp/client.go:276-278 | afterwards CR and LF occur only as CR LF (section 2.3 of RFC 5322) |
| LineEndings.NormalizedIff | mail/internal/smtp/client.go:276-278 | a text is left alone iff it already has that form |
| Base64.DecodeEncode | mail/internal/smtp/client.go:305-306 | decoding the base64 form gives back every byte sequence (section 6.8 of RFC 2045) |
| Base64.TestVectors | mail/internal/smtp/client.go:305-306 | the encoding gives the test vectors of section 10 of RFC 4648 |
| Base64.GroupIsNumber | mail/internal/smtp/client.go:305-306 | the four digits of a full group, read as a number, are its three bytes |
| Base64.ChunksFit | mail/internal/smtp/client.go:320-327 | no line is empty or longer than 76 characters |
| Base64.WriteLines | mail/internal/smtp/client.go:320-327 | the loop writes the lines of 76, each with its CR LF |
| MailMessage.WritePart | mail/internal/smtp/client.go:287-327 | one attachment: delimiter, header lines, empty line, base64 lines |
| MailMessage.WriteMessage | mail/internal/smtp/client.go:276-332 | the whole body as its lines, each ended by CR LF |
| MailMessage.RecoveredIff | mail/internal/smtp/client.go:276-332 | a reader following section 5.1.1 of RFC 2046 gets back exactly the text part and every attachment part iff no line of the body starts with the delimiter |
| MailMessage.AttachmentRecovered | mail/internal/smtp/client.go:305-327 | undoing the base64 lines of a part gives the attachment's bytes, also when there are none |
| MailReader.RoundTrip | mail/internal/smtp/client.go:276-332 | a reader that goes by the header fields it finds gets back 1 + n parts: the text as UTF-8 plain text with the lines of the body, and every attachment with its bytes, its name in the disposition and its type |
| MailReader.FileFields | mail/internal/smtp/client.go:311-318 | what a reader finds in an attachment's header: base64, the file name, the type |
| QuotedPrintable.DecodeQuotedPrintable | mail/internal/parser/email.go:187-207 | the loop computes the decoding of its whole input and ends |
| QuotedPrintable.NeverLonger | mail/internal/parser/email.go:187-207 | the output is never longer than the input |
| QuotedPrintable.DecodesEveryEncoder | mail/internal/parser/email.go:187-207 | decoding inverts every output made of plain bytes other than '=', escapes in either case, and soft line breaks anywhere (section 6.7 of RFC 2045) |
| QuotedPrintable.EncoderInverted | mail/internal/parser/email.go:187-207 | in particular the encoder that escapes '=' and any chosen bytes and breaks lines at any chosen places, the end included |
| QuotedPrintable.UnchangedIff | mail/internal/parser/email.go:187-207 | a text is left alone iff it has neither a soft break nor an escape |
| Supervisor.StepKeeps | mail/cmd/mail-agent/main.go:191-234 | every step of main and of every worker keeps the invariant on flags, wait group, users and connections |
| Supervisor.Promises | mail/cmd/mail-agent/main.go:186-234 | in every reachable state no user has two workers over the whole life of the process, no worker two connections, and the wait group is launched minus finished plus the one announced |
| Supervisor.EveryUserServed | mail/cmd/mail-agent/main.go:191-234 | when a scan over the discovered users ends, every one of them has a worker, whatever the workers did meanwhile |
| Supervisor.ScanNeverStuck | mail/cmd/mail-agent/main.go:200-233 | a scan always gets to its end by steps of main |
| Supervisor.ActiveHaveWorkers | mail/cmd/mail-agent/main.go:211 | in every reachable state outside a launch, the users marked as running are exactly those with a worker |
| Supervisor.ClientCounts | mail/cmd/mail-agent/worker.go:83-99 | over any run a worker has a client exactly when it has connected once more than it has reset |
| Supervisor.NothingStartsAfterShutdown | mail/cmd/mail-agent/main.go:200-226 | once shuttingDown is set nothing is launched, and no user is ever forgotten |
| Supervisor.AllDoneAtReturn | mail/cmd/mail-agent/main.go:254-269 | when main returns every worker has finished and its connection is closed |
| Supervisor.ShutdownNeverStuck | mail/cmd/mail-agent/main.go:254-269 | from the signal until main returns some step of main or of a worker is enabled that brings the end nearer |
| ObjectKeys.KeyInjective | mail/internal/storage/repo.go:259 | two attachments share an object key only if user, uid, index and name agree |
| ObjectKeys.KeyExample | mail/internal/storage/repo.go:259 | the first file of message 90 of user 1 has the key 1/90/1_name |
| Ingest.UpsertKeeps | mail/storage/api/repo.go:138-188 | an upsert never takes another open transaction's row and never makes a second row of a message |
| Ingest.CommitKeeps | mail/internal/storage/repo.go:300-302 | a commit keeps rows unique, counts right, references sound and the other transactions valid |
| Ingest.StepKeeps | mail/internal/storage/repo.go:224-304 | so does every step, errors and crashes included |
| Ingest.Promises | storage/init/01-schema.sql:70 | after any run: one email row per mailbox and uid, tasks per email = committed saves, documents per email = files committed, an object for every document row, no dangling reference |
| Ingest.ObjectOfDocument | mail/internal/storage/repo.go:255-272 | the object under a document's key was put there by a save of that document's message: same uid, a user of the same mailbox, same place and same name |
| Ingest.RowsStay | mail/internal/storage/repo.go:228-232 | no step takes a committed row away, and only a commit adds any |
| Ingest.SaveNeverStuck | mail/internal/storage/repo.go:224-304 | an open transaction that waits for no other can always go on and gets to its commit |
| IngestRows.CommitRows | mail/internal/storage/repo.go:253-295 | a commit adds one document row for each file of its message, in order, with its name, size and key, and no other, and a task that points to the row of the first file, or to none without files |
| IngestRows.TaskPointsToFirst | mail/internal/storage/repo.go:276-295 | after any run the document a task points to is of the task's email and its object was the first of a save |

## Left out

- DocumentLoop.ProcessDocuments: takes parser, builders and uploads as parameters; `OrderProcessing.ProcessOrder` puts the parser and the builders in. One loop stands for the request and the calculation variant, which differ in the second workbook only. An exception of the object store or of saving a workbook into bytes is not a branch here; in the drain it is one of the places where a handler raises.
- Lifecycle.StatusPromises: the decision endpoint is restricted to the statuses the page sends and taken as one step; a manual decision is two, its SELECT and its UPDATE. Which of the pending tasks a fetch picks is left open, so the order by creation time is not modelled. Messages of errors, timestamps and `assigned_to` are not part of a task here.
- QueueDrain.DrainQueue: with web requests during the drain, with a failing `batch_add`, or with a database in which the error itself cannot be written, the loop need not end; `Lifecycle.GiveUpLoops` shows the second. The outer polling loop never ends and only sleeps; it is not modelled.
- SheetColumns.OpenSheet: openpyxl and xlrd are a grid of values; the cell classifier (regular expressions and fuzzy matching) is a function of the cleaned text; a classifier that fails is not modelled.
- Workbooks.MakeRequest: a workbook sheet is a map from row and column to value; the texts of the headings are a parameter confined to rows 1 and 2; merged cells, heights and styles are left out. `int(float(...))` is a partial function of the text. The lists of a sheet are taken to have its size, which `SheetToWorkbook.ParsedSheetFitsBuilders` proves of everything the parser returns.
- MailReader.RoundTrip: the reader takes field names as written, in upper and lower case, and unfolds no lines; it knows the two transfer encodings the mailer writes.
- MailMessage.WriteMessage: the header fields before the body are one text; TrimSpace, the %q format, content types by name or content and header word encoding are parameters.
- MailMessage.RecoveredIff: asks for part header lines without line breaks; a content type given with a line break in it would need a reader of its own.
- Supervisor.Promises: discovery failing, token refresh and the network are the absence of a step; a panic ends the process and is not a step.
- Ingest.Promises: the object store holds whatever was uploaded last under a key; a repeated save of a changed message overwrites the earlier file. Looking up the user's mail address is part of the first step.
- `_clean_p1` and the commented-out clean-up of the first part.
- `ProcessEmails`: a message whose save failed is still marked read, so delivery of every message is not promised; the loop itself adds no further property.
- IMAP, SMTP, OAuth, MinIO and PostgreSQL on the wire; sessions, templates and browser code; archive and read flags; listing of queues.
- The classifier of mails, its features and thresholds.
- Charset decoding, HTML text extraction, the header decoder and `cleanBodyText`.
