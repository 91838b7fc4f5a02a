# ITSM_RAG decision logic, modelled in Dafny

ITSM_RAG is an IT service management assistant. It ingests an incident
export into a vector index and answers questions about incidents through a
retrieval-augmented language-model chain. It browses and validates a status
table kept on a Confluence page, and it shows a ServiceNow incident list in
a Streamlit page. This project models the rules the system applies around
those services. The services themselves are parameters (oracles): the vector
index, the language-model chain, the HTTP endpoints, the Confluence client,
the clock, JSON decoding and the console input.

Modules, one per source file of the core:

- `VectorStore` and `IncidentTokens` (vector_store.py). The retriever picks
  one of three strategies from its mode: `incident_number`, `mmr_only` or
  `general`. It records every index call it issues. `IncidentTokens` is the
  `INC` + digits scanner, shared with the answer composer.
- `RagChain` and `Documents` (rag_chain.py). The answer composer coerces
  retrieved items into documents, drops empty ones, re-filters them to the
  queried incidents and shapes the chain's reply. `query_rag_chain` guards
  the query and shapes the result.
- `DataLoader` (data_loader.py). Ingestion: text templates, de-duplication,
  positional slicing around the trailing count, and typed metadata.
- `ConfluenceRows` and `ConfluenceTable` (confluence_table.py). Row
  building, the in-place `update_cell` with its three rejections, and the
  regeneration of the table HTML in `save_changes`. Both splice their text
  in with `re.sub`, which reads the text as a template: `ReTemplate`
  models how Python compiles and expands it, and where it raises.
- `ValidationRun` and `IncidentValidation` (validate_incidents.py). The
  validation loop over the table and the status text written back.
- `ResponseChecks`, `UrlValidator` and `AsyncUrlValidator`
  (url_validator.py, async_url_validator.py). The prechecks, the routing by
  type, the checks over parsed JSON responses, and the chunked
  `validate_urls` loop, run sequentially.
- `IncidentService` and `Sorting` (incident_service.py). `format_incidents`
  and Python's stable descending sort.
- `ChatUi` (chat_ui.py). Pagination state, answer-text clean-up and the
  update options.
- `Browser` (app.py). The `interactive_mode` page-navigation loop.
- `Common`, `PyValues` and `Text` are shared. They hold Python exceptions as
  values, JSON-like values, and the `str` operations the code uses.

Where the source works by changing state step by step, the model does the
same: a class with fields and `modifies` clauses, or a method with a loop.
Each such method is proved equal to a specification function. The
properties are proved about those functions.

## Model

| member | source | states |
|---|---|---|
| ConfluenceRows.ColumnNames | confluence_table.py:54-63 | one column name per header cell, each with its tags removed, stripped and lower-cased (the clean-up applied twice, as written), so every name is already lower-case |
| ConfluenceRows.RowDataKeys | confluence_table.py:85-95 | a row's `data` has exactly one key per mapped column name among its cells |
| ConfluenceRows.RowDataLastWins | confluence_table.py:91-95 | when two columns share a name, `data` keeps the cleaned text of the rightmost one |
| ConfluenceRows.RowCellsEntries | confluence_table.py:91-98 | the `cell_{c}` entries exist exactly for the mapped columns the row has, each holding the raw cell content |
| ConfluenceRows.BuildRows | confluence_table.py:74-100 | the rows built from the first `n` `<tr>` elements number at most `n` |
| ConfluenceRows.BuildRowsSource | confluence_table.py:77-89 | every built row comes from a `<tr>` after the header that has `<td>` cells, and is built from that row's own cells |
| ConfluenceRows.BuildRowsOrdered | confluence_table.py:74-100 | the rows keep the page's order |
| ConfluenceRows.BuildRowsComplete | confluence_table.py:77-100 | every `<tr>` after the header that has cells gives a row (nothing is dropped) |
| ConfluenceRows.LoadedCell | confluence_table.py:91-98 | in a loaded row, `data` under a column's name holds that cell's cleaned text and `cell_{c}` holds its raw content |
| ConfluenceRows.DataOf | confluence_table.py:102 | the returned list is each row's `data`, index-aligned with `table_data` |
| ConfluenceRows.ColumnIndex | confluence_table.py:127-133 | the first mapped column whose name equals the requested one ignoring case; `None` exactly when no column matches |
| ConfluenceRows.ParaClose | confluence_table.py:149 | where `.*?</p>` ends: the first `</p>` reached before any newline, `None` when a newline comes first |
| ConfluenceRows.FirstPara | confluence_table.py:149 | the leftmost position where `<p>.*?</p>` matches, or `None` when it matches nowhere |
| ConfluenceRows.ReplaceFirstPara | confluence_table.py:149 | `re.sub` raises exactly when its template does not compile, with or without a paragraph to replace; a cell without a matching paragraph is otherwise unchanged |
| ConfluenceRows.ReplaceFirstParaPlacesRep | confluence_table.py:149 | the expanded template lands where the first paragraph started and the text before it is kept; a template without backslashes lands there as written |
| ConfluenceRows.ParagraphHasTag | confluence_table.py:148-149 | a matching paragraph implies the content contains `<p>` |
| ConfluenceRows.NewCellContent | confluence_table.py:146-151 | content without `<p>` becomes `<p>v</p>`; content with `<p>` raises exactly when the template `<p>v</p>` does not compile; a value without backslashes never raises, and with a matching paragraph the content keeps its prefix and gains `<p>v</p>`; a `<p>` whose `</p>` is not on its line leaves the content unchanged |
| ConfluenceRows.WindowsPathCellFails | confluence_table.py:146-161 | updating the paragraph `<p>old</p>` with `C:\data` raises on the `\d` escape, so the update fails |
| ConfluenceRows.Update | confluence_table.py:120-161 | succeeds exactly for an existing row, a column found ignoring case, a row holding that cell and a new value the template accepts (always, for a value without backslashes); then only the target row changes, and in it only the raw cell and the lower-cased `data` key |
| ReTemplate.ZeroEscapeEnd | confluence_table.py:149 | a `\0` escape takes at most two more octal digits |
| ReTemplate.OctalValue | confluence_table.py:149 | the value of `n` octal digits is below `8^n`, so an escape's character always exists |
| ReTemplate.GroupZeroEnd | confluence_table.py:149 | a `\g<...>` reference that compiles ends after its `>` and is at least five characters long |
| ReTemplate.LiteralTemplate | confluence_table.py:149 | a template without backslashes compiles and inserts itself, whatever it replaces |
| ReTemplate.CompileConcat | confluence_table.py:149 | text without backslashes in front of a template changes neither whether it compiles nor what follows in its expansion |
| ReTemplate.NoBackslashConcat | confluence_table.py:149 | a concatenation is free of backslashes exactly when both parts are |
| ReTemplate.UnknownEscapeRaises | confluence_table.py:149 | an unknown letter escape makes the whole template raise, whatever surrounds it |
| ReTemplate.WindowsPathRaises | confluence_table.py:149 | the template `<p>C:\data</p>` raises |
| ReTemplate.NewlineEscape | confluence_table.py:149 | `\n` in a template inserts a newline |
| ReTemplate.WholeMatchReference | confluence_table.py:149 | `\g<0>` inserts the matched text |
| ConfluenceRows.ParaEnd | confluence_table.py:149 | a matched paragraph spans at least `<p></p>` and ends inside the content |
| ConfluenceRows.TableEnd | confluence_table.py:201-207 | a matched table spans at least `<table></table>` and ends inside the page |
| ConfluenceRows.HeaderCells | confluence_table.py:175-179 | one `<th>` per mapped column, in column order |
| ConfluenceRows.DataCells | confluence_table.py:183-193 | one `<td>` per mapped column, in column order |
| ConfluenceRows.RowsHtml | confluence_table.py:181-194 | one `<tr>` per entry of `table_data`, in order |
| ConfluenceRows.FirstTable | confluence_table.py:201-207 | the leftmost position where `<table.*?>.*?</table>` matches, or `None` |
| ConfluenceRows.ReplaceFirstTable | confluence_table.py:201-207 | `re.sub` raises exactly when the rebuilt table does not compile as a template, table or no table; a page without a table is otherwise unchanged; a page with one contains the expanded template, and the table itself when it has no backslashes |
| ConfluenceRows.CellBodyIsParagraph | confluence_table.py:185-193 | every emitted cell body starts with `<p>` once stripped, whether it was stored, wrapped or missing |
| ConfluenceRows.WrapIdempotent | confluence_table.py:188-190 | wrapping an already wrapped cell does not wrap it again |
| ConfluenceRows.UpdateThenRender | confluence_table.py:146-194 | after an update of a cell without `<p>`, that cell renders as `<td><p>v</p></td>` and every other row renders as before |
| ConfluenceRows.LoadRows | confluence_table.py:74-100 | the row loop builds exactly `BuildRows` over all `<tr>` elements |
| ConfluenceRows.MappedCells | confluence_table.py:91-98 | the cell loop builds exactly `RowData` and `RowCells` for the row |
| ConfluenceRows.RenderHeader | confluence_table.py:175-179 | the header loop builds the header row of the table the page receives |
| ConfluenceRows.RenderRow | confluence_table.py:182-194 | the cell loop builds one data row of that table |
| ConfluenceTable.Table.constructor | confluence_table.py:17-23 | a new table has the page id, an empty page body, no columns and no rows |
| ConfluenceTable.Table.LoadTable | confluence_table.py:25-106 | a parsed table sets the column mapping and the rows from the split table and returns their `data`; a page without a table or header row returns `[]` and keeps the previous mapping and rows |
| ConfluenceTable.Table.UpdateCell | confluence_table.py:108-161 | `ok` is false and nothing changes exactly when `Update` rejects the request, a template that raises included; otherwise the rows become its result |
| ConfluenceTable.Table.RenderTable | confluence_table.py:170-195 | the table HTML built from the current mapping and rows |
| ConfluenceTable.Table.SaveChanges | confluence_table.py:163-229 | when the rebuilt table raises as a template nothing is written and the answer is false; otherwise the body sent replaces only the first table of the stored page, and `ok` exactly when the write returned a page; a table without backslashes is always written and occurs in the body |
| ValidationRun.Validate | validate_incidents.py:58-94 | a row without a non-empty `url` and `type` is `Skipped` with `Missing URL or type`; a row counts as valid only when it is complete and the URL validator returned a valid result |
| ValidationRun.RaisedIsError | validate_incidents.py:88-94 | an exception raised by the validator is written as `Error` / `Validation failed: <message>` and is not a success |
| ValidationRun.ProcessedCount | validate_incidents.py:51-55 | the loop processes rows up to the first index where `max_incidents and i > max_incidents` breaks it, or all rows |
| ValidationRun.StopsAtProcessedCount | validate_incidents.py:53-55 | the first breaking index (or the end) is exactly the number of rows processed |
| ValidationRun.ProcessedCountCases | validate_incidents.py:50-55 | no limit or a limit of 0 processes every row; a negative limit processes none; a positive limit processes `min(limit, n)` |
| ValidationRun.StatusLineTwoSpaces | validate_incidents.py:123-139 | for an existing row the status and the parenthesised timestamp are two spaces apart, followed by ` - details` only when there are details |
| ValidationRun.UpdateOrKeep | confluence_table.py:108-161 | an update attempt never changes the number of rows |
| ValidationRun.Sweep | validate_incidents.py:98-103 | updating a column row by row never changes the number of rows |
| ValidationRun.UpdateOrKeepAt | confluence_table.py:120-157 | an update of row `r` depends on that row alone and leaves every other row unchanged |
| ValidationRun.RowAfterCell | confluence_table.py:140-161 | a row with a cell for the column, whose new content the template accepts, gets the new value under the lower-cased name and keeps every other entry; a row without one, or whose template raises, is unchanged; a value without backslashes is always written |
| ValidationRun.SweepRow | validate_incidents.py:53-103 | after a row-by-row sweep, row `k` is what the `k`-th update alone makes of it, or as loaded when the sweep stopped before it |
| ValidationRun.StatusLines | validate_incidents.py:77-81 | the status text for row `k` is built from that row's outcome and its own clock reading |
| ValidationRun.Verdicts | validate_incidents.py:83-84 | entry `k` is whether row `k` validated successfully |
| ValidationRun.CountTrue | validate_incidents.py:50-84 | the count of successes among `n` rows is at most `n` |
| ValidationRun.CountTrueIsCardinality | validate_incidents.py:83-84 | the success counter equals the number of processed positions whose verdict is valid |
| ValidationRun.SuccessesCounted | validate_incidents.py:50-94 | the counter equals the number of processed rows that validated, and every counted row had a URL and a type |
| ValidationRun.Stamps | validate_incidents.py:97-103 | every row receives the same timestamp |
| ValidationRun.RunRows | validate_incidents.py:36-103 | the run keeps the number of rows |
| ValidationRun.TwoSweeps | validate_incidents.py:53-103 | after the status sweep and the timestamp sweep over different columns, a reached row whose cell accepts its status text holds it, any other row keeps its status, and a row whose stamp cell accepts the timestamp holds it |
| ValidationRun.RunColumnsDistinct | validate_incidents.py:97-146 | the status column and the timestamp column are different columns once lower-cased |
| ValidationRun.RunRowWritten | validate_incidents.py:53-146 | after a run, a processed row with a status cell shows `<status>  (<its clock reading>)[ - details]` (always when the line has no backslash), or keeps its old status when that line raises as a template; a row with a stamp cell that accepts it shows the timestamp read after the loop |
| ValidationRun.RunRowUnreached | validate_incidents.py:53-55 | a row the loop did not reach keeps its status text |
| IncidentValidation.IncidentValidator.constructor | validate_incidents.py:29-34 | a new validator owns a fresh, empty table for its page |
| IncidentValidation.IncidentValidator.UpdateIncidentStatus | validate_incidents.py:119-146 | writes the status line (with the extra space for an existing row) into the `status` cell; `ok` exactly when the cell update succeeds; nothing else changes |
| IncidentValidation.IncidentValidator.ProcessRow | validate_incidents.py:58-94 | returns the row's verdict and writes its outcome into its status cell |
| IncidentValidation.IncidentValidator.ValidateRows | validate_incidents.py:50-94 | processes exactly `ProcessedCount` rows, each row's status becoming its own outcome, and counts exactly the valid ones |
| IncidentValidation.IncidentValidator.StampRows | validate_incidents.py:97-103 | every row's stamp cell receives the same timestamp |
| IncidentValidation.IncidentValidator.RunValidation | validate_incidents.py:36-117 | a page that fails to load or has no rows gives `False` and writes nothing; otherwise the rows become `RunRows`, the success count is the number of valid processed rows, the body is the page with its first table replaced by the rebuilt one, or none when the rebuilt table raises as a template, and the answer is whether a body was written and the write returned a page |
| PyValues.QuoteFor | url_validator.py:109 | `repr` of a string uses double quotes exactly when the text holds a single quote and no double quote |
| PyValues.StrRepr | url_validator.py:109 | `repr` of a string starts and ends with the quote it picks |
| PyValues.Hex | url_validator.py:109 | a `\x`, `\u` or `\U` escape's lower-case hex digits read back as the code point they encode |
| PyValues.StrReprRoundTrip | url_validator.py:109 | between its quotes, `repr(s)` reads back as `s` under Python's string-literal escapes, so no two strings share a `repr` |
| PyValues.EscapedPrintable | url_validator.py:109 | every character `repr` writes inside the quotes is printable: backslashes and the quote are escaped, tab, newline and carriage return by name, other unprintable characters as `\x`, `\u` or `\U` codes |
| PyValues.StrReprPlain | url_validator.py:109 | printable text without a single quote or backslash is only wrapped in single quotes |
| ResponseChecks.Precheck | url_validator.py:29-42 | a blank URL (empty once stripped) is `Missing URL` / `URL is empty`; the URL passes exactly when it is not blank and starts with `http://` or `https://` |
| ResponseChecks.SeparatorUrlIsBlank | url_validator.py:29-33 | a URL made of the separators 0x1C to 0x1F and spaces is blank, since `str.strip` removes them |
| ResponseChecks.Route | url_validator.py:45-53 | `coveragev3` in the lower-cased type routes to the coverage check, else `memberv3` to the member check, else `accums` to the accums check; anything else is generic |
| ResponseChecks.EmptyTypeIsGeneric | url_validator.py:45-53 | a missing or empty type is validated the generic way |
| ResponseChecks.ScanFirst | url_validator.py:119-124 | a flag loop passes exactly when every item passes, and otherwise takes the outcome of the first item that raises or sets the flag |
| ResponseChecks.FirstStop | url_validator.py:119-124 | the flag loop with `break` computes exactly that scan |
| ResponseChecks.ListField | url_validator.py:120-132 | the loop sees the list under `key`, or nothing when the key is missing or does not hold a list |
| ResponseChecks.MridProbeOnDicts | url_validator.py:122-124 | a coverage with a dictionary business identifier passes exactly when `masterRecordID` is in it |
| ResponseChecks.MridProbeMissing | url_validator.py:122-124 | a coverage without `businessIdentifier` sets `mrid_missing` |
| ResponseChecks.ActiveProbeOnPeriod | url_validator.py:133-144 | a coverage with a parsable period is active exactly when start ≤ today ≤ end |
| ResponseChecks.CoverageFinding | url_validator.py:108-156 | a response whose `str()` text, with its strings written as `repr` writes them, mentions `error` fails with `failure from coverage API`; otherwise a completed check reports `Coverage validation completed` |
| ResponseChecks.ScanFoundIff | url_validator.py:129-144 | a scan that does not raise finds something exactly when some item hits |
| ResponseChecks.ActiveScan | url_validator.py:129-144 | the active-coverage loop sets its flag exactly when some coverage is active today |
| ResponseChecks.CoverageValidIff | url_validator.py:152 | a completed coverage check is valid exactly when every coverage has a master record id and some coverage is active today |
| ResponseChecks.CoverageStatus | url_validator.py:116-149 | the status joins `success calling coverage API`, the mrid flag and the active-coverage flag with ` \| ` |
| ResponseChecks.NoCoveragesInvalid | url_validator.py:119-152 | no coverage list, or an empty one, completes the check as invalid (no active coverage) |
| ResponseChecks.CheckCoverage | url_validator.py:108-156 | the two flag loops compute exactly `CoverageFinding` |
| ResponseChecks.MemberProbeOnDict | url_validator.py:203-206 | a dictionary member passes exactly when its `masterRecordID` is present and truthy |
| ResponseChecks.MemberFinding | url_validator.py:190-218 | a response whose `str()` text, with its strings written as `repr` writes them, mentions `error` fails with `failure from member API`; otherwise a completed check reports `Member validation completed` |
| ResponseChecks.EscapedErrorMentioned | url_validator.py:191-197 | a string holding a control character whose `\xNN` escape ends in `e`, then `rror`, does not itself mention `error`, yet inside a dictionary it makes `str(response).lower()` mention it, and both the member and the coverage checks fail |
| ResponseChecks.MemberValidIff | url_validator.py:201-214 | a completed member check is valid exactly when every member passes; no `members` list is valid |
| ResponseChecks.CheckMember | url_validator.py:190-218 | the flag loop computes exactly `MemberFinding` |
| ResponseChecks.AmountProbeOnDict | url_validator.py:280-293 | a dictionary entry passes exactly when it has both `remainingAmount` and `amount` |
| ResponseChecks.AccumsFinding | url_validator.py:252-308 | a failure carries the first operation-outcome detail text that mentions `error`; a completed check found no such text and reports `Accums validation completed` |
| ResponseChecks.AccumsValidIff | url_validator.py:269-304 | a completed accums check is valid exactly when no plan benefit misses an amount |
| ResponseChecks.PlanProbeMaximums | url_validator.py:275-282 | a plan benefit whose benefit maximums include an entry without `amount` fails the amount check |
| ResponseChecks.CheckAccums | url_validator.py:252-308 | the nested loops compute exactly `AccumsFinding` |
| UrlValidator.GenericCheck | url_validator.py:56-86 | valid exactly on status 200; another status gives `HTTP <status>`; an unreachable URL gives `Connection Error` with the exception text |
| UrlValidator.TypedValidIff | url_validator.py:102-169 | a typed check is valid exactly when the GET answered without an error status, the body parsed and the shared check completed as valid; it raises only from that check |
| UrlValidator.TypedResponseData | url_validator.py:151-156 | a completed typed check carries the parsed body as `response_data`; a failure found in the body carries none |
| UrlValidator.ValidateUrl | url_validator.py:18-53 | a rejected URL is answered without a request; otherwise the result is the generic check or the routed typed check on the reply |
| UrlValidator.PrecheckBeforeFetch | url_validator.py:29-42 | a blank URL or one without a scheme gets the same invalid answer whatever the network does |
| UrlValidator.ValidNeedsReply | url_validator.py:18-169 | a valid verdict needs a passing URL that answered: with 200 for generic URLs, with a non-error status and a JSON body for typed ones |
| UrlValidator.RunTyped | url_validator.py:102-169 | the typed validators with their flag loops compute exactly `TypedCheck` |
| AsyncUrlValidator.AsDictKeys | async_url_validator.py:91-100 | every result dictionary has exactly the keys `ticket`, `valid`, `status`, `details` and `response_data` |
| AsyncUrlValidator.ValidateSingle | async_url_validator.py:65-88 | the result always carries the row's ticket; a rejected URL is answered with the precheck's status and detail and no response data |
| AsyncUrlValidator.Non200Fails | async_url_validator.py:102-142 | on every path, a status other than 200 gives an invalid `HTTP <status>` result |
| AsyncUrlValidator.RaisedCheckIsValidationError | async_url_validator.py:86-203 | a typed check that raised on a JSON reply becomes a `Validation Error` result carrying the exception's text |
| AsyncUrlValidator.ContentTypeChecked | async_url_validator.py:136-203 | a typed URL answering 200 with a `Content-Type` that is not JSON is a `Validation Error` carrying `str()` of the `ContentTypeError`, its message written by `repr`, whatever the body |
| AsyncUrlValidator.ContentTypeErrorDoubleQuoted | async_url_validator.py:200-203 | for a `Content-Type` holding `'` and no `"`, the error text writes the message between double quotes, and the quoted text reads back as the message with that header |
| AsyncUrlValidator.ContentTypeErrorPlain | async_url_validator.py:200-203 | for a printable `Content-Type` without quotes or backslashes, the message stands between single quotes exactly as written |
| AsyncUrlValidator.MimetypeExamples | async_url_validator.py:145 | `application/json` with or without parameters and `application/vnd.api+json` pass the mimetype check; `text/html` and a missing header do not |
| AsyncUrlValidator.EmptyBodyInvalid | async_url_validator.py:136-203 | a whitespace-only body parses as `None`, every typed check raises on it, and the result is an invalid `Validation Error` |
| AsyncUrlValidator.FailureCarriesResponse | async_url_validator.py:145-152 | a failure found in the response text is invalid and carries the parsed response |
| AsyncUrlValidator.SameVerdict | async_url_validator.py:65-88 | where the synchronous validator answers, and typed URLs answer 200 with a JSON `Content-Type`, both validators give the same verdict |
| AsyncUrlValidator.Kept | async_url_validator.py:53-57 | the kept results are at most the tasks |
| AsyncUrlValidator.KeptAll | async_url_validator.py:53-57 | when no task raised, every result is kept, in task order |
| AsyncUrlValidator.ScheduleTiles | async_url_validator.py:48-61 | the chunks tile the tasks in order, each at most `chunk_size` long, with a pause between two chunks only |
| AsyncUrlValidator.GatherInChunks | async_url_validator.py:45-63 | a zero chunk size raises `ValueError`; otherwise the results are the returned values in task order and the events follow the chunk schedule |
| AsyncUrlValidator.ValidateUrls | async_url_validator.py:31-63 | with a positive chunk size there is one result per input row, in input order, each the single-URL validation of that row |
| IncidentTokens.DigitRun | vector_store.py:155 | the run of digits `\d+` takes is maximal: every character in it is a digit and the next one is not |
| IncidentTokens.HeadToken | vector_store.py:155 | where a match starts, the token found is `INC` followed by its whole digit run |
| IncidentTokens.ScanTokensWellFormed | vector_store.py:155 | every extracted token is `INC` followed by at least one digit |
| IncidentTokens.ScanTokensOccur | vector_store.py:155 | every extracted token occurs in the upper-cased query and is not followed there by another digit |
| IncidentTokens.ScanEmptyIff | vector_store.py:155-158 | no tokens are found exactly when no position of the upper-cased query starts `INC` followed by a digit |
| IncidentTokens.ExtractFindsLowerCasePrefix | vector_store.py:155 | upper-casing first makes the prefix case-insensitive: `inc` followed by a digit yields a token |
| IncidentTokens.TokenAt | vector_store.py:155 | the token at a match is `INC` and digits, and occurs there with its whole digit run |
| IncidentTokens.ScanIsAllMatches | vector_store.py:155 | the scan returns the token at every position where a match starts, in order: no match is skipped, since none can start inside another |
| IncidentTokens.ScanExample | vector_store.py:155 | `XINC42 INC7` yields `INC42` then `INC7`: matches may be glued to a word and are found left to right |
| VectorStore.DocsOf | vector_store.py:189 | the documents of the scored results, in order |
| VectorStore.WithScore | vector_store.py:180 | every exact-match hit is paired with the same score, in hit order |
| VectorStore.LookupCalls | vector_store.py:164-171 | one filtered lookup with `k = 5` per extracted token, in token order |
| VectorStore.WithScoreConcat | vector_store.py:180 | scoring a concatenation scores each part |
| VectorStore.WithScoreSorted | vector_store.py:186-189 | hits that all score 1.0 are already in descending order, so the stable sort keeps them in lookup order |
| VectorStore.HitsStep | vector_store.py:164-183 | each token adds one lookup call and appends its hits |
| VectorStore.AboveThreshold | vector_store.py:226-227 | the kept results are exactly the raw results scoring at least `min_confidence` |
| VectorStore.IncidentNumberSearch | vector_store.py:153-192 | the incident-number branch, with its per-token loop and sort, computes exactly the documents and index calls of the specification |
| VectorStore.GeneralSearch | vector_store.py:207-254 | the general branch computes exactly the documents and index calls of the specification |
| VectorStore.CustomRetriever | vector_store.py:103-258 | the override, when given, picks the mode; `incident_number` and `mmr_only` have their own branches and anything else is general |
| VectorStore.ModeSelection | vector_store.py:103-207 | a non-empty override is the mode, otherwise the mode bound at construction; any mode other than `incident_number` and `mmr_only` runs the general branch |
| VectorStore.MmrOnlySingleCall | vector_store.py:194-205 | `mmr_only` issues exactly one MMR call with `k = 10`, `fetch_k = 20`, lambda 0.6 and returns its answer unchanged, or nothing when the call raises |
| VectorStore.HitsConcat | vector_store.py:164-183 | the hits of two token lists are the hits of each, in order |
| VectorStore.RaisingLookupSkipped | vector_store.py:182-183 | a lookup that raises loses that token's hits and nothing else |
| VectorStore.HitsCarryQueriedNumber | vector_store.py:167-171 | with an index that honours the filter, every document returned carries one of the queried incident numbers |
| VectorStore.IncidentModeSilentIff | vector_store.py:155-158 | the incident-number mode makes no index call, and returns nothing, exactly when the query holds no `INC` followed by a digit |
| VectorStore.SurvivorsAboveThreshold | vector_store.py:226-243 | when some result reaches the threshold, MMR is given exactly the results that reach it |
| VectorStore.SurvivorsFallback | vector_store.py:231-236 | when none reaches it, the first `min(2, n)` of the stably sorted results are kept, and nothing left out scores higher than something kept |
| VectorStore.NoneAboveThreshold | vector_store.py:226-231 | when nothing reaches the threshold the filter keeps nothing |
| VectorStore.SurvivorsNonEmpty | vector_store.py:231-240 | a non-empty raw result always leaves at least one candidate |
| VectorStore.GeneralBounded | vector_store.py:207-254 | with an MMR search that honours `k`, the general mode returns at most three documents, at most two when nothing reached the threshold, and MMR is asked for at least one |
| VectorStore.GeneralMayReturnUnfilteredDocument | vector_store.py:243-251 | the final MMR call runs over the whole index, so it may return a document of a type the filtered search excluded |
| Documents.ToMap | data_loader.py:97-100 | the metadata dictionary handed to a document keeps exactly the keys of the source dictionary, each with the value a lookup finds first |
| Documents.EnsureDocumentCases | data_loader.py:90-101 | a document is returned as it is; a dictionary gives a document exactly when its `page_content` (default empty) is a string and its `metadata` (default empty) a dictionary, with that content, so a dictionary with neither key gives an empty document; any other value gives its string form with no metadata |
| Documents.MakeDocument | rag_chain.py:411-414 | building a document succeeds exactly when the content is a string and the metadata a dictionary, and then carries that content and that metadata |
| RagChain.FieldLookup | rag_chain.py:460-463 | a key found in the chain's reply comes with a value stored under it; a key not found is stored under no entry |
| RagChain.Converted | rag_chain.py:226-237 | the converted list is no longer than the retrieved one, holds only documents with non-empty content, and each is the conversion of some retrieved item |
| RagChain.ConvertAll | rag_chain.py:226-237 | the conversion loop builds exactly the converted list |
| RagChain.ConvertedStep | rag_chain.py:228-232 | one more item extends the converted list by its conversion exactly when that is a document with non-empty content |
| RagChain.Filtered | rag_chain.py:251-255 | the documents kept are exactly those retrieved whose incident number is named in the query or whose type is a mapping or reference |
| RagChain.RefilterDocs | rag_chain.py:248-259 | the re-filter loop yields the matching documents when the query names incidents and one matches, and the list unchanged otherwise |
| RagChain.RefilterProperties | rag_chain.py:248-259 | the re-filter never empties a non-empty list, keeps only given documents, and keeps exactly the matching ones whenever one matches |
| RagChain.WithSource | rag_chain.py:279-293 | the context copy keeps the content and every metadata entry, and adds `source` = `processed_document` only when it was missing |
| RagChain.Sourced | rag_chain.py:262-293 | the context has one copy with a `source` per document, in order |
| RagChain.BuildContext | rag_chain.py:262-293 | the context loop builds exactly that list |
| RagChain.ProcessRetrievedDocs | rag_chain.py:175-394 | the method returns what `process_retrieved_docs` specifies for the query, the retriever and the chain |
| RagChain.BlankQueryShortCircuits | rag_chain.py:178-186 | a blank query gets the fixed prompt with empty input and context, whatever the retriever would return |
| RagChain.RaisingRetrieverFindsNothing | rag_chain.py:221-245 | a retriever that raises gives the "couldn't find any information" reply with the stripped query and no context |
| RagChain.ProcessContext | rag_chain.py:226-387 | for a non-blank query the returned context is empty exactly when no retrieved item converts to a non-empty document; each document in it is such a conversion; and the chain is called on those documents with a `source` filled in |
| RagChain.ShapeResponseHasAnswer | rag_chain.py:361-381 | the answer is always a dictionary with an `answer` key; a dictionary reply with one is kept as is; a failure mentioning `page_content` gets the malformed-data apology, any other failure the generic one |
| RagChain.ConversionsAgree | rag_chain.py:130-173 | the safe conversion yields nothing only for `None`; wherever the plain conversion builds a document from a document, string, scalar or document-like dictionary, the two agree on content; other dictionaries keep their text in the safe one but become empty documents in the plain one |
| RagChain.Ensured | rag_chain.py:467-477 | at most one document per source item is kept |
| RagChain.EnsureAll | rag_chain.py:467-477 | the loop over the reply's sources builds exactly that list, skipping the items whose conversion raises |
| RagChain.QueryRagChain | rag_chain.py:417-489 | the method returns what `query_rag_chain` specifies for the query and the chain |
| RagChain.QueryShape | rag_chain.py:429-489 | an empty, blank or non-string query gets the fixed five-key prompt; every other call returns either the five keys of a normal reply or the three of an error reply |
| RagChain.ResultOutputKeys | rag_chain.py:458-464 | a normal reply has the keys input, result, answer, context and source_documents, in that order |
| RagChain.QueryFallbacks | rag_chain.py:458-477 | the answer falls back from `answer` to `result` to the empty string, and when sources were returned `context` and `source_documents` hold the same list of documents |
| DataLoader.LowerField | data_loader.py:66-73 | a field lower-cases when its value (or the default) is a string, giving the lower-cased string, and raises otherwise |
| DataLoader.LowerAll | data_loader.py:66-73 | the lowered fields all succeed exactly when every one is a string, and then give one lower-cased string per field in order |
| DataLoader.UnlinesHasLine | data_loader.py:65-73 | every line of the rendered text appears in it followed by a newline |
| DataLoader.IncidentDetailsText | data_loader.py:63-74 | the incident text can be built exactly when each lower-cased field holds a string |
| DataLoader.DetailsTextIgnoresCase | data_loader.py:63-74 | two rows with the same incident number whose other fields agree once lower-cased give the same text |
| DataLoader.LowerAllAgree | data_loader.py:66-73 | fields that agree once lower-cased lower-case to the same list |
| DataLoader.DetailsMissingAssignee | data_loader.py:69 | a row without an assignee says "assigned to: no one" |
| DataLoader.DetailsNumberVerbatim | data_loader.py:66-73 | the incident number appears as given, not lower-cased, on the first line and on the tag line |
| DataLoader.StatusCountKeepsCase | data_loader.py:76-81 | the status-count text is not lower-cased: two single-line states that differ, in case or otherwise, give different texts |
| DataLoader.ResolutionKeepsCase | data_loader.py:83-88 | the resolution text is not lower-cased: two single-line descriptions that differ give different texts |
| DataLoader.LineFieldDetermined | data_loader.py:76-88 | a single-line field between a fixed label and its newline is determined by the text |
| DataLoader.RecordOf | data_loader.py:109 | a row built from a document always has its `content` column |
| DataLoader.Rows | data_loader.py:109 | one row per document, each with its `content` column |
| DataLoader.FirstIndex | data_loader.py:110 | the first position of an element is one holding it with no earlier copy |
| DataLoader.Dedup | data_loader.py:110 | dropping duplicate rows keeps each row once and no other, and is no longer than the input |
| DataLoader.DedupOrderStep | data_loader.py:110 | one more row keeps the kept rows in the order of their first appearances |
| DataLoader.DedupOrderNew | data_loader.py:110 | a row seen for the first time is kept after all earlier ones |
| DataLoader.DedupKeepsFirstOrder | data_loader.py:110 | the rows kept are in the order of their first appearances |
| DataLoader.DedupOfDistinct | data_loader.py:110 | rows that are already distinct are kept as they are |
| DataLoader.Clamp | data_loader.py:126-128 | a slice bound, negative ones counted from the end, lands inside the list |
| DataLoader.SliceWindow | data_loader.py:126-128 | a slice is a contiguous window ending no later than its clamped upper bound, with at most `hi - lo` rows |
| DataLoader.IntLiteral | data_loader.py:114 | a stripped run of digits is read as its value; whatever is read is non-blank |
| DataLoader.ParseInt | data_loader.py:114 | an integer count is kept; a string is accepted exactly when it is an integer literal; `None`, lists and dictionaries raise a type error |
| DataLoader.SplitProperties | data_loader.py:126-128 | the status-count group has at most four rows, the resolution group never takes the last row, and when the count leaves room for four status rows the three groups tile every row but the last, in order |
| DataLoader.CountRowInStatusGroup | data_loader.py:127 | with fewer than four rows between the count and the end, the count row itself falls into the status-count group |
| DataLoader.IncidentMetadata | data_loader.py:135-145 | the incident metadata is typed `incident_details`, keeps the number as given and lower-cases status, assignee and tags |
| DataLoader.IncidentDoc | data_loader.py:132-149 | only a dictionary row makes an incident document |
| DataLoader.IncidentMetadataCase | data_loader.py:135-145 | status, assignee and tags in the metadata are lower-case and the number is stored as given |
| DataLoader.StatusCountDoc | data_loader.py:156-163 | a status-count document is typed `incident_status_count` |
| DataLoader.ResolutionDoc | data_loader.py:170-177 | a resolution document is typed `incident_resolution` |
| DataLoader.DictDocs | data_loader.py:152-178 | the non-dictionary rows are skipped, so there is at most one document per row |
| DataLoader.BuildIncidentDocs | data_loader.py:131-149 | the incident loop builds one document per row, or raises the first row's error |
| DataLoader.MadeDocsErrSticky | data_loader.py:131-149 | once a row raises, the whole loop raises with that error |
| DataLoader.MadeDocsTagged | data_loader.py:131-149 | when every document the row builder makes carries a type, the loop gives one document per row, each with that type |
| DataLoader.IncidentDocTagged | data_loader.py:143-149 | every incident document is typed `incident_details` |
| DataLoader.BuildDictDocs | data_loader.py:152-178 | the status-count and resolution loops build exactly the documents of the dictionary rows |
| DataLoader.DictDocsTagged | data_loader.py:152-178 | every document of such a loop carries its loop's type |
| DataLoader.AssembleGroups | data_loader.py:126-188 | the three loops and their concatenation give the groups' documents in group order |
| DataLoader.ProcessIncidentData | data_loader.py:103-215 | the method returns what `process_incident_data` specifies for the documents |
| DataLoader.EmptyInputRaises | data_loader.py:114 | an empty document list raises an index error when the count is read |
| DataLoader.TaggedConcat | data_loader.py:184-188 | the concatenated groups are tagged in order: incident details, then status counts, then resolutions |
| DataLoader.ProcessOutput | data_loader.py:103-215 | the output is the incident documents, then at most four status-count documents, then the resolution documents, each carrying its type |
| DataLoader.AssembleOutput | data_loader.py:126-188 | the assembled groups are tagged in that order with at most four status-count documents |
| Sorting.SortDescSorted | incident_service.py:297 | the descending sort leaves the list ordered from the greatest key down, for any total preorder on the keys |
| Sorting.SortDescPermutation | incident_service.py:297 | the sort rearranges the list without adding or losing an element |
| Sorting.SortDescStable | incident_service.py:297 | elements with equal keys keep their input order (`list.sort` is stable, also with `reverse=True`) |
| Sorting.SortDescOfSorted | vector_store.py:188 | a list already in descending key order is left unchanged |
| Sorting.InsertPermutation | incident_service.py:297 | inserting one element adds exactly that element |
| Sorting.InsertSorted | incident_service.py:297 | inserting into a descending list keeps it descending |
| Sorting.InsertStable | incident_service.py:297 | an element inserted after those with an equal key comes last among them |
| Sorting.KeyClassConcat | incident_service.py:297 | the elements of one key class in a concatenation are those of each part, in order |
| Sorting.RealLe | vector_store.py:235 | the score order used for sorting is a total preorder |
| IncidentService.FormatOne | incident_service.py:288-294 | a display row keeps the whole record as its raw data |
| IncidentService.FormatOneDefaults | incident_service.py:289-292 | each shown field is the record's value when the key is present and its default (`N/A`, `No description`) otherwise |
| IncidentService.FirstNonDict | incident_service.py:287-294 | the loop raises at the first record that is not a dictionary, and only there |
| IncidentService.FirstNonDictIs | incident_service.py:287-294 | that record is the first one that is not a dictionary |
| IncidentService.Rows | incident_service.py:286-294 | the rows are built exactly when every record is a dictionary |
| IncidentService.StrLe | incident_service.py:297 | the order on `Created On` strings is a total preorder |
| IncidentService.LexLePreorder | incident_service.py:297 | string comparison is total and transitive |
| IncidentService.FormatIncidents | incident_service.py:273-299 | empty input or input without `result` gives no rows; a non-empty result comes from a `result` entry |
| IncidentService.IntLe | incident_service.py:297 | the order on integer and boolean `Created On` values is a total preorder |
| IncidentService.FormatIncidentsSorted | incident_service.py:283-299 | a successful result has one row per record, is a rearrangement of the rows in record order, has dates that are all strings or all numbers (or fewer than two rows), is newest first in that order, and keeps rows with equal dates in record order |
| IncidentService.FormatIncidentsMixedDates | incident_service.py:296-297 | two or more rows whose dates are neither all strings nor all numbers make the sort raise a `TypeError` |
| IncidentService.FormatIncidentsOk | incident_service.py:283-299 | a `result` list of dictionaries whose dates are all strings (or missing) or all integers or booleans never raises and gives one row per record |
| IncidentService.FormatRows | incident_service.py:286-294 | the row loop builds exactly those rows, or raises at the first non-dictionary record |
| IncidentService.FormatIncidentsLoop | incident_service.py:273-299 | the method returns what `format_incidents` specifies |
| ChatUi.TotalPagesCeiling | chat_ui.py:483 | no incidents give no pages; otherwise the page count is the least number of pages of the chosen size that holds every incident |
| ChatUi.ClampInRange | chat_ui.py:485-489 | with at least one page the current page is moved into range and an in-range page is left alone |
| ChatUi.PageSlice | chat_ui.py:491-496 | an in-range page shows between one and a page size of incidents |
| ChatUi.FirstPagesPrefix | chat_ui.py:491-496 | the first k pages, in order, are the incident list up to the end of page k |
| ChatUi.PagesTile | chat_ui.py:483-496 | paging through every page shows each incident once, in list order |
| ChatUi.PageState.constructor | chat_ui.py:445-448 | a new session starts on page 1 with ten rows per page |
| ChatUi.PageState.ShowPage | chat_ui.py:467-496 | with no incidents nothing changes and nothing is shown; otherwise the chosen page size is stored, the page is moved into range, and the incidents shown are that page's slice |
| ChatUi.Navigate | chat_ui.py:504-516 | a navigation button is disabled exactly on the first page (First, Previous) or the last page (Next, Last) |
| ChatUi.NavigateInRange | chat_ui.py:504-516 | from an in-range page, an enabled button leads to another in-range page: first, previous, next or last |
| ChatUi.ExtractAnswer | chat_ui.py:338-350 | a reply that is not a dictionary is shown as its text |
| ChatUi.ExtractAnswerCases | chat_ui.py:339-348 | a nested `answer.answer` is taken first, then a string `answer`; any other dictionary is shown as its text |
| ChatUi.Cleanup | chat_ui.py:353-363 | the cleaned reply never starts with a newline |
| ChatUi.ChatReply | chat_ui.py:338-416 | a string answer is cleaned, so the reply has no `- ` pair and does not start with a newline; any other answer ends in the "Sorry, I encountered an error" message naming the type that has no `strip` |
| ChatUi.ReplaceHead | chat_ui.py:357-361 | a replacement keeps a text empty exactly when it was, and starts with the replacement exactly when the pattern was at the start |
| ChatUi.BulletsReplaced | chat_ui.py:359 | after the bullet replacement no dash-space pair is left |
| ChatUi.QuotesKeepNoDash | chat_ui.py:361 | unescaping quotes does not create a dash-space pair |
| ChatUi.CleanupBullets | chat_ui.py:353-363 | a cleaned reply has no dash-space pair: every list dash has become a bullet |
| ChatUi.UpdateOptions | chat_ui.py:665-722 | no options are shown until the update button is clicked; then Resolve is offered, followed by Update Hold Notes exactly when the state is `on hold` and Put on Hold otherwise |
| ChatUi.OptionsIgnoreCase | chat_ui.py:655-693 | states equal up to case offer the same update button and the same options |
| Browser.PageCommand | app.py:99-125 | below a page, `exit` and only `exit` leaves; `home` goes to the page list; `back` goes to the last ancestor or to the list when there is none; a number picks that child if it exists and otherwise stays; any other text is taken as a page id |
| Browser.HomeCommand | app.py:142-155 | below the page list, `exit` and only `exit` leaves; a number picks that page if it exists and otherwise keeps the current id; any other text, `back` and `home` included, is taken as a page id |
| Browser.FailedLoadGoesHome | app.py:79-88 | a page that fails to load sends the loop to the page list without reading a line |
| Browser.ExitIff | app.py:74-155 | the session ends by `exit` exactly when one of the remaining lines, stripped and lower-cased, is `exit` |
| Browser.ShownGrows | app.py:74-155 | the pages shown so far are kept, every page shown has a non-empty id, and each line read shows at most one page beyond the first |
| Browser.PageStep | app.py:99-125 | the branches under a page give the move that command specifies |
| Browser.HomeStep | app.py:142-155 | the branches under the page list give the move that command specifies |
| Browser.InteractiveMode | app.py:74-155 | the loop shows the same pages and ends the same way as the session the typed lines specify |

## Left out

- The vector index, embeddings and the MMR algorithm (vector_store.py:17-81, 111-134) are oracles. Only the calls issued and their results are modelled.
- Similarity scores and `min_confidence` are `real` values. They are only compared and sorted; no floating-point behaviour is modelled.
- The language-model chain, the prompt templates (rag_chain.py:15-96), and coroutine and event-loop handling (rag_chain.py:189-218, 355-358, 447-455) are left out. The chain is a function from query and documents to a reply or an exception.
- The nested `ensure_document` inside `create_rag_chain` (rag_chain.py:98-128) is defined but never called. It is not modelled. The module-level `ensure_document` (rag_chain.py:404-415) and the identical one in data_loader.py are modelled once, as `Documents.EnsureDocument`.
- The retriever's keyword-argument detection is left out (rag_chain.py:203-218). The retriever is always called with the search mode.
- HTTP is not modelled: ServiceNow calls (incident_service.py:5-270), URL and JSON loading (data_loader.py:11-61), and the `requests`/`aiohttp` GETs. Each response is a status, a reason, a `Content-Type` header and a body that is parsed JSON, only whitespace, or not JSON.
- `UrlValidator.HttpErrorText`: the `raise_for_status` message is built from the requested URL. It does not model redirects that change the final URL.
- `json.loads` is a parameter, in ingestion and in the validators. The regular-expression split of the Confluence storage format into the first table, its rows and its cells (confluence_table.py:41-54) arrives as a ready-made parse.
- The Confluence client calls in `load_table` and `save_changes` are oracles (confluence_table.py:34-38, 198-223; confluence_loader.py). So is the unused version bump (confluence_table.py:211-214).
- Concurrency is not modelled: the semaphore, `asyncio.gather` and `sleep` (async_url_validator.py:28, 45-61, 68). `validate_urls` runs its chunks one after another. It keeps the order of results, which results are dropped, and where the pauses fall.
- Wall-clock time is a parameter: `today` in the coverage check, and the clock readings in the validation run.
- `_update_incident_status` computes a truncated URL and never uses it (validate_incidents.py:123-140). It is not modelled.
- Logging and `print` output are not modelled anywhere.
- The Streamlit widgets, rendering, CSS and reruns are not modelled (the rest of chat_ui.py). `ChatUi.PageState.ShowPage` takes the rows-per-page choice as a parameter. `ChatUi.UpdateOptions` takes whether the update button was clicked as a parameter.
- `ChatUi.UpdateOptions`: the incident's `state` is assumed to be a string. The source calls `.get('state', '').lower()` on it, which raises for any other type.
- After `exit`, `interactive_mode` goes on to a second command loop (app.py:157-184: `list`, `show`, `exit`). That loop only prints pages and is not modelled; `Browser.Browse` ends at the first `exit`. main.py is not part of this model.
- `Browser.Browse`: when the typed lines run out, the session ends with `exited` false. The source's `input()` raises `EOFError` there instead.
- `Browser.Browse`: the space's page list is a constant parameter. The source fetches it again each time it shows the list.
- The page loader is an oracle that returns ancestors and children. confluence_loader.py is not part of this model. `get_page_content` never sets `ancestors` in the page dictionaries it builds (confluence_loader.py:97-106), so in the program as written `back` always goes to the page list; the model also covers a loader that supplies them.
- Text operations are ASCII-only models of Python's Unicode `lower`, `upper` and `isdigit`, and `IsDigit` also stands for the regular-expression class `\d` in `INC\d+`, which in Python 3 matches every Unicode decimal digit; `strip` knows every character `str.isspace` accepts. `int()` is modelled on ASCII digits; Python also accepts other Unicode digits and underscores between digits.
- `PyValues.IsPrintable`: `repr` of a string follows Python's rules for quotes and escapes. Its printability test is exact for ASCII and Latin-1. Above U+00A1 it knows the Unicode spaces and separators, the soft hyphen, the General Punctuation format characters, the byte order mark and the private-use and non-character code points. Other format characters and unassigned code points, which Python escapes, are written as themselves.
- `str()` and `repr()` of dictionaries and lists are modelled for the values of this model; it has no floats, although JSON responses may contain them.
- The commented-out incident-mapping block (data_loader.py:189-208) and the final `hasattr` validation loop (data_loader.py:211-213) are not modelled. The loop never removes a document, because every element is a document.
- `IncidentService.FormatIncidents`: when `Created On` values cannot be compared, the model raises a `TypeError` naming the first value and the first one of another kind. Python names the pair it happens to compare first. Lists, which Python compares element by element, and dates that are lists are modelled as not comparable.
- `DataLoader.Dedup`: `pandas.drop_duplicates` is modelled as exact de-duplication of the row dictionaries, keeping first occurrences. Three differences are not modelled. Column alignment across rows with different keys (missing cells become NaN) is one. Pandas hashes the row values, so a list or dictionary metadata value raises `TypeError: unhashable type`, where the model compares it. And `True` and `1` hash alike, so pandas counts them as duplicates, where the model keeps them apart.
- `Documents.MakeDocument`: the document type is validated as in langchain-core 0.3 and later (pydantic v2): the content must be a string and the metadata a dictionary. Older langchain (pydantic v1) converts an int, float or bool content to its string and a list of pairs to a dictionary; that coercion is not modelled.
- test_supabase.py is not part of this model.
- `UrlValidator.TypedCheck`: a body that does not parse gives "Invalid JSON response", as with `requests` before 2.27. From 2.27 on, `response.json()` raises a `RequestException` subclass, so the source answers "API call failed" with the decoder's message instead.
- `AsyncUrlValidator.TypedResult`: the `Content-Type` test is aiohttp's from 3.8 on, with `\w` read as ASCII letters, digits and `_`. The `ContentTypeError` text follows that version's format, with the message written by `repr`; older versions differ in the status and URL parts. Redirects are not modelled.
- `ReTemplate.Compile`: a `\g<...>` group reference is accepted only as a non-empty run of ASCII zeros, the rule from Python 3.12 on. Older versions also accept signs, whitespace, underscores and other Unicode digits there.
