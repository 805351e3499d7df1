# Google Drive lookup synchronisation, modelled in Dafny

This project models the core of `GoogleLookupSync` in the Splunk Google Drive app
(`src/bin/google_drive_app/__init__.py`). That class copies a lookup table (a CSV file
registered with Splunk) to and from a worksheet of a Google spreadsheet. The model covers:

- the column-label encoder `get_column_id` (bijective base 26), as a loop proved against
  a recursive definition and its inverse;
- `convert_to_dict`, which turns rows into label-keyed maps;
- `get_lookup_stats`, which gives the column count of the first row and the row count;
- the export's fill loop, which writes the file's values into the cells of the target
  range in place, in row-major order (an `array`);
- the export flow as a whole, over an abstract spreadsheet service;
- `open_google_spreadsheet` and `get_or_make_sheet_if_necessary`;
- the import's target resolution (owner defaulting to `nobody`) and its commit decision:
  error, copy, move plus registry reload, or the platform's managed lookup update.

Outside systems are abstract state. The remote service is a `Drive`: spreadsheets by key,
a title-to-key map, worksheets by name, cells as a sparse map. The local side is a `Store`:
lookup files by path, one staged temporary file, a reload counter and a log of managed
update requests. The registry's answers are parameters.

Modules: `Base` (Option, Result, the exceptions, grids), `ColumnId`, `RowMaps`,
`LookupStats`, `CellFill`, `Sheets`, `Export`, `Import`.

Python 2 semantics are assumed, which is what this code targets. `offset_left / 26` at line
396 is integer division, the same as Dafny's `/` on non-negative integers. Under Python 3,
`/` would give a float and line 391 would fail for every offset of 26 or more.

The comment at line 477 says the registry is reloaded because the file is new, but line
478 reloads on every direct-branch run, copies included. The model follows the code
(`Import.CommitImport`).

## Model

| member | source | states |
|---|---|---|
| `ColumnId.ColumnLabel` | src/bin/google_drive_app/__init__.py:386-398 | the label of any offset is a non-empty word of letters 'A'..'Z'; it is one letter exactly when the offset is below 26 |
| `ColumnId.GetColumnId` | src/bin/google_drive_app/__init__.py:381-398 | the loop that prepends `offset % 26` and continues with `offset / 26 - 1` returns exactly the bijective base-26 label, and that label decodes back to the offset |
| `ColumnId.OffsetOfLabel` | src/bin/google_drive_app/__init__.py:389-396 | decoding the label of `n` gives `n` back (round trip) |
| `ColumnId.LabelOfOffset` | src/bin/google_drive_app/__init__.py:389-396 | every non-empty upper-case word is the label of the offset it decodes to, so the labels are exactly those words |
| `ColumnId.LabelInjective` | src/bin/google_drive_app/__init__.py:403-406 | two offsets have the same label if and only if they are equal, so the keys of one row never collide |
| `ColumnId.LabelExamples` | src/bin/google_drive_app/__init__.py:386-398 | 0 is "A", 25 is "Z", 26 is "AA", 701 is "ZZ", 702 is "AAA" |
| `RowMaps.LabelSetSize` | src/bin/google_drive_app/__init__.py:405-406 | the first `n` columns have `n` distinct labels |
| `RowMaps.PrefixMapStep` | src/bin/google_drive_app/__init__.py:405-406 | storing the next cell under its label adds that label and keeps every earlier cell's entry |
| `RowMaps.RowToMap` | src/bin/google_drive_app/__init__.py:404-406 | the map of a row has exactly the labels of the row's positions as keys, each mapped to its cell, and as many entries as the row has cells |
| `RowMaps.ConvertToDict` | src/bin/google_drive_app/__init__.py:400-410 | one map per row, in row order, map `i` keyed by the labels of row `i`'s positions with label `j` mapped to cell `j` |
| `LookupStats.GetLookupStats` | src/bin/google_drive_app/__init__.py:265-287 | an empty file raises StopIteration and nothing else does; otherwise the column count is the length of the first row and the row count the number of rows, header included |
| `CellFill.FlattenAppend` | src/bin/google_drive_app/__init__.py:333-334 | the nested loops visit the values of one more row after all earlier values |
| `CellFill.FlattenRectangularAt` | src/bin/google_drive_app/__init__.py:333-336 | in a file whose rows all have `w` cells, the value visited at step `r * w + c` is cell (r, c) |
| `CellFill.FilledAt` | src/bin/google_drive_app/__init__.py:330-336 | after the fill, cell `k` of the range holds the `k`-th value of the file if there is one and keeps its value otherwise |
| `CellFill.TooManyValues` | src/bin/google_drive_app/__init__.py:336 | when the iterator runs out in the middle of a row, the file has more values than the range, and the range already holds its final contents |
| `CellFill.FillCells` | src/bin/google_drive_app/__init__.py:324-336 | the array of range cells ends as the file's values in row-major order followed by the untouched cells; the fill fails exactly when the file has more values than the range has cells |
| `CellFill.FillStep` | src/bin/google_drive_app/__init__.py:333-336 | setting the iterator's next cell to the row's next value extends the filled prefix of the range by exactly that value |
| `CellFill.FlattenStep` | src/bin/google_drive_app/__init__.py:333-334 | after the inner loop over row `i`, the values visited are those of the rows before `i` followed by row `i` |
| `CellFill.RectangularFillAt` | src/bin/google_drive_app/__init__.py:330-336 | when the range has room for every value of a file whose rows all have `w` cells, range cell `r * w + c` receives file cell (r, c) |
| `CellFill.RectangularFillTail` | src/bin/google_drive_app/__init__.py:330-336 | the range cells after the `row_count * w` values of such a file keep their values |
| `CellFill.RectangularFill` | src/bin/google_drive_app/__init__.py:318-336 | with a range of `(row_count + 1) * col_count` cells and every row `col_count` wide, range cell (r, c) receives file cell (r, c) and the extra last row keeps its values |
| `Sheets.Clear` | src/bin/google_drive_app/__init__.py:309 | a cleared worksheet keeps its size and shows every cell blank |
| `Sheets.OpenSpreadsheet` | src/bin/google_drive_app/__init__.py:153-169 | neither title nor key raises ValueError; with a title, the result is the titled document or SpreadsheetInaccessible, and the key is never tried; with only a key, an unknown key gives SpreadsheetInaccessible and a known one returns no document; every failure other than ValueError is SpreadsheetInaccessible |
| `Sheets.OpenSpreadsheetIntended` | src/bin/google_drive_app/__init__.py:139-151 | the title is tried first and the key when the title is absent or not found; the opened document is returned and its key exists |
| `Sheets.OpenByTitleAgrees` | src/bin/google_drive_app/__init__.py:153-169 | called with a title only, as the synchronisation code does, the open as written and the intended open succeed and fail together, with the same document or the same error |
| `Sheets.KeyOnlyOpenYieldsNothing` | src/bin/google_drive_app/__init__.py:163-167 | opening by an existing key alone returns no document, where the intended open returns it |
| `Sheets.TitleMissNeverTriesKey` | src/bin/google_drive_app/__init__.py:160-169 | a title that is not found gives SpreadsheetInaccessible even when the key exists |
| `Sheets.GetOrMakeSheet` | src/bin/google_drive_app/__init__.py:500-520 | an existing worksheet is returned and the document is unchanged; otherwise exactly one blank worksheet of the requested size is added under that name |
| `Sheets.GetOrMakeSheetIdempotent` | src/bin/google_drive_app/__init__.py:514-520 | a second get-or-make with the same name returns the same worksheet and changes nothing |
| `Sheets.RangeCoords` | src/bin/google_drive_app/__init__.py:324 | the range from (1, 1) to (rows, cols) has `rows * cols` cells, each inside that rectangle |
| `Sheets.RangeCoordAt` | src/bin/google_drive_app/__init__.py:324 | cell (r + 1, c + 1) is at row-major position `r * cols + c` of the range |
| `Sheets.RangeCoordsDistinct` | src/bin/google_drive_app/__init__.py:324 | no cell appears twice in a range |
| `Sheets.UpdateCellsAt` | src/bin/google_drive_app/__init__.py:339 | after a batch update without repeated cells, each cell of the batch shows its new value |
| `Sheets.UpdateCellsOutside` | src/bin/google_drive_app/__init__.py:339 | a batch update leaves every cell outside the batch as it was |
| `Export.PrepareWorksheet` | src/bin/google_drive_app/__init__.py:303-315 | opening fails exactly when the document cannot be opened; otherwise the drive is the old one with only the named worksheet replaced, and that worksheet is blank: the old one cleared with its size kept, or a new 100 × 20 one; whether it existed before is recorded |
| `Export.FillShowsFileRow` | src/bin/google_drive_app/__init__.py:318-339 | after the fill and write-back, cell (r + 1, c + 1) of a row of the file shows the file's cell (r, c) |
| `Export.FillShowsBlankLastRow` | src/bin/google_drive_app/__init__.py:318-339 | after the fill and write-back of a blank worksheet, the extra last row of the range stays blank |
| `Export.FillShowsFileAt` | src/bin/google_drive_app/__init__.py:318-339 | filling the range of a blank worksheet with a rectangular file and writing it back makes each cell show the file's value there, and blank elsewhere |
| `Export.ExportShowsFile` | src/bin/google_drive_app/__init__.py:289-346 | exporting a non-empty rectangular file succeeds, the drive changes only in that worksheet, and the worksheet then shows exactly the file, every other cell blank |
| `Export.ExportAsWrittenFailsOnNewSheet` | src/bin/google_drive_app/__init__.py:307-324 | as written, exporting any non-empty file into a worksheet that did not exist raises UnboundLocalError after the blank worksheet has been made, where the intended export of a rectangular file succeeds |
| `Export.ExportAsWrittenAgrees` | src/bin/google_drive_app/__init__.py:307-324 | when the worksheet already existed, the export as written and the intended one have the same outcome |
| `Export.ExportOverflowLeavesSheetBlank` | src/bin/google_drive_app/__init__.py:306-336 | a file with more values than the range raises StopIteration, and the worksheet is left cleared, with nothing rolled back |
| `Export.ExportUnopenableChangesNothing` | src/bin/google_drive_app/__init__.py:303-304 | a document that cannot be opened fails the export, with SpreadsheetInaccessible for a title, and changes nothing |
| `Import.ResolveImportTarget` | src/bin/google_drive_app/__init__.py:362-377 | a missing path is LookupNotFound exactly when creation is not allowed; otherwise the path is the registry's, or the app's lookups directory, the namespace falls back to the registry's and the owner to "nobody" |
| `Import.CommitImport` | src/bin/google_drive_app/__init__.py:457-494 | the direct branch runs exactly when updates through the platform are off, the file is missing or no name is known; there a missing file without permission to create raises and changes nothing, an existing file is copied over, a missing one is moved into place, and the registry is reloaded either way; otherwise only a managed update request is made |
| `Import.ImportMissingLookupChangesNothing` | src/bin/google_drive_app/__init__.py:362-373 | importing into a lookup without a path, without permission to create it, raises LookupNotFound and touches neither side |
| `Import.ImportDeliversValues` | src/bin/google_drive_app/__init__.py:427-492 | after a successful direct import the destination holds exactly the worksheet's values and the registry was reloaded once; after a managed one no file changed and the request carries the values |
| `Import.ImportManagedRequest` | src/bin/google_drive_app/__init__.py:483-492 | through import_to_lookup_file, the managed update gets the resolved namespace and the owner, "nobody" by default |

## Findings

| source | as written | input that shows it | evidently intended | confidence | as-written member | corrected member |
|---|---|---|---|---|---|---|
| src/bin/google_drive_app/__init__.py:324 | the range is requested from `worksheet`, which is bound only when line 308 found the worksheet | export a non-empty file into a worksheet name the document does not have: UnboundLocalError after the worksheet was made | request the range from `google_work_sheet`, the worksheet returned at line 315 | high, not executed | `Export.ExportAsWrittenFailsOnNewSheet` | `Export.ExportShowsFile` |
| src/bin/google_drive_app/__init__.py:163-167 | the result of `open_by_key` is discarded, so a key-only open returns None | `title=None`, `key` of an existing document: returns None | return the document opened by key | high, not executed | `Sheets.KeyOnlyOpenYieldsNothing` | `Sheets.OpenSpreadsheetIntended` |
| src/bin/google_drive_app/__init__.py:160-169 | a title that is not found raises at once, and the key is never tried, although the docstring promises the key as a fallback | a title that is not found, with the key of an existing document: SpreadsheetInaccessible | fall back to the key | medium, not executed | `Sheets.TitleMissNeverTriesKey` | `Sheets.OpenSpreadsheetIntended` |

`Export.ExportAsWritten` is the export as written and `Export.Export` the corrected one.
`Import.ImportFullPath` models `import_to_lookup_file_full_path` (lines 412-498), and
`Import.ImportToLookupFile` models `import_to_lookup_file` (lines 348-379), which resolves
the target and calls it.
`Sheets.OpenSpreadsheet` is the open as written. The export and import flows use
`Sheets.OpenSpreadsheetIntended`, and `Sheets.OpenByTitleAgrees` shows that this changes
nothing for the title-only calls they make.

## Left out

- Module set-up at lines 25-44: pruning `sys.path`, deleting the bundled `httplib2` and the path inserts. These are packaging side effects.
- Credentials and client construction (lines 69-136), including `make_client`, `make_client_from_string` and the two class-method constructors. These are foreign library calls and network authentication.
- The logger (lines 171-201) and every `info(...)` call. They are I/O with no effect on results.
- CSV parsing and writing. A lookup file is a `Grid` of already-parsed rows, and the staged temporary file holds the `Grid` written to it.
- Temporary file creation (line 434). It is one staging slot in `Store`, and the `isfile` check at line 442 is taken to succeed.
- `os.path.exists`, `shutil.copy` and `shutil.move` are operations on `Store.files`. Their I/O failures are not modelled.
- Opening a lookup file that is missing on disk (lines 276 and 321) is not modelled.
- The internals of the lookup registry: `SplunkLookupTableFile.get`, `build_id`, `reload` and `update_lookup_table`. The registry's answer is the `LookupEntry` parameter. The second lookup at line 489 is the `registryNamespace` parameter. A reload is a counter, and a managed update is a logged request.
- `make_splunkhome_path` is not modelled. The default path is relative to the Splunk home.
- gspread internals. `get_all_values` is the `values` parameter of the import. `range` and `update_cells` act on the sparse cell map. The worksheet's declared size does not limit them, so a range beyond a new 100 × 20 worksheet is accepted, even where the service might refuse it.
- A lookup file whose first row has no cells gives a range ending in column 0 at line 324, which the service would probably reject. The model treats it as an empty range.
- `worksheet.updated`, the timestamp both flows return, is provided by the remote service. The model returns the re-read worksheet itself.
- `import_to_lookup_file_by_transform` (lines 203-218), `export_lookup_file` (lines 220-246) and `get_worksheet_updated_date` (lines 248-263) are not modelled. They are thin wrappers around the registry and the service.
- The constants `OperationAction` and `Operation` (lines 60-67) are not modelled, because nothing in the file uses them.
- `RowMaps.ConvertToDict` does not model the insertion order of the Python dictionaries, because a Dafny `map` has no order.
- Export then import of the same grid (a round trip) is not stated. It depends on how `get_all_values` trims blank cells, and that belongs to the service.
