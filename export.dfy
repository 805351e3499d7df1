/** export_lookup_file_full_path: the lookup file is written into a
    worksheet, which is cleared first or made when missing. */
module Export {
  import opened Base
  import opened Sheets
  import opened CellFill

  /** The drive after the call (changes made before a failure stay), and
      the worksheet whose `updated` time the call returns. */
  datatype ExportOutcome = ExportOutcome(drive: Drive, result: Result<Worksheet>)

  /** The state after the worksheet has been prepared: the document's key,
      whether the worksheet existed before, and the worksheet itself. */
  datatype Prepared = Prepared(drive: Drive, key: string, existed: bool, sheet: Worksheet)

  /** `p.sheet` is the worksheet called `name` in the document `p.key`. */
  predicate PreparedFor(p: Prepared, name: string)
  {
    p.key in p.drive.books && name in p.drive.books[p.key].worksheets
    && p.drive.books[p.key].worksheets[name] == p.sheet
  }

  /** The worksheet with `name` replaced by `ws` in document `key`. */
  function PutSheet(drive: Drive, key: string, name: string, ws: Worksheet): (r: Drive)
    requires key in drive.books
    ensures r.titles == drive.titles && r.books.Keys == drive.books.Keys
    ensures r.books[key].worksheets == drive.books[key].worksheets[name := ws]
    ensures forall k :: k in drive.books && k != key ==> r.books[k] == drive.books[k]
  {
    var book := drive.books[key];
    drive.(books := drive.books[key := book.(worksheets := book.worksheets[name := ws])])
  }

  /** Lines 304-315: open the document by title, clear the worksheet if it
      exists, then get it or make it with the default size. The worksheet
      handed on is blank either way. */
  function PrepareWorksheet(drive: Drive, title: Option<string>, name: string): (r: Result<Prepared>)
    ensures r.Err? <==> OpenSpreadsheetIntended(drive, title, None).Err?
    ensures r.Err? ==> r.error == OpenSpreadsheetIntended(drive, title, None).error
    ensures r.Ok? ==> PreparedFor(r.value, name)
    ensures r.Ok? ==> r.value.key == OpenSpreadsheetIntended(drive, title, None).value
    ensures r.Ok? ==> r.value.drive == PutSheet(drive, r.value.key, name, r.value.sheet)
    ensures r.Ok? ==> r.value.existed == (name in drive.books[r.value.key].worksheets)
    ensures r.Ok? ==> forall q :: ValueAt(r.value.sheet, q) == ""
    ensures r.Ok? && r.value.existed ==>
              r.value.sheet.rowCount == drive.books[r.value.key].worksheets[name].rowCount
              && r.value.sheet.colCount == drive.books[r.value.key].worksheets[name].colCount
    ensures r.Ok? && !r.value.existed ==> r.value.sheet == Worksheet(DefaultRows, DefaultCols, map[])
    ensures r.Ok? ==> r.value.drive.titles == drive.titles && r.value.drive.books.Keys == drive.books.Keys
  {
    match OpenSpreadsheetIntended(drive, title, None)
    case Err(e) => Err(e)
    case Ok(key) =>
      var book := drive.books[key];
      var existed := name in book.worksheets;
      var cleared := if existed then book.(worksheets := book.worksheets[name := Clear(book.worksheets[name])]) else book;
      var (made, sheet) := GetOrMakeSheet(cleared, name, DefaultRows, DefaultCols);
      Ok(Prepared(drive.(books := drive.books[key := made]), key, existed, sheet))
  }

  /** Lines 318-346 for a non-empty file: the range spans one row more than
      the file and as many columns as its first row; the range is filled in
      row-major order, written back in one batch and the worksheet re-read. */
  function WriteFile(p: Prepared, name: string, file: Grid): ExportOutcome
    requires PreparedFor(p, name) && file != []
  {
    var coords := RangeCoords(|file| + 1, |file[0]|);
    var flat := Flatten(file);
    if |flat| > |coords| then ExportOutcome(p.drive, Err(StopIteration))
    else
      var written := UpdateCells(p.sheet, coords, Filled(RangeValues(p.sheet, coords), flat));
      ExportOutcome(PutSheet(p.drive, p.key, name, written), Ok(written))
  }

  /** export_lookup_file_full_path as written: the range is requested from
      `worksheet`, which is only bound when the worksheet existed before. */
  function ExportAsWritten(drive: Drive, title: Option<string>, name: string, file: Grid): ExportOutcome
  {
    match PrepareWorksheet(drive, title, name)
    case Err(e) => ExportOutcome(drive, Err(e))
    case Ok(p) =>
      if file == [] then ExportOutcome(p.drive, Err(StopIteration))
      else if !p.existed then ExportOutcome(p.drive, Err(UnboundLocalError))
      else WriteFile(p, name, file)
  }

  /** export_lookup_file_full_path with the range requested from the
      worksheet returned by get-or-make. */
  function Export(drive: Drive, title: Option<string>, name: string, file: Grid): ExportOutcome
  {
    match PrepareWorksheet(drive, title, name)
    case Err(e) => ExportOutcome(drive, Err(e))
    case Ok(p) =>
      if file == [] then ExportOutcome(p.drive, Err(StopIteration))
      else WriteFile(p, name, file)
  }

  /** The value cell `q` of a worksheet shows once it holds `file`. */
  function FileValueAt(file: Grid, q: Coord): string
  {
    if 1 <= q.0 <= |file| && 1 <= q.1 <= |file[q.0 - 1]| then file[q.0 - 1][q.1 - 1] else ""
  }

  /** The range of a rectangular file has room for all of its values. */
  lemma FileFitsRange(file: Grid)
    requires file != [] && Rectangular(file, |file[0]|)
    ensures |Flatten(file)| <= |RangeCoords(|file| + 1, |file[0]|)|
  {
    var w := |file[0]|;
    FlattenRectangularSize(file, w);
    assert (|file| + 1) * w == |file| * w + w;
  }

  /** Writing back the filled range of a blank worksheet makes cell
      (r + 1, c + 1) of a row of the file show the file's value there. */
  lemma FillShowsFileRow(sheet: Worksheet, file: Grid, r: nat, c: nat)
    requires file != [] && Rectangular(file, |file[0]|)
    requires r < |file| && c < |file[0]|
    ensures var coords := RangeCoords(|file| + 1, |file[0]|);
            && |Flatten(file)| <= |coords|
            && ValueAt(UpdateCells(sheet, coords, Filled(RangeValues(sheet, coords), Flatten(file))), (r + 1, c + 1))
               == file[r][c]
  {
    var w := |file[0]|;
    var coords := RangeCoords(|file| + 1, w);
    var shown := RangeValues(sheet, coords);
    FileFitsRange(file);
    RangeCoordAt(|file| + 1, w, r, c);
    RangeCoordsDistinct(|file| + 1, w);
    RectangularFillAt(shown, file, w, r, c);
    UpdateCellsAt(sheet, coords, Filled(shown, Flatten(file)), r * w + c);
  }

  /** Writing back the filled range of a blank worksheet leaves the extra
      last row of the range blank. */
  lemma FillShowsBlankLastRow(sheet: Worksheet, file: Grid, c: nat)
    requires forall q' :: ValueAt(sheet, q') == ""
    requires file != [] && Rectangular(file, |file[0]|)
    requires c < |file[0]|
    ensures var coords := RangeCoords(|file| + 1, |file[0]|);
            && |Flatten(file)| <= |coords|
            && ValueAt(UpdateCells(sheet, coords, Filled(RangeValues(sheet, coords), Flatten(file))), (|file| + 1, c + 1))
               == ""
  {
    var w := |file[0]|;
    var coords := RangeCoords(|file| + 1, w);
    var shown := RangeValues(sheet, coords);
    var k := |file| * w + c;
    FileFitsRange(file);
    RangeCoordAt(|file| + 1, w, |file|, c);
    RangeCoordsDistinct(|file| + 1, w);
    RectangularFillTail(shown, file, w, k);
    UpdateCellsAt(sheet, coords, Filled(shown, Flatten(file)), k);
  }

  /** Filling the range of a blank worksheet with a rectangular file and
      writing it back makes cell `q` show the file's value there. */
  lemma FillShowsFileAt(sheet: Worksheet, file: Grid, q: Coord)
    requires forall q' :: ValueAt(sheet, q') == ""
    requires file != [] && Rectangular(file, |file[0]|)
    ensures var coords := RangeCoords(|file| + 1, |file[0]|);
            && |Flatten(file)| <= |coords|
            && ValueAt(UpdateCells(sheet, coords, Filled(RangeValues(sheet, coords), Flatten(file))), q)
               == FileValueAt(file, q)
  {
    var w := |file[0]|;
    var coords := RangeCoords(|file| + 1, w);
    var values := Filled(RangeValues(sheet, coords), Flatten(file));
    FileFitsRange(file);
    if 1 <= q.0 <= |file| && 1 <= q.1 <= w {
      FillShowsFileRow(sheet, file, q.0 - 1, q.1 - 1);
    } else if q.0 == |file| + 1 && 1 <= q.1 <= w {
      FillShowsBlankLastRow(sheet, file, q.1 - 1);
    } else {
      UpdateCellsOutside(sheet, coords, values, q);
    }
  }

  /** Writing a worksheet twice keeps only the second. */
  lemma PutSheetTwice(drive: Drive, key: string, name: string, a: Worksheet, b: Worksheet)
    requires key in drive.books
    ensures PutSheet(PutSheet(drive, key, name, a), key, name, b) == PutSheet(drive, key, name, b)
  {
    var d1 := PutSheet(PutSheet(drive, key, name, a), key, name, b);
    var d2 := PutSheet(drive, key, name, b);
    assert d1.books[key] == d2.books[key];
    assert d1.books == d2.books;
  }

  /** Exporting a non-empty file whose rows all have the width of the first
      row leaves the worksheet showing exactly the file: cell (r, c) holds
      the file's cell (r, c) and every other cell is blank. */
  lemma ExportShowsFile(drive: Drive, title: string, name: string, file: Grid)
    requires TitleFound(drive, title)
    requires file != [] && Rectangular(file, |file[0]|)
    ensures var out := Export(drive, Some(title), name, file);
            && out.result.Ok?
            && var key := drive.titles[title];
            && key in out.drive.books && name in out.drive.books[key].worksheets
            && out.drive.books[key].worksheets[name] == out.result.value
            && out.drive == PutSheet(drive, key, name, out.result.value)
            && forall q :: ValueAt(out.result.value, q) == FileValueAt(file, q)
  {
    var p := PrepareWorksheet(drive, Some(title), name).value;
    var coords := RangeCoords(|file| + 1, |file[0]|);
    var written := UpdateCells(p.sheet, coords, Filled(RangeValues(p.sheet, coords), Flatten(file)));
    FillShowsFileAt(p.sheet, file, (1, 1));
    assert Export(drive, Some(title), name, file) == ExportOutcome(PutSheet(p.drive, p.key, name, written), Ok(written));
    PutSheetTwice(drive, p.key, name, p.sheet, written);
    forall q: Coord ensures ValueAt(written, q) == FileValueAt(file, q) {
      FillShowsFileAt(p.sheet, file, q);
    }
  }

  /** As written, exporting any non-empty file to a worksheet that does not
      exist yet fails with UnboundLocalError after making the (blank)
      worksheet, where the intended export of a rectangular file succeeds. */
  lemma ExportAsWrittenFailsOnNewSheet(drive: Drive, title: string, name: string, file: Grid)
    requires TitleFound(drive, title)
    requires name !in drive.books[drive.titles[title]].worksheets
    requires file != []
    ensures var out := ExportAsWritten(drive, Some(title), name, file);
            && out.result == Err(UnboundLocalError)
            && var key := drive.titles[title];
            && name in out.drive.books[key].worksheets
            && forall q :: ValueAt(out.drive.books[key].worksheets[name], q) == ""
    ensures Rectangular(file, |file[0]|) ==> Export(drive, Some(title), name, file).result.Ok?
  {
    if Rectangular(file, |file[0]|) {
      ExportShowsFile(drive, title, name, file);
    }
  }

  /** Whenever the worksheet already existed (or the call fails earlier),
      the export as written and the intended one do the same. */
  lemma ExportAsWrittenAgrees(drive: Drive, title: Option<string>, name: string, file: Grid)
    requires var doc := OpenSpreadsheetIntended(drive, title, None);
             doc.Ok? && doc.value in drive.books ==> name in drive.books[doc.value].worksheets
    ensures ExportAsWritten(drive, title, name, file) == Export(drive, title, name, file)
  {
  }

  /** A file with more values than the range fails with StopIteration and,
      with nothing rolled back, leaves the worksheet blank. */
  lemma ExportOverflowLeavesSheetBlank(drive: Drive, title: string, name: string, file: Grid)
    requires TitleFound(drive, title)
    requires file != [] && |Flatten(file)| > (|file| + 1) * |file[0]|
    ensures var out := Export(drive, Some(title), name, file);
            && out.result == Err(StopIteration)
            && var key := drive.titles[title];
            && name in out.drive.books[key].worksheets
            && forall q :: ValueAt(out.drive.books[key].worksheets[name], q) == ""
  {
  }

  /** A document that cannot be opened fails the export with nothing changed. */
  lemma ExportUnopenableChangesNothing(drive: Drive, title: Option<string>, name: string, file: Grid)
    requires title.None? || !TitleFound(drive, title.value)
    ensures Export(drive, title, name, file).drive == drive
    ensures Export(drive, title, name, file).result.Err?
    ensures title.Some? ==> Export(drive, title, name, file).result.error == SpreadsheetInaccessible
  {
  }
}
