/** The remote spreadsheet service as abstract state: a drive of
    spreadsheets reachable by key or by title, each a set of named
    worksheets, each worksheet a sparse map from cell position to value. */
module Sheets {
  import opened Base

  /** A cell position, 1-based: (row, column). */
  type Coord = (nat, nat)

  /** A worksheet: its declared size and the values of its non-blank cells. */
  datatype Worksheet = Worksheet(rowCount: nat, colCount: nat, cells: map<Coord, string>)

  /** A spreadsheet document: its worksheets by title. */
  datatype Spreadsheet = Spreadsheet(worksheets: map<string, Worksheet>)

  /** The service: documents by key, and the key each document title names. */
  datatype Drive = Drive(books: map<string, Spreadsheet>, titles: map<string, string>)

  /** Default size of a worksheet made on demand. */
  const DefaultRows: nat := 100
  const DefaultCols: nat := 20

  /** The value shown in a cell; a cell never written is blank. */
  function ValueAt(ws: Worksheet, p: Coord): string
  {
    if p in ws.cells then ws.cells[p] else ""
  }

  /** worksheet.clear(): every cell blank, the size kept. */
  function Clear(ws: Worksheet): (r: Worksheet)
    ensures r.rowCount == ws.rowCount && r.colCount == ws.colCount
    ensures forall p :: ValueAt(r, p) == ""
  {
    ws.(cells := map[])
  }

  /** The service's open(title) finds the document. */
  predicate TitleFound(drive: Drive, title: string)
  {
    title in drive.titles && drive.titles[title] in drive.books
  }

  /** open_google_spreadsheet as written. The result is the key of the
      opened document. A title is tried alone: when it is not found the key
      is never tried. With only a key, open_by_key's result is discarded, so
      nothing is returned even when the key exists. */
  function OpenSpreadsheet(drive: Drive, title: Option<string>, key: Option<string>): (r: Result<Option<string>>)
    ensures r == Err(ValueError) <==> title.None? && key.None?
    ensures title.Some? ==> (r.Ok? <==> TitleFound(drive, title.value))
    ensures title.Some? && r.Ok? ==> r.value == Some(drive.titles[title.value])
    ensures r.Err? && (title.Some? || key.Some?) ==> r.error == SpreadsheetInaccessible
    ensures title.None? && key.Some? ==> (r.Ok? <==> key.value in drive.books)
    ensures r.Ok? ==> (r.value.Some? <==> title.Some?)
    ensures r.Ok? && r.value.Some? ==> r.value.value in drive.books
  {
    if title.None? && key.None? then Err(ValueError)
    else if title.Some? then
      if TitleFound(drive, title.value) then Ok(Some(drive.titles[title.value]))
      else Err(SpreadsheetInaccessible)
    else if key.value in drive.books then Ok(None)
    else Err(SpreadsheetInaccessible)
  }

  /** The behaviour the docstring of open_google_spreadsheet describes: the
      title is tried first, the key when the title is absent or not found,
      and the opened document is returned either way. */
  function OpenSpreadsheetIntended(drive: Drive, title: Option<string>, key: Option<string>): (r: Result<string>)
    ensures r == Err(ValueError) <==> title.None? && key.None?
    ensures r.Ok? <==> (title.Some? && TitleFound(drive, title.value)) || (key.Some? && key.value in drive.books)
    ensures r.Ok? ==> r.value in drive.books
    ensures title.Some? && TitleFound(drive, title.value) ==> r == Ok(drive.titles[title.value])
    ensures r.Err? && (title.Some? || key.Some?) ==> r.error == SpreadsheetInaccessible
  {
    if title.None? && key.None? then Err(ValueError)
    else if title.Some? && TitleFound(drive, title.value) then Ok(drive.titles[title.value])
    else if key.Some? && key.value in drive.books then Ok(key.value)
    else Err(SpreadsheetInaccessible)
  }

  /** With a title and no key, the only way the synchronisation code calls
      it, open_google_spreadsheet behaves as intended. */
  lemma OpenByTitleAgrees(drive: Drive, title: string)
    ensures OpenSpreadsheet(drive, Some(title), None).Ok?
        <==> OpenSpreadsheetIntended(drive, Some(title), None).Ok?
    ensures OpenSpreadsheet(drive, Some(title), None).Ok? ==>
              OpenSpreadsheet(drive, Some(title), None).value == Some(OpenSpreadsheetIntended(drive, Some(title), None).value)
    ensures OpenSpreadsheet(drive, Some(title), None).Err? ==>
              OpenSpreadsheet(drive, Some(title), None).error == OpenSpreadsheetIntended(drive, Some(title), None).error
  {
  }

  /** Opening by key alone succeeds but yields no document. */
  lemma KeyOnlyOpenYieldsNothing(drive: Drive, key: string)
    requires key in drive.books
    ensures OpenSpreadsheet(drive, None, Some(key)) == Ok(None)
    ensures OpenSpreadsheetIntended(drive, None, Some(key)) == Ok(key)
  {
  }

  /** A title that is not found is reported even when the key would open
      the document. */
  lemma TitleMissNeverTriesKey(drive: Drive, title: string, key: string)
    requires !TitleFound(drive, title) && key in drive.books
    ensures OpenSpreadsheet(drive, Some(title), Some(key)) == Err(SpreadsheetInaccessible)
    ensures OpenSpreadsheetIntended(drive, Some(title), Some(key)) == Ok(key)
  {
  }

  /** get_or_make_sheet_if_necessary: the worksheet called `name`, added
      with the given size and no values when the document has none. */
  function GetOrMakeSheet(book: Spreadsheet, name: string, rows: nat, cols: nat): (r: (Spreadsheet, Worksheet))
    ensures name in r.0.worksheets && r.0.worksheets[name] == r.1
    ensures name in book.worksheets ==> r.0 == book
    ensures name !in book.worksheets ==>
              r.1 == Worksheet(rows, cols, map[]) && r.0.worksheets == book.worksheets[name := r.1]
    ensures r.0.worksheets.Keys == book.worksheets.Keys + {name}
    ensures |r.0.worksheets| == |book.worksheets| + (if name in book.worksheets then 0 else 1)
  {
    if name in book.worksheets then (book, book.worksheets[name])
    else
      var ws := Worksheet(rows, cols, map[]);
      (book.(worksheets := book.worksheets[name := ws]), ws)
  }

  /** A second get-or-make with the same name returns the same worksheet
      and changes nothing. */
  lemma GetOrMakeSheetIdempotent(book: Spreadsheet, name: string, rows: nat, cols: nat, rows': nat, cols': nat)
    ensures var (book1, ws1) := GetOrMakeSheet(book, name, rows, cols);
            GetOrMakeSheet(book1, name, rows', cols') == (book1, ws1)
  {
  }

  /** The cells of the range (1, 1) to (rows, cols), in row-major order. */
  function RangeCoords(rows: nat, cols: nat): (cs: seq<Coord>)
    ensures |cs| == rows * cols
    ensures forall i :: 0 <= i < |cs| ==> 1 <= cs[i].0 <= rows && 1 <= cs[i].1 <= cols
  {
    if rows == 0 then []
    else
      var before := RangeCoords(rows - 1, cols);
      assert |before| + cols == rows * cols by {
        assert (rows - 1) * cols + cols == rows * cols;
      }
      before + seq(cols, j => (rows, j + 1))
  }

  /** Cell (r, c), counted from zero, is at position `r * cols + c`. */
  lemma {:induction false} RangeCoordAt(rows: nat, cols: nat, r: nat, c: nat)
    requires r < rows && c < cols
    ensures r * cols + c < rows * cols && RangeCoords(rows, cols)[r * cols + c] == (r + 1, c + 1)
  {
    var before := RangeCoords(rows - 1, cols);
    assert |before| == (rows - 1) * cols;
    if r == rows - 1 {
      assert r * cols + c == |before| + c;
    } else {
      RangeCoordAt(rows - 1, cols, r, c);
    }
  }

  /** No cell appears twice in a sequence of positions. */
  predicate Distinct(cs: seq<Coord>)
  {
    forall i, j :: 0 <= i < j < |cs| ==> cs[i] != cs[j]
  }

  lemma {:induction false} RangeCoordsDistinct(rows: nat, cols: nat)
    ensures Distinct(RangeCoords(rows, cols))
  {
    if rows > 0 {
      RangeCoordsDistinct(rows - 1, cols);
      var before := RangeCoords(rows - 1, cols);
      var cs := RangeCoords(rows, cols);
      forall i, j | 0 <= i < j < |cs| ensures cs[i] != cs[j] {
        if j >= |before| && i < |before| {
          assert cs[i] == before[i];
        }
      }
    }
  }

  /** The values a range shows, cell by cell. */
  function RangeValues(ws: Worksheet, cs: seq<Coord>): (vs: seq<string>)
    ensures |vs| == |cs|
    ensures forall i :: 0 <= i < |cs| ==> vs[i] == ValueAt(ws, cs[i])
  {
    seq(|cs|, i requires 0 <= i < |cs| => ValueAt(ws, cs[i]))
  }

  /** update_cells: each cell of the batch is written with its value, in
      order. */
  function UpdateCells(ws: Worksheet, cs: seq<Coord>, vs: seq<string>): (r: Worksheet)
    requires |cs| == |vs|
    ensures r.rowCount == ws.rowCount && r.colCount == ws.colCount
    decreases |cs|
  {
    if cs == [] then ws
    else UpdateCells(ws.(cells := ws.cells[cs[0] := vs[0]]), cs[1..], vs[1..])
  }

  /** A cell outside the batch keeps its value. */
  lemma {:induction false} UpdateCellsOutside(ws: Worksheet, cs: seq<Coord>, vs: seq<string>, p: Coord)
    requires |cs| == |vs| && p !in cs
    ensures ValueAt(UpdateCells(ws, cs, vs), p) == ValueAt(ws, p)
    decreases |cs|
  {
    if cs != [] {
      UpdateCellsOutside(ws.(cells := ws.cells[cs[0] := vs[0]]), cs[1..], vs[1..], p);
    }
  }

  /** In a batch without repeated cells, cell `i` ends with value `i`. */
  lemma {:induction false} UpdateCellsAt(ws: Worksheet, cs: seq<Coord>, vs: seq<string>, i: nat)
    requires |cs| == |vs| && Distinct(cs) && i < |cs|
    ensures ValueAt(UpdateCells(ws, cs, vs), cs[i]) == vs[i]
    decreases |cs|
  {
    var ws' := ws.(cells := ws.cells[cs[0] := vs[0]]);
    if i == 0 {
      assert cs[0] !in cs[1..];
      UpdateCellsOutside(ws', cs[1..], vs[1..], cs[0]);
    } else {
      UpdateCellsAt(ws', cs[1..], vs[1..], i - 1);
    }
  }
}
