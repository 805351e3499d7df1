/** The fill loop of the export: the cells of the target range, taken in
    row-major order, receive the values of the lookup file one by one
    through a single iterator over the range. */
module CellFill {
  import opened Base

  /** The values of a file in the order the nested loops visit them. */
  function Flatten(file: Grid): seq<string>
  {
    if file == [] then [] else file[0] + Flatten(file[1..])
  }

  lemma {:induction false} FlattenAppend(file: Grid, row: Row)
    ensures Flatten(file + [row]) == Flatten(file) + row
  {
    if file == [] {
      assert [row][1..] == [];
    } else {
      assert (file + [row])[1..] == file[1..] + [row];
      FlattenAppend(file[1..], row);
    }
  }

  /** A file of `|file|` rows of `width` cells flattens to `|file| * width`
      values. */
  lemma {:induction false} FlattenRectangularSize(file: Grid, width: nat)
    requires Rectangular(file, width)
    ensures |Flatten(file)| == |file| * width
  {
    if file != [] {
      var n := |file| - 1;
      FlattenRectangularSize(file[1..], width);
      assert |Flatten(file)| == width + n * width;
      assert width + n * width == (n + 1) * width;
    }
  }

  /** In the flattened rectangular file, the value at `r * width + c` is
      cell (r, c). */
  lemma {:induction false} FlattenRectangularAt(file: Grid, width: nat, r: nat, c: nat)
    requires Rectangular(file, width)
    requires r < |file| && c < width
    ensures r * width + c < |Flatten(file)| && Flatten(file)[r * width + c] == file[r][c]
  {
    var rest := file[1..];
    assert Flatten(file) == file[0] + Flatten(rest);
    if r == 0 {
      assert r * width + c == c;
    } else {
      FlattenRectangularAt(rest, width, r - 1, c);
      var k' := (r - 1) * width + c;
      assert r * width + c == width + k' by {
        assert (r - 1) * width + width == r * width;
      }
      assert Flatten(file)[width + k'] == Flatten(rest)[k'];
    }
  }

  /** The range after the fill: the values overwrite the cells from the
      first one on; when there are more values than cells, every cell is
      overwritten and the rest of the values are never placed. */
  function Filled(cells: seq<string>, values: seq<string>): (r: seq<string>)
  {
    if |values| <= |cells| then values + cells[|values|..] else values[..|cells|]
  }

  /** Cell `k` of the filled range holds value `k` if there is one and keeps
      its old value otherwise. */
  lemma FilledAt(cells: seq<string>, values: seq<string>, k: nat)
    requires k < |cells|
    ensures |Filled(cells, values)| == |cells|
    ensures Filled(cells, values)[k] == if k < |values| then values[k] else cells[k]
  {
  }

  /** A cell that receives a value holds it. */
  lemma FilledPrefixAt(cells: seq<string>, values: seq<string>, k: nat)
    requires k < |values| <= |cells|
    ensures k < |cells| && Filled(cells, values)[k] == values[k]
  {
  }

  lemma FilledStep(cells: seq<string>, done: seq<string>, v: string)
    requires |done| < |cells|
    ensures Filled(cells, done)[|done| := v] == Filled(cells, done + [v])
  {
    var a := Filled(cells, done)[|done| := v];
    var b := Filled(cells, done + [v]);
    assert |a| == |b|;
    forall k | 0 <= k < |a| ensures a[k] == b[k] {
      FilledAt(cells, done, k);
      FilledAt(cells, done + [v], k);
    }
  }

  /** One step of the inner loop: placing the next value of the row at
      position `|done| + j` extends the filled prefix by that value. */
  lemma FillStep(cells: seq<string>, done: seq<string>, row: Row, j: nat)
    requires j < |row| && |done| + j < |cells|
    ensures Filled(cells, done + row[..j])[|done| + j := row[j]] == Filled(cells, done + row[..j + 1])
  {
    FilledStep(cells, done + row[..j], row[j]);
    assert done + row[..j + 1] == (done + row[..j]) + [row[j]];
  }

  /** One step of the outer loop: the rows up to `i` flatten to the rows
      before `i` followed by row `i`. */
  lemma FlattenStep(file: Grid, i: nat)
    requires i < |file|
    ensures Flatten(file[..i + 1]) == Flatten(file[..i]) + file[i]
  {
    assert file[..i + 1] == file[..i] + [file[i]];
    FlattenAppend(file[..i], file[i]);
  }

  /** The fill loop (lines 330-336): `next` is the position of the iterator
      over the range. It fails (StopIteration) exactly when the file holds
      more values than the range has cells, after every cell has been set. */
  method FillCells(cells: array<string>, file: Grid) returns (ok: bool)
    modifies cells
    ensures ok <==> |Flatten(file)| <= cells.Length
    ensures cells[..] == Filled(old(cells[..]), Flatten(file))
  {
    ghost var original := cells[..];
    var next := 0;
    for i := 0 to |file|
      invariant next == |Flatten(file[..i])| <= cells.Length
      invariant cells[..] == Filled(original, Flatten(file[..i]))
    {
      var row := file[i];
      ghost var done := Flatten(file[..i]);
      for j := 0 to |row|
        invariant next == |done| + j <= cells.Length
        invariant cells[..] == Filled(original, done + row[..j])
      {
        if next == cells.Length {
          TooManyValues(original, file, i, j);
          return false;
        }
        FillStep(original, done, row, j);
        cells[next] := row[j];
        next := next + 1;
      }
      FlattenStep(file, i);
      assert row[..|row|] == row;
    }
    assert file[..|file|] == file;
    return true;
  }

  /** Once the iterator is exhausted in the middle of row `i`, the file has
      more values than the range, and the range already holds its final
      contents. */
  lemma TooManyValues(cells: seq<string>, file: Grid, i: nat, j: nat)
    requires i < |file| && j < |file[i]|
    requires |Flatten(file[..i])| + j == |cells|
    ensures |Flatten(file)| > |cells|
    ensures Filled(cells, Flatten(file[..i]) + file[i][..j]) == Filled(cells, Flatten(file))
  {
    var done := Flatten(file[..i]) + file[i][..j];
    var all := Flatten(file);
    FlattenSplit(file, i);
    assert all == Flatten(file[..i]) + file[i] + Flatten(file[i + 1..]);
    assert all[..|cells|] == done;
  }

  lemma FlattenSplit(file: Grid, i: nat)
    requires i < |file|
    ensures Flatten(file) == Flatten(file[..i]) + file[i] + Flatten(file[i + 1..])
  {
    var back := file[i..];
    assert file == file[..i] + back;
    FlattenConcat(file[..i], back);
    assert back[0] == file[i] && back[1..] == file[i + 1..];
    assert Flatten(back) == file[i] + Flatten(file[i + 1..]);
  }

  lemma {:induction false} FlattenConcat(a: Grid, b: Grid)
    ensures Flatten(a + b) == Flatten(a) + Flatten(b)
  {
    if a != [] {
      assert (a + b)[1..] == a[1..] + b;
      FlattenConcat(a[1..], b);
    } else {
      assert a + b == b;
    }
  }

  /** A range of one row more than a rectangular file has room for all of
      the file's values. */
  lemma RectangularFits(cells: seq<string>, file: Grid, width: nat)
    requires Rectangular(file, width)
    requires |cells| == (|file| + 1) * width
    ensures |Flatten(file)| == |file| * width <= |cells|
  {
    FlattenRectangularSize(file, width);
    assert (|file| + 1) * width == |file| * width + width;
  }

  /** Cell (r, c) of a range with room for every value of a rectangular
      file receives cell (r, c) of the file. */
  lemma RectangularFillAt(cells: seq<string>, file: Grid, width: nat, r: nat, c: nat)
    requires Rectangular(file, width) && |Flatten(file)| <= |cells|
    requires r < |file| && c < width
    ensures r * width + c < |cells| && Filled(cells, Flatten(file))[r * width + c] == file[r][c]
  {
    FlattenRectangularAt(file, width, r, c);
    FilledPrefixAt(cells, Flatten(file), r * width + c);
  }

  /** The cells after the values of a rectangular file keep their old
      values. */
  lemma RectangularFillTail(cells: seq<string>, file: Grid, width: nat, k: nat)
    requires Rectangular(file, width)
    requires |file| * width <= k < |cells|
    ensures Filled(cells, Flatten(file))[k] == cells[k]
  {
    FlattenRectangularSize(file, width);
    FilledAt(cells, Flatten(file), k);
  }

  /** For a file whose rows all have the width of the first row, in a range
      of one extra row: cell (r, c) of the range receives cell (r, c) of
      the file, and the extra last row keeps its old values. */
  lemma RectangularFill(cells: seq<string>, file: Grid, width: nat)
    requires Rectangular(file, width)
    requires |cells| == (|file| + 1) * width
    ensures |Flatten(file)| <= |cells|
    ensures forall r, c :: 0 <= r < |file| && 0 <= c < width ==>
              r * width + c < |cells| && Filled(cells, Flatten(file))[r * width + c] == file[r][c]
    ensures forall k :: |file| * width <= k < |cells| ==> Filled(cells, Flatten(file))[k] == cells[k]
  {
    RectangularFits(cells, file, width);
    forall r, c | 0 <= r < |file| && 0 <= c < width
      ensures r * width + c < |cells| && Filled(cells, Flatten(file))[r * width + c] == file[r][c]
    {
      RectangularFillAt(cells, file, width, r, c);
    }
    forall k | |file| * width <= k < |cells|
      ensures Filled(cells, Flatten(file))[k] == cells[k]
    {
      RectangularFillTail(cells, file, width, k);
    }
  }
}
