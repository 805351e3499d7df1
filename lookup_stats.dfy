/** get_lookup_stats: the column count is the width of the first line of
    the lookup file, the row count the number of lines, header included. */
module LookupStats {
  import opened Base

  datatype Stats = Stats(colCount: nat, rowCount: nat)

  /** Reading the first line of an empty file raises StopIteration;
      otherwise the rows are counted one by one. */
  method GetLookupStats(file: Grid) returns (r: Result<Stats>)
    ensures r.Err? <==> file == []
    ensures r.Err? ==> r.error == StopIteration
    ensures r.Ok? ==> r.value.colCount == |file[0]| && r.value.rowCount == |file|
  {
    if |file| == 0 {
      return Err(StopIteration);
    }
    var colCount := |file[0]|;
    var rowCount := 0;
    for i := 0 to |file|
      invariant rowCount == i
    {
      rowCount := rowCount + 1;
    }
    return Ok(Stats(colCount, rowCount));
  }
}
