/** convert_to_dict: a grid becomes one map per row, keyed by the column
    labels of the row's cell positions. */
module RowMaps {
  import opened Base
  import opened ColumnId

  /** The labels of the first `n` columns. */
  function LabelSet(n: nat): set<string>
  {
    set j | 0 <= j < n :: ColumnLabel(j)
  }

  /** One more column adds its label to the set. */
  lemma LabelSetStep(n: nat)
    ensures LabelSet(n + 1) == LabelSet(n) + {ColumnLabel(n)}
  {
    assert ColumnLabel(n) in LabelSet(n + 1);
  }

  /** The first `n` columns have `n` different labels. */
  lemma {:induction false} LabelSetSize(n: nat)
    ensures |LabelSet(n)| == n
  {
    if n > 0 {
      LabelSetSize(n - 1);
      LabelSetStep(n - 1);
      if ColumnLabel(n - 1) in LabelSet(n - 1) {
        var j :| 0 <= j < n - 1 && ColumnLabel(j) == ColumnLabel(n - 1);
        LabelInjective(j, n - 1);
      }
    }
  }

  /** `m` maps the labels of the first `n` positions of `row`, and only
      those, to their cells. */
  ghost predicate IsPrefixMap(m: map<string, string>, row: Row, n: nat)
    requires n <= |row|
  {
    && m.Keys == LabelSet(n)
    && forall j :: 0 <= j < n ==> ColumnLabel(j) in m && m[ColumnLabel(j)] == row[j]
  }

  /** `m` is the map convert_to_dict builds for `row`: its keys are the
      labels of the row's positions, and each label maps to its cell. */
  ghost predicate IsRowMap(m: map<string, string>, row: Row)
  {
    IsPrefixMap(m, row, |row|)
  }

  /** Adding the next cell under its label extends the prefix map by one
      position without disturbing the cells already there. */
  lemma PrefixMapStep(m: map<string, string>, row: Row, n: nat)
    requires n < |row| && IsPrefixMap(m, row, n)
    ensures IsPrefixMap(m[ColumnLabel(n) := row[n]], row, n + 1)
  {
    var m' := m[ColumnLabel(n) := row[n]];
    LabelSetStep(n);
    assert m'.Keys == LabelSet(n + 1);
    forall j | 0 <= j < n + 1
      ensures ColumnLabel(j) in m' && m'[ColumnLabel(j)] == row[j]
    {
      if j < n {
        LabelInjective(j, n);
      }
    }
  }

  /** The inner loop of convert_to_dict: the map of one row, filled cell by
      cell under the label of each position. */
  method RowToMap(row: Row) returns (m: map<string, string>)
    ensures IsRowMap(m, row)
    ensures |m| == |row|
  {
    m := map[];
    for index := 0 to |row|
      invariant IsPrefixMap(m, row, index)
    {
      var key := GetColumnId(index);
      PrefixMapStep(m, row, index);
      m := m[key := row[index]];
    }
    LabelSetSize(|row|);
  }

  /** convert_to_dict: one map per row, in row order. */
  method ConvertToDict(listOfLists: Grid) returns (l: seq<map<string, string>>)
    ensures |l| == |listOfLists|
    ensures forall i :: 0 <= i < |l| ==> IsRowMap(l[i], listOfLists[i])
    ensures forall i :: 0 <= i < |l| ==> |l[i]| == |listOfLists[i]|
  {
    l := [];
    for i := 0 to |listOfLists|
      invariant |l| == i
      invariant forall k :: 0 <= k < i ==> IsRowMap(l[k], listOfLists[k]) && |l[k]| == |listOfLists[k]|
    {
      var nextList := RowToMap(listOfLists[i]);
      l := l + [nextList];
    }
  }
}
