/** Column labels of a spreadsheet: a zero-based column offset written in
    bijective base 26, most significant letter first (0 is "A", 25 is "Z",
    26 is "AA"). */
module ColumnId {

  /** The letter for the digit `d` (0 is 'A', 25 is 'Z'). */
  function Letter(d: nat): (c: char)
    requires d < 26
    ensures 'A' <= c <= 'Z' && c as int == 65 + d
  {
    (65 + d) as char
  }

  predicate IsLetter(c: char)
  {
    'A' <= c <= 'Z'
  }

  /** A well-formed label: non-empty and made of upper-case letters only. */
  predicate IsLabel(s: string)
  {
    |s| > 0 && forall i :: 0 <= i < |s| ==> IsLetter(s[i])
  }

  /** The label of column `n`: the last letter is `n % 26`, the letters
      before it label `n / 26 - 1`. */
  function ColumnLabel(n: nat): (id: string)
    ensures IsLabel(id)
    ensures |id| == 1 <==> n < 26
  {
    if n < 26 then [Letter(n)] else ColumnLabel(n / 26 - 1) + [Letter(n % 26)]
  }

  /** The value of a letter as a bijective digit: 'A' is 1, 'Z' is 26. */
  function Digit(c: char): (d: nat)
    requires IsLetter(c)
    ensures 1 <= d <= 26
  {
    c as int - 64
  }

  /** The bijective base-26 value of a string of letters. */
  function Value(s: string): (v: nat)
    requires forall i :: 0 <= i < |s| ==> IsLetter(s[i])
    ensures |s| > 0 ==> v >= 1
  {
    if s == [] then 0 else Value(s[..|s| - 1]) * 26 + Digit(s[|s| - 1])
  }

  /** The column offset a label names: the inverse of ColumnLabel. */
  function ColumnOffset(s: string): nat
    requires IsLabel(s)
  {
    Value(s) - 1
  }

  /** Reading back the label of column `n` gives `n`. */
  lemma {:induction false} OffsetOfLabel(n: nat)
    ensures ColumnOffset(ColumnLabel(n)) == n
  {
    var id := ColumnLabel(n);
    if n < 26 {
      assert id[..|id| - 1] == [];
    } else {
      var m := n / 26 - 1;
      OffsetOfLabel(m);
      assert id[..|id| - 1] == ColumnLabel(m);
      assert Value(id) == (m + 1) * 26 + n % 26 + 1;
    }
  }

  /** Every well-formed label is the label of exactly the column it names:
      the labels are precisely the non-empty upper-case words. */
  lemma {:induction false} LabelOfOffset(s: string)
    requires IsLabel(s)
    ensures ColumnLabel(ColumnOffset(s)) == s
  {
    var last := s[|s| - 1];
    var d := Digit(last);
    if |s| == 1 {
      assert Value(s) == d;
      assert ColumnLabel(d - 1) == [Letter(d - 1)];
      assert Letter(d - 1) == last;
    } else {
      var p := s[..|s| - 1];
      assert IsLabel(p);
      var v := Value(p);
      var n := v * 26 + d - 1;
      assert n / 26 == v && n % 26 == d - 1;
      LabelOfOffset(p);
      assert ColumnLabel(n) == ColumnLabel(v - 1) + [Letter(d - 1)];
      assert s == p + [last];
    }
  }

  /** Distinct columns get distinct labels, so the keys built from the
      labels of one row never collide. */
  lemma LabelInjective(a: nat, b: nat)
    ensures ColumnLabel(a) == ColumnLabel(b) <==> a == b
  {
    OffsetOfLabel(a);
    OffsetOfLabel(b);
  }

  /** The labels of the first and last one- and two-letter columns. */
  lemma LabelExamples()
    ensures ColumnLabel(0) == "A" && ColumnLabel(25) == "Z"
    ensures ColumnLabel(26) == "AA" && ColumnLabel(701) == "ZZ"
    ensures ColumnLabel(702) == "AAA"
  {
    assert ColumnLabel(0) == "A";
    assert ColumnLabel(26) == ColumnLabel(0) + "A";
    assert ColumnLabel(701) == ColumnLabel(25) + "Z";
    assert ColumnLabel(702) == ColumnLabel(26) + "A";
  }

  /** get_column_id: the loop prepends `offset_left % 26` as a letter and
      continues with `offset_left / 26 - 1` until the offset is spent. */
  method GetColumnId(offset: nat) returns (colId: string)
    ensures colId == ColumnLabel(offset)
    ensures IsLabel(colId) && ColumnOffset(colId) == offset
  {
    colId := "";
    var offsetLeft: int := offset;
    while offsetLeft >= 0
      invariant -1 <= offsetLeft <= offset
      invariant offsetLeft >= 0 ==> ColumnLabel(offsetLeft) + colId == ColumnLabel(offset)
      invariant offsetLeft == -1 ==> colId == ColumnLabel(offset)
      decreases offsetLeft + 1
    {
      var nextVal := offsetLeft % 26;
      ghost var before := offsetLeft;
      colId := [Letter(nextVal)] + colId;
      if offsetLeft == 0 {
        offsetLeft := -1;
      } else {
        offsetLeft := offsetLeft / 26 - 1;
      }
      if before >= 26 {
        assert ColumnLabel(before) == ColumnLabel(offsetLeft) + [Letter(nextVal)];
        assert ColumnLabel(offsetLeft) + colId == ColumnLabel(before) + colId[1..];
      }
    }
    OffsetOfLabel(offset);
  }
}
