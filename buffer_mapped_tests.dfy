/** tests/buffer_mapped_test.go: the table-driven cases of the repository's
    tests for the three cursor conversions, stated as methods whose
    postconditions are the expected results. CalcBufferIndexFromACXY only
    reads the lengths of the visual rows, so each test's visual buffer is
    given here by its row lengths. */
module BufferMappedTests {
  import opened Buffer
  import opened Cursor

  /** A visual row of n bytes. */
  function Row(n: nat): (s: string)
    ensures |s| == n
  {
    seq(n, _ => 'x')
  }

  /** The visual buffer with the given row lengths. */
  function Rows(lengths: seq<nat>): (v: seq<string>)
    ensures |v| == |lengths|
    ensures forall i :: 0 <= i < |v| ==> |v[i]| == lengths[i]
  {
    seq(|lengths|, i requires 0 <= i < |lengths| => Row(lengths[i]))
  }

  /** The line-end tables of TestCalcBufferLineFromACY. */
  const TableA: seq<int> := [2, 4, 5, 7, 8, 12, 13]
  const TableB: seq<int> := [1, 2, 3, 4, 5, 8, 9]
  const TableC: seq<int> := [1, 2, 3, 4, 5, 6, 7]
  const TableD: seq<int> := [2, 4, 5, 7, 8, 13, 14]

  lemma TablesIncrease()
    ensures StrictlyIncreasing(TableA) && StrictlyIncreasing(TableB)
    ensures StrictlyIncreasing(TableC) && StrictlyIncreasing(TableD)
  {
    AdjacentIncreasing(TableA);
    AdjacentIncreasing(TableB);
    AdjacentIncreasing(TableC);
    AdjacentIncreasing(TableD);
  }

  /** TestCalcBufferLineFromACY, cases 1, 2 and 6. */
  method CalcBufferLineCases1() returns (got: seq<int>)
    ensures got == [5, 1, 5]
  {
    TablesIncrease();
    var r1 := CalcBufferLineFromACY(10, TableA);
    var r2 := CalcBufferLineFromACY(3, TableA);
    var r6 := CalcBufferLineFromACY(12, TableA);
    got := [r1, r2, r6];
  }

  /** Cases 3, 4 and 5. */
  method CalcBufferLineCases2() returns (got: seq<int>)
    ensures got == [0, 5, 5]
  {
    TablesIncrease();
    var r3 := CalcBufferLineFromACY(1, TableB);
    var r4 := CalcBufferLineFromACY(7, TableB);
    var r5 := CalcBufferLineFromACY(8, TableB);
    got := [r3, r4, r5];
  }

  /** Cases 7 and 8: no line wraps, so the shortcut answers. */
  method CalcBufferLineCases3() returns (got: seq<int>)
    ensures got == [4, 5]
  {
    TablesIncrease();
    var r7 := CalcBufferLineFromACY(5, TableC);
    var r8 := CalcBufferLineFromACY(6, TableC);
    got := [r7, r8];
  }

  /** Cases 9 to 12. */
  method CalcBufferLineCases4() returns (got: seq<int>)
    ensures got == [3, 5, 5, 0]
  {
    TablesIncrease();
    var r9 := CalcBufferLineFromACY(7, TableD);
    var r10 := CalcBufferLineFromACY(10, TableD);
    var r11 := CalcBufferLineFromACY(13, TableD);
    var r12 := CalcBufferLineFromACY(1, TableD);
    got := [r9, r10, r11, r12];
  }

  /** The visual buffers of TestCalcBufferIndexFromACXY, by row length. */
  const VisualA: seq<string> := Rows([73, 65, 0, 62, 0, 74, 74, 61, 0])
  const VisualB: seq<string> := Rows([61, 12, 61, 4, 0, 61, 1, 0, 61, 61, 61, 26, 0])
  const VisualC: seq<string> := Rows([61, 12, 56, 0, 25, 0, 61, 1, 0, 61, 61, 61, 26, 0])
  const TableE: seq<int> := [2, 3, 4, 5, 6, 7, 8, 9, 13]

  /** TestCalcBufferIndexFromACXY, cases 1, 2, 4 and 11. */
  method CalcBufferIndexCases1() returns (got: seq<int>)
    ensures got == [73, 191, 0, 0]
  {
    var r1 := CalcBufferIndexFromACXY(74, 1, 0, VisualA, TableB);
    var r2 := CalcBufferIndexFromACXY(44, 8, 5, VisualA, TableB);
    assert RowsLength(VisualA, 5, 7) == 148;
    var r4 := CalcBufferIndexFromACXY(1, 1, 0, VisualA, TableB);
    var r11 := CalcBufferIndexFromACXY(1, 1, 0, VisualA, TableB);
    got := [r1, r2, r4, r11];
  }

  /** Cases 3 and 5. */
  method CalcBufferIndexCases2() returns (got: seq<int>)
    ensures got == [100, 191]
  {
    var r3 := CalcBufferIndexFromACXY(40, 10, 5, VisualB, TableA);
    assert RowsLength(VisualB, 8, 9) == 61;
    var r5 := CalcBufferIndexFromACXY(9, 12, 5, VisualB, TableA);
    assert RowsLength(VisualB, 8, 11) == 183;
    got := [r3, r5];
  }

  /** Cases 6 and 7. */
  method CalcBufferIndexCases3() returns (got: seq<int>)
    ensures got == [0, 36]
  {
    var r6 := CalcBufferIndexFromACXY(1, 4, 2, VisualC, TableE);
    var r7 := CalcBufferIndexFromACXY(37, 5, 3, VisualC, TableE);
    got := [r6, r7];
  }

  /** Cases 8, 9 and 10: one empty row; an empty row between others; a
      line of two rows with the cursor on the second. */
  method CalcBufferIndexCases4() returns (got: seq<int>)
    ensures got == [0, 1, 43]
  {
    var r8 := CalcBufferIndexFromACXY(1, 1, 0, Rows([0]), [1]);
    var r9 := CalcBufferIndexFromACXY(2, 2, 1, Rows([0, 0, 0]), [1, 3]);
    var v10 := Rows([0, 43, 11, 43]);
    var r10 := CalcBufferIndexFromACXY(1, 3, 1, v10, [1, 3, 4]);
    assert RowsLength(v10, 1, 2) == 43;
    got := [r8, r9, r10];
  }

  /** TestCalcNewACXY, cases 1 to 3, as (column, row) pairs. */
  method CalcNewACXYCases1() returns (got: seq<(int, int)>)
    ensures got == [(9, 12), (13, 2), (27, 7)]
  {
    var x1, y1 := CalcNewACXY(TableA, 5, 191, 62);
    var x2, y2 := CalcNewACXY(TableA, 0, 73, 62);
    var x3, y3 := CalcNewACXY(TableB, 5, 100, 75);
    got := [(x1, y1), (x2, y2), (x3, y3)];
  }

  /** Cases 4 to 6. */
  method CalcNewACXYCases2() returns (got: seq<(int, int)>)
    ensures got == [(40, 10), (3, 11), (1, 1)]
  {
    var x4, y4 := CalcNewACXY(TableA, 5, 100, 62);
    var x5, y5 := CalcNewACXY([2, 4, 5, 6, 7, 11, 12], 5, 191, 64);
    var x6, y6 := CalcNewACXY(TableA, 0, 0, 62);
    got := [(x4, y4), (x5, y5), (x6, y6)];
  }

  /** Cases 1 and 4 of TestCalcNewACXY land where cases 5 and 3 of
      TestCalcBufferIndexFromACXY start: index 191 goes to (9, 12) and back,
      index 100 to (40, 10) and back. Neither remainder is 0, so the defect
      shown by Cursor.CalcNewACXYMisplacesCursor does not arise. */
  method RoundTripCases() returns (got: seq<int>)
    ensures got == [191, 100]
  {
    var x1, y1 := CalcNewACXY(TableA, 5, 191, 62);
    var i1 := CalcBufferIndexFromACXY(x1, y1, 5, VisualB, TableA);
    assert RowsLength(VisualB, 8, 11) == 183;
    var x4, y4 := CalcNewACXY(TableA, 5, 100, 62);
    var i4 := CalcBufferIndexFromACXY(x4, y4, 5, VisualB, TableA);
    assert RowsLength(VisualB, 8, 9) == 61;
    got := [i1, i4];
  }
}
