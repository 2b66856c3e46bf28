/** fileEditor/cursor.go: converting between screen coordinates (a 1-indexed
    visual row `acY` and a 1-indexed column `acX`, both without the left
    margin) and buffer coordinates (a 0-indexed logical line and an index into
    it). UpdateBufferIndicies writes editor fields and lives in
    Editor.FileEditor. */
module Cursor {
  import opened GoStd
  import opened Buffer

  // ---------------------------------------------------------------------
  // Visual row -> logical line

  /** Linear reference for the search: the first line whose end entry is at
      least `row`, or the last line when there is none. */
  function LineOfRow(mappedBuffer: seq<int>, row: int): (k: int)
    ensures |mappedBuffer| == 0 ==> k == 0
    ensures |mappedBuffer| > 0 ==> 0 <= k < |mappedBuffer|
    ensures forall i :: 0 <= i < k && i < |mappedBuffer| ==> mappedBuffer[i] < row
    ensures |mappedBuffer| > 0 ==> mappedBuffer[k] >= row || k == |mappedBuffer| - 1
  {
    if |mappedBuffer| == 0 then 0 else LineFrom(mappedBuffer, row, 0)
  }

  function LineFrom(mappedBuffer: seq<int>, row: int, i: nat): (k: int)
    requires i < |mappedBuffer|
    ensures i <= k < |mappedBuffer|
    ensures forall j :: i <= j < k ==> mappedBuffer[j] < row
    ensures mappedBuffer[k] >= row || k == |mappedBuffer| - 1
    decreases |mappedBuffer| - i
  {
    if mappedBuffer[i] >= row || i == |mappedBuffer| - 1 then i
    else LineFrom(mappedBuffer, row, i + 1)
  }

  /** LineOfRow is the only index with its two defining properties. */
  lemma LineOfRowUnique(mappedBuffer: seq<int>, row: int, k: int)
    requires 0 <= k < |mappedBuffer|
    requires forall i :: 0 <= i < k ==> mappedBuffer[i] < row
    requires mappedBuffer[k] >= row || k == |mappedBuffer| - 1
    ensures LineOfRow(mappedBuffer, row) == k
  {
  }

  /** CalcBufferLineFromACY: a binary search over the line-end table, with a
      shortcut for the common case of no wrapped line so far. It returns on
      every input; on a strictly increasing table it finds LineOfRow. The
      shortcut reads entry acY - 1, so acY must be at least 1 when it is
      taken. */
  method CalcBufferLineFromACY(acY: int, mappedBuffer: seq<int>) returns (line: int)
    requires acY < |mappedBuffer| ==> acY >= 1
    ensures |mappedBuffer| == 0 ==> line == 0
    ensures |mappedBuffer| > 0 ==> 0 <= line < |mappedBuffer|
    ensures StrictlyIncreasing(mappedBuffer) ==> line == LineOfRow(mappedBuffer, acY)
  {
    var target := acY;
    if target < |mappedBuffer| && mappedBuffer[target - 1] == target {
      if StrictlyIncreasing(mappedBuffer) {
        LineOfRowUnique(mappedBuffer, target, target - 1);
      }
      return target - 1;
    }
    var left := 0;
    var right := |mappedBuffer| - 1;
    var res := 0;
    while left <= right
      invariant 0 <= left && right < |mappedBuffer|
      invariant |mappedBuffer| > 0 ==> left <= right
      invariant |mappedBuffer| > 0 && StrictlyIncreasing(mappedBuffer) ==>
        (forall i :: 0 <= i < left ==> mappedBuffer[i] < target) &&
        (mappedBuffer[right] >= target || right == |mappedBuffer| - 1)
      decreases right - left
    {
      var mid := (left + right) / 2;
      var v := mappedBuffer[mid];
      if target == v {
        if StrictlyIncreasing(mappedBuffer) {
          LineOfRowUnique(mappedBuffer, target, mid);
        }
        return mid;
      }
      if target <= mappedBuffer[left] {
        if StrictlyIncreasing(mappedBuffer) {
          LineOfRowUnique(mappedBuffer, target, left);
        }
        return left;
      }
      if target >= mappedBuffer[right] {
        if StrictlyIncreasing(mappedBuffer) {
          LineOfRowUnique(mappedBuffer, target, right);
        }
        return right;
      }
      if right - left == 1 && target > mappedBuffer[left] && target <= mappedBuffer[right] {
        if StrictlyIncreasing(mappedBuffer) {
          LineOfRowUnique(mappedBuffer, target, right);
        }
        return right;
      }
      // here mappedBuffer[left] < target < mappedBuffer[right] and right - left >= 2,
      // so left < mid < right and the interval shrinks
      if target < v {
        right := mid;
      } else if target > v {
        left := mid;
      }
    }
    return res;
  }

  /** Every row inside line k's span of a strictly increasing table belongs
      to line k. */
  lemma RowInLine(mappedBuffer: seq<int>, k: int, row: int)
    requires StrictlyIncreasing(mappedBuffer)
    requires 0 <= k < |mappedBuffer|
    requires RowStart(mappedBuffer, k) < row <= mappedBuffer[k]
    ensures LineOfRow(mappedBuffer, row) == k
  {
    forall i | 0 <= i < k
      ensures mappedBuffer[i] < row
    {
      if i < k - 1 {
        assert mappedBuffer[i] < mappedBuffer[k - 1];
      }
    }
    LineOfRowUnique(mappedBuffer, row, k);
  }

  /** Every visual row of a laid-out document falls inside the span of the
      line the search finds. */
  lemma LineOfValidRow(lines: seq<string>, visual: seq<string>, mapped: seq<int>, row: int)
    requires WellFormedLayout(lines, visual, mapped)
    requires 1 <= row <= |visual|
    ensures 0 <= LineOfRow(mapped, row) < |lines|
    ensures RowStart(mapped, LineOfRow(mapped, row)) < row <= mapped[LineOfRow(mapped, row)]
  {
    var k := LineOfRow(mapped, row);
    if k > 0 {
      assert mapped[k - 1] < row;
    }
  }

  // ---------------------------------------------------------------------
  // (row, column) -> index into the logical line

  /** The total length of visual rows lo .. hi - 1 (0 for an empty range). */
  function RowsLength(visual: seq<string>, lo: int, hi: int): int
    requires lo < hi ==> 0 <= lo && hi <= |visual|
    decreases hi - lo
  {
    if lo >= hi then 0 else RowsLength(visual, lo, hi - 1) + |visual[hi - 1]|
  }

  /** The rows RowsLength adds up are the rows glued together. */
  lemma {:induction false} RowsLengthConcat(visual: seq<string>, lo: int, hi: int)
    requires 0 <= lo <= hi <= |visual|
    ensures RowsLength(visual, lo, hi) == |Concat(visual[lo..hi])|
    decreases hi - lo
  {
    if lo < hi {
      RowsLengthConcat(visual, lo, hi - 1);
      assert visual[lo..hi] == visual[lo..hi - 1] + [visual[hi - 1]];
      ConcatAppend(visual[lo..hi - 1], [visual[hi - 1]]);
      assert Concat([visual[hi - 1]]) == visual[hi - 1] + Concat([]);
    }
  }

  lemma {:induction false} RowsLengthMonotone(visual: seq<string>, lo: int, mid: int, hi: int)
    requires 0 <= lo <= mid <= hi <= |visual|
    ensures RowsLength(visual, lo, mid) <= RowsLength(visual, lo, hi)
    decreases hi - mid
  {
    if mid < hi {
      RowsLengthMonotone(visual, lo, mid, hi - 1);
    }
  }

  /** The last visual row CalcBufferIndexFromACXY's loop reads, plus one. */
  function ScanStop(acY: int, start: int, end: int): int
  {
    if start <= acY - 1 < end then acY - 1 else Max(start, end)
  }

  /** CalcBufferIndexFromACXY: the lengths of the line's rows above the cursor
      row plus the column, minus one. When the cursor row lies outside the
      line's span, the loop adds up the whole span instead. The rows read must
      exist. */
  method CalcBufferIndexFromACXY(acX: int, acY: int, bufferLine: int,
                                 visualBuffer: seq<string>, mappedBuffer: seq<int>)
    returns (index: int)
    requires 0 <= bufferLine < |mappedBuffer|
    requires var start := RowStart(mappedBuffer, bufferLine);
             var stop := ScanStop(acY, start, mappedBuffer[bufferLine]);
             start < stop ==> 0 <= start && stop <= |visualBuffer|
    ensures var start, end := RowStart(mappedBuffer, bufferLine), mappedBuffer[bufferLine];
            start <= acY - 1 < end ==> index == RowsLength(visualBuffer, start, acY - 1) + acX - 1
    ensures var start, end := RowStart(mappedBuffer, bufferLine), mappedBuffer[bufferLine];
            !(start <= acY - 1 < end) ==> index == RowsLength(visualBuffer, start, end) - 1
    ensures acY - 1 == RowStart(mappedBuffer, bufferLine) < mappedBuffer[bufferLine] ==> index == acX - 1
  {
    var totalLength := 0;
    var start := 0;
    var end := mappedBuffer[bufferLine];
    if bufferLine > 0 {
      start := mappedBuffer[bufferLine - 1];
    }
    ghost var stop := ScanStop(acY, start, end);
    var i := start;
    while i < end
      invariant start <= i <= stop
      invariant totalLength == RowsLength(visualBuffer, start, i)
      decreases end - i
    {
      if i == acY - 1 {
        totalLength := totalLength + acX;
        break;
      }
      totalLength := totalLength + |visualBuffer[i]|;
      i := i + 1;
    }
    index := totalLength - 1;
  }

  /** On a laid-out document, a cursor on a visual row in the text (column
      between 1 and one past the row's end) gives an index between 0 and the
      length of the line the search finds for that row. */
  lemma IndexWithinLine(lines: seq<string>, visual: seq<string>, mapped: seq<int>, acX: int, acY: int)
    requires WellFormedLayout(lines, visual, mapped)
    requires 1 <= acY <= |visual|
    requires 1 <= acX <= |visual[acY - 1]| + 1
    ensures var k := LineOfRow(mapped, acY);
            0 <= k < |lines| &&
            0 <= RowsLength(visual, RowStart(mapped, k), acY - 1) + acX - 1 <= |lines[k]|
  {
    LineOfValidRow(lines, visual, mapped, acY);
    var k := LineOfRow(mapped, acY);
    var start, end := RowStart(mapped, k), mapped[k];
    RowsLengthConcat(visual, start, acY - 1);
    RowsLengthMonotone(visual, start, acY, end);
    RowsLengthConcat(visual, start, end);
  }

  // ---------------------------------------------------------------------
  // index -> (row, column) after a change of width, as written

  /** How many rows CalcNewACXY's loop walks: it stops on the first row where
      what is left of `b` is below the width, and at the end of the line. */
  function RowsWalked(b: int, width: int, count: int): (y: int)
    ensures count <= 0 ==> y == 0
    ensures count > 0 ==> 1 <= y <= count
  {
    if count <= 0 then 0
    else if b < width then 1
    else if width <= 0 then count
    else Min(count, b / width + 1)
  }

  lemma MulMonotone(a: int, b: int, d: int)
    requires a <= b && d >= 0
    ensures a * d <= b * d
  {
    var k := b - a;
    assert b * d == a * d + k * d;
    assert k * d >= 0;
  }

  lemma DivExact(b: int, width: int, y: int, r: int)
    requires width > 0 && 0 <= r < width && b == y * width + r
    ensures b / width == y
  {
    var q, m := b / width, b % width;
    assert b == q * width + m;
    if q < y {
      assert (q + 1) * width == q * width + width;
      MulMonotone(q + 1, y, width);
    } else if q > y {
      assert (y + 1) * width == y * width + width;
      MulMonotone(y + 1, q, width);
    }
  }

  lemma DivAtLeast(b: int, width: int, y: int)
    requires width > 0 && y * width <= b
    ensures b / width >= y
  {
    var q, m := b / width, b % width;
    assert b == q * width + m;
    if q < y {
      MulMonotone(q + 1, y, width);
    }
  }

  lemma MulSucc(y: int, w: int)
    ensures (y + 1) * w == y * w + w
  {
  }

  /** CalcNewACXY's loop leaving by its break after y0 full rows. */
  lemma BreakRows(b: int, w: int, count: int, y0: int)
    requires 0 <= y0 < count
    requires b - y0 * w < w
    requires y0 >= 1 ==> b >= w
    requires y0 >= 1 && w >= 1 ==> b - y0 * w >= 0
    requires y0 >= 1 && w <= 0 ==> b - y0 * w >= b
    ensures y0 + 1 == RowsWalked(b, w, count)
  {
    if y0 >= 1 {
      DivExact(b, w, y0, b - y0 * w);
    }
  }

  /** CalcNewACXY's loop running to the end of the line's rows. */
  lemma FullRows(b: int, w: int, count: int)
    requires count >= 1 && b >= w
    requires w >= 1 ==> b - count * w >= 0
    ensures count == RowsWalked(b, w, count)
  {
    if w >= 1 {
      DivAtLeast(b, w, count);
    }
  }

  /** CalcNewACXY: the row comes from subtracting the width once per row, the
      column from the remainder by width - 1 (Go's `%`, which panics on
      width - 1 == 0). */
  method CalcNewACXY(newBufMapped: seq<int>, bufferLine: int, bufferIndex: int, newEditorWidth: int)
    returns (newACX: int, newACY: int)
    requires 0 <= bufferLine < |newBufMapped|
    requires newEditorWidth != 1
    ensures newACX == Rem(bufferIndex + 1, newEditorWidth - 1)
    ensures newACY == RowStart(newBufMapped, bufferLine)
                      + RowsWalked(bufferIndex + 1, newEditorWidth,
                                   newBufMapped[bufferLine] - RowStart(newBufMapped, bufferLine))
  {
    var start := 0;
    var end := newBufMapped[bufferLine];
    if bufferLine > 0 {
      start := newBufMapped[bufferLine - 1];
    }
    ghost var b := bufferIndex + 1;
    ghost var count := end - start;
    var index := bufferIndex + 1;
    var y := 0;
    var max := index;
    var i := start;
    while i < end
      invariant y == i - start && start <= i
      invariant i <= Max(start, end)
      invariant max == b - y * newEditorWidth
      invariant y >= 1 ==> b >= newEditorWidth
      invariant y >= 1 && newEditorWidth >= 1 ==> max >= 0
      invariant y >= 1 && newEditorWidth <= 0 ==> max >= b
      decreases end - i
    {
      if max < newEditorWidth {
        BreakRows(b, newEditorWidth, count, y);
        y := y + 1;
        newACY := start + y;
        newACX := Rem(index, newEditorWidth - 1);
        return;
      }
      MulSucc(y, newEditorWidth);
      max := max - newEditorWidth;
      y := y + 1;
      i := i + 1;
    }
    if count >= 1 {
      FullRows(b, newEditorWidth, count);
    }
    newACY := start + y;
    newACX := Rem(index, newEditorWidth - 1);
  }

  /** The bounds CalcNewACXY guarantees: a column in [0, width - 2] and a row
      inside the line's span. */
  lemma CalcNewACXYBounds(newBufMapped: seq<int>, bufferLine: int, bufferIndex: int, newEditorWidth: int)
    requires 0 <= bufferLine < |newBufMapped|
    requires newEditorWidth >= 2 && bufferIndex >= -1
    ensures 0 <= Rem(bufferIndex + 1, newEditorWidth - 1) <= newEditorWidth - 2
    ensures var start, end := RowStart(newBufMapped, bufferLine), newBufMapped[bufferLine];
            start < end ==>
              start + 1 <= start + RowsWalked(bufferIndex + 1, newEditorWidth, end - start) <= end
  {
  }

  // ---------------------------------------------------------------------
  // index -> (row, column), corrected

  /** The row an index lands on, capped at the line's last row, starts at or
      before the index; uncapped, the index lies within that row. */
  lemma RowOfIndex(i: int, d: int, cap: int)
    requires d >= 1
    ensures i >= 0 && cap >= 0 ==> 0 <= Min(i / d, cap) <= cap && Min(i / d, cap) * d <= i
    ensures i >= 0 && i / d <= cap ==> 0 <= i - (i / d) * d < d
  {
    if i >= 0 {
      DivFacts(i, d);
      if cap >= 0 && cap < i / d {
        assert (i / d) * d - cap * d == (i / d - cap) * d;
      }
    }
  }

  /** Where index `i` of line `k` sits when the line is cut into rows of
      width - 1 bytes: row i / (width - 1) of the line (the last row for an
      index at the very end), column i mod (width - 1) + 1. */
  function Reproject(mappedBuffer: seq<int>, k: int, i: int, width: int): (pos: (int, int))
    requires 0 <= k < |mappedBuffer| && width >= 2
    ensures i == (pos.1 - RowStart(mappedBuffer, k) - 1) * (width - 1) + pos.0 - 1
    ensures 0 <= i && RowStart(mappedBuffer, k) < mappedBuffer[k] ==>
              RowStart(mappedBuffer, k) + 1 <= pos.1 <= mappedBuffer[k] && pos.0 >= 1
    ensures 0 <= i && i / (width - 1) < mappedBuffer[k] - RowStart(mappedBuffer, k) ==> 1 <= pos.0 <= width - 1
  {
    RowOfIndex(i, width - 1, mappedBuffer[k] - RowStart(mappedBuffer, k) - 1);
    var start := RowStart(mappedBuffer, k);
    var j := Min(i / (width - 1), mappedBuffer[k] - start - 1);
    (i - j * (width - 1) + 1, start + j + 1)
  }

  /** Rows of one common length add up to that length once per row. */
  lemma {:induction false} ConcatUniform(rows: seq<string>, d: int)
    requires forall i :: 0 <= i < |rows| ==> |rows[i]| == d
    ensures |Concat(rows)| == |rows| * d
    decreases |rows|
  {
    if rows != [] {
      ConcatUniform(rows[1..], d);
      assert |rows| * d == d + (|rows| - 1) * d;
    }
  }

  /** Full rows of a wrapped line add up to (width - 1) bytes each. */
  lemma WrappedPrefixLength(line: string, width: int, j: nat)
    requires width >= 2 && j < |Wrapped(line, width)|
    ensures |Concat(Wrapped(line, width)[..j])| == j * (width - 1)
  {
    var ws := Wrapped(line, width);
    var p := ws[..j];
    assert forall i :: 0 <= i < |p| ==> |p[i]| == width - 1 by {
      forall i | 0 <= i < |p|
        ensures |p[i]| == width - 1
      {
        assert p[i] == ws[i] && i < |ws| - 1;
      }
    }
    ConcatUniform(p, width - 1);
  }

  lemma WrappedLastLength(line: string, width: int)
    requires width >= 2
    ensures var ws := Wrapped(line, width);
            |ws[|ws| - 1]| == |line| - (|ws| - 1) * (width - 1)
  {
    var ws := Wrapped(line, width);
    WrappedPrefixLength(line, width, |ws| - 1);
    ConcatLastLength(ws);
  }

  /** The glued length is that of all rows but the last plus the last. */
  lemma ConcatLastLength(ws: seq<string>)
    requires |ws| >= 1
    ensures |Concat(ws)| == |Concat(ws[..|ws| - 1])| + |ws[|ws| - 1]|
  {
    var n := |ws|;
    assert ws == ws[..n - 1] + [ws[n - 1]];
    ConcatAppend(ws[..n - 1], [ws[n - 1]]);
    assert Concat([ws[n - 1]]) == ws[n - 1] + Concat([]);
  }

  lemma DivFacts(i: int, d: int)
    requires i >= 0 && d >= 1
    ensures (i / d) * d <= i
    ensures i - (i / d) * d < d
    ensures i / d >= 0
  {
    assert i == (i / d) * d + i % d;
  }

  /** The rows visual[start..start + j] add up to the length of the first
      j of the segments they hold. */
  lemma SliceRowsLength(visual: seq<string>, start: int, end: int, ws: seq<string>, j: int)
    requires 0 <= start && 0 <= j <= end - start && end <= |visual|
    requires visual[start..end] == ws
    ensures RowsLength(visual, start, start + j) == |Concat(ws[..j])|
  {
    assert visual[start..start + j] == ws[..j];
    RowsLengthConcat(visual, start, start + j);
  }

  lemma ColumnInRow(i: int, width: int, j: int, rows: int, rowLength: int, lineLength: int)
    requires width >= 2 && 0 <= i <= lineLength && rows >= 1
    requires j == Min(i / (width - 1), rows - 1)
    requires j < rows - 1 ==> rowLength == width - 1
    requires j == rows - 1 ==> rowLength == lineLength - j * (width - 1)
    ensures 0 <= j && 0 <= i - j * (width - 1) <= rowLength
  {
    DivFacts(i, width - 1);
    MulMonotone(j, i / (width - 1), width - 1);
  }

  lemma WrappedRowLength(line: string, width: int, j: int)
    requires width >= 2 && 0 <= j < |Wrapped(line, width)|
    ensures j < |Wrapped(line, width)| - 1 ==> |Wrapped(line, width)[j]| == width - 1
    ensures j == |Wrapped(line, width)| - 1 ==> |Wrapped(line, width)[j]| == |line| - j * (width - 1)
  {
    if j == |Wrapped(line, width)| - 1 {
      WrappedLastLength(line, width);
    }
  }

  /** The length of row j of a line's rows: a full row, or what is left
      of the line for the last one. */
  lemma RowLengthAt(visual: seq<string>, start: int, end: int, line: string, width: int, j: int)
    requires width >= 2 && 0 <= start < end <= |visual|
    requires visual[start..end] == Wrapped(line, width)
    requires 0 <= j < end - start
    ensures j < end - start - 1 ==> |visual[start + j]| == width - 1
    ensures j == end - start - 1 ==> |visual[start + j]| == |line| - j * (width - 1)
  {
    var ws := Wrapped(line, width);
    assert visual[start + j] == ws[j];
    WrappedRowLength(line, width, j);
  }

  lemma ReprojectInLine(visual: seq<string>, start: int, end: int, line: string, width: int, i: int, j: int)
    requires width >= 2 && 0 <= start < end <= |visual|
    requires visual[start..end] == Wrapped(line, width)
    requires 0 <= i <= |line|
    requires j == Min(i / (width - 1), end - start - 1)
    ensures 0 <= j && start + j + 1 <= end
    ensures 0 <= i - j * (width - 1) <= |visual[start + j]|
  {
    DivFacts(i, width - 1);
    assert 0 <= j < end - start;
    RowLengthAt(visual, start, end, line, width, j);
    ColumnInRow(i, width, j, end - start, |visual[start + j]|, |line|);
  }

  /** Reprojection inside the rows a strictly increasing table delimits for
      line k, when those rows are the line's segments. */
  lemma ReprojectInRows(visual: seq<string>, mapped: seq<int>, k: int, line: string, width: int, i: int)
    requires width >= 2 && StrictlyIncreasing(mapped) && 0 <= k < |mapped|
    requires 0 <= RowStart(mapped, k) < mapped[k] <= |visual|
    requires visual[RowStart(mapped, k)..mapped[k]] == Wrapped(line, width)
    requires 0 <= i <= |line|
    ensures var pos := Reproject(mapped, k, i, width);
            && RowStart(mapped, k) < pos.1 <= mapped[k]
            && 1 <= pos.0 <= |visual[pos.1 - 1]| + 1
            && LineOfRow(mapped, pos.1) == k
            && RowsLength(visual, RowStart(mapped, k), pos.1 - 1) + pos.0 - 1 == i
  {
    var j := Min(i / (width - 1), mapped[k] - RowStart(mapped, k) - 1);
    RowInSpan(visual, mapped, k, line, width, i, j);
  }

  /** ReprojectInRows for the row offset j the reprojection picks. */
  lemma RowInSpan(visual: seq<string>, mapped: seq<int>, k: int, line: string, width: int, i: int, j: int)
    requires width >= 2 && StrictlyIncreasing(mapped) && 0 <= k < |mapped|
    requires 0 <= RowStart(mapped, k) < mapped[k] <= |visual|
    requires visual[RowStart(mapped, k)..mapped[k]] == Wrapped(line, width)
    requires 0 <= i <= |line|
    requires j == Min(i / (width - 1), mapped[k] - RowStart(mapped, k) - 1)
    ensures var x, y := i - j * (width - 1) + 1, RowStart(mapped, k) + j + 1;
            && RowStart(mapped, k) < y <= mapped[k]
            && 1 <= x <= |visual[y - 1]| + 1
            && LineOfRow(mapped, y) == k
            && RowsLength(visual, RowStart(mapped, k), y - 1) + x - 1 == i
  {
    var start, end := RowStart(mapped, k), mapped[k];
    ReprojectInLine(visual, start, end, line, width, i, j);
    WrappedPrefixLength(line, width, j);
    SliceRowsLength(visual, start, end, Wrapped(line, width), j);
    RowInLine(mapped, k, start + j + 1);
  }

  /** After a rebuild at width `width`, Reproject puts index i of line k on a
      row of line k, at a column inside (or just past) that row, and the
      search and index computation of the editor map that position back to
      line k and index i. */
  lemma ReprojectRoundTrip(lines: seq<string>, width: int, k: int, i: int)
    requires width >= 2 && AllCanWrap(lines, width)
    requires 0 <= k < |lines| && 0 <= i <= |lines[k]|
    ensures var visual, mapped := VisualRows(lines, width), LineEnds(lines, width);
            var (x, y) := Reproject(mapped, k, i, width);
            && 0 <= RowStart(mapped, k) < y <= mapped[k] <= |visual|
            && 1 <= x <= |visual[y - 1]| + 1
            && LineOfRow(mapped, y) == k
            && RowsLength(visual, RowStart(mapped, k), y - 1) + x - 1 == i
  {
    LineEndsIncreasing(lines, width);
    LineSegments(lines, width, k);
    ReprojectInRows(VisualRows(lines, width), LineEnds(lines, width), k, lines[k], width, i);
  }

  /** As written, CalcNewACXY does not invert CalcBufferIndexFromACXY: the
      one-line document "abcd" at width 3 has rows "ab" and "cd"; index 3
      (the 'd') is sent to column 0 of row 2, which maps back to index 1.
      Reproject sends it to column 2 of row 2. */
  lemma CalcNewACXYMisplacesCursor()
    ensures VisualRows(["abcd"], 3) == ["ab", "cd"] && LineEnds(["abcd"], 3) == [2]
    ensures Rem(3 + 1, 3 - 1) == 0 && RowStart([2], 0) + RowsWalked(3 + 1, 3, 2) == 2
    ensures RowsLength(["ab", "cd"], 0, 2 - 1) + 0 - 1 == 1
    ensures Reproject([2], 0, 3, 3) == (2, 2)
  {
    var w := Wrapped("abcd", 3);
    assert "abcd"[..2] == "ab" && "abcd"[2..] == "cd";
    assert w == ["ab", "cd"];
    assert ["abcd"][..0] == [];
    assert VisualRows(["abcd"], 3) == [] + w;
  }
}
