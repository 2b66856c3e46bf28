/** fileEditor/buffer.go: soft-wrapping one logical line into visual rows, and
    the visual buffer plus its 1-indexed line-end table for a whole document.
    RefreshVisualBuffers itself writes fields of the editor and lives in
    Editor.FileEditor; this module holds what it computes. */
module Buffer {
  import opened GoStd

  /** GetWordWrappedLines returns only when each cut makes progress
      (maxWidth >= 2) or no cut is needed (the line is already shorter than
      maxWidth). With maxWidth == 1 the cut is empty and the loop never ends;
      with maxWidth <= 0 the slice bound is negative. */
  predicate CanWrap(line: string, maxWidth: int)
  {
    maxWidth >= 2 || |line| < maxWidth
  }

  predicate AllCanWrap(lines: seq<string>, maxWidth: int)
  {
    forall k :: 0 <= k < |lines| ==> CanWrap(lines[k], maxWidth)
  }

  /** The rows glued back together. */
  function Concat(rows: seq<string>): string
  {
    if rows == [] then "" else rows[0] + Concat(rows[1..])
  }

  lemma {:induction false} ConcatAppend(a: seq<string>, b: seq<string>)
    ensures Concat(a + b) == Concat(a) + Concat(b)
  {
    if a == [] {
      assert a + b == b;
    } else {
      assert (a + b)[1..] == a[1..] + b;
      ConcatAppend(a[1..], b);
    }
  }

  /** The segments GetWordWrappedLines cuts a line into: every segment but the
      last holds exactly maxWidth - 1 bytes, the last one fewer than maxWidth,
      and nothing is lost or repeated. */
  function Wrapped(line: string, maxWidth: int): (rows: seq<string>)
    requires CanWrap(line, maxWidth)
    ensures |rows| >= 1
    ensures Concat(rows) == line
    ensures forall i :: 0 <= i < |rows| - 1 ==> |rows[i]| == maxWidth - 1
    ensures |rows[|rows| - 1]| < maxWidth
    ensures rows[|rows| - 1] == "" <==> line == ""
    ensures |line| < maxWidth ==> rows == [line]
    decreases |line|
  {
    if |line| < maxWidth then [line]
    else
      var rest := Wrapped(line[maxWidth - 1..], maxWidth);
      assert line == line[..maxWidth - 1] + line[maxWidth - 1..];
      [line[..maxWidth - 1]] + rest
  }

  /** One turn of GetWordWrappedLines' loop: cut the first maxWidth - 1 bytes. */
  lemma WrappedStep(line: string, maxWidth: int)
    requires CanWrap(line, maxWidth) && |line| >= maxWidth
    ensures Wrapped(line, maxWidth) == [line[..maxWidth - 1]] + Wrapped(line[maxWidth - 1..], maxWidth)
  {
  }

  /** GetWordWrappedLines (the receiver is unused). */
  method GetWordWrappedLines(line: string, maxWidth: int) returns (lines: seq<string>)
    requires CanWrap(line, maxWidth)
    ensures lines == Wrapped(line, maxWidth)
  {
    lines := [];
    var rest := line;
    var length := |rest|;
    while length >= maxWidth
      invariant length == |rest|
      invariant CanWrap(rest, maxWidth)
      invariant lines + Wrapped(rest, maxWidth) == Wrapped(line, maxWidth)
      decreases length
    {
      var dif := maxWidth - length - 1;
      var cutoffIndex := length + dif;
      assert cutoffIndex == maxWidth - 1;
      WrappedStep(rest, maxWidth);
      var cut, tail := rest[..cutoffIndex], rest[cutoffIndex..];
      ghost var w := Wrapped(tail, maxWidth);
      AppendAssoc(lines, [cut], w);
      lines := lines + [cut];
      rest := tail;
      length := |rest|;
    }
    // the remaining piece is shorter than maxWidth
    lines := lines + [rest];
  }

  // ---------------------------------------------------------------------
  // The whole visual buffer

  /** The visual rows of a document: each line's segments, in order. */
  function VisualRows(lines: seq<string>, maxWidth: int): (rows: seq<string>)
    requires AllCanWrap(lines, maxWidth)
    ensures |rows| >= |lines|
  {
    if lines == [] then []
    else VisualRows(lines[..|lines| - 1], maxWidth) + Wrapped(lines[|lines| - 1], maxWidth)
  }

  /** The visual rows hold the document's text and nothing else: glued
      together they give the lines glued together, and every row is shorter
      than the wrap width. */
  lemma {:induction false} VisualRowsText(lines: seq<string>, maxWidth: int)
    requires AllCanWrap(lines, maxWidth)
    ensures Concat(VisualRows(lines, maxWidth)) == Concat(lines)
    ensures forall i :: 0 <= i < |VisualRows(lines, maxWidth)| ==> |VisualRows(lines, maxWidth)[i]| < maxWidth
    decreases |lines|
  {
    if lines != [] {
      var init, last := lines[..|lines| - 1], lines[|lines| - 1];
      assert AllCanWrap(init, maxWidth) by {
        forall k | 0 <= k < |init| ensures CanWrap(init[k], maxWidth) { assert init[k] == lines[k]; }
      }
      VisualRowsText(init, maxWidth);
      assert lines == init + [last];
      ConcatAppend(init, [last]);
      ConcatAppend(VisualRows(init, maxWidth), Wrapped(last, maxWidth));
    }
  }

  /** The line-end table: for each logical line, the 1-indexed number of the
      visual row its last segment lands on, which is the running total of
      segments so far. */
  function LineEnds(lines: seq<string>, maxWidth: int): (ends: seq<int>)
    requires AllCanWrap(lines, maxWidth)
    ensures |ends| == |lines|
    ensures |lines| > 0 ==> ends[|lines| - 1] == |VisualRows(lines, maxWidth)|
  {
    if lines == [] then []
    else LineEnds(lines[..|lines| - 1], maxWidth) + [|VisualRows(lines, maxWidth)|]
  }

  /** The 0-indexed visual row where logical line k starts (cursor.go's `start`). */
  function RowStart(mappedBuffer: seq<int>, k: int): int
    requires 0 <= k < |mappedBuffer|
  {
    if k > 0 then mappedBuffer[k - 1] else 0
  }

  predicate StrictlyIncreasing(s: seq<int>)
  {
    forall i, j :: 0 <= i < j < |s| ==> s[i] < s[j]
  }

  /** A visual buffer and line-end table that describe the document `lines`:
      one entry per line, strictly increasing, ending at the last row, and the
      rows between two consecutive entries glue back into that line. */
  predicate WellFormedLayout(lines: seq<string>, visual: seq<string>, mapped: seq<int>)
  {
    && |mapped| == |lines|
    && StrictlyIncreasing(mapped)
    && (|mapped| == 0 ==> visual == [])
    && (|mapped| > 0 ==> 1 <= mapped[0] && mapped[|mapped| - 1] == |visual|)
    && forall k {:trigger RowStart(mapped, k)} :: 0 <= k < |lines| ==>
         && 0 <= RowStart(mapped, k) < mapped[k] <= |visual|
         && Concat(visual[RowStart(mapped, k)..mapped[k]]) == lines[k]
  }

  /** RefreshVisualBuffers' loop invariant: the rows and table built so far
      are those of the first idx lines. */
  predicate RefreshedUpTo(lines: seq<string>, maxWidth: int, idx: int, visual: seq<string>, mapped: seq<int>)
  {
    && 0 <= idx <= |lines|
    && AllCanWrap(lines[..idx], maxWidth)
    && visual == VisualRows(lines[..idx], maxWidth)
    && mapped == LineEnds(lines[..idx], maxWidth)
  }

  /** One turn of RefreshVisualBuffers' loop: line idx appends its segments
      to the rows and the new row count to the line-end table. */
  lemma RefreshStep(lines: seq<string>, maxWidth: int, idx: int, visual: seq<string>, mapped: seq<int>,
                    segments: seq<string>, end: int)
    requires AllCanWrap(lines, maxWidth) && idx < |lines|
    requires RefreshedUpTo(lines, maxWidth, idx, visual, mapped)
    requires segments == Wrapped(lines[idx], maxWidth) && end == |visual| + |segments|
    ensures RefreshedUpTo(lines, maxWidth, idx + 1, visual + segments, mapped + [end])
  {
    var next := lines[..idx + 1];
    assert AllCanWrap(next, maxWidth) by {
      forall k | 0 <= k < |next| ensures CanWrap(next[k], maxWidth) { assert next[k] == lines[k]; }
    }
    assert next[..|next| - 1] == lines[..idx] && next[|next| - 1] == lines[idx];
  }

  /** The loop starts from empty tables and ends with the whole document. */
  lemma RefreshBounds(lines: seq<string>, maxWidth: int, visual: seq<string>, mapped: seq<int>)
    requires AllCanWrap(lines, maxWidth)
    ensures RefreshedUpTo(lines, maxWidth, 0, [], [])
    ensures RefreshedUpTo(lines, maxWidth, |lines|, visual, mapped) ==>
              visual == VisualRows(lines, maxWidth) && mapped == LineEnds(lines, maxWidth)
  {
    assert lines[..0] == [];
    assert lines[..|lines|] == lines;
  }

  /** Rebuilding a prefix of the document gives a prefix of the rows and of
      the line-end table. */
  lemma {:induction false} VisualRowsPrefix(lines: seq<string>, maxWidth: int, j: nat)
    requires AllCanWrap(lines, maxWidth) && j <= |lines|
    ensures |VisualRows(lines[..j], maxWidth)| <= |VisualRows(lines, maxWidth)|
    ensures VisualRows(lines, maxWidth)[..|VisualRows(lines[..j], maxWidth)|] == VisualRows(lines[..j], maxWidth)
    ensures LineEnds(lines[..j], maxWidth) == LineEnds(lines, maxWidth)[..j]
    decreases |lines| - j
  {
    var n := |lines|;
    if j == n {
      assert lines[..j] == lines;
    } else {
      var p := lines[..n - 1];
      assert lines[..j] == p[..j];
      VisualRowsPrefix(p, maxWidth, j);
    }
  }

  /** Line k's entry of the table and the row where line k starts. */
  lemma LineBounds(lines: seq<string>, maxWidth: int, k: nat)
    requires AllCanWrap(lines, maxWidth) && k < |lines|
    ensures |LineEnds(lines, maxWidth)| == |lines|
    ensures LineEnds(lines, maxWidth)[k] == |VisualRows(lines[..k + 1], maxWidth)|
    ensures RowStart(LineEnds(lines, maxWidth), k) == |VisualRows(lines[..k], maxWidth)|
  {
    VisualRowsPrefix(lines, maxWidth, k + 1);
    if k > 0 {
      VisualRowsPrefix(lines, maxWidth, k);
    }
  }

  /** The rows the table delimits for line k are exactly line k's segments. */
  lemma LineSegments(lines: seq<string>, maxWidth: int, k: nat)
    requires AllCanWrap(lines, maxWidth) && k < |lines|
    ensures |LineEnds(lines, maxWidth)| == |lines|
    ensures 0 <= RowStart(LineEnds(lines, maxWidth), k) < LineEnds(lines, maxWidth)[k] <= |VisualRows(lines, maxWidth)|
    ensures VisualRows(lines, maxWidth)[RowStart(LineEnds(lines, maxWidth), k)..LineEnds(lines, maxWidth)[k]]
            == Wrapped(lines[k], maxWidth)
  {
    LineBounds(lines, maxWidth, k);
    VisualRowsPrefix(lines, maxWidth, k + 1);
    var before, upTo := VisualRows(lines[..k], maxWidth), VisualRows(lines[..k + 1], maxWidth);
    assert lines[..k + 1][..k] == lines[..k];
    assert upTo == before + Wrapped(lines[k], maxWidth);
    var v := VisualRows(lines, maxWidth);
    assert v[|before|..|upTo|] == upTo[|before|..];
  }

  lemma {:induction false} AdjacentIncreasing(s: seq<int>)
    requires forall k :: 0 <= k < |s| - 1 ==> s[k] < s[k + 1]
    ensures StrictlyIncreasing(s)
  {
    if |s| > 1 {
      AdjacentIncreasing(s[..|s| - 1]);
      assert forall i :: 0 <= i < |s| - 1 ==> s[i] < s[|s| - 1] by {
        forall i | 0 <= i < |s| - 1
          ensures s[i] < s[|s| - 1]
        {
          if i < |s| - 2 {
            assert s[..|s| - 1][i] < s[..|s| - 1][|s| - 2];
          }
        }
      }
    }
  }

  /** Every line has at least one segment, so the table strictly increases. */
  lemma LineEndsIncreasing(lines: seq<string>, maxWidth: int)
    requires AllCanWrap(lines, maxWidth)
    ensures StrictlyIncreasing(LineEnds(lines, maxWidth))
  {
    var e := LineEnds(lines, maxWidth);
    forall k | 0 <= k < |e| - 1
      ensures e[k] < e[k + 1]
    {
      LineBounds(lines, maxWidth, k);
      LineSegments(lines, maxWidth, k + 1);
    }
    AdjacentIncreasing(e);
  }

  /** RefreshVisualBuffers always yields a well-formed layout. */
  lemma RefreshedLayoutIsWellFormed(lines: seq<string>, maxWidth: int)
    requires AllCanWrap(lines, maxWidth)
    ensures WellFormedLayout(lines, VisualRows(lines, maxWidth), LineEnds(lines, maxWidth))
  {
    var v, e := VisualRows(lines, maxWidth), LineEnds(lines, maxWidth);
    LineEndsIncreasing(lines, maxWidth);
    forall k | 0 <= k < |lines|
      ensures 0 <= RowStart(e, k) < e[k] <= |v| && Concat(v[RowStart(e, k)..e[k]]) == lines[k]
    {
      LineSegments(lines, maxWidth, k);
    }
    if |lines| > 0 {
      LineSegments(lines, maxWidth, 0);
    }
  }

  /** A laid-out document of at least one line has a first visual row. */
  lemma LayoutHasRows(lines: seq<string>, visual: seq<string>, mapped: seq<int>)
    requires WellFormedLayout(lines, visual, mapped) && |lines| > 0
    ensures |visual| >= 1
  {
    assert 0 <= RowStart(mapped, 0) < mapped[0] <= |visual|;
  }
}
