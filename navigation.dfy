/** fileEditor/action.go: the cursor moves over the visual buffer, the
    "sticky column" kept in the package variables savedCursorX and
    savedCursorXFlag, mouse clicks, and splitting a line in two. Each move is
    a function from the old cursor state to the new one; the methods of
    Editor.FileEditor apply them to the editor's fields. */
module Navigation {
  import opened GoStd
  import opened MathUtil
  import opened EditorConsts
  import opened UserInput
  import opened Keybind

  /** The apparent cursor (x includes the left margin, y is a 1-indexed
      visual row) and the sticky column memory. */
  datatype CursorState = CursorState(x: int, y: int, savedX: int, savedFlag: bool)

  /** The cursor sits on an existing visual row, between the margin and one
      past the row's last character. */
  predicate InBounds(visual: seq<string>, c: CursorState)
  {
    && 1 <= c.y <= |visual|
    && EditorLeftMargin <= c.x <= |visual[c.y - 1]| + EditorLeftMargin
  }

  /** While a run of vertical moves is under way (the flag is set), the
      cursor sits at the remembered column, or at the end of the row when the
      row is shorter. */
  predicate Sticky(visual: seq<string>, c: CursorState)
    requires 1 <= c.y <= |visual|
  {
    c.savedFlag ==> c.x == Min(c.savedX, |visual[c.y - 1]| + EditorLeftMargin)
  }

  predicate Valid(visual: seq<string>, c: CursorState)
  {
    InBounds(visual, c) && Sticky(visual, c)
  }

  /** setSavedCursorX */
  function SetSavedCursorX(c: CursorState, cursorX: int, saveFlag: bool): (r: CursorState)
    ensures r.savedX == cursorX && r.savedFlag == saveFlag
    ensures r.x == c.x && r.y == c.y
  {
    c.(savedX := cursorX, savedFlag := saveFlag)
  }

  /** verticallyConstrainCursor, after the row has already changed: the first
      vertical move remembers the column; the cursor is then put at the
      remembered column, or at the end of a shorter row. */
  function VerticallyConstrain(visual: seq<string>, c: CursorState): (r: CursorState)
    requires 1 <= c.y <= |visual|
    ensures r.y == c.y && r.savedFlag
    ensures r.savedX == (if c.savedFlag then c.savedX else c.x)
    ensures r.x == Min(Max(c.x, r.savedX), |visual[c.y - 1]| + EditorLeftMargin)
    ensures !c.savedFlag || c.x <= c.savedX ==>
              r.x == Min(r.savedX, |visual[c.y - 1]| + EditorLeftMargin)
  {
    var line := visual[c.y - 1];
    var s := if !c.savedFlag then SetSavedCursorX(c, c.x, true) else c;
    if |line| + EditorLeftMargin < s.savedX then s.(x := |line| + EditorLeftMargin)
    else s.(x := Clamp(s.x, s.savedX, |line| + EditorLeftMargin))
  }

  /** actionCursorUp: nothing happens on the first row. */
  function CursorUp(visual: seq<string>, c: CursorState): (r: CursorState)
    requires c.y > 1 ==> c.y - 1 <= |visual|
    ensures c.y <= 1 ==> r == c
    ensures c.y > 1 ==> r.y == c.y - 1 && r.savedFlag
    ensures c.y > 1 ==> r.savedX == (if c.savedFlag then c.savedX else c.x)
    ensures c.y > 1 ==> r.x == Min(Max(c.x, r.savedX), |visual[c.y - 2]| + EditorLeftMargin)
  {
    if c.y > 1 then VerticallyConstrain(visual, c.(y := c.y - 1)) else c
  }

  /** actionCursorDown: nothing happens on the last row. */
  function CursorDown(visual: seq<string>, c: CursorState): (r: CursorState)
    requires c.y < |visual| ==> c.y >= 0
    ensures c.y >= |visual| ==> r == c
    ensures c.y < |visual| ==> r.y == c.y + 1 && r.savedFlag
    ensures c.y < |visual| ==> r.savedX == (if c.savedFlag then c.savedX else c.x)
    ensures c.y < |visual| ==> r.x == Min(Max(c.x, r.savedX), |visual[c.y]| + EditorLeftMargin)
  {
    if c.y < |visual| then VerticallyConstrain(visual, c.(y := c.y + 1)) else c
  }

  /** actionCursorLeft: one column left, or from the margin to the end of the
      previous row; the sticky column is dropped. */
  function CursorLeft(visual: seq<string>, c: CursorState): (r: CursorState)
    requires c.x <= EditorLeftMargin && c.y > 1 ==> c.y - 1 <= |visual|
    ensures c.x > EditorLeftMargin ==> r.x == c.x - 1 && r.y == c.y
    ensures c.x <= EditorLeftMargin && c.y > 1 ==> r.y == c.y - 1 && r.x == |visual[c.y - 2]| + EditorLeftMargin
    ensures c.x <= EditorLeftMargin && c.y <= 1 ==> r.x == c.x && r.y == c.y
    ensures !r.savedFlag && r.savedX == r.x
  {
    var moved :=
      if c.x > EditorLeftMargin then c.(x := c.x - 1)
      else if c.y > 1 then c.(y := c.y - 1, x := |visual[c.y - 2]| + EditorLeftMargin)
      else c;
    SetSavedCursorX(moved, moved.x, false)
  }

  /** actionCursorRight: one column right, or from the end of a row to the
      margin of the next one; the sticky column is dropped. */
  function CursorRight(visual: seq<string>, c: CursorState): (r: CursorState)
    requires 1 <= c.y <= |visual|
    ensures c.x < |visual[c.y - 1]| + EditorLeftMargin ==> r.x == c.x + 1 && r.y == c.y
    ensures c.x >= |visual[c.y - 1]| + EditorLeftMargin && c.y < |visual| ==> r.x == EditorLeftMargin && r.y == c.y + 1
    ensures c.x >= |visual[c.y - 1]| + EditorLeftMargin && c.y == |visual| ==> r.x == c.x && r.y == c.y
    ensures !r.savedFlag && r.savedX == r.x
  {
    var line := visual[c.y - 1];
    var moved :=
      if c.x <= |line| + EditorLeftMargin - 1 then c.(x := c.x + 1)
      else if c.y < |visual| then c.(y := c.y + 1, x := EditorLeftMargin)
      else c;
    SetSavedCursorX(moved, moved.x, false)
  }

  /** SetCursorPosition without the terminal write: below the text the click
      goes to the end of the last row; otherwise to the clicked row, with the
      column clamped into the row. */
  function Click(visual: seq<string>, c: CursorState, m: MouseInput): (r: (CursorState, Signal))
    requires |visual| >= 1 && m.Y >= 1
    ensures r.1 == CursorPositionChange
    ensures m.Y > |visual| ==> r.0.y == |visual| && r.0.x == |visual[|visual| - 1]| + EditorLeftMargin
    ensures m.Y <= |visual| ==> r.0.y == m.Y
    ensures m.Y <= |visual| ==> r.0.x == Clamp(m.X, EditorLeftMargin, |visual[m.Y - 1]| + EditorLeftMargin)
    ensures m.Y <= |visual| && EditorLeftMargin <= m.X <= |visual[m.Y - 1]| + EditorLeftMargin ==> r.0.x == m.X
    ensures m.Y <= |visual| && m.X < EditorLeftMargin ==> r.0.x == EditorLeftMargin
    ensures m.Y <= |visual| && m.X > |visual[m.Y - 1]| + EditorLeftMargin ==> r.0.x == |visual[m.Y - 1]| + EditorLeftMargin
    ensures !r.0.savedFlag && r.0.savedX == r.0.x
  {
    var y := |visual|;
    if m.Y > y then
      var x := |visual[y - 1]| + EditorLeftMargin;
      (SetSavedCursorX(c.(x := x, y := y), x, false), CursorPositionChange)
    else
      var x := Clamp(m.X, EditorLeftMargin, |visual[m.Y - 1]| + EditorLeftMargin);
      (SetSavedCursorX(c.(x := x, y := m.Y), x, false), CursorPositionChange)
  }

  // ---------------------------------------------------------------------
  // The cursor invariant is kept by every move

  lemma CursorUpValid(visual: seq<string>, c: CursorState)
    requires Valid(visual, c)
    ensures Valid(visual, CursorUp(visual, c))
  {
  }

  lemma CursorDownValid(visual: seq<string>, c: CursorState)
    requires Valid(visual, c)
    ensures Valid(visual, CursorDown(visual, c))
  {
  }

  lemma CursorLeftValid(visual: seq<string>, c: CursorState)
    requires Valid(visual, c)
    ensures Valid(visual, CursorLeft(visual, c))
  {
  }

  lemma CursorRightValid(visual: seq<string>, c: CursorState)
    requires Valid(visual, c)
    ensures Valid(visual, CursorRight(visual, c))
  {
  }

  /** A click puts the cursor in bounds from any state. */
  lemma ClickValid(visual: seq<string>, c: CursorState, m: MouseInput)
    requires |visual| >= 1 && m.Y >= 1
    ensures Valid(visual, Click(visual, c, m).0)
  {
  }

  /** While the flag is set, the cursor is not right of the remembered
      column, and that column is not left of the margin. */
  lemma StickyBounds(visual: seq<string>, c: CursorState)
    requires Valid(visual, c) && c.savedFlag
    ensures c.x <= c.savedX && c.savedX >= EditorLeftMargin
  {
  }

  // ---------------------------------------------------------------------
  // The action a keybinding selects

  /** What the selected cursor action needs not to panic. */
  predicate ActionDefined(visual: seq<string>, c: CursorState, a: CursorAction)
  {
    match a
    case ActionCursorLeft => c.x <= EditorLeftMargin && c.y > 1 ==> c.y - 1 <= |visual|
    case ActionCursorRight => 1 <= c.y <= |visual|
    case ActionCursorUp => c.y > 1 ==> c.y - 1 <= |visual|
    case ActionCursorDown => c.y < |visual| ==> c.y >= 0
  }

  /** Running the action MapKeybindToAction selected; every one of them keeps
      the cursor invariant. */
  function ApplyAction(visual: seq<string>, c: CursorState, a: CursorAction): (r: CursorState)
    requires ActionDefined(visual, c, a)
    ensures Valid(visual, c) ==> Valid(visual, r)
  {
    match a
    case ActionCursorLeft =>
      CursorLeft(visual, c)
    case ActionCursorRight =>
      CursorRight(visual, c)
    case ActionCursorUp =>
      CursorUp(visual, c)
    case ActionCursorDown =>
      CursorDown(visual, c)
  }

  // ---------------------------------------------------------------------
  // Moves undo each other

  /** Right then left comes back to the same place, except from the very end
      of the text, where right does not move. */
  lemma RightThenLeft(visual: seq<string>, c: CursorState)
    requires InBounds(visual, c)
    requires !(c.y == |visual| && c.x == |visual[c.y - 1]| + EditorLeftMargin)
    ensures CursorLeft(visual, CursorRight(visual, c)) == SetSavedCursorX(c, c.x, false)
  {
  }

  /** Left then right comes back to the same place, except from the margin of
      the first row, where left does not move. */
  lemma LeftThenRight(visual: seq<string>, c: CursorState)
    requires InBounds(visual, c)
    requires !(c.y == 1 && c.x == EditorLeftMargin)
    ensures CursorRight(visual, CursorLeft(visual, c)) == SetSavedCursorX(c, c.x, false)
  {
  }

  /** Up then down comes back to the same row and column, because the column
      is remembered on the way up. */
  lemma UpThenDown(visual: seq<string>, c: CursorState)
    requires Valid(visual, c) && c.y > 1
    ensures var r := CursorDown(visual, CursorUp(visual, c));
            r.x == c.x && r.y == c.y && r.savedFlag
  {
    var u := CursorUp(visual, c);
    assert u.savedX == (if c.savedFlag then c.savedX else c.x);
  }

  /** Down then up comes back to the same row and column. */
  lemma DownThenUp(visual: seq<string>, c: CursorState)
    requires Valid(visual, c) && c.y < |visual|
    ensures var r := CursorUp(visual, CursorDown(visual, c));
            r.x == c.x && r.y == c.y && r.savedFlag
  {
    var d := CursorDown(visual, c);
    assert d.savedX == (if c.savedFlag then c.savedX else c.x);
  }

  // ---------------------------------------------------------------------
  // actionNewLine

  /** actionNewLine as written: a fresh slice one longer than the buffer,
      the first bufferLine - 1 lines copied in, the split halves at
      bufferLine and bufferLine + 1, then the lines after the current one.
      Slicing FileBuffer[:bufferLine-1] panics on line 0. */
  function NewLineAsWritten(fileBuffer: seq<string>, bufferLine: int, bufferIndex: int): (r: seq<string>)
    requires 1 <= bufferLine < |fileBuffer|
    requires 0 <= bufferIndex <= |fileBuffer[bufferLine]|
    ensures |r| == |fileBuffer| + 1
    ensures r[bufferLine] + r[bufferLine + 1] == fileBuffer[bufferLine]
    ensures r[bufferLine] == fileBuffer[bufferLine][..bufferIndex]
    ensures forall k :: 0 <= k < bufferLine - 1 ==> r[k] == fileBuffer[k]
    ensures r[bufferLine - 1] == ""
    ensures forall k :: bufferLine < k < |fileBuffer| ==> r[k + 1] == fileBuffer[k]
  {
    var line := fileBuffer[bufferLine];
    var beforeSplit, afterSplit := line[..bufferIndex], line[bufferIndex..];
    assert beforeSplit + afterSplit == line;
    fileBuffer[..bufferLine - 1] + [""] + [beforeSplit, afterSplit] + fileBuffer[bufferLine + 1..]
  }

  /** Splitting the line at the cursor, as evidently intended: every other
      line stays where it is or moves down by one. */
  function SplitLine(fileBuffer: seq<string>, bufferLine: int, bufferIndex: int): (r: seq<string>)
    requires 0 <= bufferLine < |fileBuffer|
    requires 0 <= bufferIndex <= |fileBuffer[bufferLine]|
    ensures |r| == |fileBuffer| + 1
    ensures r[bufferLine] == fileBuffer[bufferLine][..bufferIndex]
    ensures r[bufferLine + 1] == fileBuffer[bufferLine][bufferIndex..]
    ensures forall k :: 0 <= k < bufferLine ==> r[k] == fileBuffer[k]
    ensures forall k :: bufferLine < k < |fileBuffer| ==> r[k + 1] == fileBuffer[k]
  {
    var line := fileBuffer[bufferLine];
    fileBuffer[..bufferLine] + [line[..bufferIndex], line[bufferIndex..]] + fileBuffer[bufferLine + 1..]
  }

  /** Joining line k with the next one: what deleting the line break does. */
  function JoinWithNext(lines: seq<string>, k: int): (r: seq<string>)
    requires 0 <= k < |lines| - 1
    ensures |r| == |lines| - 1
  {
    lines[..k] + [lines[k] + lines[k + 1]] + lines[k + 2..]
  }

  /** The corrected split loses nothing: joining the two halves again gives
      back the original buffer. */
  lemma SplitLineJoins(fileBuffer: seq<string>, bufferLine: int, bufferIndex: int)
    requires 0 <= bufferLine < |fileBuffer|
    requires 0 <= bufferIndex <= |fileBuffer[bufferLine]|
    ensures JoinWithNext(SplitLine(fileBuffer, bufferLine, bufferIndex), bufferLine) == fileBuffer
  {
    var r := SplitLine(fileBuffer, bufferLine, bufferIndex);
    var j := JoinWithNext(r, bufferLine);
    assert fileBuffer[bufferLine][..bufferIndex] + fileBuffer[bufferLine][bufferIndex..] == fileBuffer[bufferLine];
    assert forall k :: 0 <= k < |fileBuffer| ==> j[k] == fileBuffer[k];
  }

  /** As written, pressing enter at the start of the second line of ["a", "b"]
      blanks the first line instead of inserting an empty one: joining the
      halves again does not give the buffer back. */
  lemma NewLineLosesLine()
    ensures NewLineAsWritten(["a", "b"], 1, 0) == ["", "", "b"]
    ensures JoinWithNext(NewLineAsWritten(["a", "b"], 1, 0), 1) == ["", "b"]
    ensures SplitLine(["a", "b"], 1, 0) == ["a", "", "b"]
  {
    assert ["a", "b"][..0] == [];
    assert ["a", "b"][..1] == ["a"];
    assert ["a", "b"][2..] == [];
    assert "b"[..0] == "" && "b"[0..] == "b";
    assert NewLineAsWritten(["a", "b"], 1, 0) == [] + [""] + ["", "b"] + [];
    assert SplitLine(["a", "b"], 1, 0) == ["a"] + ["", "b"] + [];
  }
}
