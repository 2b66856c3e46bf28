/** The FileEditor record of fileEditor/fileEditor.go as a class: the
    document and its soft-wrapped layout, the apparent cursor and its
    position in the document, the mode, the keybindings and the command bar.
    The package variables savedCursorX and savedCursorXFlag of
    fileEditor/action.go are fields here. Each method changes the fields the
    Go method changes, and its contract ties the new state to the pure
    functions of the module that models that Go file. */
module Editor {
  import opened GoStd
  import opened Wrappers
  import opened EditorConsts
  import opened Buffer
  import opened Cursor
  import opened Navigation
  import opened Keybind
  import opened UserInput
  import CommandBar
  import KeybindOps = Keybind
  import MathUtil

  class FileEditor {
    var EditorMode: byte
    var Keybindings: Keybind

    var CommandBarBuffer: string
    var CommandBarCursorX: int
    var CommandBarToggled: bool

    /** each line of the file */
    var FileBuffer: seq<string>
    /** the soft-wrapped rows that are drawn */
    var VisualBuffer: seq<string>
    /** for each line of the file, the 1-indexed row its last segment is on */
    var VisualBufferMapped: seq<int>
    var apparentCursorX: int
    var apparentCursorY: int
    /** the cursor's line of FileBuffer and index in it, 0-indexed */
    var bufferLine: int
    var bufferIndex: int
    /** action.go's sticky column memory */
    var savedCursorX: int
    var savedCursorXFlag: bool

    var TermWidth: int
    var TermHeight: int
    var StatusBarHeight: int

    function Cursor(): CursorState
      reads this`apparentCursorX, this`apparentCursorY, this`savedCursorX, this`savedCursorXFlag
    {
      CursorState(apparentCursorX, apparentCursorY, savedCursorX, savedCursorXFlag)
    }

    function Bar(): CommandBar.Bar
      reads this`CommandBarBuffer, this`CommandBarCursorX
    {
      CommandBar.Bar(CommandBarBuffer, CommandBarCursorX)
    }

    /** The layout describes the document. */
    predicate LayoutValid()
      reads this`FileBuffer, this`VisualBuffer, this`VisualBufferMapped
    {
      WellFormedLayout(FileBuffer, VisualBuffer, VisualBufferMapped)
    }

    /** The cursor is on the text and keeps its sticky column. */
    predicate CursorValid()
      reads this`VisualBuffer, this`apparentCursorX, this`apparentCursorY, this`savedCursorX, this`savedCursorXFlag
    {
      Valid(VisualBuffer, Cursor())
    }

    /** NewFileEditor with the terminal size given: empty buffers, command
        mode, the default keybindings and a closed, empty command bar. */
    constructor (termWidth: int, termHeight: int)
      ensures FileBuffer == [] && VisualBuffer == [] && VisualBufferMapped == []
      ensures apparentCursorX == 0 && apparentCursorY == 0 && bufferLine == 0 && bufferIndex == 0
      ensures savedCursorX == 0 && !savedCursorXFlag
      ensures EditorMode == EditorCommandMode && Keybindings == NewKeybind()
      ensures Bar() == CommandBar.Bar("", 0) && !CommandBarToggled
      ensures TermWidth == termWidth && TermHeight == termHeight
      ensures StatusBarHeight == DefaultStatusBarHeight
      ensures GetViewportHeight() == termHeight - 3
    {
      EditorMode := EditorCommandMode;
      Keybindings := NewKeybind();
      CommandBarBuffer, CommandBarCursorX, CommandBarToggled := "", 0, false;
      FileBuffer, VisualBuffer, VisualBufferMapped := [], [], [];
      apparentCursorX, apparentCursorY := 0, 0;
      bufferLine, bufferIndex := 0, 0;
      savedCursorX, savedCursorXFlag := 0, false;
      TermWidth, TermHeight, StatusBarHeight := termWidth, termHeight, DefaultStatusBarHeight;
    }

    // -------------------------------------------------------------------
    // fileEditor.go

    /** ReadFileToBuffer with the lines of the file given: they are appended
        to the buffer (one empty line when the file has none), the layout is
        rebuilt, and the cursor goes to the margin of row 1. */
    method ReadFileToBuffer(lines: seq<string>, editorWidth: int)
      requires AllCanWrap(FileBuffer + (if lines == [] then [""] else lines), editorWidth)
      modifies this`FileBuffer, this`VisualBuffer, this`VisualBufferMapped
      modifies this`apparentCursorX, this`apparentCursorY, this`bufferLine, this`bufferIndex
      ensures FileBuffer == old(FileBuffer) + (if lines == [] then [""] else lines)
      ensures VisualBuffer == VisualRows(FileBuffer, editorWidth)
      ensures VisualBufferMapped == LineEnds(FileBuffer, editorWidth)
      ensures apparentCursorX == EditorLeftMargin && apparentCursorY == 1
      ensures bufferLine == 0 && bufferIndex == 0
      ensures LayoutValid() && InBounds(VisualBuffer, Cursor())
    {
      var fileBuffer := FileBuffer;
      var rowCount := 0;
      while rowCount < |lines|
        invariant 0 <= rowCount <= |lines|
        invariant fileBuffer == old(FileBuffer) + lines[..rowCount]
      {
        fileBuffer := fileBuffer + [lines[rowCount]];
        rowCount := rowCount + 1;
      }
      assert lines[..rowCount] == lines;
      if rowCount == 0 {
        fileBuffer := fileBuffer + [""];
        rowCount := rowCount + 1;
      }
      FileBuffer := fileBuffer;
      RefreshVisualBuffers(editorWidth);
      LayoutHasRows(FileBuffer, VisualBuffer, VisualBufferMapped);
      apparentCursorX, apparentCursorY := EditorLeftMargin, 1;
      bufferLine, bufferIndex := 0, 0;
    }

    // -------------------------------------------------------------------
    // viewport.go

    /** The rows left for text once the status bar is taken off. */
    function GetViewportHeight(): (h: int)
      reads this`TermHeight, this`StatusBarHeight
      ensures h + StatusBarHeight == TermHeight
    {
      TermHeight - StatusBarHeight
    }

    /** The columns left for text once the margin is taken off. */
    function GetViewportWidth(): (w: int)
      reads this`TermWidth
      ensures w == TermWidth - 7
    {
      TermWidth - EditorLeftMargin + 1
    }

    // -------------------------------------------------------------------
    // buffer.go

    /** RefreshVisualBuffers with the wrap width as a parameter: both tables
        are rebuilt from empty, line by line, and describe the document. */
    method RefreshVisualBuffers(editorWidth: int)
      requires AllCanWrap(FileBuffer, editorWidth)
      modifies this`VisualBuffer, this`VisualBufferMapped
      ensures VisualBuffer == VisualRows(FileBuffer, editorWidth)
      ensures VisualBufferMapped == LineEnds(FileBuffer, editorWidth)
      ensures LayoutValid()
    {
      var lines := FileBuffer;
      var visual: seq<string> := [];
      var mapped: seq<int> := [];
      var end := 1;
      var idx := 0;
      RefreshBounds(lines, editorWidth, [], []);
      while idx < |lines|
        invariant RefreshedUpTo(lines, editorWidth, idx, visual, mapped)
        invariant end == |visual| + 1
      {
        var line := lines[idx];
        if |line| >= editorWidth {
          var wordWrappedLines := Buffer.GetWordWrappedLines(line, editorWidth);
          end := end + |wordWrappedLines| - 1;
          RefreshStep(lines, editorWidth, idx, visual, mapped, wordWrappedLines, end);
          visual := visual + wordWrappedLines;
          mapped := mapped + [end];
        } else {
          RefreshStep(lines, editorWidth, idx, visual, mapped, [line], end);
          visual := visual + [line];
          mapped := mapped + [end];
        }
        end := end + 1;
        idx := idx + 1;
      }
      RefreshBounds(lines, editorWidth, visual, mapped);
      VisualBuffer, VisualBufferMapped := visual, mapped;
      RefreshedLayoutIsWellFormed(FileBuffer, editorWidth);
    }

    // -------------------------------------------------------------------
    // cursor.go

    /** UpdateBufferIndicies: the line the search finds for the cursor's row,
        and the index the row and column give in it. On a valid layout a
        cursor on the text lands inside that line. */
    method UpdateBufferIndicies()
      requires LayoutValid() && |FileBuffer| > 0
      requires apparentCursorY < |VisualBufferMapped| ==> apparentCursorY >= 1
      modifies this`bufferLine, this`bufferIndex
      ensures bufferLine == LineOfRow(VisualBufferMapped, apparentCursorY)
      ensures 0 <= bufferLine < |FileBuffer|
      ensures var start := RowStart(VisualBufferMapped, bufferLine);
              start <= apparentCursorY - 1 < VisualBufferMapped[bufferLine] ==>
                bufferIndex == RowsLength(VisualBuffer, start, apparentCursorY - 1) + apparentCursorX - EditorLeftMargin
      ensures InBounds(VisualBuffer, Cursor()) ==>
                && RowStart(VisualBufferMapped, bufferLine) < apparentCursorY <= VisualBufferMapped[bufferLine]
                && 0 <= bufferIndex <= |FileBuffer[bufferLine]|
    {
      var visual, mapped := VisualBuffer, VisualBufferMapped;
      var acX, acY := apparentCursorX - EditorLeftMargin + 1, apparentCursorY;
      var line := CalcBufferLineFromACY(acY, mapped);
      assert 0 <= RowStart(mapped, line) < mapped[line] <= |visual|;
      var index := CalcBufferIndexFromACXY(acX, acY, line, visual, mapped);
      if InBounds(visual, Cursor()) {
        LineOfValidRow(FileBuffer, visual, mapped, acY);
        IndexWithinLine(FileBuffer, visual, mapped, acX, acY);
      }
      bufferLine, bufferIndex := line, index;
    }

    // -------------------------------------------------------------------
    // action.go

    method SetSavedCursorX(cursorX: int, saveFlag: bool)
      modifies this`savedCursorX, this`savedCursorXFlag
      ensures Cursor() == Navigation.SetSavedCursorX(old(Cursor()), cursorX, saveFlag)
    {
      savedCursorXFlag := saveFlag;
      savedCursorX := cursorX;
    }

    method VerticallyConstrainCursor()
      requires 1 <= apparentCursorY <= |VisualBuffer|
      modifies this`apparentCursorX, this`savedCursorX, this`savedCursorXFlag
      ensures Cursor() == VerticallyConstrain(VisualBuffer, old(Cursor()))
    {
      var line := VisualBuffer[apparentCursorY - 1];
      if !savedCursorXFlag {
        SetSavedCursorX(apparentCursorX, true);
      }
      if |line| + EditorLeftMargin < savedCursorX {
        apparentCursorX := |line| + EditorLeftMargin;
      } else {
        apparentCursorX := MathUtil.Clamp(apparentCursorX, savedCursorX, |line| + EditorLeftMargin);
      }
    }

    /** SetCursorPosition without the terminal write. */
    method SetCursorPosition(m: MouseInput) returns (signal: Signal)
      requires |VisualBuffer| >= 1 && m.Y >= 1
      modifies this`apparentCursorX, this`apparentCursorY, this`savedCursorX, this`savedCursorXFlag
      ensures (Cursor(), signal) == Click(VisualBuffer, old(Cursor()), m)
      ensures CursorValid()
    {
      var y := |VisualBuffer|;
      if m.Y > y {
        var currLineLen := |VisualBuffer[y - 1]|;
        var x := currLineLen + EditorLeftMargin;
        apparentCursorX := x;
        apparentCursorY := y;
        SetSavedCursorX(x, false);
        signal := CursorPositionChange;
      } else {
        var currLineLen := |VisualBuffer[m.Y - 1]|;
        var x := MathUtil.Clamp(m.X, EditorLeftMargin, currLineLen + EditorLeftMargin);
        apparentCursorX := x;
        apparentCursorY := m.Y;
        SetSavedCursorX(x, false);
        signal := CursorPositionChange;
      }
      ClickValid(VisualBuffer, old(Cursor()), m);
    }

    method ActionCursorLeft(key: byte)
      requires apparentCursorX <= EditorLeftMargin && apparentCursorY > 1 ==> apparentCursorY - 1 <= |VisualBuffer|
      modifies this`apparentCursorX, this`apparentCursorY, this`savedCursorX, this`savedCursorXFlag
      ensures Cursor() == CursorLeft(VisualBuffer, old(Cursor()))
      ensures old(CursorValid()) ==> CursorValid()
    {
      ghost var before := Cursor();
      if apparentCursorX > EditorLeftMargin {
        apparentCursorX := apparentCursorX - 1;
      } else if apparentCursorY > 1 {
        // to the end of the previous row
        apparentCursorY := apparentCursorY - 1;
        var line := VisualBuffer[apparentCursorY - 1];
        apparentCursorX := |line| + EditorLeftMargin;
      }
      SetSavedCursorX(apparentCursorX, false);
      if Valid(VisualBuffer, before) {
        CursorLeftValid(VisualBuffer, before);
      }
    }

    method ActionCursorRight(key: byte)
      requires 1 <= apparentCursorY <= |VisualBuffer|
      modifies this`apparentCursorX, this`apparentCursorY, this`savedCursorX, this`savedCursorXFlag
      ensures Cursor() == CursorRight(VisualBuffer, old(Cursor()))
      ensures old(CursorValid()) ==> CursorValid()
    {
      ghost var before := Cursor();
      var line := VisualBuffer[apparentCursorY - 1];
      if apparentCursorX <= |line| + EditorLeftMargin - 1 {
        apparentCursorX := apparentCursorX + 1;
      } else if apparentCursorY < |VisualBuffer| {
        // to the start of the next row
        apparentCursorY := apparentCursorY + 1;
        apparentCursorX := EditorLeftMargin;
      }
      SetSavedCursorX(apparentCursorX, false);
      if Valid(VisualBuffer, before) {
        CursorRightValid(VisualBuffer, before);
      }
    }

    method ActionCursorUp(key: byte)
      requires apparentCursorY > 1 ==> apparentCursorY - 1 <= |VisualBuffer|
      modifies this`apparentCursorX, this`apparentCursorY, this`savedCursorX, this`savedCursorXFlag
      ensures Cursor() == CursorUp(VisualBuffer, old(Cursor()))
      ensures old(CursorValid()) ==> CursorValid()
    {
      ghost var before := Cursor();
      if apparentCursorY > 1 {
        apparentCursorY := apparentCursorY - 1;
        VerticallyConstrainCursor();
      }
      if Valid(VisualBuffer, before) {
        CursorUpValid(VisualBuffer, before);
      }
    }

    method ActionCursorDown(key: byte)
      requires apparentCursorY < |VisualBuffer| ==> apparentCursorY >= 0
      modifies this`apparentCursorX, this`apparentCursorY, this`savedCursorX, this`savedCursorXFlag
      ensures Cursor() == CursorDown(VisualBuffer, old(Cursor()))
      ensures old(CursorValid()) ==> CursorValid()
    {
      ghost var before := Cursor();
      if apparentCursorY < |VisualBuffer| {
        apparentCursorY := apparentCursorY + 1;
        VerticallyConstrainCursor();
      }
      if Valid(VisualBuffer, before) {
        CursorDownValid(VisualBuffer, before);
      }
    }

    /** actionNewLine as written: a fresh slice one line longer, the first
        bufferLine - 1 lines copied in, the two halves of the current line at
        bufferLine and bufferLine + 1, then the lines after it. */
    method ActionNewLine()
      requires 1 <= bufferLine < |FileBuffer|
      requires 0 <= bufferIndex <= |FileBuffer[bufferLine]|
      modifies this`FileBuffer
      ensures FileBuffer == NewLineAsWritten(old(FileBuffer), bufferLine, bufferIndex)
    {
      var fileBuffer, bl, bi := FileBuffer, bufferLine, bufferIndex;
      var line := fileBuffer[bl];
      var beforeSplit, afterSplit := line[..bi], line[bi..];
      var result := new string[|fileBuffer| + 1](_ => "");
      // copy(result, FileBuffer[:bufferLine-1])
      var i := 0;
      while i < bl - 1
        invariant 0 <= i <= bl - 1
        invariant forall k :: 0 <= k < i ==> result[k] == fileBuffer[k]
        invariant forall k :: i <= k < result.Length ==> result[k] == ""
      {
        result[i] := fileBuffer[i];
        i := i + 1;
      }
      result[bl] := beforeSplit;
      result[bl + 1] := afterSplit;
      // copy(result[bufferLine+2:], FileBuffer[bufferLine+1:])
      var j := bl + 1;
      while j < |fileBuffer|
        invariant bl + 1 <= j <= |fileBuffer|
        invariant forall k :: 0 <= k < bl - 1 ==> result[k] == fileBuffer[k]
        invariant result[bl - 1] == ""
        invariant result[bl] == beforeSplit && result[bl + 1] == afterSplit
        invariant forall k :: bl + 1 <= k < j ==> result[k + 1] == fileBuffer[k]
      {
        result[j + 1] := fileBuffer[j];
        j := j + 1;
      }
      ghost var expected := NewLineAsWritten(fileBuffer, bl, bi);
      assert forall k :: 0 <= k < result.Length ==> result[k] == expected[k];
      FileBuffer := result[..];
    }

    // -------------------------------------------------------------------
    // command_bar.go

    method CommandBarTyping(key: byte)
      requires !CommandBar.TypingRefused(Bar()) && |CommandBarBuffer| > 0 ==> CommandBar.CursorInText(Bar())
      modifies this`CommandBarBuffer, this`CommandBarCursorX
      ensures Bar() == CommandBar.Typing(old(Bar()), key)
    {
      if CommandBarCursorX > CommandBar.CmdBarCursorXBoundary || |CommandBarBuffer| > CommandBar.CmdBarCursorXBoundary {
        return;
      }
      if |CommandBarBuffer| == 0 {
        CommandBarBuffer := CommandBar.KeyString(key);
        CommandBarCursorX := 1;
      } else {
        var before := CommandBarBuffer[..CommandBarCursorX];
        var after := CommandBarBuffer[CommandBarCursorX..];
        CommandBarBuffer := before + CommandBar.KeyString(key) + after;
        CommandBarCursorX := CommandBarCursorX + 1;
      }
    }

    method CommandBarDeleteText()
      requires CommandBarCursorX > 0 && |CommandBarBuffer| > 0 ==> CommandBarCursorX <= |CommandBarBuffer|
      modifies this`CommandBarBuffer, this`CommandBarCursorX
      ensures Bar() == CommandBar.DeleteText(old(Bar()))
    {
      if CommandBarCursorX > 0 && |CommandBarBuffer| > 0 {
        var before := CommandBarBuffer[..CommandBarCursorX - 1];
        var after := CommandBarBuffer[CommandBarCursorX..];
        CommandBarBuffer := before + after;
        CommandBarCursorX := CommandBarCursorX - 1;
      }
    }

    /** commandBarMoveCursor without the terminal writes. */
    method CommandBarMoveCursor(key: byte)
      modifies this`CommandBarCursorX
      ensures Bar() == CommandBar.MoveCursor(old(Bar()), key)
    {
      if key == CommandBar.LeftArrowKey {
        if CommandBarCursorX > 0 {
          CommandBarCursorX := CommandBarCursorX - 1;
        }
      } else {
        if CommandBarCursorX < |CommandBarBuffer| && CommandBarCursorX <= CommandBar.CmdBarCursorXBoundary {
          CommandBarCursorX := CommandBarCursorX + 1;
        }
      }
    }

    /** ToggleCommandBar without drawing; the command it would execute is
        returned instead. */
    method ToggleCommandBar(toggled: bool) returns (executed: Option<string>)
      modifies this`CommandBarToggled, this`CommandBarBuffer, this`CommandBarCursorX
      ensures CommandBarToggled == toggled
      ensures (Bar(), executed) == CommandBar.Toggle(old(Bar()), toggled)
    {
      CommandBarToggled := toggled;
      executed := None;
      if !toggled && |CommandBarBuffer| > 0 {
        executed := Some(CommandBarBuffer);
      }
      CommandBarBuffer := "";
      CommandBarCursorX := 0;
    }

    function IsCommandBarQuitStr(): (q: bool)
      reads this`CommandBarBuffer
      ensures q <==> CommandBarBuffer == "quit"
    {
      CommandBarBuffer == CommandBar.CmdBarQuit
    }

    // -------------------------------------------------------------------
    // user_input.go and keybind.go

    /** ChangeKeybind through the editor's keybindings. */
    method ChangeKeybind(action: string, keybind: byte)
      modifies this`Keybindings
      ensures Keybindings == KeybindOps.ChangeKeybind(old(Keybindings), action, keybind)
      ensures SameCursorKeys(Keybindings, old(Keybindings))
    {
      Keybindings := KeybindOps.ChangeKeybind(Keybindings, action, keybind);
    }

    /** HandleKeyboardInput */
    method HandleKeyboardInput(key: byte) returns (signal: Signal)
      modifies this`EditorMode
      ensures (EditorMode, signal) == KeyboardInput(old(EditorMode), key)
    {
      if key == 'q' as int as byte {
        return Quit;
      }
      if Ansi.IsAlphaChar(key) {
        if EditorMode == EditorCommandMode {
          if key == EditorEditMode || key == EditorEditMode + AsciiLowerDif {
            EditorMode := EditorEditMode;
            return EditorModeChange;
          } else if key == EditorViewMode || key == EditorViewMode + AsciiLowerDif {
            EditorMode := EditorViewMode;
            return EditorModeChange;
          }
        }
      }
      return NoSignal;
    }

    /** MapKeybindToAction: runs the cursor action bound to the key, if the
        key came from an arrow key. */
    method RunKeybindAction(key: byte, isArrowKey: bool)
      requires var a := MapKeybindToAction(Keybindings, key, isArrowKey);
               a.Some? ==> ActionDefined(VisualBuffer, Cursor(), a.value)
      modifies this`apparentCursorX, this`apparentCursorY, this`savedCursorX, this`savedCursorXFlag
      ensures var a := MapKeybindToAction(Keybindings, key, isArrowKey);
              Cursor() == if a.Some? then ApplyAction(VisualBuffer, old(Cursor()), a.value) else old(Cursor())
    {
      var action := MapKeybindToAction(Keybindings, key, isArrowKey);
      if action.Some? {
        match action.value
        case ActionCursorLeft => ActionCursorLeft(key);
        case ActionCursorRight => ActionCursorRight(key);
        case ActionCursorUp => ActionCursorUp(key);
        case ActionCursorDown => ActionCursorDown(key);
      }
    }

    /** HandleEscapeInput: arrow sequences run the bound cursor action; a
        lone ESC returns to command mode. */
    method HandleEscapeInput(buf: seq<byte>, n: int) returns (signal: Signal)
      requires |buf| >= 3
      requires var a := EscapeInput(EditorMode, Keybindings, buf, n).2;
               a.Some? ==> ActionDefined(VisualBuffer, Cursor(), a.value)
      modifies this`EditorMode, this`apparentCursorX, this`apparentCursorY, this`savedCursorX, this`savedCursorXFlag
      ensures var r := EscapeInput(old(EditorMode), Keybindings, buf, n);
              && EditorMode == r.0 && signal == r.1
              && Cursor() == if r.2.Some? then ApplyAction(VisualBuffer, old(Cursor()), r.2.value) else old(Cursor())
      ensures old(CursorValid()) ==> CursorValid()
    {
      if (n == 3 && buf[2] == UpArrowKey) || buf[2] == DownArrowKey || buf[2] == RightArrowKey || buf[2] == LeftArrowKey {
        RunKeybindAction(buf[2], true);
        return NoSignal;
      }
      if n == 1 && buf[0] == Escape {
        EditorMode := EditorCommandMode;
        return EditorModeChange;
      }
      return NoSignal;
    }
  }
}
