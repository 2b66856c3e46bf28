/** fileEditor/user_input.go: decoding xterm SGR mouse reports (private mode
    1006, "Mouse Tracking" in XTerm Control Sequences), the Command/Edit/View
    mode machine driven by single keys, and the dispatch of escape
    sequences. The functions here say what changes; Editor.FileEditor applies
    that to its fields. */
module UserInput {
  import opened GoStd
  import opened EditorConsts
  import opened Keybind
  import opened Wrappers
  import Ansi

  /** The bytes after ESC that open an SGR mouse report. */
  const SgrMousePrefix: string := "[<"

  datatype MouseInput = MouseInput(Event: int, X: int, Y: int)

  /** The bytes read, minus the leading ESC, as a string. */
  function EscSequence(buf: seq<byte>, n: int): string
    requires 1 <= n <= |buf|
  {
    BytesToString(buf[1..n])
  }

  predicate IsMouseReport(buf: seq<byte>, n: int)
    requires 1 <= n <= |buf|
  {
    HasPrefix(EscSequence(buf, n), SgrMousePrefix)
  }

  /** The ';'-separated fields between the prefix and the final byte. */
  function MouseFields(buf: seq<byte>, n: int): seq<string>
    requires 1 <= n <= |buf| && |EscSequence(buf, n)| >= 3
  {
    var s := EscSequence(buf, n);
    Split(s[2..|s| - 1], ';')
  }

  /** What ReadEscSequence needs not to panic: a slice buf[1:n], and in a
      mouse report room for the final byte and at least three fields. */
  predicate ReadableEscSequence(buf: seq<byte>, n: int)
  {
    && 1 <= n <= |buf|
    && (IsMouseReport(buf, n) ==> |EscSequence(buf, n)| >= 3 && |MouseFields(buf, n)| >= 3)
  }

  /** ReadEscSequence: whether the bytes are a mouse report and, if so, the
      event and position, each read by strconv.Atoi with its error ignored. */
  function ReadEscSequence(buf: seq<byte>, n: int): (r: (bool, MouseInput))
    requires ReadableEscSequence(buf, n)
    ensures r.0 <==> IsMouseReport(buf, n)
    ensures !r.0 ==> r.1 == MouseInput(0, 0, 0)
    ensures r.0 && !IntSyntax(MouseFields(buf, n)[0]) ==> r.1.Event == 0
    ensures r.0 && !IntSyntax(MouseFields(buf, n)[1]) ==> r.1.X == 0
    ensures r.0 && !IntSyntax(MouseFields(buf, n)[2]) ==> r.1.Y == 0
  {
    if IsMouseReport(buf, n) then
      // the final byte ('m' or 'M') is dropped unread
      var parts := MouseFields(buf, n);
      var (event, _) := Atoi(parts[0]);
      var (x, _) := Atoi(parts[1]);
      var (y, _) := Atoi(parts[2]);
      (true, MouseInput(event, x, y))
    else
      (false, MouseInput(0, 0, 0))
  }

  // ---------------------------------------------------------------------
  // The reports a terminal sends

  lemma FormatIntBytes(n: int)
    ensures IsByteString(FormatInt(n))
    ensures ';' !in FormatInt(n)
  {
    var m := if n < 0 then -n else n;
    assert forall i :: 0 <= i < |FormatNat(m)| ==> IsDigit(FormatNat(m)[i]);
    NoSepInDigits(FormatNat(m), ';');
  }

  /** The text of a report after ESC, without the final byte: the prefix,
      event, x and y, then any further fields. */
  function MouseText(e: int, x: int, y: int, extra: string): (t: string)
    requires IsByteString(extra)
    ensures IsByteString(t)
  {
    FormatIntBytes(e);
    FormatIntBytes(x);
    FormatIntBytes(y);
    SgrMousePrefix + MouseBody(e, x, y, extra)
  }

  function MouseReport(e: int, x: int, y: int, extra: string, final: byte): seq<byte>
    requires IsByteString(extra)
  {
    [Escape] + StringToBytes(MouseText(e, x, y, extra)) + [final]
  }

  lemma {:induction false} MouseReportText(e: int, x: int, y: int, extra: string, final: byte)
    requires IsByteString(extra)
    ensures var buf := MouseReport(e, x, y, extra, final);
            EscSequence(buf, |buf|) == MouseText(e, x, y, extra) + [final as int as char]
  {
    var buf := MouseReport(e, x, y, extra, final);
    var t := MouseText(e, x, y, extra);
    assert buf[1..|buf|] == StringToBytes(t) + [final];
    var s := EscSequence(buf, |buf|);
    assert |s| == |t| + 1;
    forall i | 0 <= i < |s|
      ensures s[i] == (t + [final as int as char])[i]
    {
      if i < |t| {
        assert StringToBytes(t)[i] as int == t[i] as int by {
          assert BytesToString(StringToBytes(t))[i] == t[i];
        }
      }
    }
  }

  lemma SplitTwoFields(a: string, b: string, c: string)
    requires ';' !in a && ';' !in b
    ensures Split(a + [';'] + (b + [';'] + c), ';') == [a, b] + Split(c, ';')
  {
    SplitFirst(a, ';', b + [';'] + c);
    SplitFirst(b, ';', c);
  }

  /** A field followed by nothing or by further ';'-fields is the first part. */
  lemma SplitHeadField(f: string, extra: string)
    requires ';' !in f && (extra == "" || extra[0] == ';')
    ensures Split(f + extra, ';')[0] == f
  {
    if extra == "" {
      assert f + extra == f;
      SplitNoSep(f, ';');
    } else {
      assert extra == [';'] + extra[1..];
      assert f + extra == f + [';'] + extra[1..];
      SplitFirst(f, ';', extra[1..]);
    }
  }

  /** The fields of a report split at ';': event, x, y and whatever follows. */
  lemma MouseTextFields(e: int, x: int, y: int, extra: string)
    requires extra == "" || extra[0] == ';'
    ensures var parts := Split(MouseBody(e, x, y, extra), ';');
            |parts| >= 3 && parts[0] == FormatInt(e) && parts[1] == FormatInt(x) && parts[2] == FormatInt(y)
  {
    var fe, fx, fy := FormatInt(e), FormatInt(x), FormatInt(y);
    FormatIntBytes(e);
    FormatIntBytes(x);
    FormatIntBytes(y);
    var c := fy + extra;
    assert fe + ";" + fx + ";" + fy + extra == fe + [';'] + (fx + [';'] + c);
    SplitTwoFields(fe, fx, c);
    SplitHeadField(fy, extra);
  }

  /** The fields of a report text as a string of ';'-separated numbers. */
  function MouseBody(e: int, x: int, y: int, extra: string): string
  {
    FormatInt(e) + ";" + FormatInt(x) + ";" + FormatInt(y) + extra
  }

  lemma MouseReportIsReport(e: int, x: int, y: int, extra: string, final: byte)
    requires IsByteString(extra)
    ensures var buf := MouseReport(e, x, y, extra, final);
            && |EscSequence(buf, |buf|)| >= 3
            && IsMouseReport(buf, |buf|)
            && MouseFields(buf, |buf|) == Split(MouseBody(e, x, y, extra), ';')
  {
    var buf := MouseReport(e, x, y, extra, final);
    MouseReportText(e, x, y, extra, final);
    var s := EscSequence(buf, |buf|);
    var body := MouseBody(e, x, y, extra);
    assert s == SgrMousePrefix + body + [final as int as char];
    assert s[..2] == SgrMousePrefix by {
      assert s[..2] == (SgrMousePrefix + body + [final as int as char])[..2];
    }
    assert s[2..|s| - 1] == body by {
      assert s[2..|s| - 1] == (SgrMousePrefix + body + [final as int as char])[2..|s| - 1];
    }
  }

  /** A well-formed report ESC "[<" e ";" x ";" y, with any further fields
      and any final byte, decodes to its three numbers. */
  lemma ReadMouseReport(e: int, x: int, y: int, extra: string, final: byte)
    requires MinInt64 <= e <= MaxInt64 && MinInt64 <= x <= MaxInt64 && MinInt64 <= y <= MaxInt64
    requires IsByteString(extra) && (extra == "" || extra[0] == ';')
    ensures var buf := MouseReport(e, x, y, extra, final);
            && ReadableEscSequence(buf, |buf|)
            && ReadEscSequence(buf, |buf|) == (true, MouseInput(e, x, y))
  {
    MouseReportIsReport(e, x, y, extra, final);
    MouseTextFields(e, x, y, extra);
    AtoiFormatInt(e);
    AtoiFormatInt(x);
    AtoiFormatInt(y);
  }

  /** The report written out in the source's doc comment, [<35;64;33m:
      event 35 (no button) at x = 64, y = 33. */
  lemma DocExampleReport()
    ensures var buf: seq<byte> := [27, 91, 60, 51, 53, 59, 54, 52, 59, 51, 51, 109];
            ReadableEscSequence(buf, 12) && ReadEscSequence(buf, 12) == (true, MouseInput(35, 64, 33))
  {
    DocExampleBytes();
    ReadMouseReport(35, 64, 33, "", 109);
  }

  /** The bytes of that report are ESC "[<35;64;33" 'm'. */
  lemma DocExampleBytes()
    ensures MouseReport(35, 64, 33, "", 109) == [27, 91, 60, 51, 53, 59, 54, 52, 59, 51, 51, 109]
  {
    DocExampleText();
    var t := "[<35;64;33";
    assert StringToBytes(t) == [91, 60, 51, 53, 59, 54, 52, 59, 51, 51] by {
      var b := StringToBytes(t);
      assert b[0] == 91 && b[1] == 60 && b[2] == 51 && b[3] == 53 && b[4] == 59;
      assert b[5] == 54 && b[6] == 52 && b[7] == 59 && b[8] == 51 && b[9] == 51;
    }
  }

  /** The text of that report. */
  lemma DocExampleText()
    ensures MouseText(35, 64, 33, "") == "[<35;64;33"
  {
    assert FormatInt(35) == "35" && FormatInt(64) == "64" && FormatInt(33) == "33";
  }

  // ---------------------------------------------------------------------
  // The mode machine

  const AsciiLowerDif: byte := 32

  predicate IsMode(mode: byte)
  {
    mode == EditorCommandMode || mode == EditorEditMode || mode == EditorViewMode
  }

  /** HandleKeyboardInput: the new mode and the signal returned. 'q' quits
      in every mode; in command mode E or e enters edit mode and V or v view
      mode; nothing else changes the mode. */
  function KeyboardInput(mode: byte, key: byte): (r: (byte, Signal))
    ensures r.1 == Quit <==> key == 'q' as int as byte
    ensures key == 'q' as int as byte ==> r.0 == mode
    ensures r.0 != mode ==> mode == EditorCommandMode && r.1 == EditorModeChange
    ensures (mode == EditorCommandMode && (key == 'E' as int as byte || key == 'e' as int as byte))
            ==> r == (EditorEditMode, EditorModeChange)
    ensures (mode == EditorCommandMode && (key == 'V' as int as byte || key == 'v' as int as byte))
            ==> r == (EditorViewMode, EditorModeChange)
    ensures mode != EditorCommandMode && key != 'q' as int as byte ==> r == (mode, NoSignal)
    ensures (key !in {'q' as int as byte, 'E' as int as byte, 'e' as int as byte, 'V' as int as byte, 'v' as int as byte})
            ==> r == (mode, NoSignal)
  {
    if key == 'q' as int as byte then (mode, Quit)
    else if Ansi.IsAlphaChar(key) && mode == EditorCommandMode then
      if key == EditorEditMode || key == EditorEditMode + AsciiLowerDif then (EditorEditMode, EditorModeChange)
      else if key == EditorViewMode || key == EditorViewMode + AsciiLowerDif then (EditorViewMode, EditorModeChange)
      else (mode, NoSignal)
    else (mode, NoSignal)
  }

  /** The arrow test of HandleEscapeInput. Go's && binds tighter than ||, so
      only the Up case checks that exactly three bytes were read. */
  predicate EscapeArrowTest(buf: seq<byte>, n: int)
    requires |buf| >= 3
    ensures EscapeArrowTest(buf, n) ==> IsArrowLetter(buf[2])
    ensures n == 3 && IsArrowLetter(buf[2]) ==> EscapeArrowTest(buf, n)
    ensures buf[2] == UpArrowKey && n != 3 ==> !EscapeArrowTest(buf, n)
  {
    (n == 3 && buf[2] == UpArrowKey) || buf[2] == DownArrowKey || buf[2] == RightArrowKey || buf[2] == LeftArrowKey
  }

  /** HandleEscapeInput: the new mode, the signal returned, and the cursor
      action it runs. An arrow sequence dispatches through the keybindings;
      otherwise a lone ESC returns to command mode. */
  function EscapeInput(mode: byte, k: Keybind, buf: seq<byte>, n: int): (r: (byte, Signal, Option<CursorAction>))
    requires |buf| >= 3
    ensures r.0 != mode ==> r.0 == EditorCommandMode
    ensures r.1 == EditorModeChange <==> !EscapeArrowTest(buf, n) && n == 1 && buf[0] == Escape
    ensures r.1 != EditorModeChange ==> r.0 == mode && r.1 == NoSignal
    ensures r.2.Some? ==> EscapeArrowTest(buf, n) && r.2 == MapKeybindToAction(k, buf[2], true)
    ensures EscapeArrowTest(buf, n) ==> r.2 == MapKeybindToAction(k, buf[2], true)
  {
    if EscapeArrowTest(buf, n) then
      (mode, NoSignal, MapKeybindToAction(k, buf[2], true))
    else if n == 1 && buf[0] == Escape then
      (EditorCommandMode, EditorModeChange, None)
    else
      (mode, NoSignal, None)
  }

  // ---------------------------------------------------------------------
  // Properties

  /** Neither handler takes the editor out of the three modes. */
  lemma ModesClosed(mode: byte, key: byte, k: Keybind, buf: seq<byte>, n: int)
    requires IsMode(mode) && |buf| >= 3
    ensures IsMode(KeyboardInput(mode, key).0)
    ensures IsMode(EscapeInput(mode, k, buf, n).0)
  {
  }

  /** The input loop reads into a fresh zeroed 16-byte array, so a lone ESC
      always returns to command mode, from every mode. */
  lemma LoneEscapeEntersCommandMode(mode: byte, k: Keybind)
    ensures var buf := [Escape] + seq(15, _ => 0 as byte);
            EscapeInput(mode, k, buf, 1) == (EditorCommandMode, EditorModeChange, None)
  {
    var buf := [Escape] + seq(15, _ => 0 as byte);
    assert buf[2] == 0;
  }

  /** From command mode, 'e' then ESC (and 'v' then ESC) come back. */
  lemma EditThenEscape(k: Keybind)
    ensures var buf := [Escape] + seq(15, _ => 0 as byte);
            && KeyboardInput(EditorCommandMode, 'e' as int as byte).0 == EditorEditMode
            && EscapeInput(EditorEditMode, k, buf, 1).0 == EditorCommandMode
            && KeyboardInput(EditorCommandMode, 'v' as int as byte).0 == EditorViewMode
            && EscapeInput(EditorViewMode, k, buf, 1).0 == EditorCommandMode
  {
    var buf := [Escape] + seq(15, _ => 0 as byte);
    LoneEscapeEntersCommandMode(EditorEditMode, k);
    LoneEscapeEntersCommandMode(EditorViewMode, k);
  }

  /** The precedence of the arrow test: ESC [ B followed by more bytes still
      moves the cursor down, while ESC [ A followed by more bytes does
      nothing. */
  lemma ArrowTestPrecedence()
    ensures EscapeInput(EditorEditMode, NewKeybind(), [27, 91, 66, 126], 4).2 == Some(ActionCursorDown)
    ensures EscapeInput(EditorEditMode, NewKeybind(), [27, 91, 65, 126], 4).2 == None
    ensures EscapeInput(EditorEditMode, NewKeybind(), [27, 91, 65, 0], 3).2 == Some(ActionCursorUp)
  {
    DefaultArrowDispatch(66, true);
  }

  /** With the default keybindings, escape dispatch and GetArrowKeyPress
      agree on what each arrow sequence ESC [ x means. */
  lemma ArrowNamesAgree(mode: byte, buf: seq<byte>)
    requires |buf| >= 3 && Ansi.IsCsiPrefix(buf)
    ensures Ansi.GetArrowKeyPress(buf) == "UP" <==> EscapeInput(mode, NewKeybind(), buf, 3).2 == Some(ActionCursorUp)
    ensures Ansi.GetArrowKeyPress(buf) == "DOWN" <==> EscapeInput(mode, NewKeybind(), buf, 3).2 == Some(ActionCursorDown)
    ensures Ansi.GetArrowKeyPress(buf) == "RIGHT" <==> EscapeInput(mode, NewKeybind(), buf, 3).2 == Some(ActionCursorRight)
    ensures Ansi.GetArrowKeyPress(buf) == "LEFT" <==> EscapeInput(mode, NewKeybind(), buf, 3).2 == Some(ActionCursorLeft)
    ensures Ansi.GetArrowKeyPress(buf) == "" <==> EscapeInput(mode, NewKeybind(), buf, 3).2 == None
  {
  }
}
