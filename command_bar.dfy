/** fileEditor/command_bar.go: the one-line command bar, a text buffer with
    a cursor. Each operation is a function from the old bar to the new one;
    the methods of Editor.FileEditor apply them to the editor's fields. */
module CommandBar {
  import opened GoStd
  import opened Wrappers

  const CmdBarQuit: string := "quit"
  const CmdBarWidth: int := 35
  /** Neither the cursor nor the text may pass this column when typing. */
  const CmdBarCursorXBoundary: int := CmdBarWidth - 10

  const LeftArrowKey: byte := 'D' as int as byte

  datatype Bar = Bar(buffer: string, cursorX: int)

  /** The cursor is somewhere in the text or just after it. */
  predicate CursorInText(b: Bar)
  {
    0 <= b.cursorX <= |b.buffer|
  }

  /** Go's string(key) for a byte converts it to a rune and encodes that rune
      in UTF-8: one byte below 0x80, two bytes from 0x80 up. */
  function KeyString(key: byte): (s: string)
    ensures key < 0x80 ==> s == [key as int as char]
    ensures key >= 0x80 ==> |s| == 2
    ensures key >= 0x80 ==> 0xC2 <= s[0] as int <= 0xC3 && 0x80 <= s[1] as int < 0xC0
    ensures key >= 0x80 ==> (s[0] as int - 0xC0) * 64 + (s[1] as int - 0x80) == key as int
    ensures IsByteString(s)
  {
    if key < 0x80 then [key as int as char]
    else [(0xC0 + key as int / 64) as char, (0x80 + key as int % 64) as char]
  }

  /** Typing is refused when the cursor or the text is past the boundary. */
  predicate TypingRefused(b: Bar)
  {
    b.cursorX > CmdBarCursorXBoundary || |b.buffer| > CmdBarCursorXBoundary
  }

  /** commandBarTyping inserts string(key) at the cursor and moves the cursor
      one place right; into an empty bar it puts just the key, cursor at 1.
      Slicing at the cursor panics unless it lies in the text. */
  function Typing(b: Bar, key: byte): (r: Bar)
    requires !TypingRefused(b) && |b.buffer| > 0 ==> CursorInText(b)
    ensures TypingRefused(b) ==> r == b
    ensures !TypingRefused(b) && |b.buffer| == 0 ==> r == Bar(KeyString(key), 1)
    ensures !TypingRefused(b) && |b.buffer| > 0 ==>
              r == Bar(b.buffer[..b.cursorX] + KeyString(key) + b.buffer[b.cursorX..], b.cursorX + 1)
  {
    if TypingRefused(b) then b
    else if |b.buffer| == 0 then Bar(KeyString(key), 1)
    else Bar(b.buffer[..b.cursorX] + KeyString(key) + b.buffer[b.cursorX..], b.cursorX + 1)
  }

  /** commandBarDeleteText removes the character before the cursor. */
  function DeleteText(b: Bar): (r: Bar)
    requires b.cursorX > 0 && |b.buffer| > 0 ==> b.cursorX <= |b.buffer|
    ensures b.cursorX <= 0 || |b.buffer| == 0 ==> r == b
    ensures b.cursorX > 0 && |b.buffer| > 0 ==>
              |r.buffer| == |b.buffer| - 1 && r.cursorX == b.cursorX - 1 &&
              r.buffer[..r.cursorX] == b.buffer[..b.cursorX - 1] &&
              r.buffer[r.cursorX..] == b.buffer[b.cursorX..]
  {
    if b.cursorX > 0 && |b.buffer| > 0 then
      var r := Bar(b.buffer[..b.cursorX - 1] + b.buffer[b.cursorX..], b.cursorX - 1);
      assert r.buffer[..r.cursorX] == b.buffer[..b.cursorX - 1];
      r
    else b
  }

  /** commandBarMoveCursor without the terminal write: the left arrow moves
      left unless at the start; any other key moves right unless at the end
      of the text or past the boundary. */
  function MoveCursor(b: Bar, key: byte): (r: Bar)
    ensures r.buffer == b.buffer
    ensures key == LeftArrowKey ==> r.cursorX == if b.cursorX > 0 then b.cursorX - 1 else b.cursorX
    ensures key != LeftArrowKey ==>
              r.cursorX == if b.cursorX < |b.buffer| && b.cursorX <= CmdBarCursorXBoundary
                           then b.cursorX + 1 else b.cursorX
  {
    if key == LeftArrowKey then
      if b.cursorX > 0 then b.(cursorX := b.cursorX - 1) else b
    else
      if b.cursorX < |b.buffer| && b.cursorX <= CmdBarCursorXBoundary then b.(cursorX := b.cursorX + 1) else b
  }

  /** isCommandBarQuitStr */
  function IsQuitStr(b: Bar): (q: bool)
    ensures q <==> b.buffer == "quit"
  {
    b.buffer == CmdBarQuit
  }

  /** ToggleCommandBar without the drawing: the bar is left empty, and the
      old text is handed to the command executor (the second component) only
      when closing a non-empty bar. */
  function Toggle(b: Bar, toggled: bool): (r: (Bar, Option<string>))
    ensures r.0 == Bar("", 0)
    ensures r.1.Some? <==> !toggled && |b.buffer| > 0
    ensures r.1.Some? ==> r.1.value == b.buffer
  {
    (Bar("", 0), if !toggled && |b.buffer| > 0 then Some(b.buffer) else None)
  }

  // ---------------------------------------------------------------------
  // Properties

  /** Typing, deleting and moving keep the cursor in the text, and the text
      never grows past the boundary plus one string(key). */
  lemma TypingKeepsCursorInText(b: Bar, key: byte)
    requires CursorInText(b)
    ensures CursorInText(Typing(b, key))
    ensures |b.buffer| <= CmdBarCursorXBoundary + 2 ==> |Typing(b, key).buffer| <= CmdBarCursorXBoundary + 2
    ensures key < 0x80 && |b.buffer| <= CmdBarCursorXBoundary + 1 ==>
              |Typing(b, key).buffer| <= CmdBarCursorXBoundary + 1
  {
  }

  lemma DeleteKeepsCursorInText(b: Bar)
    requires CursorInText(b)
    ensures CursorInText(DeleteText(b))
  {
  }

  lemma MoveKeepsCursorInText(b: Bar, key: byte)
    requires CursorInText(b)
    ensures CursorInText(MoveCursor(b, key))
  {
  }

  /** Deleting right after typing a key below 0x80 gives back the bar as it
      was. */
  lemma TypeThenDelete(b: Bar, key: byte)
    requires CursorInText(b) && !TypingRefused(b) && key < 0x80
    ensures DeleteText(Typing(b, key)) == b
  {
    var t := Typing(b, key);
    var before, after := b.buffer[..b.cursorX], b.buffer[b.cursorX..];
    assert b.buffer == before + after;
    if |b.buffer| > 0 {
      assert t.buffer == before + [key as int as char] + after;
      assert t.buffer[..t.cursorX - 1] == before;
      assert t.buffer[t.cursorX..] == after;
    }
  }

  /** Typing a key of 0x80 or above and deleting again leaves a stray byte:
      string(key) wrote two bytes and the delete removes one. */
  lemma TypeThenDeleteWideKey()
    ensures Typing(Bar("", 0), 0xC3 as byte) == Bar([0xC3 as char, 0x83 as char], 1)
    ensures DeleteText(Typing(Bar("", 0), 0xC3 as byte)) == Bar([0x83 as char], 0)
  {
    var t := Typing(Bar("", 0), 0xC3 as byte);
    assert t.buffer[..0] == [] && t.buffer[1..] == [0x83 as char];
  }

  /** The evidently intended insertion of exactly the typed byte. */
  function TypingOneByte(b: Bar, key: byte): (r: Bar)
    requires !TypingRefused(b) && |b.buffer| > 0 ==> CursorInText(b)
    ensures TypingRefused(b) ==> r == b
    ensures !TypingRefused(b) && CursorInText(b) ==>
              && |r.buffer| == |b.buffer| + 1 && r.cursorX == b.cursorX + 1
              && r.buffer[b.cursorX] == key as int as char
              && r.buffer[..b.cursorX] == b.buffer[..b.cursorX]
              && r.buffer[b.cursorX + 1..] == b.buffer[b.cursorX..]
  {
    if TypingRefused(b) then b
    else if |b.buffer| == 0 then Bar([key as int as char], 1)
    else Bar(b.buffer[..b.cursorX] + [key as int as char] + b.buffer[b.cursorX..], b.cursorX + 1)
  }

  /** With one byte per key, typing then deleting always restores the bar. */
  lemma TypeOneByteThenDelete(b: Bar, key: byte)
    requires CursorInText(b) && !TypingRefused(b)
    ensures DeleteText(TypingOneByte(b, key)) == b
  {
    var t := TypingOneByte(b, key);
    var before, after := b.buffer[..b.cursorX], b.buffer[b.cursorX..];
    assert b.buffer == before + after;
    if |b.buffer| > 0 {
      assert t.buffer[..t.cursorX - 1] == before;
      assert t.buffer[t.cursorX..] == after;
    }
  }

  /** Typing a string of keys one by one. */
  function TypeAll(b: Bar, keys: seq<byte>): (r: Bar)
    requires CursorInText(b)
    ensures CursorInText(r)
    decreases |keys|
  {
    if keys == [] then b
    else
      TypingKeepsCursorInText(b, keys[0]);
      TypeAll(Typing(b, keys[0]), keys[1..])
  }

  /** Typing the keys of "quit" into an empty bar makes it the quit command. */
  lemma TypingQuit()
    ensures IsQuitStr(TypeAll(Bar("", 0), [113, 117, 105, 116]))
  {
    var b1 := Typing(Bar("", 0), 113);
    assert b1 == Bar("q", 1);
    var b2 := Typing(b1, 117);
    assert b2.buffer == "q" + "u" + "";
    var b3 := Typing(b2, 105);
    assert b3.buffer == "qu" + "i" + "";
    var b4 := Typing(b3, 116);
    assert b4.buffer == "qui" + "t" + "";
    assert [113 as byte, 117, 105, 116][1..] == [117, 105, 116];
    assert [117 as byte, 105, 116][1..] == [105, 116];
    assert [105 as byte, 116][1..] == [116];
    assert [116 as byte][1..] == [];
  }
}
