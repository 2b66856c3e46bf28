# Intuitive (CLITextEditor) — a Dafny model of the editor core

This project models the core of a terminal text editor written in Go, and proves properties of it. The model covers:

- the soft-wrap layout of a document into visual rows, with the 1-indexed line-end table kept beside it;
- the conversions between screen positions and positions in the document;
- cursor movement over the visual rows, including the "sticky column" remembered across vertical moves;
- splitting a line;
- the one-line command bar;
- the decoding of xterm SGR mouse reports, from private mode 1006 ("Mouse Tracking" in XTerm Control Sequences);
- the Command/Edit/View mode machine and the keybinding record;
- the viewport size;
- the control sequences the editor writes: CUP, CUF, CUB and CUD of ECMA-48 (sections 8.3.21, 8.3.20, 8.3.18 and 8.3.19), and SGR direct colour, 38;2 and 48;2 (section 8.3.117).

How the modules map to the Go files:

- `Buffer` holds `buffer.go`. `Wrapped` specifies `GetWordWrappedLines`. `VisualRows` and `LineEnds` specify what `RefreshVisualBuffers` builds.
- `Cursor` holds `cursor.go`. It has the binary search, the index computation and the reprojection after a width change.
- `Navigation` holds `action.go`.
- `CommandBar` holds `command_bar.go`.
- `UserInput` holds `user_input.go`.
- `Keybind` holds `keybind.go`.
- `Ansi` and `Rgb` hold `util/ansi`.
- `GoStd` holds the little of Go's runtime and standard library the code relies on:
  - `byte`;
  - the truncating `%`;
  - `%d`;
  - `strconv.Atoi`;
  - `strings.HasPrefix` and `strings.Split`.
- `Editor.FileEditor` is the editor record as a class. Its methods change the fields the Go methods change, and each method is proved against the pure function of the module for its Go file. The package variables `savedCursorX` and `savedCursorXFlag` of `action.go` are fields of this class.
- `BufferMappedTests` restates the table-driven cases of `tests/buffer_mapped_test.go` as methods whose postconditions are the expected results.

Invariants the model proves:

- `Buffer.WellFormedLayout(lines, visual, mapped)` says the layout describes the document. The line-end table has one entry per line and strictly increases. Its last entry is the number of rows. The rows between two entries glue back into that line.
- `Navigation.Valid(visual, cursor)` says the cursor is on the text: between the margin and one past the row's end. It also says that, while the sticky flag is set, the cursor sits at the remembered column, or at the end of a shorter row.
- `RefreshVisualBuffers` always establishes `WellFormedLayout`.
- Every cursor move keeps `Valid`. A mouse click always puts the cursor in a `Valid` position.

## Model

| member | source | states |
|---|---|---|
| GoStd.Rem | fileEditor/cursor.go:120 | Go's `%` truncates toward zero: the remainder carries the dividend's sign, is smaller in size than the divisor, and agrees with the Euclidean remainder on non-negative dividends |
| GoStd.BytesToString | fileEditor/user_input.go:87 | `string(buf[1:n])` has one character per byte, each with that byte's value |
| GoStd.StringToBytes | fileEditor/user_input.go:33-50 | spelling a byte string as bytes inverts `BytesToString` |
| GoStd.FormatNat | util/ansi/ansi.go:24 | `%d` of a natural number is a non-empty string of digits, one digit exactly below 10, with a leading '0' only for zero |
| GoStd.FormatInt | util/ansi/ansi.go:24-37 | `%d` of an integer is a minus sign for negatives, then the digits of its magnitude |
| GoStd.DigitsValueFormatNat | util/ansi/rgb.go:17 | reading the digits `%d` wrote gives the number back |
| GoStd.FormatNatShort | util/ansi/rgb.go:11-17 | a numeral has at most three digits exactly when its value is below 1000, so a `uint8` component takes one to three digits |
| GoStd.Atoi | fileEditor/user_input.go:93-95 | `strconv.Atoi` succeeds exactly on an optional sign followed by digits, with a value in the 64-bit range; a syntax error yields 0 |
| GoStd.AtoiFormatInt | fileEditor/user_input.go:93-95 | every 64-bit integer written with `%d` reads back as itself, without error |
| GoStd.Split | fileEditor/user_input.go:91 | `strings.Split` with a one-byte separator gives at least one part, no part contains the separator, and joining the parts with it gives the string back |
| GoStd.SplitJoin | fileEditor/user_input.go:91 | splitting parts that were joined with a separator they do not contain gives those parts back |
| GoStd.SplitFirst | fileEditor/user_input.go:91 | a field without the separator, followed by the separator, is the first part of the split |
| MathUtil.Clamp | fileEditor/action.go:35-39 | the value when it is inside the range, `lo` below it, `hi` above it; always inside a non-empty range |
| Buffer.Wrapped | fileEditor/buffer.go:3-21 | the segments of a line: at least one; glued together they give the line back; every segment but the last has exactly maxWidth - 1 bytes; the last has fewer than maxWidth and is empty only for the empty line; a short line is its own single segment |
| Buffer.ConcatAppend | fileEditor/buffer.go:35 | gluing two lists of rows is gluing each one and joining the results |
| Buffer.WrappedStep | fileEditor/buffer.go:6-11 | one turn of the loop cuts off the first maxWidth - 1 bytes as a segment, and the rest cuts into the remaining segments |
| Buffer.GetWordWrappedLines | fileEditor/buffer.go:3-21 | the loop returns exactly the segments `Wrapped` describes; it needs maxWidth >= 2 unless the line is already shorter than maxWidth (width 1 never terminates) |
| Buffer.VisualRows | fileEditor/buffer.go:23-43 | the rows `RefreshVisualBuffers` builds: at least one per line; `Buffer.VisualRowsText` and `Buffer.LineSegments` say what they hold |
| Buffer.VisualRowsText | fileEditor/buffer.go:23-43 | the rebuilt rows hold the document's text and nothing else: glued together they give the lines glued together, and every row is shorter than the wrap width |
| Buffer.LineEnds | fileEditor/buffer.go:27-41 | one table entry per logical line; the last entry is the number of visual rows |
| Buffer.RefreshStep | fileEditor/buffer.go:29-41 | one turn of the loop appends the line's segments to the rows and the running `end` to the table, and what it has built stays the layout of the lines seen so far |
| Buffer.RefreshBounds | fileEditor/buffer.go:24-25 | the cleared tables are the layout of no lines; after every line they are the layout of the document |
| Buffer.VisualRowsPrefix | fileEditor/buffer.go:29-42 | the rows and table of a prefix of the document are prefixes of the whole document's rows and table |
| Buffer.LineBounds | fileEditor/buffer.go:33-41 | entry k is the number of rows of lines 0..k, and line k starts after the rows of lines 0..k-1 |
| Buffer.LineSegments | fileEditor/buffer.go:29-42 | the rows between line k's start and its entry are exactly line k's segments |
| Buffer.AdjacentIncreasing | fileEditor/buffer.go:33-41 | a table that increases from each entry to the next is strictly increasing |
| Buffer.LineEndsIncreasing | fileEditor/buffer.go:27-41 | the table strictly increases, because every line has at least one segment |
| Buffer.RefreshedLayoutIsWellFormed | fileEditor/buffer.go:23-43 | the rebuilt rows and table always form a well-formed layout of the document |
| Buffer.LayoutHasRows | fileEditor/fileEditor.go:151-165 | a document of at least one line has a first visual row, so the cursor can start on row 1 |
| Cursor.LineOfRow | fileEditor/cursor.go:12-53 | reference for the search: the first line whose table entry is at least the row (every earlier entry is below it), or the last line |
| Cursor.LineFrom | fileEditor/cursor.go:23-50 | the same first index, searched from i onwards |
| Cursor.LineOfRowUnique | fileEditor/cursor.go:28-41 | an index with those two properties is the one `LineOfRow` gives; this justifies every early return of the search |
| Cursor.CalcBufferLineFromACY | fileEditor/cursor.go:12-53 | the search terminates on every input and returns an index of the table, or 0 for an empty one; on a strictly increasing table the O(1) shortcut and the binary search both return the first line whose entry is at least acY; the shortcut needs acY >= 1 |
| Cursor.RowInLine | fileEditor/cursor.go:12-53 | on a strictly increasing table, every row within line k's span is found in line k |
| Cursor.LineOfValidRow | fileEditor/cursor.go:12-53 | on a well-formed layout, every visual row lies within the span of the line the search finds for it |
| Cursor.RowsLengthConcat | fileEditor/cursor.go:73-80 | the lengths the loop adds up are the length of those rows glued together |
| Cursor.RowsLengthMonotone | fileEditor/cursor.go:73-80 | adding more rows never lowers the total |
| Cursor.CalcBufferIndexFromACXY | fileEditor/cursor.go:63-83 | a cursor row within the line's span gives the lengths of the line's rows above it, plus acX, minus 1; on the line's first row that is acX - 1; any other row gives the length of the whole span minus 1 |
| Cursor.IndexWithinLine | fileEditor/cursor.go:63-83 | on a well-formed layout, a cursor on a row with a column within the row (or just past it) gives an index between 0 and the length of the line |
| Cursor.RowsWalked | fileEditor/cursor.go:108-117 | the number of rows the loop walks: none for an empty span, otherwise between 1 and the span |
| Cursor.BreakRows | fileEditor/cursor.go:110-114 | leaving the loop by its break after y full rows walks y + 1 rows |
| Cursor.FullRows | fileEditor/cursor.go:110-117 | running the loop to the end of the span walks the whole span |
| Cursor.CalcNewACXY | fileEditor/cursor.go:94-123 | the column is (bufferIndex + 1) mod (newEditorWidth - 1) with Go's `%`, which panics when the divisor is 0; the row is the line's start plus the rows walked by subtracting the width once per row |
| Cursor.CalcNewACXYBounds | fileEditor/cursor.go:106-120 | for width >= 2 the column is in [0, width - 2]; when the line has at least one row, the row is in [start + 1, end] |
| Cursor.ConcatUniform | fileEditor/buffer.go:7-9 | rows of one common length add up to that length once per row |
| Cursor.WrappedPrefixLength | fileEditor/buffer.go:7-9 | the first j segments of a wrapped line hold j * (width - 1) bytes |
| Cursor.WrappedLastLength | fileEditor/buffer.go:14-18 | the last segment holds what the full segments left of the line |
| Cursor.ConcatLastLength | fileEditor/buffer.go:18 | the glued length is that of all rows but the last plus the last |
| Cursor.SliceRowsLength | fileEditor/cursor.go:73-80 | the rows of a line's span add up to the length of the segments they hold |
| Cursor.RowLengthAt | fileEditor/buffer.go:7-18 | row j of a line's span is a full row of width - 1 bytes, or the rest of the line for the last row |
| Cursor.Reproject | fileEditor/cursor.go:86-123 | the corrected reprojection: the index is the bytes of the rows of the line before the new row plus the column less 1; for an index in the line the row lies in the line's span; uncapped, the column lies in [1, width - 1] |
| Cursor.ReprojectInLine | fileEditor/cursor.go:94-123 | the corrected reprojection lands on a row of the line's span, at a column within that row |
| Cursor.ReprojectInRows | fileEditor/cursor.go:63-123 | on a strictly increasing table whose rows for line k are line k's segments, the corrected position lies on a row of line k, its column is within the row or just past it, the search finds line k there, and the index computation gives back i (the round trip the Go cursor resize is meant to keep) |
| Cursor.RowInSpan | fileEditor/cursor.go:86-123 | for the row offset the corrected reprojection picks, the position lies in line k's span, within its row, and maps back to index i |
| Cursor.ReprojectRoundTrip | fileEditor/cursor.go:63-123 | after a rebuild at any width >= 2, every index of every line reprojects to a position that the search and the index computation map back to that line and that index |
| Cursor.CalcNewACXYMisplacesCursor | fileEditor/cursor.go:110-120 | on the line "abcd" at width 3, `CalcNewACXY` sends index 3 to column 0 of row 2, which maps back to index 1; the corrected reprojection gives column 2 of row 2 |
| Navigation.SetSavedCursorX | fileEditor/action.go:15-18 | sets the remembered column and the flag; the cursor itself does not move |
| Navigation.VerticallyConstrain | fileEditor/action.go:20-41 | the first vertical move remembers the column; the cursor lands at the remembered column when that is right of it, otherwise at its own column, and never past the row's end |
| Navigation.CursorUp | fileEditor/action.go:100-105 | on row 1 nothing changes, sticky state included; otherwise, through `verticallyConstrainCursor` (action.go lines 20-41), one row up with the flag set, the saved column is the old one if the flag was set and the current column if not (the first vertical move saves acX), and the cursor lands at Min(Max(x, saved column), len(row) + M) on the new row |
| Navigation.CursorDown | fileEditor/action.go:107-113 | on the last row nothing changes, sticky state included; otherwise, through `verticallyConstrainCursor` (action.go lines 20-41), one row down with the flag set, the saved column is the old one if the flag was set and the current column if not, and the cursor lands at Min(Max(x, saved column), len(row) + M) on the new row |
| Navigation.CursorLeft | fileEditor/action.go:72-84 | one column left; from the margin to the end of the previous row; at the margin of row 1 no move; the flag is cleared and the remembered column is the new column |
| Navigation.CursorRight | fileEditor/action.go:86-98 | one column right; from the end of a row to the margin of the next; at the end of the last row no move; the flag is cleared and the remembered column is the new column; reading the row needs the cursor on an existing row |
| Navigation.Click | fileEditor/action.go:43-70 | a click below the text goes to the end of the last row; otherwise to the clicked row at the clicked column clamped into [M, len(row) + M]: the clicked column when it is within the row, the margin for a click left of it, the row's end for a click past it; the flag is cleared and CursorPositionChange returned |
| Navigation.CursorUpValid | fileEditor/action.go:100-105 | moving up keeps the cursor on the text and keeps its sticky column |
| Navigation.CursorDownValid | fileEditor/action.go:107-113 | moving down keeps the cursor on the text and keeps its sticky column |
| Navigation.CursorLeftValid | fileEditor/action.go:72-84 | moving left keeps the cursor on the text |
| Navigation.CursorRightValid | fileEditor/action.go:86-98 | moving right keeps the cursor on the text |
| Navigation.ClickValid | fileEditor/action.go:43-70 | a click puts the cursor on the text from any state |
| Navigation.StickyBounds | fileEditor/action.go:28-40 | while the flag is set, the cursor is not right of the remembered column, and that column is not left of the margin |
| Navigation.ApplyAction | fileEditor/keybind.go:87-99 | whichever cursor action the keybindings select keeps the cursor on the text |
| Navigation.RightThenLeft | fileEditor/action.go:72-98 | right then left comes back to the same place, except from the very end of the text |
| Navigation.LeftThenRight | fileEditor/action.go:72-98 | left then right comes back to the same place, except from the margin of row 1 |
| Navigation.UpThenDown | fileEditor/action.go:20-41 | up then down comes back to the same row and column, because the column is remembered on the way up |
| Navigation.DownThenUp | fileEditor/action.go:20-41 | down then up comes back to the same row and column |
| Navigation.NewLineAsWritten | fileEditor/action.go:118-136 | the code as written: one more line; the split halves at bufferLine and bufferLine + 1; lines before bufferLine - 1 kept; line bufferLine - 1 left empty; later lines shifted down by one; bufferLine 0 panics |
| Navigation.SplitLine | fileEditor/action.go:118-136 | the corrected split: one more line; the two halves of the line at the cursor; every other line kept, or shifted down by one |
| Navigation.JoinWithNext | fileEditor/action.go:118-136 | not code at these lines: the reference inverse of the split `actionNewLine` performs, which `Navigation.SplitLineJoins` is stated against; joining a line with the next leaves one line fewer |
| Navigation.SplitLineJoins | fileEditor/action.go:118-136 | the corrected split loses nothing: joining the halves again gives the original buffer |
| Navigation.NewLineLosesLine | fileEditor/action.go:128 | as written, enter at the start of line 1 of ["a", "b"] gives ["", "", "b"]: line 0 is lost, where the corrected split gives ["a", "", "b"] |
| CommandBar.KeyString | fileEditor/command_bar.go:99-105 | `string(key)` is the key's own byte below 0x80, and from 0x80 up the two-byte UTF-8 encoding of the rune |
| CommandBar.Typing | fileEditor/command_bar.go:93-109 | refused past the boundary (25); into an empty bar it puts just the key, with the cursor at 1; otherwise it inserts the key at the cursor and moves the cursor one place right |
| CommandBar.DeleteText | fileEditor/command_bar.go:114-122 | with the cursor at 0 or an empty bar, nothing changes; otherwise one character fewer, the cursor one place left, the text before and after it kept |
| CommandBar.MoveCursor | fileEditor/command_bar.go:128-140 | the text is unchanged; the left arrow moves left unless at 0; any other key moves right unless at the end of the text or past the boundary |
| CommandBar.IsQuitStr | fileEditor/command_bar.go:73-75 | true exactly when the text is "quit" |
| CommandBar.Toggle | fileEditor/command_bar.go:77-88 | the bar always ends empty with the cursor at 0; the text goes to the command executor exactly when it closes a non-empty bar |
| CommandBar.TypingKeepsCursorInText | fileEditor/command_bar.go:93-109 | typing keeps the cursor in the text; the text never grows past the boundary plus one key |
| CommandBar.DeleteKeepsCursorInText | fileEditor/command_bar.go:114-122 | deleting keeps the cursor in the text |
| CommandBar.MoveKeepsCursorInText | fileEditor/command_bar.go:128-140 | moving keeps the cursor in the text |
| CommandBar.TypeThenDelete | fileEditor/command_bar.go:93-122 | typing a key below 0x80 that is not refused, then deleting, gives back the bar exactly |
| CommandBar.TypeThenDeleteWideKey | fileEditor/command_bar.go:99-105 | typing 0xC3 into an empty bar writes two bytes, and deleting leaves the stray byte 0x83 |
| CommandBar.TypingOneByte | fileEditor/command_bar.go:93-109 | the corrected typing inserts exactly the typed byte at the cursor and moves the cursor one place right |
| CommandBar.TypeOneByteThenDelete | fileEditor/command_bar.go:93-122 | with one byte per key, typing then deleting always gives back the bar |
| CommandBar.TypeAll | fileEditor/command_bar.go:93-109 | typing a string of keys one by one keeps the cursor in the text |
| CommandBar.TypingQuit | fileEditor/command_bar.go:13 | typing q, u, i, t into an empty bar makes it the quit command |
| Keybind.NewKeybind | fileEditor/keybind.go:73-80 | the cursor keys are 'A', 'B', 'C', 'D' for up, down, right, left; every rebindable field is 0 |
| Keybind.ChangeKeybind | fileEditor/keybind.go:104-129 | a known action name changes exactly its field to the new key; an unknown name changes nothing; the cursor keys never change |
| Keybind.ChangeKeybindUndo | fileEditor/keybind.go:104-129 | binding the old key again undoes a change |
| Keybind.DeleteTextNotRebindable | fileEditor/keybind.go:9 | "DeleteText" is an action name without a case, so rebinding it changes nothing |
| Keybind.KeybindMap | fileEditor/keybind.go:87-92 | the map literal: its keys are the four bound keys; the cursorDown key maps to the down action, and each earlier entry keeps its action unless a later entry has the same key |
| Keybind.MapKeybindToAction | fileEditor/keybind.go:86-102 | an action fires exactly for an arrow key press whose arrow letter is bound; when two cursor actions share a key the later map entry wins |
| Keybind.DefaultArrowDispatch | fileEditor/keybind.go:73-102 | with the default bindings, arrows A, B, C, D move up, down, right, left, and nothing fires for other keys or for keys not from an arrow |
| Ansi.IsAlphaChar | util/ansi/ansi.go:12-14 | letters, digits and space are alpha characters; ESC, carriage return, DEL and NUL are not |
| Ansi.Csi | util/ansi/ansi.go:24-36 | a control sequence is ESC '[' then the parameters then the final byte |
| Ansi.CsiSplit | util/ansi/rgb.go:38-43 | two parameter lists joined by ';' make the first sequence without its final byte, then ';', then the second without its ESC '[' |
| Ansi.GetArrowKeyPress | util/ansi/ansi.go:89-108 | "UP", "DOWN", "RIGHT", "LEFT" exactly for ESC '[' followed by 'A', 'B', 'C', 'D'; "" for anything else |
| Ansi.MoveCursor | util/ansi/ansi.go:16-25 | negative coordinates are raised to 0 before encoding, so the CUP sequence never holds a minus sign |
| Ansi.NoSemicolonInFormatInt | util/ansi/ansi.go:24 | a number written with `%d` holds no ';' |
| Ansi.MoveCursorDecode | util/ansi/ansi.go:16-25 | a terminal reading the CUP parameters gets two fields, the clamped row and column, and the final byte 'H' |
| Ansi.MoveCursorRight | util/ansi/ansi.go:27-29 | CUF: ESC '[' then one parameter (no ';') then 'C'; `Ansi.MoveRelativeDecode` reads the count back |
| Ansi.MoveCursorLeft | util/ansi/ansi.go:31-33 | CUB: ESC '[' then one parameter (no ';') then 'D'; `Ansi.MoveRelativeDecode` reads the count back |
| Ansi.MoveCursorDown | util/ansi/ansi.go:35-37 | CUD: ESC '[' then one parameter (no ';') then 'B'; `Ansi.MoveRelativeDecode` reads the count back |
| Ansi.MoveRelativeDecode | util/ansi/ansi.go:27-37 | CUF, CUB and CUD carry the count as their one parameter and differ only in the final byte 'C', 'D', 'B' |
| Rgb.ColorParamsLength | util/ansi/rgb.go:17 | the three `%d` components take 5 to 11 characters |
| Rgb.ToFgColorANSI | util/ansi/rgb.go:16-18 | ESC [ 38;2; then the components then 'm', 13 to 19 characters; `Rgb.FgDecode` reads the components back |
| Rgb.ToBgColorANSI | util/ansi/rgb.go:23-25 | ESC [ 48;2; then the components then 'm', 13 to 19 characters; `Rgb.FgBgDiffer` relates it to the foreground sequence |
| Rgb.CombineFgAndBgColorANSI | util/ansi/rgb.go:38-43 | ESC [ then the parameters then 'm', 24 to 36 characters; `Rgb.CombineIsFgThenBg` and `Rgb.CombineDecode` say what it holds |
| Rgb.NewRGBColor | util/ansi/rgb.go:30-32 | stores the components in order |
| Rgb.NoColorIsZero | util/ansi/rgb.go:5 | NO_COLOR is the colour (0, 0, 0) |
| Rgb.ComponentRoundTrip | util/ansi/rgb.go:11-17 | a component is written with one to three digits, holds no ';', and reads back as itself |
| Rgb.ComponentFields | util/ansi/rgb.go:17 | the colour parameters are the three components joined by ';', and each field reads back as its component |
| Rgb.JoinAppend | util/ansi/rgb.go:39 | joining two field lists is joining each with the separator between them |
| Rgb.FgBgDiffer | util/ansi/rgb.go:16-25 | the background sequence is the foreground one with '4' for '3' at position 2 and nothing else changed |
| Rgb.CombineIsFgThenBg | util/ansi/rgb.go:38-43 | the combined sequence is the foreground one without its final 'm', then ';', then the background one without its ESC '[' |
| Rgb.SelectorFields | util/ansi/rgb.go:17-24 | a direct-colour selector's parameters are 38 or 48, then 2, then the components |
| Rgb.FgDecode | util/ansi/rgb.go:16-18 | a terminal reading the foreground parameters gets 38, 2 and the three components back |
| Rgb.SplitJoined | util/ansi/rgb.go:39 | two joined field lists glued with the separator split back into both lists |
| Rgb.CombineParams | util/ansi/rgb.go:38-43 | the combined parameters are the two selectors' parameters with ';' between them |
| Rgb.CombineFields | util/ansi/rgb.go:38-43 | the combined parameters split into both selectors' fields in a row |
| Rgb.CombineDecode | util/ansi/rgb.go:38-43 | a terminal reading the combined parameters gets ten fields: 38, 2 and the foreground components, then 48, 2 and the background ones |
| Rgb.TenFields | util/ansi/rgb.go:39-41 | where the fields of the two selectors land in the combined list |
| UserInput.ReadEscSequence | fileEditor/user_input.go:86-101 | a mouse report exactly when the bytes after ESC start with "[<"; otherwise (false, MouseInput{}); a field Atoi rejects reads as 0; slicing needs at least three fields |
| UserInput.FormatIntBytes | fileEditor/user_input.go:91 | a number written with `%d` is a byte string without ';' |
| UserInput.MouseText | fileEditor/user_input.go:31-52 | the text of a report after ESC is a byte string |
| UserInput.MouseReportText | fileEditor/user_input.go:87 | the bytes read after ESC of a report are its text followed by the final byte |
| UserInput.SplitTwoFields | fileEditor/user_input.go:91 | two leading fields split off as the first two parts |
| UserInput.SplitHeadField | fileEditor/user_input.go:91-95 | a field followed by nothing, or by further ';' fields, is the first part |
| UserInput.MouseTextFields | fileEditor/user_input.go:91-95 | the report's fields split at ';' start with the event, x and y as `%d` wrote them |
| UserInput.MouseReportIsReport | fileEditor/user_input.go:87-91 | a report has the prefix "[<", and its fields are the text between the prefix and the final byte |
| UserInput.ReadMouseReport | fileEditor/user_input.go:86-101 | ESC "[<" e ";" x ";" y, with any further fields and any final byte ('m' or 'M'), decodes to (true, {e, x, y}) |
| UserInput.DocExampleReport | fileEditor/user_input.go:31-52 | the documented report [<35;64;33m decodes to event 35 at x = 64, y = 33 |
| UserInput.DocExampleBytes | fileEditor/user_input.go:33 | the documented bytes are ESC "[<35;64;33" 'm' |
| UserInput.DocExampleText | fileEditor/user_input.go:50 | the documented text is "[<35;64;33" |
| UserInput.KeyboardInput | fileEditor/user_input.go:132-155 | 'q' quits in every mode without changing it; in command mode E or e enters edit mode and V or v view mode, with EditorModeChange; every other key, and every key outside command mode, changes nothing and returns 0 |
| UserInput.EscapeArrowTest | fileEditor/user_input.go:113 | with Go's && binding tighter than ||, the test passes only for an arrow letter at buf[2], always for one when three bytes were read, and never for Up otherwise |
| UserInput.EscapeInput | fileEditor/user_input.go:112-124 | an arrow sequence dispatches through the keybindings and returns 0; otherwise a lone ESC enters command mode with EditorModeChange; nothing else changes the mode |
| UserInput.ModesClosed | fileEditor/user_input.go:112-155 | neither handler takes the editor out of the three modes |
| UserInput.LoneEscapeEntersCommandMode | fileEditor/user_input.go:118-121 | a lone ESC in the zeroed input buffer returns to command mode from every mode |
| UserInput.EditThenEscape | fileEditor/user_input.go:118-147 | from command mode, e then ESC, and v then ESC, come back to command mode |
| UserInput.ArrowTestPrecedence | fileEditor/user_input.go:113 | `&&` binds tighter than `\|\|`: ESC [ B with a fourth byte still moves down, while ESC [ A needs exactly three bytes |
| UserInput.ArrowNamesAgree | fileEditor/user_input.go:112-116 | with the default bindings, the escape dispatch and GetArrowKeyPress agree on what each arrow sequence means |
| Editor.FileEditor.constructor | fileEditor/fileEditor.go:115-141 | NewFileEditor: empty buffers, command mode, the default keybindings, a closed empty bar, the status bar 3 rows high |
| Editor.FileEditor.ReadFileToBuffer | fileEditor/fileEditor.go:143-170 | the lines are appended (one empty line for an empty file); the layout is rebuilt and well formed; the cursor is at the margin of row 1, on line 0, index 0 |
| Editor.FileEditor.GetViewportHeight | fileEditor/viewport.go:4-6 | the status bar's rows are taken off the terminal height |
| Editor.FileEditor.GetViewportWidth | fileEditor/viewport.go:9-11 | the terminal width minus 7, the margin less one |
| Editor.FileEditor.RefreshVisualBuffers | fileEditor/buffer.go:23-43 | both tables are rebuilt from empty into the rows and line-end table of the document, which form a well-formed layout |
| Editor.FileEditor.UpdateBufferIndicies | fileEditor/cursor.go:125-131 | the line is the one the search finds for the cursor row; a cursor on the text lands within that line's span, at an index within the line |
| Editor.FileEditor.SetSavedCursorX | fileEditor/action.go:15-18 | the sticky state is set as `Navigation.SetSavedCursorX` says |
| Editor.FileEditor.VerticallyConstrainCursor | fileEditor/action.go:20-41 | the cursor is constrained as `Navigation.VerticallyConstrain` says |
| Editor.FileEditor.SetCursorPosition | fileEditor/action.go:43-70 | the cursor and signal are those of `Navigation.Click`, and the cursor ends on the text |
| Editor.FileEditor.ActionCursorLeft | fileEditor/action.go:72-84 | the move `Navigation.CursorLeft`; it keeps the cursor on the text |
| Editor.FileEditor.ActionCursorRight | fileEditor/action.go:86-98 | the move `Navigation.CursorRight`; it keeps the cursor on the text |
| Editor.FileEditor.ActionCursorUp | fileEditor/action.go:100-105 | the move `Navigation.CursorUp`; it keeps the cursor on the text |
| Editor.FileEditor.ActionCursorDown | fileEditor/action.go:107-113 | the move `Navigation.CursorDown`; it keeps the cursor on the text |
| Editor.FileEditor.ActionNewLine | fileEditor/action.go:118-136 | the two copy loops into a fresh array give exactly `Navigation.NewLineAsWritten` |
| Editor.FileEditor.CommandBarTyping | fileEditor/command_bar.go:93-109 | the bar becomes `CommandBar.Typing` of the old bar |
| Editor.FileEditor.CommandBarDeleteText | fileEditor/command_bar.go:114-122 | the bar becomes `CommandBar.DeleteText` of the old bar |
| Editor.FileEditor.CommandBarMoveCursor | fileEditor/command_bar.go:128-140 | the bar becomes `CommandBar.MoveCursor` of the old bar |
| Editor.FileEditor.ToggleCommandBar | fileEditor/command_bar.go:77-88 | the toggled flag is set; the bar and the executed command are those of `CommandBar.Toggle` |
| Editor.FileEditor.IsCommandBarQuitStr | fileEditor/command_bar.go:73-75 | true exactly when the bar holds "quit" |
| Editor.FileEditor.ChangeKeybind | fileEditor/keybind.go:104-129 | the keybindings become `Keybind.ChangeKeybind` of the old ones; the cursor keys stay |
| Editor.FileEditor.HandleKeyboardInput | fileEditor/user_input.go:132-155 | the mode and signal are those of `UserInput.KeyboardInput` |
| Editor.FileEditor.RunKeybindAction | fileEditor/keybind.go:86-102 | runs the cursor action `Keybind.MapKeybindToAction` selects, or leaves the cursor alone |
| Editor.FileEditor.HandleEscapeInput | fileEditor/user_input.go:112-124 | the mode, signal and cursor move are those of `UserInput.EscapeInput`; the cursor stays on the text |
| BufferMappedTests.TablesIncrease | tests/buffer_mapped_test.go:16-87 | the line-end tables of the tests strictly increase |
| BufferMappedTests.CalcBufferLineCases1 | tests/buffer_mapped_test.go:16-51 | tests 1, 2 and 6 give lines 5, 1, 5 |
| BufferMappedTests.CalcBufferLineCases2 | tests/buffer_mapped_test.go:28-45 | tests 3, 4 and 5 give lines 0, 5, 5 |
| BufferMappedTests.CalcBufferLineCases3 | tests/buffer_mapped_test.go:52-63 | tests 7 and 8 give lines 4, 5 |
| BufferMappedTests.CalcBufferLineCases4 | tests/buffer_mapped_test.go:64-87 | tests 9 to 12 give lines 3, 5, 5, 0 |
| BufferMappedTests.CalcBufferIndexCases1 | tests/buffer_mapped_test.go:111-318 | tests 1, 2, 4 and 11 give indices 73, 191, 0, 0 |
| BufferMappedTests.CalcBufferIndexCases2 | tests/buffer_mapped_test.go:149-213 | tests 3 and 5 give indices 100, 191 |
| BufferMappedTests.CalcBufferIndexCases3 | tests/buffer_mapped_test.go:214-261 | tests 6 and 7 give indices 0, 36 |
| BufferMappedTests.CalcBufferIndexCases4 | tests/buffer_mapped_test.go:262-299 | tests 8, 9 and 10 give indices 0, 1, 43 |
| BufferMappedTests.CalcNewACXYCases1 | tests/buffer_mapped_test.go:342-368 | tests 1, 2 and 3 give (9, 12), (13, 2), (27, 7) |
| BufferMappedTests.CalcNewACXYCases2 | tests/buffer_mapped_test.go:369-395 | tests 4, 5 and 6 give (40, 10), (3, 11), (1, 1) |
| BufferMappedTests.RoundTripCases | tests/buffer_mapped_test.go:149-213 | the positions CalcNewACXY gives for indices 191 and 100 map back to 191 and 100 |

## Left out

- Terminal and file I/O are not modelled: reading stdin, `term.GetSize`, the file scanner, `os.Open` and writing files. The terminal size and the file's lines are parameters instead (`Editor.FileEditor.constructor`, `Editor.FileEditor.ReadFileToBuffer`), and the scanner's error result is dropped.
- Concurrency is not modelled: the render and input loops, their goroutines and channels (`InputLoop`, `RenderLoop`, `Render`), and main.go's console setup.
- Drawing is not modelled: render/render.go, `drawCommandBar`, `UpdateCommandBarState`, the status bar and `PrintBuffer`. The `ansi.MoveCursor*` writes inside `SetCursorPosition` and `commandBarMoveCursor` are dropped, because they have no effect on the editor state. The byte strings those writes would emit are modelled separately, by the `Ansi` functions.
- `HandleMouseInput` only writes to the terminal.
- `executeCommandBarStr` saves files and sends on a channel. `ToggleCommandBar` returns the command it would execute instead of executing it.
- `actionTyping` and `actionDeleteText` only print.
- `ListenForKeyPress` reads stdin. The other ansi printers write fixed strings.
- The mode colours are not modelled.
- The FileEditor fields that the modelled code does not touch are left out: Saved, file, Filename, inputChan, QuitProgramFlag, ViewportOffsetX/Y, TabMap, SoftWrapEnabled, PrintEmptyLines, TabIndentType, TabSize, actualBufferIndex.
- Tab expansion, viewport scrolling, character insertion into the document, backspace, `ToggleSoftWrap` and `CalculateNewCursorPos` appear in the repository only as names. Their code is not part of this model.
- `ReadFileToBuffer` calls `RefreshSoftWrapVisualBuffers` or `RefreshNoWrapVisualBuffers`. This model has neither, so it calls `RefreshVisualBuffers`, and `SoftWrapEnabled` is not modelled.
- `RefreshVisualBuffers` reads `f.EditorWidth`, which is not a field of FileEditor. The width is a parameter.
- The package does not define `Quit`, `EditorModeChange`, `CursorPositionChange`, `Up`, `Down`, `Right` and `Left`. The model uses them as follows:
  - the signals are the `Signal` datatype, with 0 for "nothing";
  - the arrow names are the key constants 'A'..'D'.
- `HandleEscapeInput` passes `*editor`, a copy, where `MapKeybindToAction` takes a pointer. `MapKeybindToAction` calls `action()` without its key argument. Neither compiles as written. The model takes the evident meaning: the selected action runs on the editor itself.
- `HandleKeyboardInput` and `HandleEscapeInput` are free functions taking the editor, but here they are methods of `Editor.FileEditor`.
- `math.Clamp`'s body is not part of this model. `MathUtil.Clamp` assumes it returns `lo` below the range, `hi` above it, and the value itself inside it.
- `strconv.Atoi`, `strings.Split`, `strings.HasPrefix` and `fmt`'s `%d` are not part of this model. Their behaviour follows the Go documentation:
  - Atoi on a 64-bit platform, returning 0 on a syntax error and the nearest bound on overflow;
  - Split with a one-byte separator.
- Go's `int` is 64 bits wide, while the model's integers are unbounded. Cursor and index arithmetic does not wrap around. Only `Atoi` uses the 64-bit range, and the decoding lemmas need their numbers inside it.
- Go strings are byte strings. Here they are Dafny strings whose characters stand for bytes. Only `CommandBar.KeyString` models a UTF-8 encoding, because `string(key)` performs one.
- `Cursor.CalcBufferLineFromACY`: for a table that is not strictly increasing, only the range of the result is stated, not which index the search returns.
- `Cursor.CalcNewACXY` is not proved to invert `Cursor.CalcBufferIndexFromACXY`, because it does not (see Findings). Only the test cases' round trips are proved, in `BufferMappedTests.RoundTripCases`.
- `Editor.FileEditor.ReadFileToBuffer` ensures that the cursor is on the text, but it does not ensure the sticky half of `CursorValid`. The source does not reset `savedCursorX` or `savedCursorXFlag` when a file is read.
- `Editor.FileEditor.ActionNewLine` follows the code as written, off-by-one included. `Navigation.SplitLine` is the corrected definition, and nothing in the editor calls it.
- `Navigation.Valid` does not include "savedCursorX is at least the margin" unconditionally. It cannot, because the initial `savedCursorX` is 0. `Navigation.StickyBounds` proves that bound while the flag is set.
- `BufferMappedTests`: `CalcBufferIndexFromACXY` reads only the lengths of the visual rows, not their text, so each test's visual buffer is given by row lengths rather than by the test's text.

## Findings

| source | as written | input that shows it | evidently intended | confidence | as-written member | corrected member |
|---|---|---|---|---|---|---|
| fileEditor/cursor.go:110-120 | `CalcNewACXY` takes the column as (bufferIndex + 1) mod (newEditorWidth - 1). That is 0, off the row, whenever the index lies just past a full row. It also counts rows by subtracting the full width, while rows hold newEditorWidth - 1 bytes. | The line "abcd" at width 3 has rows "ab" and "cd". Index 3 goes to column 0 of row 2, which `CalcBufferIndexFromACXY` maps back to index 1. | Index i of a line goes to row i / (width - 1) of the line, capped at the line's last row (the cap matters for the index at the end of a line whose length is a multiple of width - 1), at column i minus the bytes of the rows before it, plus 1; it maps back to i. | not executed; follows from the cited lines | Cursor.CalcNewACXYMisplacesCursor | Cursor.ReprojectRoundTrip |
| fileEditor/action.go:128 | `copy(result, f.FileBuffer[:f.bufferLine-1])` copies one line too few. The line before the cursor is left empty, and bufferLine 0 panics on the slice. | ["a", "b"], bufferLine 1, bufferIndex 0 gives ["", "", "b"]. | Copy `FileBuffer[:bufferLine]`, giving ["a", "", "b"]. Joining the halves again then gives the buffer back. | not executed; follows from the cited line | Navigation.NewLineLosesLine | Navigation.SplitLineJoins |
| fileEditor/command_bar.go:99-106 | `string(key)` converts the byte to a rune and encodes it in UTF-8. A key of 0x80 or above inserts two bytes, while the cursor advances by one and a delete removes one byte. | An empty bar, key 0xC3: the bar becomes 0xC3 0x83 with the cursor at 1. Deleting leaves the stray byte 0x83. | Insert exactly the typed byte, so that typing then deleting gives back the bar. | not executed; follows from Go's conversion rules | CommandBar.TypeThenDeleteWideKey | CommandBar.TypeOneByteThenDelete |
