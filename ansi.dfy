/** util/ansi/ansi.go: key classification, arrow-key recognition and the
    cursor-movement control sequences of ECMA-48 (CUP, section 8.3.21; CUF,
    CUB and CUD, sections 8.3.20, 8.3.18 and 8.3.19). The encoders return the
    string the Go code writes to the terminal. */
module Ansi {
  import opened GoStd

  const EscChar: char := 27 as char
  const EscByte: byte := 27
  const BracketByte: byte := '[' as int as byte

  /** IsAlphaChar: the printable ASCII range, space through '~'. Letters,
      digits and space are alpha characters; ESC, carriage return, DEL (the
      backspace key in raw mode) and NUL are not. */
  predicate IsAlphaChar(key: byte)
    ensures ('a' as int <= key as int <= 'z' as int || 'A' as int <= key as int <= 'Z' as int ||
             '0' as int <= key as int <= '9' as int || key as int == ' ' as int) ==> IsAlphaChar(key)
    ensures key == EscByte || key == 13 || key == 127 || key == 0 ==> !IsAlphaChar(key)
  {
    32 <= key < 127
  }

  /** A control sequence: ESC '[' then the parameters then the final byte. */
  function Csi(params: string, final: char): (s: string)
    ensures |s| == |params| + 3
    ensures s[0] == EscChar && s[1] == '[' && s[|s| - 1] == final
    ensures s[2..|s| - 1] == params
  {
    [EscChar, '['] + params + [final]
  }

  /** Two parameter lists joined by ';' in one control sequence: the first
      sequence without its final byte, ';', then the second without its ESC '['. */
  lemma CsiSplit(p: string, q: string, final: char)
    ensures Csi(p + [';'] + q, final) == Csi(p, final)[..|p| + 2] + [';'] + Csi(q, final)[2..]
  {
    assert Csi(p, final)[..|p| + 2] == [EscChar, '['] + p;
    assert Csi(q, final)[2..] == q + [final];
  }

  /** The buffer starts with ESC '['. */
  predicate IsCsiPrefix(buffer: seq<byte>)
  {
    |buffer| >= 2 && buffer[0] == EscByte && buffer[1] == BracketByte
  }

  /** GetArrowKeyPress: the arrow named by the third byte of ESC '[' x, or
      "" when the buffer is no such sequence. Reading buffer[1] and buffer[2]
      panics when they are missing. */
  function GetArrowKeyPress(buffer: seq<byte>): (s: string)
    requires |buffer| >= 1
    requires buffer[0] == EscByte ==> |buffer| >= 2
    requires IsCsiPrefix(buffer) ==> |buffer| >= 3
    ensures s == "UP" <==> IsCsiPrefix(buffer) && buffer[2] == 'A' as int as byte
    ensures s == "DOWN" <==> IsCsiPrefix(buffer) && buffer[2] == 'B' as int as byte
    ensures s == "RIGHT" <==> IsCsiPrefix(buffer) && buffer[2] == 'C' as int as byte
    ensures s == "LEFT" <==> IsCsiPrefix(buffer) && buffer[2] == 'D' as int as byte
    ensures s == "" <==> !IsCsiPrefix(buffer) || !('A' as int <= buffer[2] as int <= 'D' as int)
  {
    if !(buffer[0] == EscByte && buffer[1] == BracketByte) then ""
    else
      var key := buffer[2];
      if key == 'A' as int as byte then "UP"
      else if key == 'B' as int as byte then "DOWN"
      else if key == 'C' as int as byte then "RIGHT"
      else if key == 'D' as int as byte then "LEFT"
      else ""
  }

  /** What MoveCursor writes: CUP with negative coordinates raised to 0. */
  function MoveCursor(row: int, col: int): (s: string)
    ensures '-' !in s
    ensures s == Csi(FormatNat(Max(row, 0)) + ";" + FormatNat(Max(col, 0)), 'H')
  {
    var r := if row < 0 then 0 else row;
    var c := if col < 0 then 0 else col;
    var s := Csi(FormatInt(r) + ";" + FormatInt(c), 'H');
    assert forall i :: 0 <= i < |FormatInt(r)| ==> IsDigit(FormatInt(r)[i]);
    assert forall i :: 0 <= i < |FormatInt(c)| ==> IsDigit(FormatInt(c)[i]);
    s
  }

  /** What MoveCursorRight, MoveCursorLeft and MoveCursorDown write: a
      control sequence with a single parameter (no ';'), read back by
      MoveRelativeDecode. */
  function MoveCursorRight(n: int): (s: string)
    ensures |s| >= 4 && s[0] == EscChar && s[1] == '[' && s[|s| - 1] == 'C'
    ensures ';' !in s
  {
    NoSemicolonInFormatInt(n);
    Csi(FormatInt(n), 'C')
  }

  function MoveCursorLeft(n: int): (s: string)
    ensures |s| >= 4 && s[0] == EscChar && s[1] == '[' && s[|s| - 1] == 'D'
    ensures ';' !in s
  {
    NoSemicolonInFormatInt(n);
    Csi(FormatInt(n), 'D')
  }

  function MoveCursorDown(n: int): (s: string)
    ensures |s| >= 4 && s[0] == EscChar && s[1] == '[' && s[|s| - 1] == 'B'
    ensures ';' !in s
  {
    NoSemicolonInFormatInt(n);
    Csi(FormatInt(n), 'B')
  }

  lemma NoSemicolonInFormatInt(n: int)
    ensures ';' !in FormatInt(n)
  {
    if n < 0 {
      NoSepInDigits(FormatNat(-n), ';');
    } else {
      NoSepInDigits(FormatNat(n), ';');
    }
  }

  /** A terminal reading the CUP parameters back gets the clamped row and
      column. */
  lemma MoveCursorDecode(row: int, col: int)
    requires row <= MaxInt64 && col <= MaxInt64
    ensures var s := MoveCursor(row, col);
            var parts := Split(s[2..|s| - 1], ';');
            && |parts| == 2
            && Atoi(parts[0]) == (Max(row, 0), true)
            && Atoi(parts[1]) == (Max(col, 0), true)
            && s[|s| - 1] == 'H'
  {
    var r, c := FormatInt(Max(row, 0)), FormatInt(Max(col, 0));
    NoSemicolonInFormatInt(Max(row, 0));
    NoSemicolonInFormatInt(Max(col, 0));
    SplitFirst(r, ';', c);
    SplitNoSep(c, ';');
    AtoiFormatInt(Max(row, 0));
    AtoiFormatInt(Max(col, 0));
  }

  /** The relative moves carry their count as the one parameter and differ
      only in the final byte. */
  lemma MoveRelativeDecode(n: int)
    requires MinInt64 <= n <= MaxInt64
    ensures var s := MoveCursorRight(n); Atoi(s[2..|s| - 1]) == (n, true) && s[|s| - 1] == 'C'
    ensures var s := MoveCursorLeft(n); Atoi(s[2..|s| - 1]) == (n, true) && s[|s| - 1] == 'D'
    ensures var s := MoveCursorDown(n); Atoi(s[2..|s| - 1]) == (n, true) && s[|s| - 1] == 'B'
    ensures MoveCursorRight(n)[..|MoveCursorRight(n)| - 1] == MoveCursorLeft(n)[..|MoveCursorLeft(n)| - 1]
    ensures MoveCursorDown(n)[..|MoveCursorDown(n)| - 1] == MoveCursorLeft(n)[..|MoveCursorLeft(n)| - 1]
  {
    AtoiFormatInt(n);
  }
}
