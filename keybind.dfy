/** fileEditor/keybind.go: the key constants, the keybinding record, its
    rebinding by action name, and the arrow-key dispatch. */
module Keybind {
  import opened GoStd
  import opened Wrappers

  const Escape: byte := 0x1b
  const Backspace: byte := 127
  const UpArrowKey: byte := 'A' as int as byte
  const DownArrowKey: byte := 'B' as int as byte
  const RightArrowKey: byte := 'C' as int as byte
  const LeftArrowKey: byte := 'D' as int as byte

  /** The action names that can be rebound, in the order of the record's
      fields. "DeleteText" is also an action name but cannot be rebound. */
  const RebindableNames: seq<string> := [
    "HighlightText", "CopyHighlight", "MoveHighlight", "PasteText", "ToggleTextWrap",
    "ScrollUp", "ScrollDown", "ScrollLeft", "ScrollRight", "ToggleFileTree"]
  const ActionDeleteText: string := "DeleteText"

  datatype Keybind = Keybind(
    HighlightText: byte, CopyHighlight: byte, MoveHighlight: byte, PasteText: byte,
    ToggleTextWrap: byte, ScrollUp: byte, ScrollDown: byte, ScrollLeft: byte,
    ScrollRight: byte, ToggleFileTree: byte,
    // these cannot be changed
    cursorLeft: byte, cursorRight: byte, cursorUp: byte, cursorDown: byte)

  /** The rebindable field number i (0 .. 9, in RebindableNames order). */
  function Rebindable(k: Keybind, i: int): byte
    requires 0 <= i < |RebindableNames|
  {
    [k.HighlightText, k.CopyHighlight, k.MoveHighlight, k.PasteText, k.ToggleTextWrap,
     k.ScrollUp, k.ScrollDown, k.ScrollLeft, k.ScrollRight, k.ToggleFileTree][i]
  }

  predicate SameCursorKeys(a: Keybind, b: Keybind)
  {
    a.cursorLeft == b.cursorLeft && a.cursorRight == b.cursorRight &&
    a.cursorUp == b.cursorUp && a.cursorDown == b.cursorDown
  }

  /** NewKeybind: the arrow letters drive the cursor, nothing else is bound. */
  function NewKeybind(): (k: Keybind)
    ensures k.cursorUp == UpArrowKey && k.cursorDown == DownArrowKey
    ensures k.cursorRight == RightArrowKey && k.cursorLeft == LeftArrowKey
    ensures forall i :: 0 <= i < |RebindableNames| ==> Rebindable(k, i) == 0
  {
    Keybind(0, 0, 0, 0, 0, 0, 0, 0, 0, 0, LeftArrowKey, RightArrowKey, UpArrowKey, DownArrowKey)
  }

  /** ChangeKeybind: the field named by `action` gets the new key; an unknown
      name changes nothing, and the cursor keys never change. */
  function ChangeKeybind(k: Keybind, action: string, keybind: byte): (r: Keybind)
    ensures SameCursorKeys(r, k)
    ensures forall i :: 0 <= i < |RebindableNames| ==>
              Rebindable(r, i) == if action == RebindableNames[i] then keybind else Rebindable(k, i)
    ensures action !in RebindableNames ==> r == k
  {
    match action
    case "HighlightText" => k.(HighlightText := keybind)
    case "CopyHighlight" => k.(CopyHighlight := keybind)
    case "MoveHighlight" => k.(MoveHighlight := keybind)
    case "PasteText" => k.(PasteText := keybind)
    case "ToggleTextWrap" => k.(ToggleTextWrap := keybind)
    case "ScrollUp" => k.(ScrollUp := keybind)
    case "ScrollDown" => k.(ScrollDown := keybind)
    case "ScrollLeft" => k.(ScrollLeft := keybind)
    case "ScrollRight" => k.(ScrollRight := keybind)
    case "ToggleFileTree" => k.(ToggleFileTree := keybind)
    case _ => k
  }

  /** A known name changes exactly one field, and binding the old key again
      undoes the change. */
  lemma ChangeKeybindUndo(k: Keybind, i: int, keybind: byte)
    requires 0 <= i < |RebindableNames|
    ensures ChangeKeybind(ChangeKeybind(k, RebindableNames[i], keybind), RebindableNames[i], Rebindable(k, i)) == k
  {
    var name := RebindableNames[i];
    var k1 := ChangeKeybind(k, name, keybind);
    var k2 := ChangeKeybind(k1, name, Rebindable(k, i));
    forall j | 0 <= j < |RebindableNames|
      ensures Rebindable(k2, j) == Rebindable(k, j)
    {
    }
    assert Rebindable(k2, 0) == Rebindable(k, 0) && Rebindable(k2, 1) == Rebindable(k, 1);
    assert Rebindable(k2, 2) == Rebindable(k, 2) && Rebindable(k2, 3) == Rebindable(k, 3);
    assert Rebindable(k2, 4) == Rebindable(k, 4) && Rebindable(k2, 5) == Rebindable(k, 5);
    assert Rebindable(k2, 6) == Rebindable(k, 6) && Rebindable(k2, 7) == Rebindable(k, 7);
    assert Rebindable(k2, 8) == Rebindable(k, 8) && Rebindable(k2, 9) == Rebindable(k, 9);
  }

  /** "DeleteText" is an action name but has no case: rebinding it does nothing. */
  lemma DeleteTextNotRebindable(k: Keybind, keybind: byte)
    ensures ChangeKeybind(k, ActionDeleteText, keybind) == k
  {
  }

  datatype CursorAction = ActionCursorLeft | ActionCursorRight | ActionCursorUp | ActionCursorDown

  /** The map MapKeybindToAction builds. A Go map literal with equal
      (non-constant) keys keeps the last entry, as map update does here. */
  function KeybindMap(k: Keybind): (m: map<byte, CursorAction>)
    ensures m.Keys == {k.cursorLeft, k.cursorRight, k.cursorUp, k.cursorDown}
    ensures m[k.cursorDown] == ActionCursorDown
    ensures k.cursorUp != k.cursorDown ==> m[k.cursorUp] == ActionCursorUp
    ensures k.cursorRight != k.cursorDown && k.cursorRight != k.cursorUp ==> m[k.cursorRight] == ActionCursorRight
    ensures k.cursorLeft !in {k.cursorRight, k.cursorUp, k.cursorDown} ==> m[k.cursorLeft] == ActionCursorLeft
  {
    map[k.cursorLeft := ActionCursorLeft][k.cursorRight := ActionCursorRight]
       [k.cursorUp := ActionCursorUp][k.cursorDown := ActionCursorDown]
  }

  predicate IsArrowLetter(key: byte)
  {
    key == UpArrowKey || key == DownArrowKey || key == RightArrowKey || key == LeftArrowKey
  }

  /** MapKeybindToAction as a function: the action it would run, if any. An
      action fires only for an arrow key press whose letter is bound; when two
      cursor actions share a key, the later map entry wins. */
  function MapKeybindToAction(k: Keybind, key: byte, isArrowKey: bool): (r: Option<CursorAction>)
    ensures r.Some? <==> isArrowKey && IsArrowLetter(key) &&
                         key in {k.cursorLeft, k.cursorRight, k.cursorUp, k.cursorDown}
    ensures r.Some? ==> r.value == (if key == k.cursorDown then ActionCursorDown
                                    else if key == k.cursorUp then ActionCursorUp
                                    else if key == k.cursorRight then ActionCursorRight
                                    else ActionCursorLeft)
  {
    var keybindings := KeybindMap(k);
    if key in keybindings && IsArrowLetter(key) && isArrowKey then Some(keybindings[key]) else None
  }

  /** With the default bindings, arrow A/B/C/D move the cursor
      up/down/right/left, other keys do nothing, and nothing fires unless the
      key came from an arrow key. */
  lemma DefaultArrowDispatch(key: byte, isArrowKey: bool)
    ensures MapKeybindToAction(NewKeybind(), UpArrowKey, true) == Some(ActionCursorUp)
    ensures MapKeybindToAction(NewKeybind(), DownArrowKey, true) == Some(ActionCursorDown)
    ensures MapKeybindToAction(NewKeybind(), RightArrowKey, true) == Some(ActionCursorRight)
    ensures MapKeybindToAction(NewKeybind(), LeftArrowKey, true) == Some(ActionCursorLeft)
    ensures !IsArrowLetter(key) || !isArrowKey ==> MapKeybindToAction(NewKeybind(), key, isArrowKey) == None
  {
  }
}
