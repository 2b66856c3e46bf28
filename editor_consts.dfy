/** Constants and result codes shared by the fileEditor package. */
module EditorConsts {
  import opened GoStd

  /** Columns left of the text: four digits of line number, a space, the
      border, a space, and the first text column itself. */
  const EditorLeftMargin: int := 8

  /** The three editor modes, stored as the letters shown in the status bar. */
  const EditorCommandMode: byte := 'C' as int as byte
  const EditorEditMode: byte := 'E' as int as byte
  const EditorViewMode: byte := 'V' as int as byte

  const DefaultStatusBarHeight: int := 3

  /** What an input handler reports to the render loop. The source returns
      these as bytes named Quit, EditorModeChange and CursorPositionChange,
      which the snapshot does not define; 0 means "nothing to do". */
  datatype Signal = NoSignal | Quit | EditorModeChange | CursorPositionChange
}
