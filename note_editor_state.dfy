/** The note editor's state as an object (basalt/src/note_editor/state.rs): each method updates
    the fields in place as the function of the same name in `NoteEditor` says. */
module NoteEditorState {
  import opened Usize
  import opened Scrollbars
  import TextCounts
  import opened NoteEditor
  import N = NoteEditor

  /** `EditorState`, whose methods update its fields in place. */
  class EditorState {
    const parse: string -> seq<SourceRange>
    var mode: Mode
    var textBuffer: TextBuffer
    var content: string
    var contentOriginal: string
    var path: string
    var nodes: seq<SourceRange>
    var scrollbar: Scrollbar
    var currentRow: nat
    var active: bool
    var modified: bool
    var dirty: bool

    /** The fields as a value. */
    function Snapshot(): (e: Editor)
      reads this
      ensures e.content == content && e.nodes == nodes && e.currentRow == currentRow
    {
      Editor(mode, textBuffer, content, contentOriginal, path, nodes, scrollbar, currentRow, active, modified, dirty)
    }

    ghost predicate Valid()
      reads this
    {
      ParserFits(parse) && Snapshot().Valid()
    }

    /** `EditorState::new`. */
    constructor (parse: string -> seq<SourceRange>, content: string, path: string)
      requires ParserFits(parse)
      ensures Valid() && this.parse == parse
      ensures Snapshot() == NewEditor(parse, content, path)
    {
      this.parse := parse;
      mode := Read;
      textBuffer := DefaultBuffer();
      assert ParsedFits(parse, content);
      nodes := parse(content);
      contentOriginal := content;
      this.content := content;
      this.path := path;
      scrollbar := DefaultScrollbar;
      currentRow := 0;
      active := false;
      modified := false;
      dirty := false;
    }

    method UpdateBuffer()
      requires Valid()
      modifies this`textBuffer
      ensures Valid() && Snapshot() == UpdateTextBuffer(old(Snapshot()))
    {
      if currentRow < |nodes| {
        var n := nodes[currentRow];
        textBuffer := FromText(content[n.start..n.end]).WithCursorPosition(textBuffer.row, textBuffer.col);
      }
    }

    method SetContent(newContent: string)
      requires Valid()
      modifies this
      ensures Valid() && Snapshot() == N.SetContent(old(Snapshot()), parse, newContent)
    {
      assert ParsedFits(parse, newContent);
      nodes := parse(newContent);
      contentOriginal := newContent;
      content := newContent;
      UpdateBuffer();
    }

    method IntermediateSave()
      requires Valid()
      modifies this`content, this`nodes, this`textBuffer, this`modified
      ensures Valid() && Snapshot() == N.IntermediateSave(old(Snapshot()), parse)
    {
      if currentRow < |nodes| {
        var saved := SavedContent(content, nodes[currentRow], textBuffer.ToString());
        if content != saved {
          assert ParsedFits(parse, saved);
          nodes := parse(saved);
          content := saved;
          UpdateBuffer();
        }
        modified := content != contentOriginal;
      }
    }

    /** `exit_insert`: an intermediate save. */
    method ExitInsert()
      requires Valid()
      modifies this`content, this`nodes, this`textBuffer, this`modified
      ensures Valid() && Snapshot() == N.IntermediateSave(old(Snapshot()), parse)
    {
      IntermediateSave();
    }

    method DeleteChar()
      requires Valid()
      modifies this`content, this`nodes, this`textBuffer, this`modified, this`currentRow, this`dirty
      ensures Valid() && Snapshot() == N.DeleteChar(old(Snapshot()), parse)
    {
      if textBuffer.row == 0 && textBuffer.col == 0 && TextCounts.AllWhitespace(textBuffer.ToString()) {
        IntermediateSave();
      } else if textBuffer.row == 0 && textBuffer.col == 0 && currentRow != 0 {
        if currentRow < |nodes| {
          MergeIntoPrevious();
        }
      } else {
        dirty := true;
        textBuffer := textBuffer.Backspace();
      }
    }

    /** The merge `delete_char` makes at the start of a node after the first. */
    method MergeIntoPrevious()
      requires Valid() && 0 < currentRow < |nodes|
      modifies this`nodes, this`textBuffer, this`currentRow, this`dirty
      ensures Valid() && Snapshot() == N.MergeIntoPrevious(old(Snapshot()))
    {
      var r := N.MergeIntoPrevious(Snapshot());
      SetEdited(r.textBuffer, r.nodes, r.currentRow);
    }

    /** The fields a merge changes: a new buffer on new nodes, a new edited node, left dirty. */
    method SetEdited(newBuffer: TextBuffer, newNodes: seq<SourceRange>, newRow: nat)
      modifies this`nodes, this`textBuffer, this`currentRow, this`dirty
      ensures Snapshot() == old(Snapshot()).(textBuffer := newBuffer, nodes := newNodes, currentRow := newRow, dirty := true)
    {
      textBuffer, nodes, currentRow, dirty := newBuffer, newNodes, newRow, true;
    }

    /** The save `cursor_up` and `cursor_down` make when leaving a dirty buffer. */
    method SaveIfDirty()
      requires Valid()
      modifies this`content, this`nodes, this`textBuffer, this`modified, this`dirty
      ensures Valid() && Snapshot() == N.SaveIfDirty(old(Snapshot()), parse)
    {
      if dirty {
        IntermediateSave();
        dirty := false;
      }
    }

    /** Moving to node `row` and loading its buffer. */
    method EnterNode(row: nat)
      requires Valid() && row <= MAX
      modifies this`textBuffer, this`currentRow
      ensures Valid() && Snapshot() == N.EnterNode(old(Snapshot()), row)
    {
      currentRow := row;
      UpdateBuffer();
    }

    method CursorUp()
      requires Valid()
      modifies this`content, this`nodes, this`textBuffer, this`modified, this`currentRow, this`dirty
      ensures Valid() && Snapshot() == N.CursorUp(old(Snapshot()), parse)
    {
      if textBuffer.row == 0 {
        SaveIfDirty();
        if currentRow == 0 {
          return;
        }
        EnterNode(currentRow - 1);
        textBuffer := textBuffer.MoveBottom();
      } else {
        textBuffer := textBuffer.MoveUp();
      }
    }

    method CursorDown()
      requires Valid()
      modifies this`content, this`nodes, this`textBuffer, this`modified, this`currentRow, this`dirty
      ensures Valid() && Snapshot() == N.CursorDown(old(Snapshot()), parse)
    {
      if textBuffer.row < SaturatingSub(|textBuffer.lines|, 1) {
        textBuffer := textBuffer.MoveDown();
        return;
      }
      SaveIfDirty();
      if currentRow == SaturatingSub(|nodes|, 1) {
        return;
      }
      EnterNode(Min(SaturatingAdd(currentRow, 1), SaturatingSub(|nodes|, 1)));
      textBuffer := textBuffer.MoveTop();
    }

    method CursorLeft()
      requires Valid()
      modifies this`textBuffer
      ensures Valid() && Snapshot() == N.CursorLeft(old(Snapshot()))
    {
      textBuffer := textBuffer.MoveBack();
    }

    method CursorRight()
      requires Valid()
      modifies this`textBuffer
      ensures Valid() && Snapshot() == N.CursorRight(old(Snapshot()))
    {
      textBuffer := textBuffer.MoveForward();
    }

    method CursorMoveCol(cols: int)
      requires Valid()
      modifies this`textBuffer
      ensures Valid() && Snapshot() == N.CursorMoveCol(old(Snapshot()), cols)
    {
      textBuffer := textBuffer.MoveBy(0, cols);
    }

    /** `save`, with the outcome of writing the file as a parameter. */
    method Save(written: bool)
      requires Valid()
      modifies this`modified
      ensures Valid() && Snapshot() == N.Save(old(Snapshot()), written)
    {
      if !modified {
        return;
      }
      if written {
        modified := false;
      }
    }

    method ScrollUp(amount: nat)
      requires Valid()
      modifies this`scrollbar
      ensures Valid() && Snapshot() == N.ScrollUp(old(Snapshot()), amount)
    {
      var position := SaturatingSub(scrollbar.position, amount);
      scrollbar := Scrollbar(scrollbar.state.Position(position), position);
    }

    method ScrollDown(amount: nat)
      requires Valid()
      modifies this`scrollbar
      ensures Valid() && Snapshot() == N.ScrollDown(old(Snapshot()), amount)
    {
      var position := SaturatingAdd(scrollbar.position, amount);
      scrollbar := Scrollbar(scrollbar.state.Position(position), position);
    }

    /** `set_path` and `set_active`: one field each. */
    method SetPath(newPath: string)
      requires Valid()
      modifies this`path
      ensures Valid() && Snapshot() == old(Snapshot()).(path := newPath)
    {
      path := newPath;
    }

    method SetActive(newActive: bool)
      requires Valid()
      modifies this`active
      ensures Valid() && Snapshot() == old(Snapshot()).(active := newActive)
    {
      active := newActive;
    }

    method SetMode(newMode: Mode)
      requires Valid()
      modifies this`mode
      ensures Valid() && Snapshot() == N.SetMode(old(Snapshot()), newMode)
    {
      mode := newMode;
    }

    method Reset()
      requires Valid()
      modifies this
      ensures Valid() && Snapshot() == N.Reset(old(Snapshot()))
    {
      textBuffer := DefaultBuffer();
      content := [];
      contentOriginal := [];
      path := [];
      nodes := [];
      scrollbar := DefaultScrollbar;
      currentRow := 0;
      active := false;
      modified := false;
      dirty := false;
      assert Snapshot() == DefaultEditor().(mode := mode);
    }
  }
}
