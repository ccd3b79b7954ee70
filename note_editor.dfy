/** The note editor's state (basalt/src/note_editor/state.rs). The editor shows the note's
    markdown nodes; the node at `currentRow` is edited in a text buffer, and an intermediate save
    splices the buffer back into the content between the text before and after that node, then
    parses the content again.

    The parser of the editor (`markdown_parser::from_str`) is not part of this model: it is the
    `parse` of a state, assumed to give ranges that are in-order slices of its input. The text
    buffer (a `tui_textarea::TextArea`) is reduced to its lines and its cursor. */
module NoteEditor {
  import opened Usize
  import opened Strings
  import opened Scrollbars
  import TextCounts

  datatype Mode = Read | View | Edit

  /** A node's `source_range`: its characters in the content, from `start` up to `end`. */
  datatype SourceRange = SourceRange(start: nat, end: nat)

  /** Each range is a slice of the content, and a range ends before any later one starts. */
  predicate RangesFit(nodes: seq<SourceRange>, content: string) {
    (forall i :: 0 <= i < |nodes| ==> nodes[i].start <= nodes[i].end <= |content|)
    && (forall i, j :: 0 <= i < j < |nodes| ==> nodes[i].end <= nodes[j].start)
  }

  /** The parse of `s` fits `s`. */
  predicate ParsedFits(parse: string -> seq<SourceRange>, s: string) {
    RangesFit(parse(s), s)
  }

  /** What the editor assumes of its parser: every parse fits its input. */
  ghost predicate ParserFits(parse: string -> seq<SourceRange>) {
    forall s :: ParsedFits(parse, s)
  }

  // ---- The text buffer ----

  /** The editing buffer: its lines, its cursor, and whether the last input changed it. A text
      area always holds at least one line. */
  datatype TextBuffer = TextBuffer(lines: seq<string>, row: nat, col: nat, modified: bool)
  {
    predicate Valid() {
      |lines| >= 1 && row < |lines| && col <= |lines[row]|
    }

    /** `to_string`: the lines joined by line feeds. */
    function ToString(): (r: string)
      ensures |lines| == 1 ==> r == lines[0]
    {
      if lines == [] then [] else Join(lines, '\n')
    }

    /** `CursorMove::Jump`: the row clamped to the last line, the column to the length of that
        line. */
    function Jump(r: nat, c: nat): (b: TextBuffer)
      requires |lines| >= 1
      ensures b.Valid() && b.lines == lines && b.modified == modified
      ensures r < |lines| ==> b.row == r
      ensures r >= |lines| ==> b.row == |lines| - 1
      ensures b.col == Min(c, |lines[b.row]|)
    {
      var newRow := Min(r, |lines| - 1);
      this.(row := newRow, col := Min(c, |lines[newRow]|))
    }

    /** `with_cursor_position`: a jump to the position cast to `u16`. */
    function WithCursorPosition(r: nat, c: nat): (b: TextBuffer)
      requires |lines| >= 1
      ensures b.Valid() && b.lines == lines && b.modified == modified
      ensures b.row == Min(r % 0x1_0000, |lines| - 1)
      ensures b.col == Min(c % 0x1_0000, |lines[b.row]|)
    {
      Jump(r % 0x1_0000, c % 0x1_0000)
    }

    /** `CursorMove::Top` and `CursorMove::Bottom`: the first or last line, the column kept as
        far as that line allows. */
    function MoveTop(): (b: TextBuffer)
      requires |lines| >= 1
      ensures b.Valid() && b.row == 0 && b.lines == lines
    {
      Jump(0, col)
    }

    function MoveBottom(): (b: TextBuffer)
      requires |lines| >= 1
      ensures b.Valid() && b.row == |lines| - 1 && b.lines == lines
    {
      Jump(|lines| - 1, col)
    }

    /** `CursorMove::Up` and `CursorMove::Down`: one line, none past the first or last. */
    function MoveUp(): (b: TextBuffer)
      requires Valid()
      ensures b.Valid() && b.lines == lines && b.row == SaturatingSub(row, 1)
    {
      if row == 0 then this else Jump(row - 1, col)
    }

    function MoveDown(): (b: TextBuffer)
      requires Valid()
      ensures b.Valid() && b.lines == lines
      ensures row + 1 < |lines| ==> b.row == row + 1
      ensures row + 1 >= |lines| ==> b == this
    {
      if row + 1 >= |lines| then this else Jump(row + 1, col)
    }

    /** `CursorMove::Back` (`cursor_left`): one character back; from the start of a line to the
        end of the line above. */
    function MoveBack(): (b: TextBuffer)
      requires Valid()
      ensures b.Valid() && b.lines == lines && b.modified == modified
      ensures col > 0 ==> b.row == row && b.col == col - 1
      ensures col == 0 && row > 0 ==> b.row == row - 1 && b.col == |lines[row - 1]|
      ensures col == 0 && row == 0 ==> b == this
    {
      if col > 0 then this.(col := col - 1)
      else if row > 0 then this.(row := row - 1, col := |lines[row - 1]|)
      else this
    }

    /** `CursorMove::Forward` (`cursor_right`): one character on; from the end of a line to the
        start of the next. */
    function MoveForward(): (b: TextBuffer)
      requires Valid()
      ensures b.Valid() && b.lines == lines && b.modified == modified
      ensures col < |lines[row]| ==> b.row == row && b.col == col + 1
      ensures col == |lines[row]| && row + 1 < |lines| ==> b.row == row + 1 && b.col == 0
      ensures col == |lines[row]| && row + 1 == |lines| ==> b == this
    {
      if col < |lines[row]| then this.(col := col + 1)
      else if row + 1 < |lines| then this.(row := row + 1, col := 0)
      else this
    }

    /** `CursorMove::Move`: the cursor moved by the given rows and columns, saturating at 0 and
        at `usize::MAX`, then jumped to with the position cast to `u16`. */
    function MoveBy(rows: int, cols: int): (b: TextBuffer)
      requires Valid()
      ensures b.Valid() && b.lines == lines && b.modified == modified
    {
      var r := if rows > 0 then SaturatingAdd(row, rows) else SaturatingSub(row, -rows);
      var c := if cols > 0 then SaturatingAdd(col, cols) else SaturatingSub(col, -cols);
      Jump(r % 0x1_0000, c % 0x1_0000)
    }

    /** A backspace: the character before the cursor is removed; at the start of a line the line
        is joined to the one above; at the very start nothing changes. `modified` records whether
        anything did. */
    function Backspace(): (b: TextBuffer)
      requires Valid()
      ensures b.Valid() && b.modified == (row > 0 || col > 0)
      ensures col > 0 ==>
        (b.row == row && b.col == col - 1 && |b.lines| == |lines|
         && b.lines[row] == lines[row][..col - 1] + lines[row][col..]
         && (forall i :: 0 <= i < |lines| && i != row ==> b.lines[i] == lines[i]))
      ensures col == 0 && row > 0 ==>
        (b.row == row - 1 && b.col == |lines[row - 1]|
         && b.lines == lines[..row - 1] + [lines[row - 1] + lines[row]] + lines[row + 1..])
      ensures col == 0 && row == 0 ==> b.lines == lines && b.row == 0 && b.col == 0
    {
      if col > 0 then
        this.(lines := lines[row := lines[row][..col - 1] + lines[row][col..]], col := col - 1, modified := true)
      else if row > 0 then
        TextBuffer(lines[..row - 1] + [lines[row - 1] + lines[row]] + lines[row + 1..], row - 1, |lines[row - 1]|, true)
      else
        this.(modified := false)
    }
  }

  /** `TextBuffer::from`: the lines of the text, or one empty line, with the cursor at the start. */
  function FromText(s: string): (b: TextBuffer)
    ensures b.Valid() && b.row == 0 && b.col == 0 && !b.modified
    ensures Lines(s) != [] ==> b.lines == Lines(s)
    ensures Lines(s) == [] ==> b.lines == [[]]
  {
    TextBuffer(if Lines(s) == [] then [[]] else Lines(s), 0, 0, false)
  }

  /** `TextBuffer::default()`. */
  function DefaultBuffer(): (b: TextBuffer)
    ensures b == FromText([]) && b.Valid()
  {
    TextBuffer([[]], 0, 0, false)
  }

  // ---- Splicing the buffer back ----

  /** The content after an intermediate save: the text before the node, without the character
      just before it, then the buffer, then the text from the node's end on, joined by line
      feeds. */
  function SavedContent(content: string, range: SourceRange, buffer: string): (r: string)
    requires range.start <= range.end <= |content|
    ensures var before := SaturatingSub(range.start, 1);
      |r| == before + |buffer| + 2 + (|content| - range.end)
      && r[..before] == content[..before] && r[before] == '\n'
      && r[before + 1..before + 1 + |buffer|] == buffer && r[before + 1 + |buffer|] == '\n'
      && r[before + 2 + |buffer|..] == content[range.end..]
  {
    content[..SaturatingSub(range.start, 1)] + "\n" + buffer + "\n" + content[range.end..]
  }

  /** A node after the first, preceded by a line feed, whose text is the buffer and a line feed:
      saving the unedited buffer gives the content back. */
  lemma UneditedSaveKeepsContent(content: string, range: SourceRange, buffer: string)
    requires 0 < range.start <= range.end <= |content| && content[range.start - 1] == '\n'
    requires content[range.start..range.end] == buffer + "\n"
    ensures SavedContent(content, range, buffer) == content
  {
    var r := SavedContent(content, range, buffer);
    assert content == content[..range.start - 1] + [content[range.start - 1]] + content[range.start..range.end]
      + content[range.end..];
    assert r == content[..range.start - 1] + "\n" + buffer + "\n" + content[range.end..];
  }

  /** The first node: the join puts a line feed before the buffer although no character was cut
      before the node, so saving the unedited buffer of a first node whose text is the buffer and
      a line feed puts a line feed in front of the content. */
  lemma UneditedSaveOfFirstNode(content: string, range: SourceRange, buffer: string)
    requires range.start == 0 && range.end <= |content|
    requires content[..range.end] == buffer + "\n"
    ensures SavedContent(content, range, buffer) == "\n" + content
  {
    assert content == content[..range.end] + content[range.end..];
  }

  /** The last node of a note without a final line feed: the join puts a line feed after the
      buffer although the node's text had none, so saving the unedited buffer appends a line feed
      to the content. */
  lemma UneditedSaveOfUnterminatedNode(content: string, range: SourceRange, buffer: string)
    requires 0 < range.start <= range.end == |content| && content[range.start - 1] == '\n'
    requires content[range.start..] == buffer
    ensures SavedContent(content, range, buffer) == content + "\n"
  {
    assert content == content[..range.start - 1] + [content[range.start - 1]] + content[range.start..];
  }

  /** The buffer loaded from a text without carriage returns holds that text less its final
      line feed. */
  lemma UneditedBufferText(s: string)
    requires '\r' !in s
    ensures FromText(s).ToString() == WithoutFinalLineFeed(s)
  {
    if s != [] {
      JoinOfLinesFinalLineFeed(s);
    }
  }

  /** The heading and paragraph of `# My Heading\n\nSome text.`, the example of the parser's
      documentation, span 0..13 and 14..24. Saving the paragraph unedited adds a line feed at the
      end of the note. */
  lemma SomeTextSaveAppendsLineFeed()
    ensures var content, range := "# My Heading\n\nSome text.", SourceRange(14, 24);
      SavedContent(content, range, FromText(content[14..24]).ToString()) == content + "\n"
  {
    var content := "# My Heading\n\nSome text.";
    var text := content[14..24];
    assert text == "Some text.";
    UneditedBufferText(text);
    assert |content| == 24 && content[14..] == text && content[13] == '\n';
    UneditedSaveOfUnterminatedNode(content, SourceRange(14, 24), text);
  }

  /** A node's text ends in a line feed. */
  predicate EndsInLineFeed(s: string) {
    s != [] && s[|s| - 1] == '\n'
  }

  /** The save as evidently intended: a line feed takes the place of the character cut before
      the node only when one was cut, and follows the buffer only when the node's text ended in
      one. */
  function SavedContentCorrected(content: string, range: SourceRange, buffer: string): (r: string)
    requires range.start <= range.end <= |content|
    ensures var ends := EndsInLineFeed(content[range.start..range.end]);
      (range.start > 0 && ends ==> r == SavedContent(content, range, buffer))
      && (range.start == 0 && ends ==> r == buffer + "\n" + content[range.end..])
      && (range.start > 0 && !ends ==> r == content[..range.start - 1] + "\n" + buffer + content[range.end..])
      && (range.start == 0 && !ends ==> r == buffer + content[range.end..])
  {
    var before := if range.start == 0 then [] else content[..range.start - 1] + "\n";
    var after := if EndsInLineFeed(content[range.start..range.end]) then "\n" else [];
    before + buffer + after + content[range.end..]
  }

  /** With the correction every unedited save gives the content back: the buffer is the node's
      text less its final line feed, and the node is the first of the note or follows a line
      feed. */
  lemma CorrectedUneditedSave(content: string, range: SourceRange, buffer: string)
    requires range.start <= range.end <= |content|
    requires range.start > 0 ==> content[range.start - 1] == '\n'
    requires buffer == WithoutFinalLineFeed(content[range.start..range.end])
    ensures SavedContentCorrected(content, range, buffer) == content
  {
    var text := content[range.start..range.end];
    assert content == content[..range.start] + text + content[range.end..];
    if range.start > 0 {
      assert content[..range.start] == content[..range.start - 1] + "\n";
    }
    if EndsInLineFeed(text) {
      assert text == buffer + "\n";
    }
  }

  /** So saving the buffer loaded from any node, when its text has no carriage returns, leaves
      the content as it was. */
  lemma CorrectedSaveOfLoadedBuffer(content: string, range: SourceRange)
    requires range.start <= range.end <= |content|
    requires range.start > 0 ==> content[range.start - 1] == '\n'
    requires '\r' !in content[range.start..range.end]
    ensures SavedContentCorrected(content, range, FromText(content[range.start..range.end]).ToString()) == content
  {
    UneditedBufferText(content[range.start..range.end]);
    CorrectedUneditedSave(content, range, FromText(content[range.start..range.end]).ToString());
  }

  /** The corrected save of the documentation example's paragraph keeps the note. */
  lemma SomeTextCorrectedSave()
    ensures var content, range := "# My Heading\n\nSome text.", SourceRange(14, 24);
      SavedContentCorrected(content, range, FromText(content[14..24]).ToString()) == content
  {
    var content := "# My Heading\n\nSome text.";
    assert content[13] == '\n';
    assert '\r' !in content[14..24] by {
      assert content[14..24] == "Some text.";
    }
    CorrectedSaveOfLoadedBuffer(content, SourceRange(14, 24));
  }

  // ---- The editor as a value ----

  /** The fields of the editor. */
  datatype Editor = Editor(mode: Mode, textBuffer: TextBuffer, content: string, contentOriginal: string,
                           path: string, nodes: seq<SourceRange>, scrollbar: Scrollbar, currentRow: nat,
                           active: bool, modified: bool, dirty: bool)
  {
    /** The ranges fit the content, the buffer's cursor is on its text, and the node row is a
        `usize`. */
    predicate Valid() {
      RangesFit(nodes, content) && textBuffer.Valid() && currentRow <= MAX
    }
  }

  /** `EditorState::default()`. */
  function DefaultEditor(): (e: Editor)
    ensures e.Valid() && e.content == [] && e.nodes == [] && e.currentRow == 0
  {
    Editor(Read, DefaultBuffer(), [], [], [], [], DefaultScrollbar, 0, false, false, false)
  }

  /** `new`: the content, unmodified, parsed; everything else as by default. */
  function NewEditor(parse: string -> seq<SourceRange>, content: string, path: string): (e: Editor)
    requires ParserFits(parse)
    ensures e.Valid()
    ensures e.content == content && e.contentOriginal == content && e.nodes == parse(content) && e.path == path
    ensures e.(content := [], contentOriginal := [], nodes := [], path := []) == DefaultEditor()
  {
    assert ParsedFits(parse, content);
    DefaultEditor().(nodes := parse(content), contentOriginal := content, content := content, path := path)
  }

  /** `update_text_buffer`: the buffer holds the text of the node at `currentRow`, the cursor
      kept as far as the new lines allow; without such a node nothing changes. */
  function UpdateTextBuffer(e: Editor): (r: Editor)
    requires e.Valid()
    ensures r.Valid() && r.(textBuffer := e.textBuffer) == e
    ensures e.currentRow < |e.nodes| ==> var n := e.nodes[e.currentRow];
      r.textBuffer == FromText(e.content[n.start..n.end]).WithCursorPosition(e.textBuffer.row, e.textBuffer.col)
    ensures e.currentRow >= |e.nodes| ==> r == e
  {
    if e.currentRow < |e.nodes| then
      var n := e.nodes[e.currentRow];
      e.(textBuffer := FromText(e.content[n.start..n.end]).WithCursorPosition(e.textBuffer.row, e.textBuffer.col))
    else e
  }

  /** `set_content`: a new content, unmodified, parsed, and the buffer updated from it. */
  function SetContent(e: Editor, parse: string -> seq<SourceRange>, content: string): (r: Editor)
    requires e.Valid() && ParserFits(parse)
    ensures r.Valid() && r.content == content && r.contentOriginal == content && r.nodes == parse(content)
    ensures r.currentRow == e.currentRow && r.dirty == e.dirty && r.modified == e.modified && r.mode == e.mode
  {
    assert ParsedFits(parse, content);
    UpdateTextBuffer(e.(nodes := parse(content), contentOriginal := content, content := content))
  }

  /** `intermediate_save`: with a node at `currentRow`, the buffer spliced into the content in
      place of that node; a changed content is parsed again and the buffer updated; `modified`
      then tells whether the content differs from the original. Without a node nothing changes. */
  function IntermediateSave(e: Editor, parse: string -> seq<SourceRange>): (r: Editor)
    requires e.Valid() && ParserFits(parse)
    ensures r.Valid()
  {
    if e.currentRow < |e.nodes| then
      var saved := SavedContent(e.content, e.nodes[e.currentRow], e.textBuffer.ToString());
      assert ParsedFits(parse, saved);
      var e1 := if e.content != saved then UpdateTextBuffer(e.(nodes := parse(saved), content := saved)) else e;
      e1.(modified := e1.content != e1.contentOriginal)
    else e
  }

  /** `update_text_buffer_content`: the given text put above the buffer's text, the cursor
      moved below it. */
  function PrependText(b: TextBuffer, text: string): (r: TextBuffer)
    ensures r.Valid()
  {
    var joined := FromText(text + "\n" + b.ToString());
    joined.WithCursorPosition(|Lines(text)| + 1, b.col)
  }

  /** `delete_char`: at the start of a blank buffer, an intermediate save; at the start of the
      buffer of a node after the first, that node merged into the one before (whose range now
      runs to the removed node's end) and the previous node edited; elsewhere a backspace in the
      buffer. */
  function DeleteChar(e: Editor, parse: string -> seq<SourceRange>): (r: Editor)
    requires e.Valid() && ParserFits(parse)
    ensures r.Valid()
  {
    var b := e.textBuffer;
    if b.row == 0 && b.col == 0 && TextCounts.AllWhitespace(b.ToString()) then
      IntermediateSave(e, parse)
    else if b.row == 0 && b.col == 0 && e.currentRow != 0 then
      if e.currentRow < |e.nodes| then MergeIntoPrevious(e) else e
    else
      e.(dirty := true, textBuffer := b.Backspace())
  }

  /** The merge `delete_char` makes: the previous node's text put above the buffer, the node
      merged into the previous one, which becomes the edited node. */
  function MergeIntoPrevious(e: Editor): (r: Editor)
    requires e.Valid() && 0 < e.currentRow < |e.nodes|
    ensures r.Valid() && r.currentRow == e.currentRow - 1 && r.dirty
    ensures r.mode == e.mode && r.content == e.content && r.contentOriginal == e.contentOriginal && r.path == e.path
      && r.scrollbar == e.scrollbar && r.active == e.active && r.modified == e.modified
  {
    var prev := e.nodes[e.currentRow - 1];
    var nodes := MergeWithPrevious(e.nodes, e.currentRow, e.content);
    e.(textBuffer := PrependText(e.textBuffer, e.content[prev.start..prev.end]), nodes := nodes,
       currentRow := e.currentRow - 1, dirty := true)
  }

  /** The nodes with node `k` merged into node `k - 1`: its range extended to node `k`'s end, and
      node `k` removed. The ranges still fit. */
  function MergeWithPrevious(nodes: seq<SourceRange>, k: nat, content: string): (r: seq<SourceRange>)
    requires 0 < k < |nodes| && RangesFit(nodes, content)
    ensures RangesFit(r, content)
    ensures |r| == |nodes| - 1
    ensures r[k - 1] == SourceRange(nodes[k - 1].start, nodes[k].end)
  {
    var merged := nodes[k - 1 := SourceRange(nodes[k - 1].start, nodes[k].end)];
    var r := merged[..k] + merged[k + 1..];
    assert forall i :: 0 <= i < |r| ==> r[i] == (if i < k - 1 then nodes[i] else if i == k - 1 then merged[k - 1] else nodes[i + 1]);
    r
  }

  /** The merge keeps every range before node `k - 1` and every range after node `k`. */
  lemma MergeWithPreviousKeeps(nodes: seq<SourceRange>, k: nat, content: string)
    requires 0 < k < |nodes| && RangesFit(nodes, content)
    ensures var r := MergeWithPrevious(nodes, k, content);
      r[..k - 1] == nodes[..k - 1] && r[k..] == nodes[k + 1..]
  {
    var r := MergeWithPrevious(nodes, k, content);
    var merged := nodes[k - 1 := SourceRange(nodes[k - 1].start, nodes[k].end)];
    assert r == merged[..k] + merged[k + 1..];
    assert r[..k - 1] == merged[..k - 1];
  }

  /** The save `cursor_up` and `cursor_down` make when leaving a dirty buffer. */
  function SaveIfDirty(e: Editor, parse: string -> seq<SourceRange>): (r: Editor)
    requires e.Valid() && ParserFits(parse)
    ensures r.Valid() && r.currentRow == e.currentRow && (e.dirty ==> !r.dirty)
    ensures !e.dirty ==> r == e
  {
    if e.dirty then IntermediateSave(e, parse).(dirty := false) else e
  }

  /** The buffer loaded from node `row`, as `cursor_up` and `cursor_down` do on moving to it. */
  function EnterNode(e: Editor, row: nat): (r: Editor)
    requires e.Valid() && row <= MAX
    ensures r.Valid() && r.currentRow == row
    ensures r.(textBuffer := e.textBuffer, currentRow := e.currentRow) == e
  {
    UpdateTextBuffer(e.(currentRow := row))
  }

  /** `cursor_up`: inside the buffer one line up; on its first line, save if dirty, then move to
      the previous node (if any) with the cursor on its last line. */
  function CursorUp(e: Editor, parse: string -> seq<SourceRange>): (r: Editor)
    requires e.Valid() && ParserFits(parse)
    ensures r.Valid()
  {
    if e.textBuffer.row == 0 then
      var e1 := SaveIfDirty(e, parse);
      if e1.currentRow == 0 then e1
      else
        var e2 := EnterNode(e1, e1.currentRow - 1);
        e2.(textBuffer := e2.textBuffer.MoveBottom())
    else
      e.(textBuffer := e.textBuffer.MoveUp())
  }

  /** `cursor_down`: inside the buffer one line down; on its last line, save if dirty, then move
      to the next node, never past the last, with the cursor on its first line. */
  function CursorDown(e: Editor, parse: string -> seq<SourceRange>): (r: Editor)
    requires e.Valid() && ParserFits(parse)
    ensures r.Valid()
  {
    if e.textBuffer.row < SaturatingSub(|e.textBuffer.lines|, 1) then
      e.(textBuffer := e.textBuffer.MoveDown())
    else
      var e1 := SaveIfDirty(e, parse);
      if e1.currentRow == SaturatingSub(|e1.nodes|, 1) then e1
      else
        var e2 := EnterNode(e1, Min(SaturatingAdd(e1.currentRow, 1), SaturatingSub(|e1.nodes|, 1)));
        e2.(textBuffer := e2.textBuffer.MoveTop())
  }

  /** `cursor_left`, `cursor_right` and `cursor_move_col`: cursor moves inside the buffer. */
  function CursorLeft(e: Editor): (r: Editor)
    requires e.Valid()
    ensures r.Valid() && r == e.(textBuffer := e.textBuffer.MoveBack())
  {
    e.(textBuffer := e.textBuffer.MoveBack())
  }

  function CursorRight(e: Editor): (r: Editor)
    requires e.Valid()
    ensures r.Valid() && r == e.(textBuffer := e.textBuffer.MoveForward())
  {
    e.(textBuffer := e.textBuffer.MoveForward())
  }

  function CursorMoveCol(e: Editor, cols: int): (r: Editor)
    requires e.Valid()
    ensures r.Valid() && r == e.(textBuffer := e.textBuffer.MoveBy(0, cols))
  {
    e.(textBuffer := e.textBuffer.MoveBy(0, cols))
  }

  /** `save`, with the outcome of writing the file as a parameter: nothing unless modified; a
      successful write clears `modified`, a failed one changes nothing. */
  function Save(e: Editor, written: bool): (r: Editor)
    ensures !e.modified || !written ==> r == e
    ensures e.modified && written ==> r == e.(modified := false)
  {
    if !e.modified then e else if written then e.(modified := false) else e
  }

  /** `scroll_up` and `scroll_down`: the scrollbar moved, saturating at 0 and at `usize::MAX`. */
  function ScrollUp(e: Editor, amount: nat): (r: Editor)
    ensures r.scrollbar.position == SaturatingSub(e.scrollbar.position, amount)
    ensures r == e.(scrollbar := Scrollbar(e.scrollbar.state.Position(r.scrollbar.position), r.scrollbar.position))
  {
    var position := SaturatingSub(e.scrollbar.position, amount);
    e.(scrollbar := Scrollbar(e.scrollbar.state.Position(position), position))
  }

  function ScrollDown(e: Editor, amount: nat): (r: Editor)
    ensures r.scrollbar.position == SaturatingAdd(e.scrollbar.position, amount)
    ensures r == e.(scrollbar := Scrollbar(e.scrollbar.state.Position(r.scrollbar.position), r.scrollbar.position))
  {
    var position := SaturatingAdd(e.scrollbar.position, amount);
    e.(scrollbar := Scrollbar(e.scrollbar.state.Position(position), position))
  }

  /** `set_mode`: only the mode changes. */
  function SetMode(e: Editor, mode: Mode): (r: Editor)
    ensures r == e.(mode := mode)
  {
    e.(mode := mode)
  }

  /** `reset`: the default editor, keeping the mode. */
  function Reset(e: Editor): (r: Editor)
    ensures r.Valid() && r == DefaultEditor().(mode := e.mode)
  {
    DefaultEditor().(mode := e.mode)
  }

  // ---- Properties ----

  /** One character on and one back lands where the cursor was, unless it was at the very end. */
  lemma BackUndoesForward(b: TextBuffer)
    requires b.Valid() && !(b.row + 1 == |b.lines| && b.col == |b.lines[b.row]|)
    ensures b.MoveForward().MoveBack() == b
  {
  }

  /** A column move that stays on the line and within `u16` moves by exactly that many
      columns; the row stays. */
  lemma MoveByColumns(b: TextBuffer, cols: int)
    requires b.Valid() && b.row < 0x1_0000 && 0 <= b.col + cols <= |b.lines[b.row]| && b.col + cols < 0x1_0000
    ensures b.MoveBy(0, cols).row == b.row && b.MoveBy(0, cols).col == b.col + cols
  {
  }

  /** After an intermediate save at a node, `modified` tells whether the content differs from
      the original; the content is the spliced one (or unchanged when splicing changes nothing),
      and the nodes are the parse of the new content. Without a node nothing changes. */
  lemma IntermediateSaveEffect(e: Editor, parse: string -> seq<SourceRange>)
    requires e.Valid() && ParserFits(parse)
    ensures var r := IntermediateSave(e, parse);
      (e.currentRow >= |e.nodes| ==> r == e)
      && (e.currentRow < |e.nodes| ==>
            var saved := SavedContent(e.content, e.nodes[e.currentRow], e.textBuffer.ToString());
            r.content == saved && r.modified == (saved != e.contentOriginal)
            && (saved != e.content ==> r.nodes == parse(saved))
            && (saved == e.content ==> r.nodes == e.nodes && r.textBuffer == e.textBuffer)
            && r.contentOriginal == e.contentOriginal && r.currentRow == e.currentRow && r.dirty == e.dirty)
  {
  }

  /** Leaving the unedited buffer of a first node that ends in a line feed marks an unmodified
      note as modified: the save puts a line feed in front of the content. */
  lemma FirstNodeSaveModifies(e: Editor, parse: string -> seq<SourceRange>)
    requires e.Valid() && ParserFits(parse) && e.currentRow < |e.nodes| && e.content == e.contentOriginal
    requires e.nodes[e.currentRow].start == 0
    requires e.content[..e.nodes[e.currentRow].end] == e.textBuffer.ToString() + "\n"
    ensures IntermediateSave(e, parse).content == "\n" + e.content
    ensures IntermediateSave(e, parse).modified
  {
    UneditedSaveOfFirstNode(e.content, e.nodes[e.currentRow], e.textBuffer.ToString());
    IntermediateSaveEffect(e, parse);
    assert |"\n" + e.content| != |e.content|;
  }

  /** Leaving the unedited buffer of a last node without a final line feed marks an
      unmodified note as modified: the save appends a line feed. */
  lemma LastNodeSaveModifies(e: Editor, parse: string -> seq<SourceRange>)
    requires e.Valid() && ParserFits(parse) && e.currentRow < |e.nodes| && e.content == e.contentOriginal
    requires 0 < e.nodes[e.currentRow].start && e.nodes[e.currentRow].end == |e.content|
    requires e.content[e.nodes[e.currentRow].start - 1] == '\n'
    requires e.content[e.nodes[e.currentRow].start..] == e.textBuffer.ToString()
    ensures IntermediateSave(e, parse).content == e.content + "\n"
    ensures IntermediateSave(e, parse).modified
  {
    UneditedSaveOfUnterminatedNode(e.content, e.nodes[e.currentRow], e.textBuffer.ToString());
    IntermediateSaveEffect(e, parse);
    assert |e.content + "\n"| != |e.content|;
  }

  /** Moving up from a node after the first loads the previous node's text, with the cursor on
      its last line, and keeps the note. */
  lemma EnterPreviousNode(e: Editor)
    requires e.Valid() && e.currentRow != 0
    ensures var e2 := EnterNode(e, e.currentRow - 1); var r := e2.(textBuffer := e2.textBuffer.MoveBottom());
      r.nodes == e.nodes && r.content == e.content && r.currentRow == e.currentRow - 1
      && (r.currentRow < |r.nodes| ==> var n := r.nodes[r.currentRow];
            r.textBuffer.lines == FromText(r.content[n.start..n.end]).lines
            && r.textBuffer.row == |r.textBuffer.lines| - 1)
  {
  }

  /** `cursor_up` on the buffer's first line: after the save (if dirty) the node row goes one up,
      staying at 0, and the buffer then holds the previous node's text with the cursor on its last
      line; at node 0 the editor is left as the save left it. */
  lemma CursorUpAtTop(e: Editor, parse: string -> seq<SourceRange>)
    requires e.Valid() && ParserFits(parse) && e.textBuffer.row == 0
    ensures CursorUp(e, parse).currentRow == SaturatingSub(e.currentRow, 1)
    ensures e.dirty ==> !CursorUp(e, parse).dirty
    ensures !e.dirty ==> CursorUp(e, parse).content == e.content && CursorUp(e, parse).nodes == e.nodes
    ensures var e1, r := SaveIfDirty(e, parse), CursorUp(e, parse);
      r.content == e1.content && r.nodes == e1.nodes
      && (e.currentRow == 0 ==> r == e1)
      && (e.currentRow != 0 && r.currentRow < |r.nodes| ==>
            var n := r.nodes[r.currentRow];
            r.textBuffer.lines == FromText(r.content[n.start..n.end]).lines
            && r.textBuffer.row == |r.textBuffer.lines| - 1)
  {
    var e1, r := SaveIfDirty(e, parse), CursorUp(e, parse);
    if e1.currentRow == 0 {
      assert r == e1;
    } else {
      EnterPreviousNode(e1);
      var e2 := EnterNode(e1, e1.currentRow - 1);
      assert r == e2.(textBuffer := e2.textBuffer.MoveBottom());
      assert r.currentRow == e.currentRow - 1;
    }
  }

  /** `cursor_down` on the buffer's last line: after the save (if dirty) the node row goes one
      down, never past the last node, and on moving the buffer holds the next node's text with
      the cursor on its first line; at the last node the editor is left as the save left it. */
  lemma CursorDownAtBottom(e: Editor, parse: string -> seq<SourceRange>)
    requires e.Valid() && ParserFits(parse) && e.textBuffer.row >= SaturatingSub(|e.textBuffer.lines|, 1)
    ensures var r := CursorDown(e, parse);
      r.currentRow == Min(SaturatingAdd(e.currentRow, 1), SaturatingSub(|r.nodes|, 1))
    ensures e.dirty ==> !CursorDown(e, parse).dirty
    ensures var e1, r := SaveIfDirty(e, parse), CursorDown(e, parse);
      r.content == e1.content && r.nodes == e1.nodes
      && (e.currentRow == SaturatingSub(|r.nodes|, 1) ==> r == e1)
      && (e.currentRow != SaturatingSub(|r.nodes|, 1) && r.currentRow < |r.nodes| ==>
            var n := r.nodes[r.currentRow];
            r.textBuffer.lines == FromText(r.content[n.start..n.end]).lines && r.textBuffer.row == 0)
  {
    if e.dirty {
      IntermediateSaveEffect(e, parse);
    }
    var e1 := SaveIfDirty(e, parse);
    assert e1.currentRow == e.currentRow;
    if e1.currentRow != SaturatingSub(|e1.nodes|, 1) {
      var e2 := EnterNode(e1, Min(SaturatingAdd(e1.currentRow, 1), SaturatingSub(|e1.nodes|, 1)));
      assert e2.nodes == e1.nodes && e2.content == e1.content;
      assert CursorDown(e, parse) == e2.(textBuffer := e2.textBuffer.MoveTop());
    }
  }

  /** Inside the buffer the cursor moves by one line and nothing but the buffer's cursor changes. */
  lemma CursorInsideBuffer(e: Editor, parse: string -> seq<SourceRange>)
    requires e.Valid() && ParserFits(parse)
    ensures e.textBuffer.row > 0 ==> CursorUp(e, parse) == e.(textBuffer := e.textBuffer.(row := e.textBuffer.row - 1,
      col := Min(e.textBuffer.col, |e.textBuffer.lines[e.textBuffer.row - 1]|)))
    ensures e.textBuffer.row + 1 < |e.textBuffer.lines| ==> CursorDown(e, parse) == e.(textBuffer := e.textBuffer.(
      row := e.textBuffer.row + 1, col := Min(e.textBuffer.col, |e.textBuffer.lines[e.textBuffer.row + 1]|)))
  {
  }

  /** `delete_char` at the start of a non-blank buffer of a node after the first merges that node
      into the previous one. */
  lemma DeleteCharMerges(e: Editor, parse: string -> seq<SourceRange>)
    requires e.Valid() && ParserFits(parse)
    requires e.textBuffer.row == 0 && e.textBuffer.col == 0 && !TextCounts.AllWhitespace(e.textBuffer.ToString())
    requires 0 < e.currentRow < |e.nodes|
    ensures var r := DeleteChar(e, parse); var k := e.currentRow;
      r.currentRow == k - 1 && r.dirty && |r.nodes| == |e.nodes| - 1
      && r.nodes[k - 1] == SourceRange(e.nodes[k - 1].start, e.nodes[k].end)
      && r.nodes[..k - 1] == e.nodes[..k - 1] && r.nodes[k..] == e.nodes[k + 1..]
      && r.content == e.content && r.contentOriginal == e.contentOriginal && r.modified == e.modified
  {
    MergeWithPreviousKeeps(e.nodes, e.currentRow, e.content);
  }

  /** At the start of a blank buffer, `delete_char` is an intermediate save, whatever the node. */
  lemma DeleteCharSaves(e: Editor, parse: string -> seq<SourceRange>)
    requires e.Valid() && ParserFits(parse)
    requires e.textBuffer.row == 0 && e.textBuffer.col == 0 && TextCounts.AllWhitespace(e.textBuffer.ToString())
    ensures DeleteChar(e, parse) == IntermediateSave(e, parse)
  {
  }

  /** Anywhere but the start of the buffer, `delete_char` is a backspace in the buffer. */
  lemma DeleteCharBackspace(e: Editor, parse: string -> seq<SourceRange>)
    requires e.Valid() && ParserFits(parse)
    requires e.textBuffer.row > 0 || e.textBuffer.col > 0
    ensures DeleteChar(e, parse) == e.(dirty := true, textBuffer := e.textBuffer.Backspace())
  {
  }

  /** Scrolling touches the scrollbar only; saving an unmodified note does nothing; resetting
      keeps only the mode. */
  lemma QuietOperations(e: Editor, amount: nat, written: bool)
    ensures ScrollUp(e, amount).(scrollbar := e.scrollbar) == e
    ensures ScrollDown(e, amount).(scrollbar := e.scrollbar) == e
    ensures !e.modified ==> Save(e, written) == e
    ensures Reset(e).mode == e.mode && Reset(e).(mode := Read) == DefaultEditor()
  {
  }
}
