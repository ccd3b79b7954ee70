/** The documents of the canonical builder's examples and tests, written as the event streams the tokenizer
    reports for them, with the trees the builder is expected to produce. The general step lemmas
    each advance one level by one event; the fixture lemmas chain them. */
module MarkdownParserFixtures {
  import opened Wrappers
  import Cmark
  import opened MarkdownAst
  import opened MarkdownParser

  function R(start: nat, end: nat): Cmark.Range {
    Cmark.Range(start, end)
  }

  function Plain(s: string): TextNode {
    TextNode(s, None)
  }

  // ---- One event at a time ----

  lemma StepOpen(acc: seq<Node>, events: Events, pos: nat, current: Option<Cmark.Tag>, node: Node, next: nat)
    requires pos < |events| && events[pos].0.Start?
    requires TagToNode(events[pos].0.tag, events, pos + 1, events[pos].1) == Opened(Some(node), next)
    ensures Level(acc, events, pos, current) == Level(acc + [node], events, next, current)
  {
  }

  lemma StepText(acc: seq<Node>, events: Events, pos: nat, current: Option<Cmark.Tag>, s: string)
    requires pos < |events| && events[pos].0 == Cmark.Text(s)
    ensures Level(acc, events, pos, current) == Level(PushLast(acc, Plain(s)), events, pos + 1, current)
  {
  }

  lemma StepSkip(acc: seq<Node>, events: Events, pos: nat, current: Option<Cmark.Tag>)
    requires pos < |events| && (events[pos].0.End? || Ignored(events[pos].0))
    requires !Closes(events[pos].0, current)
    ensures Level(acc, events, pos, current) == Level(acc, events, pos + 1, current)
  {
  }

  lemma StepCode(acc: seq<Node>, events: Events, pos: nat, current: Option<Cmark.Tag>, s: string)
    requires pos < |events| && events[pos].0 == Cmark.Code(s)
    ensures Level(acc, events, pos, current) == Level(PushLast(acc, TextNode(s, Some(Style.Code))), events, pos + 1, current)
  {
  }

  /** An open tag the builder does not support (emphasis, a link, ...) adds nothing. */
  lemma StepDrop(acc: seq<Node>, events: Events, pos: nat, current: Option<Cmark.Tag>)
    requires pos < |events| && events[pos].0.Start? && !Supported(events[pos].0.tag)
    ensures Level(acc, events, pos, current) == Level(acc, events, pos + 1, current)
  {
  }

  lemma StepMark(acc: seq<Node>, events: Events, pos: nat, current: Option<Cmark.Tag>, checked: bool)
    requires pos < |events| && events[pos].0 == Cmark.TaskListMarker(checked)
    ensures Level(acc, events, pos, current) == Level(MarkLast(acc, checked), events, pos + 1, current)
  {
  }

  lemma StepClose(acc: seq<Node>, events: Events, pos: nat, current: Option<Cmark.Tag>)
    requires pos < |events| && Closes(events[pos].0, current)
    ensures Level(acc, events, pos, current) == Parsed(acc, pos + 1)
  {
  }

  lemma StepEnd(acc: seq<Node>, events: Events, current: Option<Cmark.Tag>)
    ensures Level(acc, events, |events|, current) == Parsed(acc, |events|)
  {
  }

  lemma PushIntoLast(init: seq<Node>, last: Node, t: TextNode, pushed: Node)
    requires PushTextNode(last, t) == pushed
    ensures PushLast(init + [last], t) == init + [pushed]
  {
    assert (init + [last])[..|init|] == init;
  }

  lemma MarkIntoLast(init: seq<Node>, last: Node, checked: bool)
    ensures MarkLast(init + [last], checked)
         == init + [Node(TaskListItem(if checked then Checked else Unchecked, []), last.sourceRange)]
  {
  }

  lemma PushIntoLeaf(m: MarkdownNode, range: Cmark.Range, t: TextNode)
    requires !m.IsContainer() && m.text == []
    ensures PushTextNode(Node(m, range), t) == Node(m.(text := [t]), range)
  {
    assert [] + [t] == [t];
  }

  // ---- `"# My Heading\n\nSome text."` ----

  lemma HeadingDocumentParse(e: Events)
    requires |e| == 6
    requires e[0] == (Cmark.Start(Cmark.Heading(Cmark.H1)), R(0, 13))
    requires e[1] == (Cmark.Text("My Heading"), R(2, 12))
    requires e[2] == (Cmark.End(Cmark.EndHeading(Cmark.H1)), R(0, 13))
    requires e[3] == (Cmark.Start(Cmark.Paragraph), R(14, 24))
    requires e[4] == (Cmark.Text("Some text."), R(14, 24))
    requires e[5] == (Cmark.End(Cmark.EndParagraph), R(14, 24))
    ensures FromEvents(e) ==
      [ Node(Heading(H1, [Plain("My Heading")]), R(0, 13)),
        Node(Paragraph([Plain("Some text.")]), R(14, 24)) ]
  {
    var h0, h := Node(Heading(H1, []), R(0, 13)), Node(Heading(H1, [Plain("My Heading")]), R(0, 13));
    var p0, p := Node(Paragraph([]), R(14, 24)), Node(Paragraph([Plain("Some text.")]), R(14, 24));
    StepOpen([], e, 0, None, h0, 1);
    StepText([h0], e, 1, None, "My Heading");
    PushIntoLeaf(h0.markdownNode, h0.sourceRange, Plain("My Heading"));
    PushIntoLast([], h0, Plain("My Heading"), h);
    StepSkip([h], e, 2, None);
    StepOpen([h], e, 3, None, p0, 4);
    StepText([h, p0], e, 4, None, "Some text.");
    PushIntoLeaf(p0.markdownNode, p0.sourceRange, Plain("Some text."));
    PushIntoLast([h], p0, Plain("Some text."), p);
    StepSkip([h, p], e, 5, None);
    StepEnd([h, p], e, None);
    assert [] + [h0] == [h0] && [h] + [p0] == [h, p0];
  }

  // ---- `"- [ ] Task\n- [x] Completed task\n- [?] Completed task\n"` ----

  /** The tokenizer's events for the task list; only the ranges of open events reach the tree. */
  predicate TaskListDocument(e: Events) {
    && |e| == 13
    && e[0] == (Cmark.Start(Cmark.List(None)), R(0, 53))
    && e[1] == (Cmark.Start(Cmark.Item), R(0, 11))
    && e[2] == (Cmark.TaskListMarker(false), R(2, 5))
    && e[3] == (Cmark.Text("Task"), R(6, 10))
    && e[4] == (Cmark.End(Cmark.EndItem), R(0, 11))
    && e[5] == (Cmark.Start(Cmark.Item), R(11, 32))
    && e[6] == (Cmark.TaskListMarker(true), R(13, 16))
    && e[7] == (Cmark.Text("Completed task"), R(17, 31))
    && e[8] == (Cmark.End(Cmark.EndItem), R(11, 32))
    && e[9] == (Cmark.Start(Cmark.Item), R(32, 53))
    && e[10] == (Cmark.Text("[?] Completed task"), R(34, 52))
    && e[11] == (Cmark.End(Cmark.EndItem), R(32, 53))
    && e[12] == (Cmark.End(Cmark.EndList(false)), R(0, 53))
  }

  function Task(kind: TaskListItemKind, s: string, range: Cmark.Range): Node {
    Node(TaskListItem(kind, [Plain(s)]), range)
  }

  lemma TaskListFirst(e: Events)
    requires TaskListDocument(e)
    ensures Level([], e, 1, Some(Cmark.List(None)))
         == Level([Task(Unchecked, "Task", R(0, 11))], e, 5, Some(Cmark.List(None)))
  {
    var list := Some(Cmark.List(None));
    var i0, u0 := Node(Item([]), R(0, 11)), Node(TaskListItem(Unchecked, []), R(0, 11));
    var u := Task(Unchecked, "Task", R(0, 11));
    StepOpen([], e, 1, list, i0, 2);
    assert [] + [i0] == [i0];
    StepMark([i0], e, 2, list, false);
    MarkIntoLast([], i0, false);
    StepText([u0], e, 3, list, "Task");
    PushIntoLeaf(u0.markdownNode, u0.sourceRange, Plain("Task"));
    PushIntoLast([], u0, Plain("Task"), u);
    StepSkip([u], e, 4, list);
  }

  lemma TaskListTasks(e: Events)
    requires TaskListDocument(e)
    ensures Level([], e, 1, Some(Cmark.List(None)))
         == Level([Task(Unchecked, "Task", R(0, 11)), Task(Checked, "Completed task", R(11, 32))],
                  e, 9, Some(Cmark.List(None)))
  {
    var list := Some(Cmark.List(None));
    var i1, c0 := Node(Item([]), R(11, 32)), Node(TaskListItem(Checked, []), R(11, 32));
    var u, c := Task(Unchecked, "Task", R(0, 11)), Task(Checked, "Completed task", R(11, 32));
    TaskListFirst(e);
    StepOpen([u], e, 5, list, i1, 6);
    StepMark([u, i1], e, 6, list, true);
    MarkIntoLast([u], i1, true);
    StepText([u, c0], e, 7, list, "Completed task");
    PushIntoLeaf(c0.markdownNode, c0.sourceRange, Plain("Completed task"));
    PushIntoLast([u], c0, Plain("Completed task"), c);
    assert [u] + [i1] == [u, i1] && [u] + [c0] == [u, c0] && [u] + [c] == [u, c];
  }

  lemma TaskListItems(e: Events)
    requires TaskListDocument(e)
    ensures Level([], e, 1, Some(Cmark.List(None))) ==
      Parsed([ Task(Unchecked, "Task", R(0, 11)),
               Task(Checked, "Completed task", R(11, 32)),
               Node(Item([Plain("[?] Completed task")]), R(32, 53)) ], 13)
  {
    var list := Some(Cmark.List(None));
    var u, c := Task(Unchecked, "Task", R(0, 11)), Task(Checked, "Completed task", R(11, 32));
    var i2, q := Node(Item([]), R(32, 53)), Node(Item([Plain("[?] Completed task")]), R(32, 53));
    TaskListTasks(e);
    StepSkip([u, c], e, 8, list);
    StepOpen([u, c], e, 9, list, i2, 10);
    StepText([u, c, i2], e, 10, list, "[?] Completed task");
    PushIntoLeaf(i2.markdownNode, i2.sourceRange, Plain("[?] Completed task"));
    PushIntoLast([u, c], i2, Plain("[?] Completed task"), q);
    StepSkip([u, c, q], e, 11, list);
    StepClose([u, c, q], e, 12, list);
    assert [u, c] + [i2] == [u, c, i2] && [u, c] + [q] == [u, c, q];
  }

  /** Checked and unchecked markers make task items; the unsupported `[?]` marker stays in the text
      of a plain item. */
  lemma TaskListDocumentParse(e: Events)
    requires TaskListDocument(e)
    ensures FromEvents(e) ==
      [ Node(List(ListKind.Unordered,
                  [ Task(Unchecked, "Task", R(0, 11)),
                    Task(Checked, "Completed task", R(11, 32)),
                    Node(Item([Plain("[?] Completed task")]), R(32, 53)) ]), R(0, 53)) ]
  {
    var items := [ Task(Unchecked, "Task", R(0, 11)),
                   Task(Checked, "Completed task", R(11, 32)),
                   Node(Item([Plain("[?] Completed task")]), R(32, 53)) ];
    var list := Node(List(ListKind.Unordered, items), R(0, 53));
    TaskListItems(e);
    StepOpen([], e, 0, None, list, 13);
    StepEnd([list], e, None);
    assert [] + [list] == [list];
  }

  // ---- `"Hello world"` ----

  lemma HelloWorldParse(e: Events)
    requires |e| == 3
    requires e[0] == (Cmark.Start(Cmark.Paragraph), R(0, 11))
    requires e[1] == (Cmark.Text("Hello world"), R(0, 11))
    requires e[2] == (Cmark.End(Cmark.EndParagraph), R(0, 11))
    ensures FromEvents(e) == [Node(Paragraph([Plain("Hello world")]), R(0, 11))]
  {
    var p0, p := Node(Paragraph([]), R(0, 11)), Node(Paragraph([Plain("Hello world")]), R(0, 11));
    StepOpen([], e, 0, None, p0, 1);
    StepText([p0], e, 1, None, "Hello world");
    PushIntoLeaf(p0.markdownNode, p0.sourceRange, Plain("Hello world"));
    PushIntoLast([], p0, Plain("Hello world"), p);
    StepSkip([p], e, 2, None);
    StepEnd([p], e, None);
    assert [] + [p0] == [p0];
  }

  // ---- Six headings, `"# Heading 1\n\n## Heading 2\n\n ... ###### Heading 6\n"` ----

  /** A top-level heading holding one run of text becomes one node with the open event's range. */
  lemma StepHeading(acc: seq<Node>, e: Events, pos: nat, level: Cmark.HeadingLevel, s: string, node: Node)
    requires pos + 2 < |e|
    requires e[pos].0 == Cmark.Start(Cmark.Heading(level))
    requires e[pos + 1].0 == Cmark.Text(s)
    requires e[pos + 2].0 == Cmark.End(Cmark.EndHeading(level))
    requires node == Node(Heading(HeadingLevelFrom(level), [Plain(s)]), e[pos].1)
    ensures Level(acc, e, pos, None) == Level(acc + [node], e, pos + 3, None)
  {
    var h0 := Node(Heading(HeadingLevelFrom(level), []), e[pos].1);
    StepOpen(acc, e, pos, None, h0, pos + 1);
    StepText(acc + [h0], e, pos + 1, None, s);
    PushIntoLeaf(h0.markdownNode, h0.sourceRange, Plain(s));
    PushIntoLast(acc, h0, Plain(s), node);
    StepSkip(acc + [node], e, pos + 2, None);
  }

  predicate HeadingsDocument(e: Events) {
    && |e| == 18
    && e[0] == (Cmark.Start(Cmark.Heading(Cmark.H1)), R(0, 12))
    && e[1] == (Cmark.Text("Heading 1"), R(2, 11))
    && e[2] == (Cmark.End(Cmark.EndHeading(Cmark.H1)), R(0, 12))
    && e[3] == (Cmark.Start(Cmark.Heading(Cmark.H2)), R(13, 26))
    && e[4] == (Cmark.Text("Heading 2"), R(16, 25))
    && e[5] == (Cmark.End(Cmark.EndHeading(Cmark.H2)), R(13, 26))
    && e[6] == (Cmark.Start(Cmark.Heading(Cmark.H3)), R(27, 41))
    && e[7] == (Cmark.Text("Heading 3"), R(31, 40))
    && e[8] == (Cmark.End(Cmark.EndHeading(Cmark.H3)), R(27, 41))
    && e[9] == (Cmark.Start(Cmark.Heading(Cmark.H4)), R(42, 57))
    && e[10] == (Cmark.Text("Heading 4"), R(47, 56))
    && e[11] == (Cmark.End(Cmark.EndHeading(Cmark.H4)), R(42, 57))
    && e[12] == (Cmark.Start(Cmark.Heading(Cmark.H5)), R(58, 74))
    && e[13] == (Cmark.Text("Heading 5"), R(64, 73))
    && e[14] == (Cmark.End(Cmark.EndHeading(Cmark.H5)), R(58, 74))
    && e[15] == (Cmark.Start(Cmark.Heading(Cmark.H6)), R(75, 92))
    && e[16] == (Cmark.Text("Heading 6"), R(82, 91))
    && e[17] == (Cmark.End(Cmark.EndHeading(Cmark.H6)), R(75, 92))
  }

  lemma HeadingsOneTwo(e: Events)
    requires HeadingsDocument(e)
    ensures Level([], e, 0, None)
         == Level([ Node(Heading(H1, [Plain("Heading 1")]), R(0, 12)),
                    Node(Heading(H2, [Plain("Heading 2")]), R(13, 26)) ], e, 6, None)
  {
    var h1 := Node(Heading(H1, [Plain("Heading 1")]), R(0, 12));
    var h2 := Node(Heading(H2, [Plain("Heading 2")]), R(13, 26));
    assert [] + [h1] == [h1] && [h1] + [h2] == [h1, h2];
    StepHeading([], e, 0, Cmark.H1, "Heading 1", h1);
    StepHeading([h1], e, 3, Cmark.H2, "Heading 2", h2);
  }

  lemma HeadingsThreeFour(e: Events)
    requires HeadingsDocument(e)
    ensures Level([Node(Heading(H1, [Plain("Heading 1")]), R(0, 12)), Node(Heading(H2, [Plain("Heading 2")]), R(13, 26))], e, 6, None)
         == Level([ Node(Heading(H1, [Plain("Heading 1")]), R(0, 12)),
                    Node(Heading(H2, [Plain("Heading 2")]), R(13, 26)),
                    Node(Heading(H3, [Plain("Heading 3")]), R(27, 41)),
                    Node(Heading(H4, [Plain("Heading 4")]), R(42, 57)) ], e, 12, None)
  {
    var h1 := Node(Heading(H1, [Plain("Heading 1")]), R(0, 12));
    var h2 := Node(Heading(H2, [Plain("Heading 2")]), R(13, 26));
    var h3 := Node(Heading(H3, [Plain("Heading 3")]), R(27, 41));
    var h4 := Node(Heading(H4, [Plain("Heading 4")]), R(42, 57));
    assert [h1, h2] + [h3] == [h1, h2, h3] && [h1, h2, h3] + [h4] == [h1, h2, h3, h4];
    StepHeading([h1, h2], e, 6, Cmark.H3, "Heading 3", h3);
    StepHeading([h1, h2, h3], e, 9, Cmark.H4, "Heading 4", h4);
  }

  lemma HeadingsFiveSix(e: Events)
    requires HeadingsDocument(e)
    ensures Level([Node(Heading(H1, [Plain("Heading 1")]), R(0, 12)), Node(Heading(H2, [Plain("Heading 2")]), R(13, 26)), Node(Heading(H3, [Plain("Heading 3")]), R(27, 41)), Node(Heading(H4, [Plain("Heading 4")]), R(42, 57))], e, 12, None)
         == Level([ Node(Heading(H1, [Plain("Heading 1")]), R(0, 12)),
                    Node(Heading(H2, [Plain("Heading 2")]), R(13, 26)),
                    Node(Heading(H3, [Plain("Heading 3")]), R(27, 41)),
                    Node(Heading(H4, [Plain("Heading 4")]), R(42, 57)),
                    Node(Heading(H5, [Plain("Heading 5")]), R(58, 74)),
                    Node(Heading(H6, [Plain("Heading 6")]), R(75, 92)) ], e, 18, None)
  {
    var h1 := Node(Heading(H1, [Plain("Heading 1")]), R(0, 12));
    var h2 := Node(Heading(H2, [Plain("Heading 2")]), R(13, 26));
    var h3 := Node(Heading(H3, [Plain("Heading 3")]), R(27, 41));
    var h4 := Node(Heading(H4, [Plain("Heading 4")]), R(42, 57));
    var h5 := Node(Heading(H5, [Plain("Heading 5")]), R(58, 74));
    var h6 := Node(Heading(H6, [Plain("Heading 6")]), R(75, 92));
    assert [h1, h2, h3, h4] + [h5] == [h1, h2, h3, h4, h5] && [h1, h2, h3, h4, h5] + [h6] == [h1, h2, h3, h4, h5, h6];
    StepHeading([h1, h2, h3, h4], e, 12, Cmark.H5, "Heading 5", h5);
    StepHeading([h1, h2, h3, h4, h5], e, 15, Cmark.H6, "Heading 6", h6);
  }

  /** Each level maps to its own, and each heading's range runs to the end of its line. */
  lemma HeadingsDocumentParse(e: Events)
    requires HeadingsDocument(e)
    ensures FromEvents(e) ==
      [ Node(Heading(H1, [Plain("Heading 1")]), R(0, 12)),
        Node(Heading(H2, [Plain("Heading 2")]), R(13, 26)),
        Node(Heading(H3, [Plain("Heading 3")]), R(27, 41)),
        Node(Heading(H4, [Plain("Heading 4")]), R(42, 57)),
        Node(Heading(H5, [Plain("Heading 5")]), R(58, 74)),
        Node(Heading(H6, [Plain("Heading 6")]), R(75, 92)) ]
  {
    HeadingsOneTwo(e);
    HeadingsThreeFour(e);
    HeadingsFiveSix(e);
    StepEnd([Node(Heading(H1, [Plain("Heading 1")]), R(0, 12)), Node(Heading(H2, [Plain("Heading 2")]), R(13, 26)), Node(Heading(H3, [Plain("Heading 3")]), R(27, 41)), Node(Heading(H4, [Plain("Heading 4")]), R(42, 57)), Node(Heading(H5, [Plain("Heading 5")]), R(58, 74)), Node(Heading(H6, [Plain("Heading 6")]), R(75, 92))], e, None);
  }

  // ---- A paragraph with inline markup, then a quote holding a paragraph, nested quotes and a list ----

  const Engelbart: string := "Human beings face ever more complex and urgent problems, and their effectiveness in dealing with these problems is a matter that is critical to the stability and continued progress of society."

  const Quote: Cmark.Tag := Cmark.BlockQuote(None)

  const Bullets: Cmark.Tag := Cmark.List(None)

  /** The events for the document below, with `quote` standing for the long quoted sentence
      (the builder never looks inside a text):
      `"You _can_ quote text by adding a \`>\` symbols before the text.\n> " + quote + "\n> > > Deep Quote\n>\n> - Doug Engelbart, 1961\n"`. */
  predicate QuotesDocument(e: Events, quote: string) {
    && |e| == 26
    && e[0] == (Cmark.Start(Cmark.Paragraph), R(0, 62))
    && e[1] == (Cmark.Text("You "), R(0, 4))
    && e[2] == (Cmark.Start(Cmark.Emphasis), R(4, 9))
    && e[3] == (Cmark.Text("can"), R(5, 8))
    && e[4] == (Cmark.End(Cmark.EndEmphasis), R(4, 9))
    && e[5] == (Cmark.Text(" quote text by adding a "), R(9, 33))
    && e[6] == (Cmark.Code(">"), R(33, 36))
    && e[7] == (Cmark.Text(" symbols before the text."), R(36, 61))
    && e[8] == (Cmark.End(Cmark.EndParagraph), R(0, 62))
    && e[9] == (Cmark.Start(Quote), R(62, 301))
    && e[10] == (Cmark.Start(Cmark.Paragraph), R(64, 257))
    && e[11] == (Cmark.Text(quote), R(64, 256))
    && e[12] == (Cmark.End(Cmark.EndParagraph), R(64, 257))
    && e[13] == (Cmark.Start(Quote), R(259, 274))
    && e[14] == (Cmark.Start(Quote), R(261, 274))
    && e[15] == (Cmark.Start(Cmark.Paragraph), R(263, 274))
    && e[16] == (Cmark.Text("Deep Quote"), R(263, 273))
    && e[17] == (Cmark.End(Cmark.EndParagraph), R(263, 274))
    && e[18] == (Cmark.End(Cmark.EndBlockQuote(None)), R(261, 274))
    && e[19] == (Cmark.End(Cmark.EndBlockQuote(None)), R(259, 274))
    && e[20] == (Cmark.Start(Bullets), R(278, 301))
    && e[21] == (Cmark.Start(Cmark.Item), R(278, 301))
    && e[22] == (Cmark.Text("Doug Engelbart, 1961"), R(280, 300))
    && e[23] == (Cmark.End(Cmark.EndItem), R(278, 301))
    && e[24] == (Cmark.End(Cmark.EndList(false)), R(278, 301))
    && e[25] == (Cmark.End(Cmark.EndBlockQuote(None)), R(62, 301))
  }

  /** The inner quote of `"> > Deep Quote"`: its own end event closes it, the paragraph's does not. */
  lemma DeepQuoteLevel(e: Events, quote: string)
    requires QuotesDocument(e, quote)
    ensures Level([], e, 14, Some(Quote))
         == Parsed([Node(BlockQuote(None, [Node(Paragraph([Plain("Deep Quote")]), R(263, 274))]), R(261, 274))], 20)
  {
    var p0, p := Node(Paragraph([]), R(263, 274)), Node(Paragraph([Plain("Deep Quote")]), R(263, 274));
    var deep := Node(BlockQuote(None, [p]), R(261, 274));
    StepOpen([], e, 15, Some(Quote), p0, 16);
    StepText([p0], e, 16, Some(Quote), "Deep Quote");
    PushIntoLeaf(p0.markdownNode, p0.sourceRange, Plain("Deep Quote"));
    PushIntoLast([], p0, Plain("Deep Quote"), p);
    StepSkip([p], e, 17, Some(Quote));
    StepClose([p], e, 18, Some(Quote));
    assert [] + [p0] == [p0];
    StepOpen([], e, 14, Some(Quote), deep, 19);
    StepClose([deep], e, 19, Some(Quote));
    assert [] + [deep] == [deep];
  }

  /** The tight list of `"> - Doug Engelbart, 1961"`: the item's end event does not close the list. */
  lemma QuotedListLevel(e: Events, quote: string)
    requires QuotesDocument(e, quote)
    ensures Level([], e, 21, Some(Bullets))
         == Parsed([Node(Item([Plain("Doug Engelbart, 1961")]), R(278, 301))], 25)
  {
    var i0, i := Node(Item([]), R(278, 301)), Node(Item([Plain("Doug Engelbart, 1961")]), R(278, 301));
    StepOpen([], e, 21, Some(Bullets), i0, 22);
    StepText([i0], e, 22, Some(Bullets), "Doug Engelbart, 1961");
    PushIntoLeaf(i0.markdownNode, i0.sourceRange, Plain("Doug Engelbart, 1961"));
    PushIntoLast([], i0, Plain("Doug Engelbart, 1961"), i);
    StepSkip([i], e, 23, Some(Bullets));
    StepClose([i], e, 24, Some(Bullets));
    assert [] + [i0] == [i0];
  }

  /** The outer quote's children: the paragraph, the doubly nested quote and the list. */
  lemma OuterQuoteLevel(e: Events, quote: string)
    requires QuotesDocument(e, quote)
    ensures Level([], e, 10, Some(Quote))
         == Parsed([ Node(Paragraph([Plain(quote)]), R(64, 257)),
                     Node(BlockQuote(None, [Node(BlockQuote(None, [Node(Paragraph([Plain("Deep Quote")]), R(263, 274))]), R(261, 274))]), R(259, 274)),
                     Node(List(ListKind.Unordered, [Node(Item([Plain("Doug Engelbart, 1961")]), R(278, 301))]), R(278, 301)) ], 26)
  {
    var p0, p := Node(Paragraph([]), R(64, 257)), Node(Paragraph([Plain(quote)]), R(64, 257));
    var deep := Node(BlockQuote(None, [Node(Paragraph([Plain("Deep Quote")]), R(263, 274))]), R(261, 274));
    var nested := Node(BlockQuote(None, [deep]), R(259, 274));
    var list := Node(List(ListKind.Unordered, [Node(Item([Plain("Doug Engelbart, 1961")]), R(278, 301))]), R(278, 301));
    StepOpen([], e, 10, Some(Quote), p0, 11);
    StepText([p0], e, 11, Some(Quote), quote);
    PushIntoLeaf(p0.markdownNode, p0.sourceRange, Plain(quote));
    PushIntoLast([], p0, Plain(quote), p);
    StepSkip([p], e, 12, Some(Quote));
    DeepQuoteLevel(e, quote);
    StepOpen([p], e, 13, Some(Quote), nested, 20);
    QuotedListLevel(e, quote);
    StepOpen([p, nested], e, 20, Some(Quote), list, 25);
    StepClose([p, nested, list], e, 25, Some(Quote));
    assert [] + [p0] == [p0];
  }

  /** The paragraph up to its emphasis: emphasis opens no node, so its text joins the paragraph
      unstyled. */
  lemma QuotesParagraphStart(e: Events, quote: string)
    requires QuotesDocument(e, quote)
    ensures Level([], e, 0, None) == Level([Node(Paragraph([Plain("You "), Plain("can")]), R(0, 62))], e, 5, None)
  {
    var t1, t2 := Plain("You "), Plain("can");
    var p0 := Node(Paragraph([]), R(0, 62));
    var p1 := Node(Paragraph([t1]), R(0, 62));
    var p2 := Node(Paragraph([t1, t2]), R(0, 62));
    assert [] + [p0] == [p0] && [t1] + [t2] == [t1, t2];
    StepOpen([], e, 0, None, p0, 1);
    StepText([p0], e, 1, None, "You ");
    PushIntoLeaf(p0.markdownNode, p0.sourceRange, t1);
    PushIntoLast([], p0, t1, p1);
    StepDrop([p1], e, 2, None);
    StepText([p1], e, 3, None, "can");
    PushIntoLast([], p1, t2, p2);
    StepSkip([p2], e, 4, None);
  }

  /** The rest of the paragraph: the code span joins it with the code style. */
  lemma QuotesParagraph(e: Events, quote: string)
    requires QuotesDocument(e, quote)
    ensures Level([], e, 0, None)
         == Level([Node(Paragraph([Plain("You "), Plain("can"), Plain(" quote text by adding a "),
                                   TextNode(">", Some(Style.Code)), Plain(" symbols before the text.")]), R(0, 62))], e, 9, None)
  {
    var t1, t2, t3 := Plain("You "), Plain("can"), Plain(" quote text by adding a ");
    var t4, t5 := TextNode(">", Some(Style.Code)), Plain(" symbols before the text.");
    var p2 := Node(Paragraph([t1, t2]), R(0, 62));
    var p3 := Node(Paragraph([t1, t2, t3]), R(0, 62));
    var p4 := Node(Paragraph([t1, t2, t3, t4]), R(0, 62));
    var p5 := Node(Paragraph([t1, t2, t3, t4, t5]), R(0, 62));
    assert [t1, t2] + [t3] == [t1, t2, t3];
    assert [t1, t2, t3] + [t4] == [t1, t2, t3, t4] && [t1, t2, t3, t4] + [t5] == [t1, t2, t3, t4, t5];
    QuotesParagraphStart(e, quote);
    StepText([p2], e, 5, None, " quote text by adding a ");
    PushIntoLast([], p2, t3, p3);
    StepCode([p3], e, 6, None, ">");
    PushIntoLast([], p3, t4, p4);
    StepText([p4], e, 7, None, " symbols before the text.");
    PushIntoLast([], p4, t5, p5);
    StepSkip([p5], e, 8, None);
  }

  /** Block quotes nest by recursion, each closed by its own end event, and each node keeps the
      range of its open event. */
  lemma QuotesDocumentParse(e: Events)
    requires QuotesDocument(e, Engelbart)
    ensures FromEvents(e) ==
      [ Node(Paragraph([Plain("You "), Plain("can"), Plain(" quote text by adding a "),
                        TextNode(">", Some(Style.Code)), Plain(" symbols before the text.")]), R(0, 62)),
        Node(BlockQuote(None,
          [ Node(Paragraph([Plain(Engelbart)]), R(64, 257)),
            Node(BlockQuote(None, [Node(BlockQuote(None, [Node(Paragraph([Plain("Deep Quote")]), R(263, 274))]), R(261, 274))]), R(259, 274)),
            Node(List(ListKind.Unordered, [Node(Item([Plain("Doug Engelbart, 1961")]), R(278, 301))]), R(278, 301)) ]), R(62, 301)) ]
  {
    var para := Node(Paragraph([Plain("You "), Plain("can"), Plain(" quote text by adding a "),
                                TextNode(">", Some(Style.Code)), Plain(" symbols before the text.")]), R(0, 62));
    var quote := Node(BlockQuote(None,
      [ Node(Paragraph([Plain(Engelbart)]), R(64, 257)),
        Node(BlockQuote(None, [Node(BlockQuote(None, [Node(Paragraph([Plain("Deep Quote")]), R(263, 274))]), R(261, 274))]), R(259, 274)),
        Node(List(ListKind.Unordered, [Node(Item([Plain("Doug Engelbart, 1961")]), R(278, 301))]), R(278, 301)) ]), R(62, 301));
    QuotesParagraph(e, Engelbart);
    OuterQuoteLevel(e, Engelbart);
    StepOpen([para], e, 9, None, quote, 26);
    StepEnd([para, quote], e, None);
  }
}
