/** The flat builder's documented examples and test documents as the event streams the tokenizer reports for them
    (without ranges: this builder reads the plain event stream), with the nodes the builder is
    expected to return. Each lemma follows the parser state through a stretch of the stream. */
module CoreMarkdownFixtures {
  import opened Wrappers
  import Cmark
  import opened CoreMarkdown
  import opened CoreMarkdownFacts

  function Plain(s: string): TextNode {
    TextNode(s, None)
  }

  lemma PushIntoQuote(kind: Option<BlockQuoteKind>, init: seq<Node>, last: Node, t: TextNode, pushed: Node)
    requires last.PushTextNode(t) == pushed
    ensures BlockQuote(kind, init + [last]).PushTextNode(t) == BlockQuote(kind, init + [pushed])
  {
    assert (init + [last])[..|init|] == init;
  }

  /** The tokenizer's events for the loose task list `"## Tasks\n\n- [ ] Task\n\n- [x] Completed task\n\n- [?] Completed task\n"`; in a loose list the marker comes after the start of the item's paragraph. */
  predicate TasksDocument(e: seq<Cmark.Event>) {
    && |e| == 22
    && e[0] == Cmark.Start(Cmark.Heading(Cmark.H2))
    && e[1] == Cmark.Text("Tasks")
    && e[2] == Cmark.End(Cmark.EndHeading(Cmark.H2))
    && e[3] == Cmark.Start(Cmark.List(None))
    && e[4] == Cmark.Start(Cmark.Item)
    && e[5] == Cmark.Start(Cmark.Paragraph)
    && e[6] == Cmark.TaskListMarker(false)
    && e[7] == Cmark.Text("Task")
    && e[8] == Cmark.End(Cmark.EndParagraph)
    && e[9] == Cmark.End(Cmark.EndItem)
    && e[10] == Cmark.Start(Cmark.Item)
    && e[11] == Cmark.Start(Cmark.Paragraph)
    && e[12] == Cmark.TaskListMarker(true)
    && e[13] == Cmark.Text("Completed task")
    && e[14] == Cmark.End(Cmark.EndParagraph)
    && e[15] == Cmark.End(Cmark.EndItem)
    && e[16] == Cmark.Start(Cmark.Item)
    && e[17] == Cmark.Start(Cmark.Paragraph)
    && e[18] == Cmark.Text("[?] Completed task")
    && e[19] == Cmark.End(Cmark.EndParagraph)
    && e[20] == Cmark.End(Cmark.EndItem)
    && e[21] == Cmark.End(Cmark.EndList(false))
  }

  lemma TasksDocumentA(e: seq<Cmark.Event>)
    requires TasksDocument(e)
    ensures Run(ParserState([], None), e[..8]) ==
      ParserState([Heading(H2, [Plain("Tasks")])], Some(Item(Some(Unchecked), [Plain("Task")])))
  {
    var heading := Heading(H2, [Plain("Tasks")]);
    var todo := Item(Some(Unchecked), [Plain("Task")]);
    var s := ParserState([], None);
    assert e[..0] == [];
    RunStep(s, e, 0);
    assert Run(s, e[..1]) == ParserState([], Some(Heading(H2, [])));
    RunStep(s, e, 1);
    assert [] + [Plain("Tasks")] == [Plain("Tasks")];
    assert Run(s, e[..2]) == ParserState([], Some(heading));
    RunStep(s, e, 2);
    assert Run(s, e[..3]) == ParserState([heading], None);
    RunStep(s, e, 3);
    assert Run(s, e[..4]) == ParserState([heading], Some(Paragraph([])));
    RunStep(s, e, 4);
    assert Run(s, e[..5]) == ParserState([heading], Some(Item(None, [])));
    RunStep(s, e, 5);
    assert Run(s, e[..6]) == ParserState([heading], Some(Paragraph([])));
    RunStep(s, e, 6);
    assert Run(s, e[..7]) == ParserState([heading], Some(Item(Some(Unchecked), [])));
    RunStep(s, e, 7);
    assert [] + [Plain("Task")] == [Plain("Task")];
    assert Run(s, e[..8]) == ParserState([heading], Some(todo));
  }

  lemma TasksDocumentB(e: seq<Cmark.Event>)
    requires TasksDocument(e)
    ensures Run(ParserState([], None), e[..16]) ==
      ParserState([Heading(H2, [Plain("Tasks")]), Item(Some(Unchecked), [Plain("Task")]), Item(Some(HardChecked), [Plain("Completed task")])], None)
  {
    var heading := Heading(H2, [Plain("Tasks")]);
    var todo := Item(Some(Unchecked), [Plain("Task")]);
    var done := Item(Some(HardChecked), [Plain("Completed task")]);
    var s := ParserState([], None);
    TasksDocumentA(e);
    RunStep(s, e, 8);
    assert Run(s, e[..9]) == ParserState([heading], Some(todo));
    RunStep(s, e, 9);
    assert Run(s, e[..10]) == ParserState([heading, todo], None);
    RunStep(s, e, 10);
    assert Run(s, e[..11]) == ParserState([heading, todo], Some(Item(None, [])));
    RunStep(s, e, 11);
    assert Run(s, e[..12]) == ParserState([heading, todo], Some(Paragraph([])));
    RunStep(s, e, 12);
    assert Run(s, e[..13]) == ParserState([heading, todo], Some(Item(Some(HardChecked), [])));
    RunStep(s, e, 13);
    assert [] + [Plain("Completed task")] == [Plain("Completed task")];
    assert Run(s, e[..14]) == ParserState([heading, todo], Some(done));
    RunStep(s, e, 14);
    assert Run(s, e[..15]) == ParserState([heading, todo], Some(done));
    RunStep(s, e, 15);
    assert Run(s, e[..16]) == ParserState([heading, todo, done], None);
  }

  lemma TasksDocumentC(e: seq<Cmark.Event>)
    requires TasksDocument(e)
    ensures Run(ParserState([], None), e[..22]) ==
      ParserState([Heading(H2, [Plain("Tasks")]), Item(Some(Unchecked), [Plain("Task")]), Item(Some(HardChecked), [Plain("Completed task")]), Paragraph([Plain("[?] Completed task")])], None)
  {
    var heading := Heading(H2, [Plain("Tasks")]);
    var todo := Item(Some(Unchecked), [Plain("Task")]);
    var done := Item(Some(HardChecked), [Plain("Completed task")]);
    var other := Paragraph([Plain("[?] Completed task")]);
    var s := ParserState([], None);
    TasksDocumentB(e);
    RunStep(s, e, 16);
    assert Run(s, e[..17]) == ParserState([heading, todo, done], Some(Item(None, [])));
    RunStep(s, e, 17);
    assert Run(s, e[..18]) == ParserState([heading, todo, done], Some(Paragraph([])));
    RunStep(s, e, 18);
    assert [] + [Plain("[?] Completed task")] == [Plain("[?] Completed task")];
    assert Run(s, e[..19]) == ParserState([heading, todo, done], Some(other));
    RunStep(s, e, 19);
    assert Run(s, e[..20]) == ParserState([heading, todo, done, other], None);
    RunStep(s, e, 20);
    assert Run(s, e[..21]) == ParserState([heading, todo, done, other], None);
    RunStep(s, e, 21);
    assert Run(s, e[..22]) == ParserState([heading, todo, done, other], None);
  }

  /** A task marker turns the open paragraph into a task item; the unsupported `[?]` marker leaves
      a paragraph; the heading comes first. */
  lemma TasksDocumentParse(e: seq<Cmark.Event>)
    requires TasksDocument(e)
    ensures FromEvents(e) ==
      [ Heading(H2, [Plain("Tasks")]), Item(Some(Unchecked), [Plain("Task")]),
        Item(Some(HardChecked), [Plain("Completed task")]), Paragraph([Plain("[?] Completed task")]) ]
  {
    TasksDocumentC(e);
    assert e[..22] == e;
  }

  /** The tokenizer's events for the quote `"Paragraph\n\n> BlockQuote\n>\n> - List item in BlockQuote\n"`. */
  predicate QuoteDocument(e: seq<Cmark.Event>) {
    && |e| == 13
    && e[0] == Cmark.Start(Cmark.Paragraph)
    && e[1] == Cmark.Text("Paragraph")
    && e[2] == Cmark.End(Cmark.EndParagraph)
    && e[3] == Cmark.Start(Cmark.BlockQuote(None))
    && e[4] == Cmark.Start(Cmark.Paragraph)
    && e[5] == Cmark.Text("BlockQuote")
    && e[6] == Cmark.End(Cmark.EndParagraph)
    && e[7] == Cmark.Start(Cmark.List(None))
    && e[8] == Cmark.Start(Cmark.Item)
    && e[9] == Cmark.Text("List item in BlockQuote")
    && e[10] == Cmark.End(Cmark.EndItem)
    && e[11] == Cmark.End(Cmark.EndList(false))
    && e[12] == Cmark.End(Cmark.EndBlockQuote(None))
  }

  lemma QuoteDocumentA(e: seq<Cmark.Event>)
    requires QuoteDocument(e)
    ensures Run(ParserState([], None), e[..7]) ==
      ParserState([Paragraph([Plain("Paragraph")])], Some(BlockQuote(None, [Paragraph([Plain("BlockQuote")])])))
  {
    var para := Paragraph([Plain("Paragraph")]);
    var quoted := Paragraph([Plain("BlockQuote")]);
    var s := ParserState([], None);
    assert e[..0] == [];
    RunStep(s, e, 0);
    assert Run(s, e[..1]) == ParserState([], Some(Paragraph([])));
    RunStep(s, e, 1);
    assert [] + [Plain("Paragraph")] == [Plain("Paragraph")];
    assert Run(s, e[..2]) == ParserState([], Some(para));
    RunStep(s, e, 2);
    assert Run(s, e[..3]) == ParserState([para], None);
    RunStep(s, e, 3);
    assert Run(s, e[..4]) == ParserState([para], Some(BlockQuote(None, [])));
    RunStep(s, e, 4);
    assert [] + [Paragraph([])] == [Paragraph([])];
    assert Run(s, e[..5]) == ParserState([para], Some(BlockQuote(None, [Paragraph([])])));
    RunStep(s, e, 5);
    PushIntoQuote(None, [], Paragraph([]), Plain("BlockQuote"), quoted);
    assert [] + [Plain("BlockQuote")] == [Plain("BlockQuote")];
    assert [] + [Paragraph([])] == [Paragraph([])] && [] + [quoted] == [quoted];
    assert Run(s, e[..6]) == ParserState([para], Some(BlockQuote(None, [quoted])));
    RunStep(s, e, 6);
    assert Run(s, e[..7]) == ParserState([para], Some(BlockQuote(None, [quoted])));
  }

  lemma QuoteDocumentB(e: seq<Cmark.Event>)
    requires QuoteDocument(e)
    ensures Run(ParserState([], None), e[..10]) ==
      ParserState([Paragraph([Plain("Paragraph")])], Some(BlockQuote(None, [Paragraph([Plain("BlockQuote")]), Paragraph([]), Item(None, [Plain("List item in BlockQuote")])])))
  {
    var para := Paragraph([Plain("Paragraph")]);
    var quoted := Paragraph([Plain("BlockQuote")]);
    var listItem := Item(None, [Plain("List item in BlockQuote")]);
    var s := ParserState([], None);
    QuoteDocumentA(e);
    RunStep(s, e, 7);
    assert [quoted] + [Paragraph([])] == [quoted, Paragraph([])];
    assert Run(s, e[..8]) == ParserState([para], Some(BlockQuote(None, [quoted, Paragraph([])])));
    RunStep(s, e, 8);
    assert [quoted, Paragraph([])] + [Item(None, [])] == [quoted, Paragraph([]), Item(None, [])];
    assert Run(s, e[..9]) == ParserState([para], Some(BlockQuote(None, [quoted, Paragraph([]), Item(None, [])])));
    RunStep(s, e, 9);
    PushIntoQuote(None, [quoted, Paragraph([])], Item(None, []), Plain("List item in BlockQuote"), listItem);
    assert [] + [Plain("List item in BlockQuote")] == [Plain("List item in BlockQuote")];
    assert [quoted, Paragraph([])] + [Item(None, [])] == [quoted, Paragraph([]), Item(None, [])];
    assert [quoted, Paragraph([])] + [listItem] == [quoted, Paragraph([]), listItem];
    assert Run(s, e[..10]) == ParserState([para], Some(BlockQuote(None, [quoted, Paragraph([]), listItem])));
  }

  lemma QuoteDocumentC(e: seq<Cmark.Event>)
    requires QuoteDocument(e)
    ensures Run(ParserState([], None), e[..13]) ==
      ParserState([Paragraph([Plain("Paragraph")]), BlockQuote(None, [Paragraph([Plain("BlockQuote")]), Paragraph([]), Item(None, [Plain("List item in BlockQuote")])])], None)
  {
    var para := Paragraph([Plain("Paragraph")]);
    var quoted := Paragraph([Plain("BlockQuote")]);
    var listItem := Item(None, [Plain("List item in BlockQuote")]);
    var s := ParserState([], None);
    QuoteDocumentB(e);
    RunStep(s, e, 10);
    assert Run(s, e[..11]) == ParserState([para], Some(BlockQuote(None, [quoted, Paragraph([]), listItem])));
    RunStep(s, e, 11);
    assert Run(s, e[..12]) == ParserState([para], Some(BlockQuote(None, [quoted, Paragraph([]), listItem])));
    RunStep(s, e, 12);
    assert Run(s, e[..13]) == ParserState([para, BlockQuote(None, [quoted, Paragraph([]), listItem])], None);
  }

  /** Inside a quote every block becomes a child: the list start adds an empty paragraph before
      the item, and only the quote's own end event closes it. */
  lemma QuoteDocumentParse(e: seq<Cmark.Event>)
    requires QuoteDocument(e)
    ensures FromEvents(e) ==
      [ Paragraph([Plain("Paragraph")]),
        BlockQuote(None, [ Paragraph([Plain("BlockQuote")]), Paragraph([]),
                           Item(None, [Plain("List item in BlockQuote")]) ]) ]
  {
    QuoteDocumentC(e);
    assert e[..13] == e;
  }

  /** `"Hello world"`: one paragraph. */
  lemma HelloWorldParse(e: seq<Cmark.Event>)
    requires e == [Cmark.Start(Cmark.Paragraph), Cmark.Text("Hello world"), Cmark.End(Cmark.EndParagraph)]
    ensures FromEvents(e) == [Paragraph([Plain("Hello world")])]
  {
    assert e[..0] == [] && e[..3] == e;
    StepParagraph(ParserState([], None), e, 0, "Hello world", []);
    assert [] + [Paragraph([Plain("Hello world")])] == [Paragraph([Plain("Hello world")])];
  }

  /** A heading holding one run of text, met with no open node, is added to the output whole. */
  lemma StepHeading(s: ParserState, e: seq<Cmark.Event>, k: nat, level: Cmark.HeadingLevel, text: string,
                    out: seq<Node>, node: Node)
    requires k + 2 < |e| && Run(s, e[..k]) == ParserState(out, None)
    requires e[k] == Cmark.Start(Cmark.Heading(level))
    requires e[k + 1] == Cmark.Text(text)
    requires e[k + 2] == Cmark.End(Cmark.EndHeading(level))
    requires node == Heading(HeadingLevelFrom(level), [Plain(text)])
    ensures Run(s, e[..k + 3]) == ParserState(out + [node], None)
  {
    RunStep(s, e, k);
    RunStep(s, e, k + 1);
    assert [] + [Plain(text)] == [Plain(text)];
    RunStep(s, e, k + 2);
  }

  /** A paragraph holding one run of text, met with no open node, is added to the output whole. */
  lemma StepParagraph(s: ParserState, e: seq<Cmark.Event>, k: nat, text: string, out: seq<Node>)
    requires k + 2 < |e| && Run(s, e[..k]) == ParserState(out, None)
    requires e[k] == Cmark.Start(Cmark.Paragraph)
    requires e[k + 1] == Cmark.Text(text)
    requires e[k + 2] == Cmark.End(Cmark.EndParagraph)
    ensures Run(s, e[..k + 3]) == ParserState(out + [Paragraph([Plain(text)])], None)
  {
    RunStep(s, e, k);
    RunStep(s, e, k + 1);
    assert [] + [Plain(text)] == [Plain(text)];
    RunStep(s, e, k + 2);
  }

  /** The tokenizer's events for `"# My Heading\n\nSome text."`. */
  predicate HeadingDocument(e: seq<Cmark.Event>) {
    && |e| == 6
    && e[0] == Cmark.Start(Cmark.Heading(Cmark.H1))
    && e[1] == Cmark.Text("My Heading")
    && e[2] == Cmark.End(Cmark.EndHeading(Cmark.H1))
    && e[3] == Cmark.Start(Cmark.Paragraph)
    && e[4] == Cmark.Text("Some text.")
    && e[5] == Cmark.End(Cmark.EndParagraph)
  }

  lemma HeadingDocumentRun(e: seq<Cmark.Event>)
    requires HeadingDocument(e)
    ensures Run(ParserState([], None), e[..6]) ==
      ParserState([Heading(H1, [Plain("My Heading")]), Paragraph([Plain("Some text.")])], None)
  {
    var h := Heading(H1, [Plain("My Heading")]);
    var s := ParserState([], None);
    assert e[..0] == [] && [] + [h] == [h];
    StepHeading(s, e, 0, Cmark.H1, "My Heading", [], h);
    StepParagraph(s, e, 3, "Some text.", [h]);
  }

  /** The documented example: the heading, then the paragraph. */
  lemma HeadingDocumentParse(e: seq<Cmark.Event>)
    requires HeadingDocument(e)
    ensures FromEvents(e) == [Heading(H1, [Plain("My Heading")]), Paragraph([Plain("Some text.")])]
  {
    HeadingDocumentRun(e);
    assert e[..6] == e;
  }

  /** The tokenizer's events for `"# Heading 1\n\n## Heading 2\n\n ... ###### Heading 6\n"`. */
  predicate HeadingsDocument(e: seq<Cmark.Event>) {
    && |e| == 18
    && e[0] == Cmark.Start(Cmark.Heading(Cmark.H1))
    && e[1] == Cmark.Text("Heading 1")
    && e[2] == Cmark.End(Cmark.EndHeading(Cmark.H1))
    && e[3] == Cmark.Start(Cmark.Heading(Cmark.H2))
    && e[4] == Cmark.Text("Heading 2")
    && e[5] == Cmark.End(Cmark.EndHeading(Cmark.H2))
    && e[6] == Cmark.Start(Cmark.Heading(Cmark.H3))
    && e[7] == Cmark.Text("Heading 3")
    && e[8] == Cmark.End(Cmark.EndHeading(Cmark.H3))
    && e[9] == Cmark.Start(Cmark.Heading(Cmark.H4))
    && e[10] == Cmark.Text("Heading 4")
    && e[11] == Cmark.End(Cmark.EndHeading(Cmark.H4))
    && e[12] == Cmark.Start(Cmark.Heading(Cmark.H5))
    && e[13] == Cmark.Text("Heading 5")
    && e[14] == Cmark.End(Cmark.EndHeading(Cmark.H5))
    && e[15] == Cmark.Start(Cmark.Heading(Cmark.H6))
    && e[16] == Cmark.Text("Heading 6")
    && e[17] == Cmark.End(Cmark.EndHeading(Cmark.H6))
  }

  lemma HeadingsFirstThree(e: seq<Cmark.Event>)
    requires HeadingsDocument(e)
    ensures Run(ParserState([], None), e[..9]) == ParserState([ Heading(H1, [Plain("Heading 1")]), Heading(H2, [Plain("Heading 2")]), Heading(H3, [Plain("Heading 3")]) ], None)
  {
    var h1 := Heading(H1, [Plain("Heading 1")]);
    var h2 := Heading(H2, [Plain("Heading 2")]);
    var h3 := Heading(H3, [Plain("Heading 3")]);
    var s := ParserState([], None);
    assert e[..0] == [];
    assert [] + [h1] == [h1];
    StepHeading(s, e, 0, Cmark.H1, "Heading 1", [], h1);
    assert [h1] + [h2] == [h1, h2];
    StepHeading(s, e, 3, Cmark.H2, "Heading 2", [h1], h2);
    assert [h1, h2] + [h3] == [h1, h2, h3];
    StepHeading(s, e, 6, Cmark.H3, "Heading 3", [h1, h2], h3);
  }

  lemma HeadingsAll(e: seq<Cmark.Event>)
    requires HeadingsDocument(e)
    ensures Run(ParserState([], None), e[..18]) == ParserState([ Heading(H1, [Plain("Heading 1")]), Heading(H2, [Plain("Heading 2")]), Heading(H3, [Plain("Heading 3")]), Heading(H4, [Plain("Heading 4")]), Heading(H5, [Plain("Heading 5")]), Heading(H6, [Plain("Heading 6")]) ], None)
  {
    var h1 := Heading(H1, [Plain("Heading 1")]);
    var h2 := Heading(H2, [Plain("Heading 2")]);
    var h3 := Heading(H3, [Plain("Heading 3")]);
    var h4 := Heading(H4, [Plain("Heading 4")]);
    var h5 := Heading(H5, [Plain("Heading 5")]);
    var h6 := Heading(H6, [Plain("Heading 6")]);
    var s := ParserState([], None);
    HeadingsFirstThree(e);
    assert [h1, h2, h3] + [h4] == [h1, h2, h3, h4];
    StepHeading(s, e, 9, Cmark.H4, "Heading 4", [h1, h2, h3], h4);
    assert [h1, h2, h3, h4] + [h5] == [h1, h2, h3, h4, h5];
    StepHeading(s, e, 12, Cmark.H5, "Heading 5", [h1, h2, h3, h4], h5);
    assert [h1, h2, h3, h4, h5] + [h6] == [h1, h2, h3, h4, h5, h6];
    StepHeading(s, e, 15, Cmark.H6, "Heading 6", [h1, h2, h3, h4, h5], h6);
  }

  /** Each heading closes itself, so the six arrive in order with their own levels. */
  lemma HeadingsDocumentParse(e: seq<Cmark.Event>)
    requires HeadingsDocument(e)
    ensures FromEvents(e) ==
      [ Heading(H1, [Plain("Heading 1")]),
        Heading(H2, [Plain("Heading 2")]),
        Heading(H3, [Plain("Heading 3")]),
        Heading(H4, [Plain("Heading 4")]),
        Heading(H5, [Plain("Heading 5")]),
        Heading(H6, [Plain("Heading 6")]) ]
  {
    HeadingsAll(e);
    assert e[..18] == e;
  }
}
