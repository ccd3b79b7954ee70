# basalt, modelled in Dafny

basalt is a terminal interface for Obsidian vaults. This project models the parts of it that hold logic, and proves properties of that model:

- the two markdown tree builders (`basalt/src/markdown/parser.rs` and the older one in `basalt-core/src/markdown.rs`), which turn a stream of tokenizer events into nodes;
- the heading outline (`basalt/src/outline/`): the tree built from the headings, its flattening, its lookup by node index, and expanding, collapsing and toggling;
- the file explorer (`basalt/src/explorer/`): sorting with directories first, the depth-annotated flattening, toggling directories, selection and the scroll offset; also the note lookup of `basalt-core/src/obsidian/vault_entry.rs`;
- key bindings (`basalt/src/config/key_binding.rs`): parsing, printing and commands; and the configuration merge with its precedence order (`basalt/src/config.rs`);
- word and character counts (`basalt/src/text_counts.rs`) and the Unicode styler (`basalt/src/stylized_text.rs`);
- the note editor's state (`basalt/src/note_editor/state.rs`): moving between nodes, deleting, and splicing the edited node back into the note;
- the help modal, the vault selector and its modal, the side panel and the markdown view's scroll state.

The model follows the source's own form:

- Code that returns new values (`self -> Self` updates, recursive maps, match tables) is written as datatypes and functions.
- The loops of the two tree builders and of the outline builder are written as methods, proved equal to a specification function.
- The older builder's `Parser`, the configuration sections and the note editor's `EditorState` change their fields in place, so they are classes. Each method states its whole new state as a function of the old one.
- The properties are lemmas about those functions.

Each module is one source file. The helpers are:

| module | holds |
|---|---|
| `Wrappers` | option and result types |
| `Strings` | line splitting, joining, ASCII lower case and ordering |
| `Usize` | saturating and wrapping arithmetic of a 64-bit `usize` |
| `ListSelection`, `Scrollbars` | the parts of the terminal library's list and scrollbar state that the widgets use |
| `Cmark` | the tokenizer's event vocabulary |
| `MarkdownAst` | the node types |

The tokenizer, the terminal library and the editor's markdown parser are inputs: events, states and a `parse` function parameter. They are not modelled.

## Model

| member | source | states |
|---|---|---|
| `MarkdownAst.HeadingLevelFrom` | basalt/src/markdown/parser.rs:108-119 | the converted heading level has the tokenizer level's depth |
| `MarkdownAst.BlockQuoteKindFrom` | basalt/src/markdown/parser.rs:135-146 | the converted block quote kind has the tokenizer kind's name |
| `MarkdownAst.TextNodeFrom` | basalt/src/markdown/parser.rs:170-183 | a text node made from a string holds that string, unstyled |
| `MarkdownAst.TextFrom` | basalt/src/markdown/parser.rs:196-200 | a text made from a string is the single unstyled node of that string |
| `MarkdownAst.ConversionsInjective` | basalt/src/markdown/parser.rs:108-146 | distinct tokenizer levels and distinct quote kinds convert to distinct values |
| `MarkdownParser.MatchesTagEnd` | basalt/src/markdown/parser.rs:373-383 | only the six supported tags close, and a list or block quote only by its own end |
| `MarkdownParser.PushTextNode` | basalt/src/markdown/parser.rs:301-314 | pushing text keeps the node's range, and changes nothing in a container with no leaf at its end |
| `MarkdownParser.PushLast` | basalt/src/markdown/parser.rs:557-566 | a text or code event changes only the last node of the level, by pushing the text into it |
| `MarkdownParser.MarkLast` | basalt/src/markdown/parser.rs:567-589 | a task marker replaces only the last node, by an empty task item of the marker's kind with the same range |
| `MarkdownParser.Level` | basalt/src/markdown/parser.rs:539-605 | a level consumes events forward and stops only at the stream's end or right after the end event that closes it |
| `MarkdownParser.Consume` | basalt/src/markdown/parser.rs:542-601 | one round of the loop consumes at least one event |
| `MarkdownParser.TagToNode` | basalt/src/markdown/parser.rs:468-537 | a node exactly for the six supported tags, with the event's range; lists and quotes hold the nested level, the others empty text; list kind, quote kind and heading level carried over |
| `MarkdownParser.ParseEvents` | basalt/src/markdown/parser.rs:539-605 | the loop returns the nodes and position of the level specification |
| `MarkdownParser.ParseTag` | basalt/src/markdown/parser.rs:468-537 | the node and position of the tag specification |
| `MarkdownParser.Parse` | basalt/src/markdown/parser.rs:627-629 | the parse is the top level of the event stream |
| `MarkdownParserFacts.StartRangesSplit` | basalt/src/markdown/parser.rs:539-605 | the ranges of open events of adjacent stretches of the stream concatenate |
| `MarkdownParserFacts.PushTextNodeRanges` | basalt/src/markdown/parser.rs:301-314 | pushing text changes no range in the tree |
| `MarkdownParserFacts.PushLastRanges` | basalt/src/markdown/parser.rs:557-566 | pushing text into a level changes no range |
| `MarkdownParserFacts.LevelRanges` | basalt/src/markdown/parser.rs:539-605 | without task markers a level adds exactly the ranges of the supported open events it consumed, in order |
| `MarkdownParserFacts.ConsumeRanges` | basalt/src/markdown/parser.rs:542-601 | one round adds exactly the ranges of the supported open events it consumed |
| `MarkdownParserFacts.TagRanges` | basalt/src/markdown/parser.rs:468-537 | the node of a tag has the tag's range followed by those of the nested open events; an unsupported tag consumes nothing |
| `MarkdownParserFacts.FromEventsRanges` | basalt/src/markdown/parser.rs:413-415 | without task markers the tree's ranges, in pre-order, are those of the supported open events |
| `MarkdownParserFacts.DropIgnoredPrefix` | basalt/src/markdown/parser.rs:590-600 | removing ignored events is monotone in the prefix |
| `MarkdownParserFacts.KeptStep` | basalt/src/markdown/parser.rs:590-600 | the position map between a stream and the stream without ignored events advances exactly on kept events |
| `MarkdownParserFacts.KeptEnds` | basalt/src/markdown/parser.rs:590-600 | the position map sends the start to the start and the end to the end |
| `MarkdownParserFacts.LevelDropIgnored` | basalt/src/markdown/parser.rs:539-605 | a level over the stream without ignored events gives the same nodes and the corresponding position |
| `MarkdownParserFacts.ConsumeDropIgnored` | basalt/src/markdown/parser.rs:542-601 | the same for one round of the loop |
| `MarkdownParserFacts.TagDropIgnored` | basalt/src/markdown/parser.rs:468-537 | the same for a tag's node |
| `MarkdownParserFacts.FromEventsDropIgnored` | basalt/src/markdown/parser.rs:590-600 | removing math, HTML, breaks, rules and footnote references from a stream does not change its parse |
| `MarkdownParserFacts.DropAllIgnored` | basalt/src/markdown/parser.rs:590-600 | a stream of ignored events only is removed entirely |
| `MarkdownParserFacts.OnlyIgnoredEvents` | basalt/src/markdown/parser.rs:590-604 | a stream of ignored events only parses to no nodes |
| `MarkdownParserFacts.PushTextNodeEffect` | basalt/src/markdown/parser.rs:301-314 | pushing text keeps the tree's shape and appends the text at the end of its text exactly when there is a leaf to take it |
| `MarkdownParserFacts.PushLastEffect` | basalt/src/markdown/parser.rs:557-566 | a text event keeps the level's shape and appends to the text at its very end |
| `MarkdownParserFixtures.StepOpen` | basalt/src/markdown/parser.rs:545-549 | an open event with a node pushes that node and goes on after its nested level |
| `MarkdownParserFixtures.StepText` | basalt/src/markdown/parser.rs:557-561 | a text event pushes the text into the last node |
| `MarkdownParserFixtures.StepCode` | basalt/src/markdown/parser.rs:562-566 | a code event pushes the code, in the code style, into the last node |
| `MarkdownParserFixtures.StepDrop` | basalt/src/markdown/parser.rs:544-548 | an open event for a tag without a node adds nothing |
| `MarkdownParserFixtures.StepSkip` | basalt/src/markdown/parser.rs:550-556 | an end event that does not close the level, or an ignored event, is skipped |
| `MarkdownParserFixtures.StepMark` | basalt/src/markdown/parser.rs:567-589 | a task marker replaces the last node |
| `MarkdownParserFixtures.StepClose` | basalt/src/markdown/parser.rs:550-556 | the closing end event ends the level right after it |
| `MarkdownParserFixtures.StepEnd` | basalt/src/markdown/parser.rs:604 | at the end of the stream the level ends with its nodes |
| `MarkdownParserFixtures.PushIntoLast` | basalt/src/markdown/parser.rs:558-560 | pushing into a level pushes into its last node |
| `MarkdownParserFixtures.MarkIntoLast` | basalt/src/markdown/parser.rs:568-587 | marking a level replaces its last node by the empty task item |
| `MarkdownParserFixtures.PushIntoLeaf` | basalt/src/markdown/parser.rs:303-307 | text pushed into an empty leaf becomes its only text node |
| `MarkdownParserFixtures.HeadingDocumentParse` | basalt/src/markdown/parser.rs:392-412 | the documented `# My Heading` example parses to the heading 0..13 and the paragraph 14..24 |
| `MarkdownParserFixtures.TaskListFirst` | basalt/src/markdown/parser.rs:736-748 | the first item of the task list test becomes the unchecked task 0..11 |
| `MarkdownParserFixtures.TaskListTasks` | basalt/src/markdown/parser.rs:736-748 | the second item becomes the checked task 11..32 |
| `MarkdownParserFixtures.TaskListItems` | basalt/src/markdown/parser.rs:736-748 | the list level of the test holds the two tasks and the plain `[?]` item 32..53 |
| `MarkdownParserFixtures.TaskListDocumentParse` | basalt/src/markdown/parser.rs:736-748 | the test's task list parses to the expected unordered list 0..53 |
| `MarkdownParserFixtures.HelloWorldParse` | basalt/src/markdown/parser.rs:611-625 | the documented `Hello world` example parses to the one paragraph 0..11 |
| `MarkdownParserFixtures.StepHeading` | basalt/src/markdown/parser.rs:544-560 | a top-level heading with one text event becomes one heading node with its open event's range |
| `MarkdownParserFixtures.HeadingsOneTwo` | basalt/src/markdown/parser.rs:712-732 | the first two headings of the six-heading test, 0..12 and 13..26 |
| `MarkdownParserFixtures.HeadingsThreeFour` | basalt/src/markdown/parser.rs:712-732 | the third and fourth headings, 27..41 and 42..57 |
| `MarkdownParserFixtures.HeadingsFiveSix` | basalt/src/markdown/parser.rs:712-732 | the fifth and sixth headings, 58..74 and 75..92 |
| `MarkdownParserFixtures.HeadingsDocumentParse` | basalt/src/markdown/parser.rs:712-732 | the six-heading test parses to the six headings, levels 1 to 6, with their ranges |
| `MarkdownParserFixtures.DeepQuoteLevel` | basalt/src/markdown/parser.rs:751-784 | the innermost quote of the block-quote test holds the paragraph 263..274 |
| `MarkdownParserFixtures.QuotedListLevel` | basalt/src/markdown/parser.rs:751-784 | the quoted list holds the one item 278..301 |
| `MarkdownParserFixtures.OuterQuoteLevel` | basalt/src/markdown/parser.rs:751-784 | the outer quote holds the paragraph, the doubly nested quote 259..274 and the list |
| `MarkdownParserFixtures.QuotesParagraphStart` | basalt/src/markdown/parser.rs:751-784 | the emphasis adds no node, so its text joins the paragraph unstyled |
| `MarkdownParserFixtures.QuotesParagraph` | basalt/src/markdown/parser.rs:751-784 | the first paragraph holds its five text nodes, the code span in the code style |
| `MarkdownParserFixtures.QuotesDocumentParse` | basalt/src/markdown/parser.rs:751-784 | the block-quote test parses to the paragraph 0..62 and the quote 62..301 |
| `CoreMarkdown.HeadingLevelFrom` | basalt-core/src/markdown.rs:92-103 | the converted heading level has the tokenizer level's depth |
| `CoreMarkdown.BlockQuoteKindFrom` | basalt-core/src/markdown.rs:119-130 | the converted block quote kind has the tokenizer kind's name |
| `CoreMarkdown.Node.PushTextNode` | basalt-core/src/markdown.rs:230-242 | a node without a text buffer (a quote with no child) is unchanged; a node other than a quote gets the text appended |
| `CoreMarkdown.OpenedBy` | basalt-core/src/markdown.rs:359-400 | the empty node each tag starts: the five tags with a variant of their own get it (heading level and quote kind carried over), every other tag, lists included, an empty paragraph |
| `CoreMarkdown.ParserState.PushNode` | basalt-core/src/markdown.rs:338-344 | inside an open quote the node becomes its last child; otherwise it becomes the current node; the output is untouched |
| `CoreMarkdown.ParserState.SetNode` | basalt-core/src/markdown.rs:354-356 | the node replaces the current node |
| `CoreMarkdown.ParserState.PushTextNode` | basalt-core/src/markdown.rs:347-351 | the text goes into the current node, if there is one |
| `CoreMarkdown.ParserState.Tag` | basalt-core/src/markdown.rs:359-400 | the output is kept; the empty node the tag starts becomes the open quote's last child, keeping the quote's kind, or else the current node |
| `CoreMarkdown.ParserState.TagEnd` | basalt-core/src/markdown.rs:403-413 | a matching end event moves the current node to the output; any other leaves the state as it was |
| `CoreMarkdown.ParserState.HandleEvent` | basalt-core/src/markdown.rs:416-448 | ignored events change nothing, only end events touch the output, a task marker replaces the current node by an empty task item |
| `CoreMarkdown.ParserState.Flush` | basalt-core/src/markdown.rs:468-472 | the final output is the output followed by the current node, if any |
| `CoreMarkdown.Parser.constructor` | basalt-core/src/markdown.rs:323-334 | a new parser has no output and no current node |
| `CoreMarkdown.Parser.PushNode` | basalt-core/src/markdown.rs:338-344 | the fields change as the state's push does |
| `CoreMarkdown.Parser.PushTextNode` | basalt-core/src/markdown.rs:347-351 | the fields change as the state's text push does |
| `CoreMarkdown.Parser.SetNode` | basalt-core/src/markdown.rs:354-356 | the fields change as the state's replacement does |
| `CoreMarkdown.Parser.Tag` | basalt-core/src/markdown.rs:359-400 | the fields change as the state's open tag does |
| `CoreMarkdown.Parser.TagEnd` | basalt-core/src/markdown.rs:403-413 | the fields change as the state's end tag does |
| `CoreMarkdown.Parser.HandleEvent` | basalt-core/src/markdown.rs:416-448 | the fields change as the state's event step does |
| `CoreMarkdown.Parser.Parse` | basalt-core/src/markdown.rs:463-473 | the loop returns the flushed run of the events, and leaves that output with no current node |
| `CoreMarkdownFacts.HandleEventOutput` | basalt-core/src/markdown.rs:403-448 | one event appends the current node to the output exactly when it is a matching end event, and a non-matching end changes nothing |
| `CoreMarkdownFacts.RunStep` | basalt-core/src/markdown.rs:464-466 | running one more event is one more step |
| `CoreMarkdownFacts.RunOutputGrows` | basalt-core/src/markdown.rs:464-466 | the output only grows, by at most one node per event |
| `CoreMarkdownFacts.RunOutputPrefix` | basalt-core/src/markdown.rs:464-466 | the output after a prefix of the stream is a prefix of the output after a longer one |
| `CoreMarkdownFacts.FromEventsOutput` | basalt-core/src/markdown.rs:463-473 | the parse extends the run's output and has at most one node more than there are events |
| `CoreMarkdownFacts.PushTextNodeEffect` | basalt-core/src/markdown.rs:230-242 | pushing text keeps the node's shape and appends the text at its end exactly when the node takes text |
| `CoreMarkdownFacts.DropIgnored` | basalt-core/src/markdown.rs:437-446 | the stream without ignored events is no longer and holds no ignored event |
| `CoreMarkdownFacts.RunDropIgnored` | basalt-core/src/markdown.rs:437-446 | running the stream without its ignored events gives the same state |
| `CoreMarkdownFacts.FromEventsDropIgnored` | basalt-core/src/markdown.rs:437-446 | removing ignored events does not change the parse |
| `CoreMarkdownFixtures.PushIntoQuote` | basalt-core/src/markdown.rs:236-239 | text pushed into a quote goes into its last child |
| `CoreMarkdownFixtures.TasksDocumentA` | basalt-core/src/markdown.rs:591-606 | the state after the heading and the first task of the task test |
| `CoreMarkdownFixtures.TasksDocumentB` | basalt-core/src/markdown.rs:591-606 | the state after the second task |
| `CoreMarkdownFixtures.TasksDocumentC` | basalt-core/src/markdown.rs:591-606 | the state after the whole task document |
| `CoreMarkdownFixtures.TasksDocumentParse` | basalt-core/src/markdown.rs:591-606 | the task test parses to the heading, the unchecked and checked items and the `[?]` paragraph |
| `CoreMarkdownFixtures.QuoteDocumentA` | basalt-core/src/markdown.rs:571-588 | the state after the paragraph and the quoted paragraph of the quote test |
| `CoreMarkdownFixtures.QuoteDocumentB` | basalt-core/src/markdown.rs:571-588 | the state after the quoted list item's text |
| `CoreMarkdownFixtures.QuoteDocumentC` | basalt-core/src/markdown.rs:571-588 | the state after the whole quote document |
| `CoreMarkdownFixtures.QuoteDocumentParse` | basalt-core/src/markdown.rs:571-588 | the quote test parses to the paragraph and the quote holding the paragraph, the empty paragraph and the item |
| `CoreMarkdownFixtures.HelloWorldParse` | basalt-core/src/markdown.rs:455-462 | the documented `Hello world` example parses to one paragraph |
| `CoreMarkdownFixtures.StepHeading` | basalt-core/src/markdown.rs:416-420 | a heading with one text event, met with no open node, is added to the output whole |
| `CoreMarkdownFixtures.StepParagraph` | basalt-core/src/markdown.rs:416-420 | a paragraph with one text event, met with no open node, is added to the output whole |
| `CoreMarkdownFixtures.HeadingDocumentRun` | basalt-core/src/markdown.rs:262-281 | the state after the example's six events: the heading and the paragraph in the output, no open node |
| `CoreMarkdownFixtures.HeadingDocumentParse` | basalt-core/src/markdown.rs:262-281 | the documented `# My Heading` example parses to the heading and the paragraph |
| `CoreMarkdownFixtures.HeadingsFirstThree` | basalt-core/src/markdown.rs:550-570 | the state after the first three headings of the six-heading test |
| `CoreMarkdownFixtures.HeadingsAll` | basalt-core/src/markdown.rs:550-570 | the state after all six headings: the six in the output, no open node |
| `CoreMarkdownFixtures.HeadingsDocumentParse` | basalt-core/src/markdown.rs:550-570 | the six-heading test parses to the six headings, levels 1 to 6 |
| `OutlineItem.Flatten` | basalt/src/outline/item.rs:29-47 | an item flattens to itself first, and to itself alone when it is a heading or a collapsed entry |
| `OutlineItem.FlattenAll` | basalt/src/outline/item.rs:53-57 | flattening a list gives at least one row per item |
| `OutlineItem.FindFrom` | basalt/src/outline/item.rs:63-70 | the first row from a position whose range contains the index, with its position; none exactly when no such row follows |
| `OutlineItem.FindItem` | basalt/src/outline/item.rs:63-70 | the first flattened row whose range contains the index, with its row number; none exactly when no row contains it |
| `OutlineItem.FlattenAllConcat` | basalt/src/outline/item.rs:53-57 | flattening distributes over concatenation |
| `OutlineItem.ExpandedFlatten` | basalt/src/outline/item.rs:37-45 | an expanded entry flattens to itself, then each child's rows in order |
| `OutlineState.Level` | basalt/src/outline/state.rs:53-89 | a level consumes headings forward and stops only at the end or at a heading no deeper than its parent |
| `OutlineState.Entry` | basalt/src/outline/state.rs:65-85 | an entry covers its heading's index up to the next heading's index (or the end), keeps level and content, and has children only when the next heading is deeper |
| `OutlineState.BuildOutlineTreeRec` | basalt/src/outline/state.rs:53-89 | the loop returns the entries and position of the level specification |
| `OutlineState.BuildOutlineTree` | basalt/src/outline/state.rs:52-92 | the tree is the top level of the headings |
| `OutlineState.ToItem` | basalt/src/outline/state.rs:34-50 | an entry becomes a heading when it has no children, else a collapsed entry of its converted children; range and content kept |
| `OutlineState.ToItems` | basalt/src/outline/state.rs:121-128 | the entries are converted one by one |
| `OutlineState.ToHeadings` | basalt/src/outline/state.rs:98-115 | the heading nodes, each with its own index, level and text, in increasing index order |
| `OutlineState.ExpandedToAllItems` | basalt/src/outline/state.rs:239-257 | every item is set to the expansion, one by one |
| `OutlineState.ExpandedTo` | basalt/src/outline/state.rs:242-255 | an item keeps range, content and kind; an entry gets the expansion |
| `OutlineState.ToggleItemInTree` | basalt/src/outline/state.rs:183-211 | an item keeps range, content and kind; an entry flips exactly when its range is the target and toggling is asked; headings are unchanged |
| `OutlineState.ToggleAll` | basalt/src/outline/state.rs:222-226 | every item is toggled in its own tree |
| `OutlineState.OutlineState.Selected` | basalt/src/outline/state.rs:155-161 | the flattened row at the selection, exactly when the selection is within the rows |
| `OutlineState.OutlineState.SetActive` | basalt/src/outline/state.rs:163-166 | only the active flag changes |
| `OutlineState.OutlineState.Toggle` | basalt/src/outline/state.rs:168-171 | only the open flag flips |
| `OutlineState.OutlineState.Open` | basalt/src/outline/state.rs:173-176 | only the open flag is set |
| `OutlineState.OutlineState.Close` | basalt/src/outline/state.rs:178-181 | only the open flag is cleared |
| `OutlineState.OutlineState.ToggleItem` | basalt/src/outline/state.rs:213-230 | when the selected row (or row 0) is an entry its range is toggled in every tree; otherwise nothing changes |
| `OutlineState.OutlineState.SelectAt` | basalt/src/outline/state.rs:232-237 | the selection is the first row containing the index, and none exactly when no row contains it |
| `OutlineState.OutlineState.ExpandAll` | basalt/src/outline/state.rs:259-262 | every entry is expanded |
| `OutlineState.OutlineState.CollapseAll` | basalt/src/outline/state.rs:264-267 | every entry is collapsed |
| `OutlineState.OutlineState.SetNodes` | basalt/src/outline/state.rs:147-153 | the heading count and the expanded outline of the new nodes; selection and flags kept |
| `OutlineState.OutlineState.Next` | basalt/src/outline/state.rs:273-281 | the selection moves down by the amount, clamped to the last heading, or goes to 0 |
| `OutlineState.OutlineState.Previous` | basalt/src/outline/state.rs:283-287 | the selection moves up by the amount, saturating at 0, and stays empty when empty |
| `OutlineState.New` | basalt/src/outline/state.rs:131-145 | the heading count, open flag and expanded outline of the nodes; the selection is the first row of the outline as built, every entry collapsed, whose range holds the index, and none when no such row holds it |
| `OutlineState.NewExpandedFirst` | basalt/src/outline/state.rs:131-145 | the same state with the selection the first row of the expanded outline that holds the index; a selection is made exactly when some expanded row holds it |
| `OutlineStateFacts.PreOrderAllSnoc` | basalt/src/outline/state.rs:79-84 | the pre-order of the entries with one more is extended by that entry's pre-order |
| `OutlineStateFacts.LevelPreOrder` | basalt/src/outline/state.rs:53-89 | the headings a level consumes are exactly the pre-order of the entries it adds |
| `OutlineStateFacts.EntryPreOrder` | basalt/src/outline/state.rs:65-85 | an entry's pre-order is exactly the headings it consumed |
| `OutlineStateFacts.BuildTreePreOrder` | basalt/src/outline/state.rs:52-92 | building the tree loses and reorders no heading: its pre-order is the heading list |
| `OutlineStateFacts.LevelNested` | basalt/src/outline/state.rs:53-89 | every entry of a level is deeper than the parent and well nested |
| `OutlineStateFacts.EntryNested` | basalt/src/outline/state.rs:72-77 | an entry's children are all deeper than it, at every depth |
| `OutlineStateFacts.BuildTreeNested` | basalt/src/outline/state.rs:52-92 | every entry of the tree is well nested |
| `OutlineStateFacts.ToHeadingsComplete` | basalt/src/outline/state.rs:98-115 | every heading node appears among the headings |
| `OutlineStateFacts.ExpandedRowsEntry` | basalt/src/outline/state.rs:239-257 | an expanded entry's rows are the positions and contents of its headings in pre-order |
| `OutlineStateFacts.ExpandedRowsAll` | basalt/src/outline/state.rs:239-257 | the rows of an expanded outline are its headings in pre-order |
| `OutlineStateFacts.SetNodesRows` | basalt/src/outline/state.rs:147-153 | after setting nodes the rows are the document's headings in order, each at its node index |
| `OutlineStateFacts.ExpandedToAllSets` | basalt/src/outline/state.rs:239-257 | after expanding or collapsing all, every entry at every depth has that expansion |
| `OutlineStateFacts.ExpandedToAllTwice` | basalt/src/outline/state.rs:259-267 | the last expansion wins: expanding or collapsing all twice is doing the second |
| `OutlineStateFacts.CollapsedFlatten` | basalt/src/outline/state.rs:264-267 | a collapsed outline flattens to its top level |
| `OutlineStateFacts.ToggleKeepsShape` | basalt/src/outline/state.rs:183-211 | toggling changes nothing but expansion flags |
| `OutlineStateFacts.ToggleTwice` | basalt/src/outline/state.rs:183-211 | toggling the same range twice restores the outline |
| `OutlineStateFacts.ToggleNothing` | basalt/src/outline/state.rs:193-197 | without the toggle request nothing changes |
| `OutlineStateFacts.ToggleItemFlipsSelected` | basalt/src/outline/state.rs:213-230 | on a flat outline, toggling flips the selected entry |
| `OutlineStateFacts.NextInBounds` | basalt/src/outline/state.rs:273-281 | after moving down something is selected, below the heading count, and not above the old selection |
| `OutlineStateFacts.PreviousMovesUp` | basalt/src/outline/state.rs:283-287 | moving up keeps an empty selection empty, never moves down, and moves by the amount when it can |
| `OutlineStateFacts.ThreeHeadingsOutline` | basalt/src/outline/state.rs:52-128 | headings H1, H2, H1 build an entry with one child and a heading, collapsed |
| `OutlineStateFacts.CollapsedFinds` | basalt/src/outline/item.rs:63-70 | on that collapsed outline node 2 is found in row 1 |
| `OutlineStateFacts.ExpandedRows` | basalt/src/outline/state.rs:239-262 | expanded, the outline shows three rows, the child in row 1 |
| `OutlineStateFacts.NewSelectsOtherHeading` | basalt/src/outline/state.rs:131-145 | opening that outline at node 2 selects the heading of node 1, whose range does not contain 2 |
| `VaultEntry.VaultEntry.Name` | basalt-core/src/obsidian/vault_entry.rs:21-25 | a file's name is its note's name, a directory's its own |
| `VaultEntry.FindNote` | basalt-core/src/obsidian/vault_entry.rs:74-86 | a file answers its note exactly when the paths are equal; a directory searches its entries only when the path starts with the directory's path; a found note has the path asked for |
| `VaultEntry.FindNoteIn` | basalt-core/src/obsidian/vault_entry.rs:68-72 | a note found in a list has the path asked for; nothing is found in an empty list |
| `VaultEntry.FirstWithPath` | basalt-core/src/obsidian/vault_entry.rs:68-72 | the first note of a sequence with the path; none exactly when no note has it |
| `VaultEntry.FirstWithPathConcat` | basalt-core/src/obsidian/vault_entry.rs:68-72 | the first match in a concatenation is the first part's, or else the second part's |
| `VaultEntry.FindNoteInTree` | basalt-core/src/obsidian/vault_entry.rs:74-86 | a found note is one of the entry's notes |
| `VaultEntry.FindNoteInListInTree` | basalt-core/src/obsidian/vault_entry.rs:68-72 | a note found in a list is one of the list's notes |
| `VaultEntry.NotesUnder` | basalt-core/src/obsidian/vault_entry.rs:28-60 | in a tree read from disk every note lives under its entry's path |
| `VaultEntry.NotesInUnder` | basalt-core/src/obsidian/vault_entry.rs:43-57 | the notes of entries under a path live under that path |
| `VaultEntry.PrefixTransitive` | basalt-core/src/obsidian/vault_entry.rs:82 | path prefixes compose |
| `VaultEntry.FindNoteFirst` | basalt-core/src/obsidian/vault_entry.rs:74-86 | in a well-formed tree the directory guard loses nothing: the lookup is the first of the tree's notes with the path |
| `VaultEntry.FindNoteInFirst` | basalt-core/src/obsidian/vault_entry.rs:68-72 | the same for a list of well-formed entries |
| `VaultEntry.FindNoteInFirstEntry` | basalt-core/src/obsidian/vault_entry.rs:70 | the list lookup answers the first entry that finds the note |
| `ExplorerItem.Item.Name` | basalt/src/explorer/item.rs:17-21 | a file's name is its note's name, a directory's its own |
| `ExplorerItem.Item.IsDir` | basalt/src/explorer/item.rs:23-25 | true exactly for directories |
| `ExplorerItem.FromEntry` | basalt/src/explorer/item.rs:28-44 | a file keeps its note; a directory keeps name and path, becomes collapsed and converts its entries; name and kind kept |
| `ExplorerItem.FromEntries` | basalt/src/explorer/item.rs:40 | the entries are converted one by one, in order |
| `ExplorerItem.ToEntries` | basalt/src/explorer/item.rs:28-44 | forgetting the expansion flags keeps the length |
| `ExplorerItem.FromEntryRoundTrip` | basalt/src/explorer/item.rs:28-44 | the conversion loses nothing but the expansion flag: forgetting it gives the entry back |
| `ExplorerItem.FromEntriesRoundTrip` | basalt/src/explorer/item.rs:40 | the same for a list of entries |
| `ExplorerState.CalculateOffset` | basalt/src/explorer/state.rs:58-66 | a selected row is within the window from the offset; the window does not run past the last item when the items fill it; the row is centred when not near the end |
| `ExplorerState.CompareItems` | basalt/src/explorer/state.rs:92-105 | directories come before files; otherwise the lower-cased names are compared, reversed for descending order |
| `ExplorerState.CompareReverse` | basalt/src/explorer/state.rs:92-105 | swapping the arguments reverses the comparison |
| `ExplorerState.CompareTransitive` | basalt/src/explorer/state.rs:92-105 | the comparison is transitive, so it is a total preorder |
| `ExplorerState.DescReversesAsc` | basalt/src/explorer/state.rs:99-102 | descending order reverses ascending order within a kind and keeps directories first |
| `ExplorerState.Insert` | basalt/src/explorer/state.rs:152 | inserting adds exactly the one item |
| `ExplorerState.SortItems` | basalt/src/explorer/state.rs:152 | sorting permutes the items; `SortItemsSorted` and `SortItemsStable` make it the stable sort |
| `ExplorerState.SortedSnoc` | basalt/src/explorer/state.rs:152 | a sorted sequence stays sorted when extended by an item not before any of it |
| `ExplorerState.InsertBelow` | basalt/src/explorer/state.rs:152 | inserting an item not after a bound keeps every item not after it |
| `ExplorerState.InsertSorted` | basalt/src/explorer/state.rs:152 | inserting into a sorted sequence keeps it sorted |
| `ExplorerState.SortItemsSorted` | basalt/src/explorer/state.rs:152 | sorting gives a sorted permutation |
| `ExplorerState.KeyClass` | basalt/src/explorer/state.rs:152 | the items sharing one item's key, in order, are no more than the items |
| `ExplorerState.KeyClassMembers` | basalt/src/explorer/state.rs:152 | a key class holds exactly the items of that key |
| `ExplorerState.KeyClassSnoc` | basalt/src/explorer/state.rs:152 | appending an item extends only its own key class |
| `ExplorerState.GreaterNotSameKey` | basalt/src/explorer/state.rs:92-105 | items that compare strictly never share a key |
| `ExplorerState.InsertStable` | basalt/src/explorer/state.rs:152 | inserting puts the item last in its key class and keeps every class's order |
| `ExplorerState.SortItemsStable` | basalt/src/explorer/state.rs:152 | the sort is stable: every key class keeps its order |
| `ExplorerState.SortedLast` | basalt/src/explorer/state.rs:152 | in a sorted sequence no item is above the last |
| `ExplorerState.LastSameKey` | basalt/src/explorer/state.rs:152 | two sorted sequences with the same members end in items of one key |
| `ExplorerState.KeyClassPeel` | basalt/src/explorer/state.rs:152 | removing the same last item keeps key classes equal |
| `ExplorerState.LastOfKeyClasses` | basalt/src/explorer/state.rs:152 | sorted sequences with equal key classes end in the same item |
| `ExplorerState.EmptyKeyClasses` | basalt/src/explorer/state.rs:152 | a sequence with the key classes of the empty one is empty |
| `ExplorerState.SortedByKeyClasses` | basalt/src/explorer/state.rs:152 | a sorted sequence is determined by its key classes, so the stable sort has one result |
| `ExplorerState.MaxHeight` | basalt/src/explorer/state.rs:68-90 | no item is taller than the maximum |
| `ExplorerState.MaxHeightBound` | basalt/src/explorer/state.rs:68-90 | the maximum is the least bound |
| `ExplorerState.SortedHeight` | basalt/src/explorer/state.rs:78-79 | sorting does not make the tree taller |
| `ExplorerState.Flatten` | basalt/src/explorer/state.rs:68-90 | an item flattens to itself at its depth first, and only to itself when it is a file or collapsed |
| `ExplorerState.FlattenAll` | basalt/src/explorer/state.rs:80-83 | flattening a list gives at least one row per item |
| `ExplorerState.ToggleItemInTree` | basalt/src/explorer/state.rs:196-224 | a file is unchanged; a directory keeps name and path, flips its flag exactly when its path is the one given, and toggles its children |
| `ExplorerState.ToggleAll` | basalt/src/explorer/state.rs:237-242 | every item is toggled on its own |
| `ExplorerState.ExplorerState.SetActive` | basalt/src/explorer/state.rs:125-130 | only the active flag changes |
| `ExplorerState.ExplorerState.Toggle` | basalt/src/explorer/state.rs:132-137 | only the open flag flips |
| `ExplorerState.ExplorerState.Open` | basalt/src/explorer/state.rs:139-141 | only the open flag is set |
| `ExplorerState.ExplorerState.Close` | basalt/src/explorer/state.rs:143-148 | only the open flag is cleared |
| `ExplorerState.ExplorerState.FlattenWithSort` | basalt/src/explorer/state.rs:150-160 | the items sorted the new way, their rows, and the new order; nothing else changes |
| `ExplorerState.ExplorerState.FlattenWithItems` | basalt/src/explorer/state.rs:162-171 | the given items sorted the current way and their rows; nothing else changes |
| `ExplorerState.ExplorerState.Sort` | basalt/src/explorer/state.rs:173-180 | the order flips and the items are sorted and flattened that way |
| `ExplorerState.ExplorerState.UpdateOffset` | basalt/src/explorer/state.rs:182-194 | with items, only the list offset changes, computed from the selection and the number of top-level items |
| `ExplorerState.ExplorerState.UpdateOffsetByRows` | basalt/src/explorer/state.rs:182-194 | the offset computed from the number of rows shown, which keeps a selected row in the window |
| `ListSelection.DrawnOffset` | basalt/src/explorer.rs:95-105 | the list drawn from a stored offset shows the selected row, keeping an offset that already shows it |
| `ExplorerState.ExplorerState.Select` | basalt/src/explorer/state.rs:226-253 | no selection or a row past the end changes nothing; a directory row is toggled in the tree, which is sorted and flattened again; a file row becomes the selected note, index and path |
| `ExplorerState.ExplorerState.Next` | basalt/src/explorer/state.rs:263-275 | only the selection changes: down by the amount, clamped to the last row; none stays none |
| `ExplorerState.ExplorerState.Previous` | basalt/src/explorer/state.rs:277-286 | only the selection changes: up by the amount, saturating at 0; none stays none |
| `ExplorerState.New` | basalt/src/explorer/state.rs:108-123 | open, ascending, row 0 selected, no note, and the converted entries sorted and flattened; title kept, inactive |
| `ExplorerStateFacts.NewConsistent` | basalt/src/explorer/state.rs:108-123 | a new state's items are sorted and its rows are their flattening |
| `ExplorerStateFacts.FlattenWithItemsConsistent` | basalt/src/explorer/state.rs:162-171 | replacing the items keeps the state consistent and keeps exactly the items given |
| `ExplorerStateFacts.FlattenWithSortConsistent` | basalt/src/explorer/state.rs:150-160 | re-sorting keeps the state consistent and the same items |
| `ExplorerStateFacts.SelectConsistent` | basalt/src/explorer/state.rs:226-253 | selecting keeps the state consistent |
| `ExplorerStateFacts.MovesConsistent` | basalt/src/explorer/state.rs:132-194 | moving, toggling and scrolling keep the state consistent |
| `ExplorerStateFacts.AtDepthConcat` | basalt/src/explorer/state.rs:80-83 | the rows at a depth distribute over concatenation |
| `ExplorerStateFacts.AtDepthNone` | basalt/src/explorer/state.rs:68-90 | rows all deeper than a depth have none at it |
| `ExplorerStateFacts.FlattenDeeper` | basalt/src/explorer/state.rs:75-85 | every row after an item's own is deeper than it |
| `ExplorerStateFacts.FlattenAllAtLeast` | basalt/src/explorer/state.rs:80-83 | flattening at a depth gives rows no shallower |
| `ExplorerStateFacts.AtDepthFlattenAll` | basalt/src/explorer/state.rs:68-90 | the rows at the starting depth are exactly the items, in order |
| `ExplorerStateFacts.TopRowsAreItems` | basalt/src/explorer/state.rs:150-171 | in a consistent state the depth-0 rows are the items |
| `ExplorerStateFacts.SortTwice` | basalt/src/explorer/state.rs:173-180 | sorting twice restores any consistent state, equal-named items included |
| `ExplorerStateFacts.ToggleItemTwice` | basalt/src/explorer/state.rs:196-224 | toggling a path twice restores the item |
| `ExplorerStateFacts.ToggleAllTwice` | basalt/src/explorer/state.rs:237-242 | toggling a path twice restores the list |
| `ExplorerStateFacts.ToggleAbsent` | basalt/src/explorer/state.rs:196-224 | toggling a path that names no directory changes nothing |
| `ExplorerStateFacts.NextInBounds` | basalt/src/explorer/state.rs:263-275 | a selection stays a selection, within the rows when there are any, never moving up |
| `ExplorerStateFacts.PreviousMovesUp` | basalt/src/explorer/state.rs:277-286 | the selection is empty exactly when it was, and never moves down |
| `ExplorerStateFacts.FilesFlatten` | basalt/src/explorer/state.rs:70 | files give one row each |
| `ExplorerStateFacts.OneOpenDirectoryRows` | basalt/src/explorer/state.rs:68-90 | an open directory of n files shows n + 1 rows |
| `ExplorerStateFacts.OffsetLosesCentring` | basalt/src/explorer/state.rs:182-194 | with nine files, row 4 selected and a window of 4, the offset is 0, below which the selected row lies; the list draws from row 1, not centred |
| `ExplorerStateFacts.OffsetByRowsCentresSelectedRow` | basalt/src/explorer/state.rs:182-194 | counting rows instead, the offset is 2, centring row 4, and the list draws from row 2 |
| `ConfigErrors.ConfigError.Message` | basalt/src/config.rs:13-32 | each error's message: the fixed prefix and its text, an I/O error's own message |
| `ConfigErrors.Custom` | basalt/src/config/key_binding.rs:140-147 | a deserialisation error becomes an invalid key binding carrying the message |
| `KeyBinding.ParseModifiers` | basalt/src/config/key_binding.rs:100-111 | a refused name is reported as unknown modifiers with that name |
| `KeyBinding.ParseModifiersAccepts` | basalt/src/config/key_binding.rs:100-111 | exactly the empty name and alt, ctrl, control, hyper, meta, shift and super are accepted, each as at most one flag; ctrl and control are the control flag |
| `KeyBinding.ParseModifierList` | basalt/src/config/key_binding.rs:85-91 | no modifier pieces give no flags; a failure is an unknown-modifiers error |
| `KeyBinding.ParseModifierListAll` | basalt/src/config/key_binding.rs:85-91 | the list parses exactly when every piece does, to a union containing every piece's flags; a failure reports the first piece refused |
| `KeyBinding.ParseModifierListConcat` | basalt/src/config/key_binding.rs:85-91 | parsing a concatenation fails with the first part's error, else the second's, else unites the flags |
| `KeyBinding.Utf8Width` | basalt/src/config/key_binding.rs:113 | a character takes one to four bytes, one exactly when it is ASCII |
| `KeyBinding.ByteLen` | basalt/src/config/key_binding.rs:113 | the byte length is 0 only for the empty text, never below the character count, and 1 exactly for one ASCII character |
| `KeyBinding.ParseU8` | basalt/src/config/key_binding.rs:118 | a number parses exactly when, after an optional plus sign, it is a non-empty run of digits below 256, and then to its value |
| `KeyBinding.NamedKey` | basalt/src/config/key_binding.rs:119-135 | a named key is never a character, a function key or the null key |
| `KeyBinding.ParseCode` | basalt/src/config/key_binding.rs:112-138 | empty is the null key; one byte is that character; f with a number below 256 is a function key; then the named keys; anything else is an unknown code with the text |
| `KeyBinding.ParseKey` | basalt/src/config/key_binding.rs:77-97 | every failure is reported as an invalid key binding |
| `KeyBinding.ParseCaseInsensitive` | basalt/src/config/key_binding.rs:81 | parsing ignores letter case |
| `KeyBinding.ParseKeyPieces` | basalt/src/config/key_binding.rs:77-97 | modifiers joined by plus signs before a code: the first bad modifier's error, else the code's error, else the key of the united flags and the code |
| `KeyBinding.LowerJoin` | basalt/src/config/key_binding.rs:81-82 | lower-case pieces joined by plus signs are lower case |
| `KeyBinding.ParseKeyAlone` | basalt/src/config/key_binding.rs:84-96 | a text without a plus sign is a key without modifiers, or the code's error |
| `KeyBinding.ParseKeyUnknownModifier` | basalt/src/config/key_binding.rs:85-88 | a bad modifier before a code is reported with its own name |
| `KeyBinding.KeyCodeName` | basalt/src/config/key_binding.rs:35 | a character key is named by its character, a function key by F and its number |
| `KeyBinding.Decimal` | basalt/src/config/key_binding.rs:35 | the decimal text of a number is a non-empty run of digits worth the number |
| `KeyBinding.ReplaceSpaces` | basalt/src/config/key_binding.rs:35 | every space becomes an underscore and nothing else changes |
| `KeyBinding.CodeText` | basalt/src/config/key_binding.rs:35 | the code's text is as long as its name |
| `KeyBinding.NamesOf` | basalt/src/config/key_binding.rs:40-45 | at most one name per flag |
| `KeyBinding.ModifierNames` | basalt/src/config/key_binding.rs:40-45 | at most six names |
| `KeyBinding.Display` | basalt/src/config/key_binding.rs:33-50 | the code alone without modifiers, else the code followed by the modifier names, joined by plus signs |
| `KeyBinding.CodeTextChar` | basalt/src/config/key_binding.rs:35 | a lower-case ASCII character other than a space is its own text |
| `KeyBinding.ControlNames` | basalt/src/config/key_binding.rs:40-45 | the control flag is named control |
| `KeyBinding.CtrlCDisplay` | basalt/src/config/key_binding.rs:53-56 | control-c prints as c+control |
| `KeyBinding.CtrlCRejected` | basalt/src/config/key_binding.rs:77-97 | that text does not parse: c is an unknown modifier |
| `KeyBinding.CtrlCAccepted` | basalt/src/config/key_binding.rs:77-97 | ctrl+c parses to control-c |
| `KeyBinding.CtrlCText` | basalt/src/config/key_binding.rs:33-97 | the three facts together: the printed form puts the code first, so it does not read back |
| `KeyBinding.DisplayParsesChar` | basalt/src/config/key_binding.rs:33-97 | a plain character key other than plus reads back from its text |
| `KeyBinding.DisplayParsesF` | basalt/src/config/key_binding.rs:33-97 | a function key reads back from its text |
| `KeyBinding.FText` | basalt/src/config/key_binding.rs:35 | a function key's text is f and its number, lower case and without a plus sign |
| `KeyBinding.ParseCodeF` | basalt/src/config/key_binding.rs:116-118 | f and a number below 256 parse to that function key |
| `KeyBinding.NamesOfReadBack` | basalt/src/config/key_binding.rs:40-45 | the names printed for the flags read back as the flags |
| `KeyBinding.ModifierNamesReadBack` | basalt/src/config/key_binding.rs:40-45 | every modifier name printed reads back, and together they give the modifiers |
| `KeyBinding.NamesOfPlain` | basalt/src/config/key_binding.rs:40-45 | the names printed are lower case and contain no plus sign |
| `KeyBinding.ModifierNamesPlain` | basalt/src/config/key_binding.rs:40-45 | every modifier name is lower case and contains no plus sign |
| `KeyBinding.RearrangedTextParses` | basalt/src/config/key_binding.rs:33-97 | the modifier names followed by the code do read back, to the same key |
| `KeyBinding.ToAction` | basalt/src/config/key_binding.rs:174-190 | the scroll commands and only they make scroll actions, one line for the line commands and half a page for the page commands |
| `KeyBinding.ToActionInjective` | basalt/src/config/key_binding.rs:174-190 | no two commands make the same action |
| `Config.Overlay` | basalt/src/config.rs:42-46 | the keys of both maps; a later entry replaces an earlier one and the others are kept |
| `Config.OverlayIdempotent` | basalt/src/config.rs:42-46 | merging the same bindings again changes nothing |
| `Config.OverlayEmpty` | basalt/src/config.rs:42-46 | merging no bindings, or into no bindings, keeps the other side |
| `Config.OverlayAssociative` | basalt/src/config.rs:42-46 | merging in two steps is merging the merged bindings |
| `Config.Restrict` | basalt/src/config.rs:36 | the entries whose keys are in the set, unchanged |
| `Config.ConfigSection.constructor` | basalt/src/config.rs:136-148 | a section holding the given bindings |
| `Config.ConfigSection.MergeKeyBindings` | basalt/src/config.rs:42-46 | the section's bindings become the overlay of the other section's |
| `Config.ConfigSection.KeyToMessage` | basalt/src/config.rs:48-50 | the message bound to the key's text, present exactly when that text is bound |
| `Config.FromBindings` | basalt/src/config.rs:96-105 | every binding's key text is a key of the section, and every key comes from some binding |
| `Config.FromBindingsLastWins` | basalt/src/config.rs:96-105 | a key text bound more than once keeps its last command's action |
| `Config.Settings.MergedWith` | basalt/src/config.rs:110-120 | the other configuration's editor flag, and each section overlaid by the other's |
| `Config.MergeIdempotent` | basalt/src/config.rs:110-120 | merging the same configuration twice is merging it once |
| `Config.FromToml` | basalt/src/config.rs:82-94 | the editor flag kept and each section built from its bindings |
| `Config.Config.Contents` | basalt/src/config.rs:65-74 | the flag and sections as a value |
| `Config.Config.constructor` | basalt/src/config.rs:65-74 | a configuration holding the given contents |
| `Config.Config.Merge` | basalt/src/config.rs:110-120 | the sections are updated in place to the merged contents, which are returned |
| `Config.CtrlCText` | basalt/src/config.rs:248-249 | the system override is stored under the key text `"c+control"` |
| `Config.Load` | basalt/src/config.rs:237-256 | a base configuration that fails is the error; otherwise the base with the user's configuration merged when it was read, and control-c bound to quit |
| `Config.LoadCtrlCQuits` | basalt/src/config.rs:248-253 | control-c quits whatever the configurations say |
| `Config.LoadPrecedence` | basalt/src/config.rs:228-256 | a user binding wins over the base, a base binding stays when the user has none, and the user's editor flag is taken |
| `Config.LoadWithoutUser` | basalt/src/config.rs:244-246 | without a readable user configuration the base is kept, with the override |
| `Strings.Ordering.Reverse` | basalt/src/explorer/state.rs:99-102 | reversing swaps less and greater and keeps equal |
| `Strings.LowerChar` | basalt/src/explorer/state.rs:97-98 | an ASCII capital becomes its small letter; other characters are kept |
| `Strings.Lower` | basalt/src/config/key_binding.rs:81 | every character is lowered on its own and the length is kept |
| `Strings.LowerIdempotent` | basalt/src/config/key_binding.rs:81 | lowering twice is lowering once |
| `Strings.LowerKeeps` | basalt/src/config/key_binding.rs:43 | a text without capitals is its own lower case |
| `Strings.Cmp` | basalt/src/explorer/state.rs:100-101 | the comparison says equal exactly for equal texts |
| `Strings.CmpReverse` | basalt/src/explorer/state.rs:100-101 | swapping the texts reverses the comparison |
| `Strings.CmpTransitive` | basalt/src/explorer/state.rs:100-101 | the comparison is transitive |
| `Strings.Split` | basalt/src/config/key_binding.rs:82 | at least one piece, none holding the separator, at most one more than the characters |
| `Strings.Join` | basalt/src/config/key_binding.rs:45 | the joined text starts with the first piece |
| `Strings.JoinSplit` | basalt/src/config/key_binding.rs:82 | joining the pieces of a split gives the text back |
| `Strings.SplitJoin` | basalt/src/config/key_binding.rs:45 | splitting pieces joined by a separator they lack gives the pieces back |
| `Strings.JoinFirst` | basalt/src/config/key_binding.rs:45 | a join starts with the first character of the first piece, then the join of the rest |
| `Strings.StripCr` | basalt/src/note_editor/text_buffer.rs:48 | a line loses at most a trailing carriage return |
| `Strings.Lines` | basalt/src/note_editor/text_buffer.rs:48 | the pieces between line feeds without a final empty one; a piece a line feed ends loses one carriage return, the last unterminated piece is kept whole; no line holds a line feed, and the empty text has no lines |
| `Strings.LinesCarriageReturn` | basalt/src/note_editor/text_buffer.rs:48 | `"a\r"` is the one line `"a\r"`, while `"a\r\n"` is the line `"a"` |
| `Strings.SplitLast` | basalt/src/note_editor/text_buffer.rs:48 | an empty last piece comes only from an empty text or a trailing separator |
| `Strings.LinesOfJoin` | basalt/src/note_editor/text_buffer.rs:32-37 | the lines of lines joined by line breaks are those lines |
| `Strings.LinesOfSplit` | basalt/src/note_editor/text_buffer.rs:48 | without carriage returns or a trailing break, the lines are the pieces between breaks |
| `Strings.KeptLines` | basalt/src/note_editor/text_buffer.rs:48 | pieces without carriage returns are kept as they are |
| `Strings.JoinOfLines` | basalt/src/note_editor/text_buffer.rs:32-48 | a text without carriage returns or a trailing break is its lines joined again |
| `Strings.WithoutFinalLineFeed` | basalt/src/note_editor/state.rs:130-150 | the text less a final line feed, or the text itself when it has none |
| `Strings.JoinSnoc` | basalt/src/note_editor/text_buffer.rs:32-37 | a join extended by one piece is the join, the separator and the piece |
| `Strings.LinesOfTerminated` | basalt/src/note_editor/text_buffer.rs:48 | the lines of a carriage-return-free text followed by a line feed are the pieces of the text |
| `Strings.JoinOfLinesFinalLineFeed` | basalt/src/note_editor/text_buffer.rs:32-48 | a non-empty text without carriage returns has lines, and their join is the text less its final line feed |
| `Strings.JoinPieceIn` | basalt/src/config/key_binding.rs:45 | every character of a piece is in the join |
| `TextCounts.CharCountOf` | basalt/src/text_counts.rs:14-18 | the character count is the number of characters |
| `TextCounts.CountRoundTrips` | basalt/src/text_counts.rs:8-45 | a count made from a number gives the number back, and the other way round |
| `TextCounts.RemoveSymbols` | basalt/src/text_counts.rs:49-54 | removing the markdown symbols leaves none, never lengthens, and keeps a text without them |
| `TextCounts.RemoveSymbolsConcat` | basalt/src/text_counts.rs:54 | removal distributes over concatenation |
| `TextCounts.WordLength` | basalt/src/text_counts.rs:55 | the leading run of non-whitespace, ending at whitespace or the end |
| `TextCounts.SplitWhitespace` | basalt/src/text_counts.rs:55 | every word is non-empty and holds no whitespace |
| `TextCounts.WordCountOf` | basalt/src/text_counts.rs:47-59 | the word count is the number of whitespace-separated words once the symbols are removed |
| `TextCounts.SplitAllWhitespace` | basalt/src/text_counts.rs:55 | a text of whitespace has no words |
| `TextCounts.OneWord` | basalt/src/text_counts.rs:55 | a non-empty text without whitespace is one word |
| `TextCounts.WordLengthAll` | basalt/src/text_counts.rs:55 | a text without whitespace is its own leading word |
| `TextCounts.SkipWhitespace` | basalt/src/text_counts.rs:55 | leading whitespace adds no words |
| `TextCounts.WordLengthBefore` | basalt/src/text_counts.rs:55 | whitespace ends the leading word |
| `TextCounts.SplitConcat` | basalt/src/text_counts.rs:55 | texts separated by whitespace have the words of both, in order |
| `TextCounts.WordCountConcat` | basalt/src/text_counts.rs:47-59 | texts separated by whitespace have the sum of their word counts |
| `TextCounts.NoWords` | basalt/src/text_counts.rs:47-59 | a text of symbols and whitespace has no words |
| `TextCounts.OnlyWhitespaceLeft` | basalt/src/text_counts.rs:54 | removing the symbols of such a text leaves only whitespace |
| `TextCounts.WordCountJoined` | basalt/src/text_counts.rs:47-59 | parts joined by whitespace have the sum of their words |
| `TextCounts.CharCountJoined` | basalt/src/text_counts.rs:14-18 | joined parts have their lengths plus the separators' |
| `TextCounts.Repeat` | basalt/src/text_counts.rs:70-80 | a run of one character of the given length |
| `TextCounts.PlainWordCount` | basalt/src/text_counts.rs:47-59 | a plain word counts once |
| `TextCounts.OnlySymbolsVanish` | basalt/src/text_counts.rs:54 | a run of symbols is removed entirely |
| `TextCounts.NoSymbols` | basalt/src/text_counts.rs:54 | a text without symbols is kept |
| `TextCounts.SumsStep` | basalt/src/text_counts.rs:67-103 | the sums of words and lengths step one part at a time |
| `TextCounts.SumsOfSix` | basalt/src/text_counts.rs:70-80 | the sums over six lines are the six terms |
| `TextCounts.MarkedLineCounts` | basalt/src/text_counts.rs:70-80 | marks, a space and two plain words count two words |
| `TextCounts.HeadingLineCounts` | basalt/src/text_counts.rs:70-80 | a heading line of one to six marks counts two words and its characters |
| `TextCounts.HeadingsDocument` | basalt/src/text_counts.rs:70-81 | the six-heading document has 12 words and 91 characters |
| `TextCounts.SumsOfFour` | basalt/src/text_counts.rs:84-90 | the sums over four parts are the four terms |
| `TextCounts.JoinedFour` | basalt/src/text_counts.rs:84-90 | four parts joined by whitespace have the sum of their words |
| `TextCounts.JoinedFourLength` | basalt/src/text_counts.rs:84-90 | four joined parts have their lengths plus three separators |
| `TextCounts.BoxCount` | basalt/src/text_counts.rs:86-90 | a word between symbols keeps its word count |
| `TextCounts.Line2` | basalt/src/text_counts.rs:84 | two parts and a space |
| `TextCounts.Line4` | basalt/src/text_counts.rs:86-90 | four parts and three spaces |
| `TextCounts.Line2Count` | basalt/src/text_counts.rs:84 | marks and a plain word count one word |
| `TextCounts.Line4Count` | basalt/src/text_counts.rs:86-90 | a four-part line has the words of its parts |
| `TextCounts.OpenTaskCount` | basalt/src/text_counts.rs:86 | an open task line counts two words |
| `TextCounts.DoneTaskCount` | basalt/src/text_counts.rs:88-90 | a completed task line counts three words and its box's |
| `TextCounts.TasksShapeWords` | basalt/src/text_counts.rs:84-91 | any document of the task list's shape counts ten words |
| `TextCounts.TasksShapeLength` | basalt/src/text_counts.rs:84-91 | and has the length of its pieces plus sixteen separators |
| `TextCounts.AsciiWordPlain` | basalt/src/text_counts.rs:49-51 | an ASCII word holds no whitespace and no symbols |
| `TextCounts.TaskTokens` | basalt/src/text_counts.rs:84-90 | the task list's tokens are symbols and plain words |
| `TextCounts.TasksDocument` | basalt/src/text_counts.rs:84-91 | the task list document has 10 words and 64 characters |
| `StylizedText.FromU32` | basalt/src/stylized_text.rs:54-83 | a character exactly for a Unicode scalar value, with that value |
| `StylizedText.LetterlikeCapital` | basalt/src/stylized_text.rs:57-63 | a code point exactly for the double-struck capitals C, H, N, P, Q, R and Z |
| `StylizedText.Styled` | basalt/src/stylized_text.rs:54-83 | a styled form exactly for the ASCII letters and digits |
| `StylizedText.StylizeChar` | basalt/src/stylized_text.rs:54-83 | other characters are kept; letters and digits go to the letterlike or mathematical alphanumeric blocks |
| `StylizedText.Stylize` | basalt/src/stylized_text.rs:43-45 | the result has one character per input character |
| `StylizedText.StylizeOffsets` | basalt/src/stylized_text.rs:54-83 | a letter or digit goes to its style's base plus its place in the alphabet, except the letterlike capitals |
| `StylizedText.FrakturScriptDigits` | basalt/src/stylized_text.rs:70-78 | bold Fraktur and Script share their digits |
| `StylizedText.Unstyle` | basalt/src/stylized_text.rs:54-83 | a character given back is a letter or digit that styles to the input |
| `StylizedText.LetterlikeSource` | basalt/src/stylized_text.rs:57-63 | the capital a letterlike code point stands for |
| `StylizedText.UnstyleStylize` | basalt/src/stylized_text.rs:54-83 | unstyling a styled letter or digit gives it back |
| `StylizedText.StylizeCharInjective` | basalt/src/stylized_text.rs:54-83 | no style maps two letters or digits to the same character |
| `StylizedText.StylizeCharIdempotent` | basalt/src/stylized_text.rs:54-83 | a styled character is kept |
| `StylizedText.StylizeIdempotent` | basalt/src/stylized_text.rs:43-45 | stylizing twice is stylizing once |
| `StylizedText.StylizeConcat` | basalt/src/stylized_text.rs:43-45 | stylizing distributes over concatenation |
| `StylizedText.StylizeAt` | basalt/src/stylized_text.rs:43-45 | each character is stylized in place, and kept exactly when it is not a letter or digit |
| `StylizedText.UnstyleText` | basalt/src/stylized_text.rs:43-45 | unstyling keeps the length |
| `StylizedText.UnstyleTextStylize` | basalt/src/stylized_text.rs:43-45 | a text without styled characters comes back from stylizing |
| `StylizedText.MyHeading` | basalt/src/stylized_text.rs:11 | My Heading in bold Fraktur, the space kept |
| `StylizedText.BlackBoardBoldExample` | basalt/src/stylized_text.rs:39-41 | the documented double-struck example |
| `StylizedText.FrakturBoldExample` | basalt/src/stylized_text.rs:39-41 | the documented bold Fraktur example |
| `StylizedText.ScriptExample` | basalt/src/stylized_text.rs:39-41 | the documented Script example |
| `HelpModal.HelpModalState.ScrollUp` | basalt/src/help_modal.rs:29-38 | up by the amount, stopping at the first line; the scrollbar follows and the text is kept |
| `HelpModal.HelpModalState.ScrollDown` | basalt/src/help_modal.rs:40-53 | down by the amount, stopping at the line count; the scrollbar follows and the text is kept |
| `HelpModal.HelpModalState.ResetScrollbar` | basalt/src/help_modal.rs:55-61 | the position and scrollbar go back to the start |
| `HelpModal.New` | basalt/src/help_modal.rs:21-27 | the text, position 0 and a scrollbar as long as the text's lines |
| `HelpModal.ScrollingKeepsValid` | basalt/src/help_modal.rs:29-61 | scrolling and resetting keep the position within the text and the scrollbar at it |
| `HelpModal.ScrollDownUp` | basalt/src/help_modal.rs:29-53 | scrolling down then up by an amount that fits restores the state |
| `HelpModal.ScrollUpDown` | basalt/src/help_modal.rs:29-53 | scrolling up then down by an amount that fits restores the state |
| `MarkdownViewState.MarkdownViewState.GetLines` | basalt-widgets/src/markdown/state.rs:23-25 | the lines of the text, none holding a line break |
| `MarkdownViewState.MarkdownViewState.ScrollUp` | basalt-widgets/src/markdown/state.rs:27-38 | up by the amount, saturating at 0; the scrollbar follows |
| `MarkdownViewState.MarkdownViewState.ScrollDown` | basalt-widgets/src/markdown/state.rs:40-51 | down by the amount, saturating at the largest index |
| `MarkdownViewState.MarkdownViewState.SetText` | basalt-widgets/src/markdown/state.rs:53-55 | only the text changes |
| `MarkdownViewState.MarkdownViewState.ResetScrollbar` | basalt-widgets/src/markdown/state.rs:57-62 | only the scrollbar is reset |
| `MarkdownViewState.New` | basalt-widgets/src/markdown/state.rs:16-21 | the text with a reset scrollbar |
| `MarkdownViewState.GetLinesJoin` | basalt-widgets/src/markdown/state.rs:23-25 | the lines joined again are the text |
| `MarkdownViewState.ScrollDownUp` | basalt-widgets/src/markdown/state.rs:27-51 | scrolling down then up restores the state |
| `MarkdownViewState.SetTextResetCommute` | basalt-widgets/src/markdown/state.rs:53-62 | setting the text and resetting commute |
| `VaultSelector.VaultSelectorState.Select` | basalt/src/vault_selector.rs:27-32 | the selected vault becomes the list's selection |
| `VaultSelector.VaultSelectorState.Selected` | basalt/src/vault_selector.rs:42-44 | the selected vault's index |
| `VaultSelector.VaultSelectorState.GetItem` | basalt/src/vault_selector.rs:38-40 | the vault at the index, exactly when the index is in the list |
| `VaultSelector.VaultSelectorState.Next` | basalt/src/vault_selector.rs:46-58 | one row down, clamped to the last vault; no selection stays none; on an empty list the wrapped `len - 1` lets the highlight move one row down |
| `VaultSelector.VaultSelectorState.Previous` | basalt/src/vault_selector.rs:60-67 | the list moves up one row |
| `VaultSelector.New` | basalt/src/vault_selector.rs:19-25 | the vaults, none chosen, row 0 highlighted |
| `VaultSelector.NextThenSelect` | basalt/src/vault_selector.rs:27-58 | after moving down, selecting chooses a vault that exists |
| `VaultSelector.NextAtLast` | basalt/src/vault_selector.rs:46-58 | at the last vault moving down changes nothing |
| `VaultSelector.PreviousAtFirst` | basalt/src/vault_selector.rs:60-67 | in any state at the first row, moving up changes nothing |
| `VaultSelector.NextOnEmptyList` | basalt/src/vault_selector.rs:19-58 | with no vaults, a fresh selector moves its highlight from row 0 to row 1 |
| `VaultSelectorModal.VaultSelectorModalState.Selected` | basalt/src/vault_selector_modal.rs:26-28 | the inner selector's chosen vault |
| `VaultSelectorModal.VaultSelectorModalState.Select` | basalt/src/vault_selector_modal.rs:30-35 | the inner selector selects, visibility kept |
| `VaultSelectorModal.VaultSelectorModalState.GetItem` | basalt/src/vault_selector_modal.rs:37-39 | the inner selector's vault at the index |
| `VaultSelectorModal.VaultSelectorModalState.Next` | basalt/src/vault_selector_modal.rs:41-46 | the inner selector moves down, visibility kept |
| `VaultSelectorModal.VaultSelectorModalState.Previous` | basalt/src/vault_selector_modal.rs:48-53 | the inner selector moves up, visibility kept |
| `VaultSelectorModal.VaultSelectorModalState.Hide` | basalt/src/vault_selector_modal.rs:55-60 | hidden, selector kept |
| `VaultSelectorModal.VaultSelectorModalState.ToggleVisibility` | basalt/src/vault_selector_modal.rs:62-67 | visibility flips, selector kept |
| `VaultSelectorModal.New` | basalt/src/vault_selector_modal.rs:19-24 | a new selector, hidden |
| `VaultSelectorModal.VisibilityLaws` | basalt/src/vault_selector_modal.rs:55-67 | toggling twice restores, hiding twice is hiding once, and toggling a hidden modal shows it |
| `VaultSelectorModal.NextToggleCommute` | basalt/src/vault_selector_modal.rs:41-67 | moving and toggling commute |
| `VaultSelectorModal.ModalState.ScrollUp` | basalt/src/vault_selector_modal.rs:133-142 | up by the amount, stopping at the first line; only the position and scrollbar change |
| `VaultSelectorModal.ModalState.ScrollDown` | basalt/src/vault_selector_modal.rs:144-157 | down by the amount, stopping at the line count; only the position and scrollbar change |
| `VaultSelectorModal.ModalState.ResetScrollbar` | basalt/src/vault_selector_modal.rs:159-165 | only the position and scrollbar go back to the start |
| `VaultSelectorModal.NewModal` | basalt/src/vault_selector_modal.rs:124-131 | the title and text, closed, at the start, with a scrollbar as long as the text's lines |
| `VaultSelectorModal.ModalScrolling` | basalt/src/vault_selector_modal.rs:133-157 | scrolling keeps the position within the text, and down then up (or up then down) by a fitting amount restores the state |
| `SidePanel.SidePanelState.Open` | basalt/src/sidepanel.rs:32-34 | only the open flag is set |
| `SidePanel.SidePanelState.Close` | basalt/src/sidepanel.rs:36-41 | only the open flag is cleared |
| `SidePanel.SidePanelState.Toggle` | basalt/src/sidepanel.rs:43-48 | only the open flag flips |
| `SidePanel.SidePanelState.CalculateOffset` | basalt/src/sidepanel.rs:50-84 | the selected row is within the window from the offset, which does not run past the last note; centred away from the end, else the last window; on an empty list the wrapped `len - 1` gives the centred offset |
| `SidePanel.SidePanelState.UpdateOffset` | basalt/src/sidepanel.rs:86-93 | only the list offset changes, to the computed one |
| `SidePanel.SidePanelState.Select` | basalt/src/sidepanel.rs:95-100 | the selected note becomes the list's selection |
| `SidePanel.SidePanelState.Selected` | basalt/src/sidepanel.rs:102-104 | the selected note's index |
| `SidePanel.SidePanelState.Next` | basalt/src/sidepanel.rs:110-122 | only the list moves: one row down, clamped to the last note; on an empty list one row down |
| `SidePanel.SidePanelState.Previous` | basalt/src/sidepanel.rs:124-131 | only the list moves up one row |
| `SidePanel.New` | basalt/src/sidepanel.rs:22-30 | the title and notes, open, none chosen, row 0 highlighted |
| `SidePanel.OffsetAgreesWithExplorer` | basalt/src/sidepanel.rs:50-84 | the side panel computes the same offset as the explorer |
| `SidePanel.FlagLaws` | basalt/src/sidepanel.rs:32-48 | toggling twice restores; the last of open and close wins; toggling is closing an open panel and opening a closed one |
| `SidePanel.MovesStayInList` | basalt/src/sidepanel.rs:110-131 | moving keeps a selection in the list |
| `NoteEditor.TextBuffer.ToString` | basalt/src/note_editor/text_buffer.rs:32-37 | the lines joined by line feeds; a single line is itself |
| `NoteEditor.TextBuffer.Jump` | basalt/src/note_editor/text_buffer.rs:115-117 | the cursor goes to the row, clamped to the last line, and the column, clamped to that line; lines kept |
| `NoteEditor.TextBuffer.WithCursorPosition` | basalt/src/note_editor/text_buffer.rs:79-83 | lines and modified flag kept; the row, truncated to 16 bits, clamped to the last line, and the column, truncated to 16 bits, clamped to that line's length |
| `NoteEditor.TextBuffer.MoveTop` | basalt/src/note_editor/text_buffer.rs:103 | the cursor goes to the first line |
| `NoteEditor.TextBuffer.MoveBottom` | basalt/src/note_editor/text_buffer.rs:104 | the cursor goes to the last line |
| `NoteEditor.TextBuffer.MoveUp` | basalt/src/note_editor/text_buffer.rs:105 | the cursor goes up a line, saturating at the first |
| `NoteEditor.TextBuffer.MoveDown` | basalt/src/note_editor/text_buffer.rs:106 | the cursor goes down a line; on the last line nothing changes |
| `NoteEditor.TextBuffer.MoveBack` | basalt/src/note_editor/text_buffer.rs:107 | one column left, or to the end of the previous line at a line's start; nothing at the very start |
| `NoteEditor.TextBuffer.MoveForward` | basalt/src/note_editor/text_buffer.rs:108 | one column right, or to the start of the next line at a line's end; nothing at the very end |
| `NoteEditor.TextBuffer.MoveBy` | basalt/src/note_editor/text_buffer.rs:118-133 | a relative move keeps the lines and a valid cursor |
| `NoteEditor.TextBuffer.Backspace` | basalt/src/note_editor/state.rs:175-182 | deletes the character before the cursor, or joins the line to the previous one at a line's start; nothing at the very start; modified exactly when something was deleted |
| `NoteEditor.FromText` | basalt/src/note_editor/text_buffer.rs:45-61 | the text's lines, or one empty line, with the cursor at the start, unmodified |
| `NoteEditor.DefaultBuffer` | basalt/src/note_editor/text_buffer.rs:45-61 | the buffer of the empty text |
| `NoteEditor.SavedContent` | basalt/src/note_editor/state.rs:131-140 | the content before the character preceding the node, a line feed, the buffer, a line feed, and the content after the node |
| `NoteEditor.UneditedSaveKeepsContent` | basalt/src/note_editor/state.rs:130-150 | saving an unedited node that follows a line feed leaves the content unchanged |
| `NoteEditor.UneditedSaveOfFirstNode` | basalt/src/note_editor/state.rs:130-150 | saving the unedited first node of a document puts a line feed in front of it |
| `NoteEditor.UneditedSaveOfUnterminatedNode` | basalt/src/note_editor/state.rs:130-150 | saving the unedited last node of a note without a final line feed appends a line feed |
| `NoteEditor.UneditedBufferText` | basalt/src/note_editor/text_buffer.rs:32-61 | the buffer loaded from a text without carriage returns holds the text less its final line feed |
| `NoteEditor.SomeTextSaveAppendsLineFeed` | basalt/src/markdown/parser.rs:15-36 | in the documented `# My Heading\n\nSome text.`, saving the paragraph 14..24 unedited appends a line feed |
| `NoteEditor.SavedContentCorrected` | basalt/src/note_editor/state.rs:130-150 | the same splice, with no line feed before a node that starts the note and no line feed after the buffer when the node's text did not end in one |
| `NoteEditor.CorrectedUneditedSave` | basalt/src/note_editor/state.rs:130-150 | with the correction, saving a buffer that holds the node's text less its final line feed leaves the content unchanged, for a node that starts the note or follows a line feed |
| `NoteEditor.CorrectedSaveOfLoadedBuffer` | basalt/src/note_editor/state.rs:130-150 | with the correction, saving the buffer loaded from any node without carriage returns leaves the content unchanged |
| `NoteEditor.SomeTextCorrectedSave` | basalt/src/markdown/parser.rs:15-36 | the corrected save of the documented paragraph keeps the note |
| `NoteEditor.DefaultEditor` | basalt/src/note_editor/state.rs:49-64 | an empty editor at node 0 |
| `NoteEditor.NewEditor` | basalt/src/note_editor/state.rs:102-110 | the content, its parse and the path, with everything else as in the default editor |
| `NoteEditor.UpdateTextBuffer` | basalt/src/note_editor/state.rs:355-361 | the buffer is reloaded from the current node's text at the old cursor; with no such node nothing changes |
| `NoteEditor.SetContent` | basalt/src/note_editor/state.rs:112-118 | the content and original become the text, the nodes its parse; row, flags and mode kept |
| `NoteEditor.IntermediateSave` | basalt/src/note_editor/state.rs:130-150 | the editor stays well formed |
| `NoteEditor.PrependText` | basalt/src/note_editor/state.rs:348-353 | the buffer with the text put in front stays well formed |
| `NoteEditor.DeleteChar` | basalt/src/note_editor/state.rs:152-186 | the editor stays well formed |
| `NoteEditor.MergeIntoPrevious` | basalt/src/note_editor/state.rs:157-172 | the merge moves to the previous node and marks the buffer dirty, changing only buffer, nodes, row and flag |
| `NoteEditor.MergeWithPrevious` | basalt/src/note_editor/state.rs:161-169 | the previous node's range extends to the current node's end and the current node is removed; the ranges still fit |
| `NoteEditor.MergeWithPreviousKeeps` | basalt/src/note_editor/state.rs:161-169 | the ranges before the previous node and after the current node are kept |
| `NoteEditor.SaveIfDirty` | basalt/src/note_editor/state.rs:199-202 | a dirty buffer is saved and made clean; a clean one changes nothing |
| `NoteEditor.EnterNode` | basalt/src/note_editor/state.rs:208-209 | the row moves and only the buffer is reloaded |
| `NoteEditor.CursorUp` | basalt/src/note_editor/state.rs:196-216 | the editor stays well formed; its effect is given by `NoteEditor.CursorUpAtTop` and `NoteEditor.CursorInsideBuffer` |
| `NoteEditor.CursorDown` | basalt/src/note_editor/state.rs:243-275 | the editor stays well formed; its effect is given by `NoteEditor.CursorDownAtBottom` and `NoteEditor.CursorInsideBuffer` |
| `NoteEditor.CursorLeft` | basalt/src/note_editor/state.rs:218-221 | only the buffer's cursor moves back |
| `NoteEditor.CursorRight` | basalt/src/note_editor/state.rs:223-226 | only the buffer's cursor moves forward |
| `NoteEditor.CursorMoveCol` | basalt/src/note_editor/state.rs:228-231 | only the buffer's cursor moves by the columns |
| `NoteEditor.Save` | basalt/src/note_editor/state.rs:277-297 | an unmodified editor or a failed write changes nothing; a successful write clears the modified flag |
| `NoteEditor.ScrollUp` | basalt/src/note_editor/state.rs:299-315 | only the scrollbar moves up, saturating at 0 |
| `NoteEditor.ScrollDown` | basalt/src/note_editor/state.rs:317-328 | only the scrollbar moves down, saturating at the largest index |
| `NoteEditor.SetMode` | basalt/src/note_editor/state.rs:330-333 | only the mode changes |
| `NoteEditor.Reset` | basalt/src/note_editor/state.rs:363-368 | the default editor, keeping the mode |
| `NoteEditor.BackUndoesForward` | basalt/src/note_editor/text_buffer.rs:107-108 | away from the very end, moving forward then back returns the cursor |
| `NoteEditor.MoveByColumns` | basalt/src/note_editor/text_buffer.rs:118-133 | a column move that stays in the line moves by exactly that much |
| `NoteEditor.IntermediateSaveEffect` | basalt/src/note_editor/state.rs:130-150 | with a current node the content becomes the spliced text, re-parsed only when it changed, and modified says whether it differs from the original; without one nothing changes |
| `NoteEditor.FirstNodeSaveModifies` | basalt/src/note_editor/state.rs:130-150 | an unedited first node saved in an unchanged note adds a leading line feed and marks the note modified |
| `NoteEditor.LastNodeSaveModifies` | basalt/src/note_editor/state.rs:130-150 | an unedited last node without a final line feed, saved in an unchanged note, appends a line feed and marks the note modified |
| `NoteEditor.CursorUpAtTop` | basalt/src/note_editor/state.rs:196-216 | on the buffer's first line, after saving a dirty buffer, the row goes up, saturating at 0; on moving the buffer holds the previous node's text with the cursor on its last line; at node 0 the editor is as the save left it; a clean buffer keeps the content |
| `NoteEditor.CursorDownAtBottom` | basalt/src/note_editor/state.rs:243-275 | on the buffer's last line, after saving a dirty buffer, the row becomes min(row + 1, len - 1), both saturating; on moving the buffer holds the next node's text with the cursor on its first line; at the last node the editor is as the save left it |
| `NoteEditor.CursorInsideBuffer` | basalt/src/note_editor/state.rs:196-275 | inside the buffer the cursor moves up or down a line, clamping the column, and nothing else changes |
| `NoteEditor.DeleteCharMerges` | basalt/src/note_editor/state.rs:157-172 | at the start of a non-blank node after the first, the node is merged into the previous one, which becomes current and dirty; the content is kept |
| `NoteEditor.DeleteCharSaves` | basalt/src/note_editor/state.rs:155-156 | at the start of a blank buffer, the deletion is an intermediate save |
| `NoteEditor.DeleteCharBackspace` | basalt/src/note_editor/state.rs:173-183 | away from the buffer's start, one backspace is made and the buffer is dirty |
| `NoteEditor.QuietOperations` | basalt/src/note_editor/state.rs:277-368 | scrolling changes only the scrollbar, saving an unmodified note nothing, and a reset keeps only the mode |
| `NoteEditorState.EditorState.Snapshot` | basalt/src/note_editor/state.rs:49-64 | the fields as a value |
| `NoteEditorState.EditorState.constructor` | basalt/src/note_editor/state.rs:102-110 | the fields hold the new editor for the content and path |
| `NoteEditorState.EditorState.UpdateBuffer` | basalt/src/note_editor/state.rs:355-361 | the fields become the editor with its buffer reloaded |
| `NoteEditorState.EditorState.SetContent` | basalt/src/note_editor/state.rs:112-118 | the fields become the editor with the new content |
| `NoteEditorState.EditorState.IntermediateSave` | basalt/src/note_editor/state.rs:130-150 | the fields become the saved editor |
| `NoteEditorState.EditorState.ExitInsert` | basalt/src/note_editor/state.rs:125-128 | leaving insert mode makes an intermediate save |
| `NoteEditorState.EditorState.DeleteChar` | basalt/src/note_editor/state.rs:152-186 | the fields become the editor after the deletion |
| `NoteEditorState.EditorState.MergeIntoPrevious` | basalt/src/note_editor/state.rs:157-172 | the fields become the editor after the merge |
| `NoteEditorState.EditorState.SaveIfDirty` | basalt/src/note_editor/state.rs:199-202 | the fields become the editor after the save of a dirty buffer |
| `NoteEditorState.EditorState.EnterNode` | basalt/src/note_editor/state.rs:208-209 | the fields become the editor at the node with its buffer |
| `NoteEditorState.EditorState.CursorUp` | basalt/src/note_editor/state.rs:196-216 | the fields become the editor after moving up |
| `NoteEditorState.EditorState.CursorDown` | basalt/src/note_editor/state.rs:243-275 | the fields become the editor after moving down |
| `NoteEditorState.EditorState.CursorLeft` | basalt/src/note_editor/state.rs:218-221 | the fields become the editor after moving left |
| `NoteEditorState.EditorState.CursorRight` | basalt/src/note_editor/state.rs:223-226 | the fields become the editor after moving right |
| `NoteEditorState.EditorState.CursorMoveCol` | basalt/src/note_editor/state.rs:228-231 | the fields become the editor after the column move |
| `NoteEditorState.EditorState.Save` | basalt/src/note_editor/state.rs:277-297 | the fields become the editor after the save, given whether the write succeeded |
| `NoteEditorState.EditorState.ScrollUp` | basalt/src/note_editor/state.rs:299-315 | the fields become the editor scrolled up |
| `NoteEditorState.EditorState.ScrollDown` | basalt/src/note_editor/state.rs:317-328 | the fields become the editor scrolled down |
| `NoteEditorState.EditorState.SetPath` | basalt/src/note_editor/state.rs:120-123 | only the path changes |
| `NoteEditorState.EditorState.SetActive` | basalt/src/note_editor/state.rs:343-346 | only the active flag changes |
| `NoteEditorState.EditorState.SetMode` | basalt/src/note_editor/state.rs:330-333 | only the mode changes |
| `NoteEditorState.EditorState.Reset` | basalt/src/note_editor/state.rs:363-368 | the fields become the default editor, keeping the mode |

## Left out

- The pulldown-cmark tokenizer (`Parser::new_ext`). The builders take the event stream as input, so the documents of the examples and tests are restated as hand-written event streams. For `basalt/src/markdown/parser.rs` these carry the byte ranges the tokenizer reports: the `# My Heading` and `Hello world` examples, and the six-heading, task-list and block-quote cases of `test_parse`. For `basalt-core/src/markdown.rs`, whose nodes have no ranges, they are plain events: the `# My Heading` and `Hello world` examples, and the six-heading, quote and task cases of `test_parse`. That the tokenizer emits these streams for those texts is not proved.
- All rendering: the markdown view, the editor widget, the outline, explorer and status bar widgets, the start screen, the `render` methods and `modal_area` layouts. These build terminal widgets.
- `basalt/src/app.rs`, the terminal event loop and reducer. It is glue over the widget states and reads files.
- Reading the vault from disk (`VaultEntry::try_from`), the vault and Obsidian configuration files, and notes' file metadata. Vault trees are inputs instead; `VaultEntry.WellFormed` states what a tree read from disk satisfies.
- Reading the user configuration and parsing TOML (`read_user_config`, `toml::from_str`). `Config.Load` takes the outcome of both reads as parameters. Serde's deserialisation is represented only by `KeyBinding.ParseKey` and the custom-error conversion. In the program that visitor runs inside `toml::from_str` (config.rs:220, config.rs:240) with `toml::de::Error` as its error type, so a bad binding reaches the caller as `ConfigError::Toml` (config.rs:23), carrying the message; `ConfigErrors.Custom` models the conversion into `InvalidKeybinding` that `key_binding.rs` writes for other deserialisers.
- The `Display` implementations of `ConfigSection` and `Config`. They only format text for debugging.
- The terminal library's `ListState` and `ScrollbarState`. Only the behaviour of `select`, `select_previous`, `offset_mut`, `with_selected` and `position` that the widgets rely on is modelled, in `ListSelection` and `Scrollbars`. The offset a `List` draws from (`ListSelection.DrawnOffset`) is written out for rows one line high and no scroll padding, as an assumption about the library. Positions are natural numbers.
- crossterm's `KeyCode` display names and the order in which `KeyModifiers::iter_names` lists flags. They are written out in `KeyBinding` as a table, as an assumption about the library.
- Lower-casing (`to_lowercase`) is modelled on ASCII only. Other characters are kept, whereas Rust also lowers non-ASCII letters. Text comparison is by character code, the same order as Rust's byte-wise comparison of UTF-8.
- `str::lines` is modelled as splitting at line feeds, dropping one final empty piece and one carriage return at the end of each piece that a line feed ends. `split_whitespace` uses Unicode's White_Space list as written out in `TextCounts.IsWhitespace`.
- The three source files do not agree on the name of the action type: `Message` in `config.rs`, `Action` in `key_binding.rs`. Both are modelled as one `Action` type. Likewise `Key::CTRLC` and `Key::CTRL_C` are one constant.
- OutlineState.OutlineState.Next: `i + amount` is unbounded here, whereas Rust would overflow near the largest `usize`.
- ExplorerState.ExplorerState.Next: the same unbounded `i + amount`.
- SidePanel.SidePanelState.CalculateOffset: `idx + half` is unbounded. The unchecked `len - 1` on an empty list wraps around to `usize::MAX`, as a release build computes it; the panic of a debug build is not modelled.
- VaultSelector.VaultSelectorState.Next: `i + 1` is unbounded. The unchecked `items.len() - 1` on an empty list wraps around as in a release build; the panic of a debug build is not modelled.
- VaultSelectorModal.VaultSelectorModalState.Next: the same as the inner selector's `next`.
- SidePanel.SidePanelState.Next: the same unbounded `i + 1`, and the same wrapped `items.len() - 1` on an empty list in place of the debug build's panic.
- ExplorerState.ExplorerState.UpdateOffset and SidePanel.SidePanelState.UpdateOffset: `update_offset_mut` writes the offset through `&mut self`. Here it is a function returning the updated state, as every other method of these states is.
- ExplorerState.SortItems: `sort_by` is a stable merge sort, and the model sorts by stable insertion instead. The two agree on every input, because a stable sort has only one result (`ExplorerState.SortedByKeyClasses`); the merge sort's steps are not modelled.
- Config.ConfigSection.MergeKeyBindings: the loop inserts the other section's keys in an unspecified order. Since the keys are distinct, the order does not change the result.
- The third text-count test, the quotes document, is not restated. The first two are restated through parameters fixed by the requires clauses (`TextCounts.HeadingsDocument`, `TextCounts.TasksDocument`), which keeps the proofs small.
- The styler test over the whole alphabet is covered by `StylizedText.StylizeOffsets` rather than restated character by character.
- The outline reads the nodes of the editor's markdown parser (`crate::note_editor::markdown_parser::Node`, basalt/src/outline/state.rs:5). That parser is not part of this model, so the outline is fed the `MarkdownAst` nodes instead, and a heading's `content: text.into()` (basalt/src/outline/state.rs:107) is modelled as the concatenation of its text nodes' contents (`OutlineState.HeadingContent`). Both are stand-ins.
- The editor's markdown parser (`basalt/src/note_editor/markdown_parser.rs`) is not part of this model. The editor takes it as the `parse` parameter, assumed to return ordered source ranges that fit the text it parses (`NoteEditor.ParserFits`). Under that assumption `content_slice` never panics.
- The editor's source ranges index the note by character. The source uses UTF-8 byte offsets, which agree only on ASCII text.
- The editing buffer (a text area from the tui-textarea library) is modelled as lines plus a cursor. The cursor moves (`Top`, `Bottom`, `Up`, `Down`, `Back`, `Forward`, `Jump`) and `Backspace` follow that library's documented behaviour as an assumption.
- The editor's `edit(input)` for arbitrary key input, and `cursor_word_forward` / `cursor_word_backward`, are left out. They depend entirely on the text area's input handling.
- `save_modified_to_file` writes a file. `NoteEditor.Save` takes whether the write succeeded as the `written` parameter.
- The text buffer's `is_empty`, `modified` and `lines` getters are left out. They only read fields.
- Interaction between widgets (which widget is focused, which key goes where) lives in `app.rs` and is left out with it.

## Findings

| source | as written | input that shows it | evidently intended | confidence | as-written member | corrected member |
|---|---|---|---|---|---|---|
| basalt/src/outline/state.rs:131-145 | `new` looks up the selected row with `select_at` before `expand_all`, so the row number comes from the collapsed outline but is applied to the expanded one | headings H1, H2, H1 at nodes 0, 1, 2, opened at node 2: the collapsed outline has it in row 1, which in the expanded outline is the H2 heading of node 1 | the selected row contains the node the outline was opened at | medium, not executed | `OutlineStateFacts.NewSelectsOtherHeading` (about `OutlineState.New`) | `OutlineState.NewExpandedFirst` |
| basalt/src/explorer/state.rs:182-194 | `update_offset_mut` computes the offset from `items.len()`, the top-level items, while the list shows `flat_items`. The list moves the offset again when it draws so that the selection is shown, so what is lost is the centring, not the selected row | one expanded directory with nine files (ten rows), row 4 selected, a window of 4 rows: the offset is 0, which the list draws as 1, with the selected row at the bottom; counting rows gives the centred 2 | the selected row is centred in the window | medium, not executed | `ExplorerStateFacts.OffsetLosesCentring` (about `ExplorerState.ExplorerState.UpdateOffset`) | `ExplorerState.ExplorerState.UpdateOffsetByRows` (`ExplorerStateFacts.OffsetByRowsCentresSelectedRow`) |
| basalt/src/note_editor/state.rs:130-150 | for a node starting at 0, `start.saturating_sub(1)` is 0 and the join still puts a line feed before the buffer | a note whose first node is `# A\n`, saved without an edit: the content becomes `\n# A\n...` and is marked modified | an unedited save leaves the content unchanged | medium, not executed | `NoteEditor.UneditedSaveOfFirstNode` (with `NoteEditor.FirstNodeSaveModifies`) | `NoteEditor.SavedContentCorrected` (`NoteEditor.CorrectedUneditedSave`, `NoteEditor.CorrectedSaveOfLoadedBuffer`) |
| basalt/src/note_editor/state.rs:130-150 | the join always puts a line feed after the buffer, though a last node of a note without a final line feed had none | the documented `# My Heading\n\nSome text.` (basalt/src/markdown/parser.rs:15-36), its paragraph 14..24 saved without an edit: the content gains a final line feed and is marked modified | an unedited save leaves the content unchanged | medium, not executed | `NoteEditor.UneditedSaveOfUnterminatedNode` (with `NoteEditor.SomeTextSaveAppendsLineFeed`, `NoteEditor.LastNodeSaveModifies`) | `NoteEditor.SavedContentCorrected` (`NoteEditor.CorrectedSaveOfLoadedBuffer`, `NoteEditor.SomeTextCorrectedSave`) |

The state models (`OutlineState.OutlineState`, `ExplorerState.ExplorerState`, `NoteEditor` and `NoteEditorState.EditorState`) follow the code as written. The corrected members are stated beside them. This way the properties proved about the states are properties of the program as it is.
