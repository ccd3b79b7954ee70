/** The earlier, flat markdown builder of the core library (basalt-core/src/markdown.rs). It keeps
    one open node, `currentNode`, and a list of finished nodes, `output`. Only a block quote nests:
    a block opened while the current node is a block quote becomes its last child; any other
    block replaces the current node, discarding it. Nodes carry no source ranges. */
module CoreMarkdown {
  import opened Wrappers
  import Cmark

  datatype Style = Code | Emphasis | Strikethrough | Strong

  /** Item variants; the builder assigns only `HardChecked` and `Unchecked`. */
  datatype ItemKind = HardChecked | Checked | Unchecked | Ordered(index: nat) | Unordered

  datatype HeadingLevel = H1 | H2 | H3 | H4 | H5 | H6 {
    function Number(): nat {
      match this
      case H1 => 1 case H2 => 2 case H3 => 3 case H4 => 4 case H5 => 5 case H6 => 6
    }
  }

  datatype BlockQuoteKind = Note | Tip | Important | Warning | Caution {
    function Name(): string {
      match this
      case Note => "note" case Tip => "tip" case Important => "important"
      case Warning => "warning" case Caution => "caution"
    }
  }

  function HeadingLevelFrom(level: Cmark.HeadingLevel): (r: HeadingLevel)
    ensures r.Number() == level.Number()
  {
    match level
    case H1 => H1 case H2 => H2 case H3 => H3 case H4 => H4 case H5 => H5 case H6 => H6
  }

  function BlockQuoteKindFrom(kind: Cmark.BlockQuoteKind): (r: BlockQuoteKind)
    ensures r.Name() == kind.Name()
  {
    match kind
    case Tip => Tip case Note => Note case Warning => Warning
    case Caution => Caution case Important => Important
  }

  datatype TextNode = TextNode(content: string, style: Option<Style>)

  type Text = seq<TextNode>

  datatype Node =
    | Heading(level: HeadingLevel, text: Text)
    | Paragraph(text: Text)
    | BlockQuote(kind: Option<BlockQuoteKind>, nodes: seq<Node>)
    | CodeBlock(lang: Option<string>, text: Text)
    | Item(itemKind: Option<ItemKind>, text: Text)
  {
    /** Whether pushed text has somewhere to go: a text-holding node, or a block quote whose
        last child has somewhere to go. */
    predicate TakesText()
      decreases this
    {
      !BlockQuote? || (|nodes| > 0 && nodes[|nodes| - 1].TakesText())
    }

    /** `Node::push_text_node`: append to the node's text; a block quote passes the text to its
        last child and drops it when it has none. */
    function PushTextNode(t: TextNode): (r: Node)
      ensures !TakesText() ==> r == this
      ensures !BlockQuote? ==> !r.BlockQuote? && r.text == text + [t]
      decreases this
    {
      match this
      case Heading(level, text) => Heading(level, text + [t])
      case Paragraph(text) => Paragraph(text + [t])
      case CodeBlock(lang, text) => CodeBlock(lang, text + [t])
      case Item(itemKind, text) => Item(itemKind, text + [t])
      case BlockQuote(kind, nodes) =>
        if nodes == [] then this
        else BlockQuote(kind, nodes[..|nodes| - 1] + [nodes[|nodes| - 1].PushTextNode(t)])
    }
  }

  /** `matches_tag_end`: a node closes on the end event of its own kind. Lists, which open
      paragraphs, therefore never close on their own end event. */
  function MatchesTagEnd(node: Node, tagEnd: Cmark.TagEnd): bool {
    || (node.Paragraph? && tagEnd.EndParagraph?)
    || (node.Heading? && tagEnd.EndHeading?)
    || (node.BlockQuote? && tagEnd.EndBlockQuote?)
    || (node.CodeBlock? && tagEnd.EndCodeBlock?)
    || (node.Item? && tagEnd.EndItem?)
  }

  /** Tags with a node variant of their own. */
  predicate HasVariant(tag: Cmark.Tag) {
    tag.Paragraph? || tag.Heading? || tag.BlockQuote? || tag.CodeBlock? || tag.Item?
  }

  /** The empty node an open tag starts (the body of `Parser::tag`). */
  function OpenedBy(tag: Cmark.Tag): (r: Node)
    ensures r.BlockQuote? ==> r.nodes == []
    ensures !r.BlockQuote? ==> r.text == []
    ensures !HasVariant(tag) ==> r == Paragraph([])
    ensures tag.Paragraph? ==> r == Paragraph([])
    ensures tag.Heading? ==> r.Heading? && r.level.Number() == tag.level.Number()
    ensures tag.BlockQuote? ==> (r.BlockQuote?
      && (r.kind.Some? <==> tag.kind.Some?)
      && (tag.kind.Some? ==> r.kind.value.Name() == tag.kind.value.Name()))
    ensures tag.CodeBlock? ==> r == CodeBlock(None, [])
    ensures tag.Item? ==> r == Item(None, [])
  {
    if tag.Heading? then Heading(HeadingLevelFrom(tag.level), [])
    else if tag.BlockQuote? then
      BlockQuote(if tag.kind.Some? then Some(BlockQuoteKindFrom(tag.kind.value)) else None, [])
    else if tag.CodeBlock? then CodeBlock(None, [])
    else if tag.Item? then Item(None, [])
    else Paragraph([])
  }

  /** Events the builder does nothing with. */
  predicate Ignored(e: Cmark.Event) {
    !(e.Start? || e.End? || e.Text? || e.Code? || e.TaskListMarker?)
  }

  /** The parser's two fields as a value; the specification of the `Parser` methods below. */
  datatype ParserState = ParserState(output: seq<Node>, currentNode: Option<Node>) {
    predicate InQuote() {
      currentNode.Some? && currentNode.value.BlockQuote?
    }

    /** `push_node`: the node becomes the open quote's last child, or else the current node. */
    function PushNode(node: Node): (r: ParserState)
      ensures r.output == output && r.currentNode.Some?
      ensures InQuote() ==> (r.InQuote()
        && r.currentNode.value.kind == currentNode.value.kind
        && r.currentNode.value.nodes == currentNode.value.nodes + [node])
      ensures !InQuote() ==> r.currentNode == Some(node)
    {
      if InQuote() then
        ParserState(output, Some(BlockQuote(currentNode.value.kind, currentNode.value.nodes + [node])))
      else SetNode(node)
    }

    /** `set_node`: replace the current node, whatever it was. */
    function SetNode(node: Node): (r: ParserState)
      ensures r.output == output && r.currentNode == Some(node)
    {
      ParserState(output, Some(node))
    }

    /** `push_text_node`: text goes into the current node; with none it is dropped. */
    function PushTextNode(t: TextNode): (r: ParserState)
      ensures r.output == output && (r.currentNode.Some? <==> currentNode.Some?)
      ensures currentNode.Some? ==> r.currentNode.value == currentNode.value.PushTextNode(t)
    {
      if currentNode.Some? then ParserState(output, Some(currentNode.value.PushTextNode(t))) else this
    }

    /** `tag`: open the node the tag starts, inside the open quote if there is one. */
    function Tag(tag: Cmark.Tag): (r: ParserState)
      ensures r.output == output && r.currentNode.Some?
      ensures InQuote() ==> (r.InQuote()
        && r.currentNode.value.kind == currentNode.value.kind
        && r.currentNode.value.nodes == currentNode.value.nodes + [OpenedBy(tag)])
      ensures !InQuote() ==> r.currentNode == Some(OpenedBy(tag))
    {
      PushNode(OpenedBy(tag))
    }

    /** `tag_end`: a matching end event moves the current node to the output; otherwise the
        state is left as it was. */
    function TagEnd(tagEnd: Cmark.TagEnd): (r: ParserState)
      ensures currentNode.Some? && MatchesTagEnd(currentNode.value, tagEnd) ==>
        r == ParserState(output + [currentNode.value], None)
      ensures !(currentNode.Some? && MatchesTagEnd(currentNode.value, tagEnd)) ==> r == this
    {
      if currentNode.None? then this
      else if MatchesTagEnd(currentNode.value, tagEnd) then ParserState(output + [currentNode.value], None)
      else SetNode(currentNode.value)
    }

    /** `handle_event`. */
    function HandleEvent(e: Cmark.Event): (r: ParserState)
      ensures Ignored(e) ==> r == this
      ensures !e.End? ==> r.output == output
      ensures e.TaskListMarker? ==>
        r.currentNode == Some(Item(Some(if e.checked then HardChecked else Unchecked), []))
    {
      if e.Start? then Tag(e.tag)
      else if e.End? then TagEnd(e.tagEnd)
      else if e.Text? then PushTextNode(TextNode(e.text, None))
      else if e.Code? then PushTextNode(TextNode(e.code, Some(Style.Code)))
      else if e.TaskListMarker? then
        SetNode(Item(Some(if e.checked then HardChecked else Unchecked), []))
      else this
    }

    /** The end of `parse`: a node still open is flushed to the output. */
    function Flush(): (r: seq<Node>)
      ensures output <= r
      ensures |r| == |output| + (if currentNode.Some? then 1 else 0)
      ensures currentNode.Some? ==> r[|r| - 1] == currentNode.value
    {
      if currentNode.Some? then output + [currentNode.value] else output
    }
  }

  /** The state after handling `events` in order. */
  function Run(s: ParserState, events: seq<Cmark.Event>): ParserState
    decreases |events|
  {
    if events == [] then s else Run(s, events[..|events| - 1]).HandleEvent(events[|events| - 1])
  }

  /** `from_str` / `Parser::parse` from a fresh parser. */
  function FromEvents(events: seq<Cmark.Event>): seq<Node> {
    Run(ParserState([], None), events).Flush()
  }

  class Parser {
    var output: seq<Node>
    var currentNode: Option<Node>

    function State(): ParserState
      reads this
    {
      ParserState(output, currentNode)
    }

    /** `Parser::new`, with the tokenizer left out. */
    constructor()
      ensures State() == ParserState([], None)
    {
      output := [];
      currentNode := None;
    }

    method PushNode(node: Node)
      modifies this
      ensures State() == old(State()).PushNode(node)
    {
      if currentNode.Some? && currentNode.value.BlockQuote? {
        currentNode := Some(BlockQuote(currentNode.value.kind, currentNode.value.nodes + [node]));
      } else {
        SetNode(node);
      }
    }

    method PushTextNode(t: TextNode)
      modifies this
      ensures State() == old(State()).PushTextNode(t)
    {
      if currentNode.Some? {
        currentNode := Some(currentNode.value.PushTextNode(t));
      }
    }

    method SetNode(node: Node)
      modifies this
      ensures State() == old(State()).SetNode(node)
    {
      currentNode := Some(node);
    }

    method Tag(tag: Cmark.Tag)
      modifies this
      ensures State() == old(State()).Tag(tag)
    {
      if tag.Paragraph? {
        PushNode(Paragraph([]));
      } else if tag.Heading? {
        PushNode(Heading(HeadingLevelFrom(tag.level), []));
      } else if tag.BlockQuote? {
        var kind := if tag.kind.Some? then Some(BlockQuoteKindFrom(tag.kind.value)) else None;
        PushNode(BlockQuote(kind, []));
      } else if tag.CodeBlock? {
        PushNode(CodeBlock(None, []));
      } else if tag.Item? {
        PushNode(Item(None, []));
      } else {
        PushNode(Paragraph([]));
      }
    }

    method TagEnd(tagEnd: Cmark.TagEnd)
      modifies this
      ensures State() == old(State()).TagEnd(tagEnd)
    {
      var node := currentNode;
      currentNode := None;
      if node.None? {
        return;
      }
      if MatchesTagEnd(node.value, tagEnd) {
        output := output + [node.value];
      } else {
        SetNode(node.value);
      }
    }

    method HandleEvent(e: Cmark.Event)
      modifies this
      ensures State() == old(State()).HandleEvent(e)
    {
      if e.Start? {
        Tag(e.tag);
      } else if e.End? {
        TagEnd(e.tagEnd);
      } else if e.Text? {
        PushTextNode(TextNode(e.text, None));
      } else if e.Code? {
        PushTextNode(TextNode(e.code, Some(Style.Code)));
      } else if e.TaskListMarker? {
        if e.checked {
          SetNode(Item(Some(HardChecked), []));
        } else {
          SetNode(Item(Some(Unchecked), []));
        }
      }
    }

    /** `Parser::parse`: handle every event, then flush the open node. */
    method Parse(events: seq<Cmark.Event>) returns (nodes: seq<Node>)
      modifies this
      ensures nodes == Run(old(State()), events).Flush()
      ensures State() == ParserState(nodes, None)
    {
      ghost var start := State();
      var i := 0;
      while i < |events|
        invariant 0 <= i <= |events|
        invariant State() == Run(start, events[..i])
      {
        assert events[..i + 1][..i] == events[..i];
        HandleEvent(events[i]);
        i := i + 1;
      }
      assert events[..|events|] == events;
      var node := currentNode;
      currentNode := None;
      if node.Some? {
        output := output + [node.value];
      }
      nodes := output;
    }
  }
}
