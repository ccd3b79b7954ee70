/** The canonical markdown tree builder (basalt/src/markdown/parser.rs). It consumes the flat
    stream of tokenizer events, each paired with its source range, and nests them into a tree of
    `Node`s. Recursion happens only at block quote and list open tags; every other supported tag
    opens a leaf that collects the following text events. The shared peekable iterator of the
    source is modelled as a position into the event sequence. */
module MarkdownParser {
  import opened Wrappers
  import Cmark
  import opened MarkdownAst

  type Events = seq<(Cmark.Event, Cmark.Range)>

  /** The nodes one level produced and the position of the first event it did not consume. */
  datatype Parsed = Parsed(nodes: seq<Node>, next: nat)

  /** The node an open tag produced, if any, and the position of the first event after it. */
  datatype Opened = Opened(node: Option<Node>, next: nat)

  /** Open tags the builder turns into a node. */
  predicate Supported(tag: Cmark.Tag) {
    tag.Paragraph? || tag.Heading? || tag.BlockQuote? || tag.CodeBlock? || tag.List? || tag.Item?
  }

  /** Events the builder drops without looking at them. */
  predicate Ignored(e: Cmark.Event) {
    !(e.Start? || e.End? || e.Text? || e.Code? || e.TaskListMarker?)
  }

  /** Whether `tagEnd` closes a level opened by `tag`. Only the six supported tags can be closed. */
  function MatchesTagEnd(tag: Cmark.Tag, tagEnd: Cmark.TagEnd): (r: bool)
    ensures r ==> Supported(tag)
    ensures r ==> (tag.List? <==> tagEnd.EndList?) && (tag.BlockQuote? <==> tagEnd.EndBlockQuote?)
  {
    || (tag.Paragraph? && tagEnd.EndParagraph?)
    || (tag.Heading? && tagEnd.EndHeading?)
    || (tag.BlockQuote? && tagEnd.EndBlockQuote?)
    || (tag.CodeBlock? && tagEnd.EndCodeBlock?)
    || (tag.List? && tagEnd.EndList?)
    || (tag.Item? && tagEnd.EndItem?)
  }

  /** Whether a node ends its pre-order with a text-holding node, which is where pushed text lands. */
  predicate HasLastLeaf(n: Node)
    decreases n
  {
    match n.markdownNode
    case BlockQuote(_, ns) => |ns| > 0 && HasLastLeaf(ns[|ns| - 1])
    case List(_, ns) => |ns| > 0 && HasLastLeaf(ns[|ns| - 1])
    case _ => true
  }

  /** `Node::push_text_node`: append `t` to the text of a leaf; for a list or block quote,
      descend into its last child, and drop `t` when there is none. */
  function PushTextNode(n: Node, t: TextNode): (r: Node)
    ensures r.sourceRange == n.sourceRange
    ensures !HasLastLeaf(n) ==> r == n
    decreases n
  {
    match n.markdownNode
    case Heading(level, text) => Node(Heading(level, text + [t]), n.sourceRange)
    case Paragraph(text) => Node(Paragraph(text + [t]), n.sourceRange)
    case CodeBlock(lang, text) => Node(CodeBlock(lang, text + [t]), n.sourceRange)
    case TaskListItem(kind, text) => Node(TaskListItem(kind, text + [t]), n.sourceRange)
    case Item(text) => Node(Item(text + [t]), n.sourceRange)
    case BlockQuote(kind, ns) =>
      if ns == [] then n
      else Node(BlockQuote(kind, ns[..|ns| - 1] + [PushTextNode(ns[|ns| - 1], t)]), n.sourceRange)
    case List(kind, ns) =>
      if ns == [] then n
      else Node(List(kind, ns[..|ns| - 1] + [PushTextNode(ns[|ns| - 1], t)]), n.sourceRange)
  }

  /** A text or code event: the level's last node receives the text; an empty level drops it. */
  function PushLast(nodes: seq<Node>, t: TextNode): (r: seq<Node>)
    ensures |r| == |nodes|
    ensures |nodes| > 0 ==>
      r[..|r| - 1] == nodes[..|nodes| - 1] && r[|r| - 1] == PushTextNode(nodes[|nodes| - 1], t)
  {
    if nodes == [] then nodes else nodes[..|nodes| - 1] + [PushTextNode(nodes[|nodes| - 1], t)]
  }

  /** A task list marker: the level's last node becomes a task item with empty text, keeping its
      source range; an empty level is left alone. */
  function MarkLast(nodes: seq<Node>, checked: bool): (r: seq<Node>)
    ensures |r| == |nodes|
    ensures forall i :: 0 <= i < |r| - 1 ==> r[i] == nodes[i]
    ensures |nodes| > 0 ==>
      r[|r| - 1] == Node(TaskListItem(if checked then Checked else Unchecked, []),
                         nodes[|nodes| - 1].sourceRange)
  {
    if nodes == [] then nodes
    else
      var kind := if checked then Checked else Unchecked;
      nodes[|nodes| - 1 := Node(TaskListItem(kind, []), nodes[|nodes| - 1].sourceRange)]
  }

  /** `Parser::parse_events`: the nodes of one level, appended to `acc`, from position `pos` until
      an end event that closes `current` (which is consumed) or the end of the stream. Close events
      that do not match, and every close event at top level, are skipped. */
  function Level(acc: seq<Node>, events: Events, pos: nat, current: Option<Cmark.Tag>): (r: Parsed)
    requires pos <= |events|
    ensures pos <= r.next <= |events|
    ensures r.next < |events| ==> pos < r.next && Closes(events[r.next - 1].0, current)
    decreases |events| - pos, 1
  {
    if pos == |events| then Parsed(acc, pos)
    else if Closes(events[pos].0, current) then Parsed(acc, pos + 1)
    else
      var step := Consume(acc, events, pos);
      Level(step.nodes, events, step.next, current)
  }

  /** Whether `event` ends the level opened by `current`. */
  predicate Closes(event: Cmark.Event, current: Option<Cmark.Tag>) {
    event.End? && current.Some? && MatchesTagEnd(current.value, event.tagEnd)
  }

  /** One round of the loop in `parse_events` that does not leave the level: the event at `pos`
      is consumed (with the events of a nested level it opens) and the level's nodes updated. */
  function Consume(acc: seq<Node>, events: Events, pos: nat): (r: Parsed)
    requires pos < |events|
    ensures pos < r.next <= |events|
    decreases |events| - pos, 0
  {
    var event := events[pos].0;
    if event.Start? then
      var tagged := TagToNode(event.tag, events, pos + 1, events[pos].1);
      Parsed(if tagged.node.Some? then acc + [tagged.node.value] else acc, tagged.next)
    else if event.Text? then Parsed(PushLast(acc, TextNode(event.text, None)), pos + 1)
    else if event.Code? then Parsed(PushLast(acc, TextNode(event.code, Some(Style.Code))), pos + 1)
    else if event.TaskListMarker? then Parsed(MarkLast(acc, event.checked), pos + 1)
    else Parsed(acc, pos + 1)
  }

  /** `Parser::parse_tag`: block quotes and lists become containers holding the recursively
      parsed level; headings, code blocks, paragraphs and items become leaves with empty text;
      any other tag yields no node. The node carries the open event's range. */
  function TagToNode(tag: Cmark.Tag, events: Events, pos: nat, range: Cmark.Range): (r: Opened)
    requires pos <= |events|
    ensures pos <= r.next <= |events|
    ensures r.node.Some? <==> Supported(tag)
    ensures r.node.Some? ==> r.node.value.sourceRange == range
    ensures r.node.Some? ==> (r.node.value.markdownNode.IsContainer() <==> tag.BlockQuote? || tag.List?)
    ensures !(tag.BlockQuote? || tag.List?) ==>
      r.next == pos && (r.node.Some? ==> r.node.value.markdownNode.text == [])
    ensures tag.BlockQuote? || tag.List? ==>
      var level := Level([], events, pos, Some(tag));
      r.node.value.markdownNode.nodes == level.nodes && r.next == level.next
    ensures tag.List? ==> (r.node.value.markdownNode.List?
      && (r.node.value.markdownNode.listKind.Ordered? <==> tag.start.Some?)
      && (tag.start.Some? ==> r.node.value.markdownNode.listKind.start == tag.start.value))
    ensures tag.BlockQuote? ==> (r.node.value.markdownNode.BlockQuote?
      && (r.node.value.markdownNode.kind.Some? <==> tag.kind.Some?)
      && (tag.kind.Some? ==> r.node.value.markdownNode.kind.value.Name() == tag.kind.value.Name()))
    ensures tag.Heading? ==> (r.node.value.markdownNode.Heading?
      && r.node.value.markdownNode.level.Number() == tag.level.Number())
    ensures tag.CodeBlock? ==> r.node.value.markdownNode.CodeBlock? && r.node.value.markdownNode.lang.None?
    ensures tag.Paragraph? ==> r.node.value.markdownNode.Paragraph?
    ensures tag.Item? ==> r.node.value.markdownNode.Item?
    decreases |events| - pos, 2
  {
    if tag.BlockQuote? then
      var level := Level([], events, pos, Some(tag));
      var kind := if tag.kind.Some? then Some(BlockQuoteKindFrom(tag.kind.value)) else None;
      Opened(Some(Node(BlockQuote(kind, level.nodes), range)), level.next)
    else if tag.List? then
      var level := Level([], events, pos, Some(tag));
      var kind := if tag.start.Some? then Ordered(tag.start.value) else ListKind.Unordered;
      Opened(Some(Node(List(kind, level.nodes), range)), level.next)
    else if tag.Heading? then Opened(Some(Node(Heading(HeadingLevelFrom(tag.level), []), range)), pos)
    else if tag.CodeBlock? then Opened(Some(Node(CodeBlock(None, []), range)), pos)
    else if tag.Paragraph? then Opened(Some(Node(Paragraph([]), range)), pos)
    else if tag.Item? then Opened(Some(Node(Item([]), range)), pos)
    else Opened(None, pos)
  }

  /** `Parser::parse`: the top level, with no enclosing tag, over the whole stream. */
  function FromEvents(events: Events): (r: seq<Node>)
  {
    Level([], events, 0, None).nodes
  }

  /** `Parser::parse_events` as the loop the source runs, over a shared position in the stream. */
  method ParseEvents(events: Events, pos: nat, current: Option<Cmark.Tag>)
    returns (nodes: seq<Node>, next: nat)
    requires pos <= |events|
    ensures Parsed(nodes, next) == Level([], events, pos, current)
    decreases |events| - pos, 0
  {
    nodes := [];
    next := pos;
    while next < |events|
      invariant pos <= next <= |events|
      invariant Level(nodes, events, next, current) == Level([], events, pos, current)
      decreases |events| - next
    {
      ghost var before, at := nodes, next;
      var event := events[next].0;
      var range := events[next].1;
      next := next + 1;
      if event.Start? {
        var node, after := ParseTag(event.tag, events, next, range);
        if node.Some? {
          nodes := nodes + [node.value];
        }
        next := after;
      } else if event.End? {
        if current.Some? && MatchesTagEnd(current.value, event.tagEnd) {
          return;
        }
      } else if event.Text? {
        if |nodes| > 0 {
          nodes := nodes[..|nodes| - 1] + [PushTextNode(nodes[|nodes| - 1], TextNode(event.text, None))];
        }
      } else if event.Code? {
        if |nodes| > 0 {
          nodes := nodes[..|nodes| - 1]
                   + [PushTextNode(nodes[|nodes| - 1], TextNode(event.code, Some(Style.Code)))];
        }
      } else if event.TaskListMarker? {
        if |nodes| > 0 {
          var sourceRange := nodes[|nodes| - 1].sourceRange;
          if event.checked {
            nodes := nodes[|nodes| - 1 := Node(TaskListItem(Checked, []), sourceRange)];
          } else {
            nodes := nodes[|nodes| - 1 := Node(TaskListItem(Unchecked, []), sourceRange)];
          }
        }
      }
      assert Parsed(nodes, next) == Consume(before, events, at);
    }
  }

  /** `Parser::parse_tag`, recursing into `ParseEvents` for block quotes and lists. */
  method ParseTag(tag: Cmark.Tag, events: Events, pos: nat, range: Cmark.Range)
    returns (node: Option<Node>, next: nat)
    requires pos <= |events|
    ensures Opened(node, next) == TagToNode(tag, events, pos, range)
    decreases |events| - pos, 1
  {
    if tag.BlockQuote? {
      var nodes;
      nodes, next := ParseEvents(events, pos, Some(tag));
      var kind := if tag.kind.Some? then Some(BlockQuoteKindFrom(tag.kind.value)) else None;
      node := Some(Node(BlockQuote(kind, nodes), range));
    } else if tag.List? {
      var nodes;
      nodes, next := ParseEvents(events, pos, Some(tag));
      var kind := if tag.start.Some? then Ordered(tag.start.value) else ListKind.Unordered;
      node := Some(Node(List(kind, nodes), range));
    } else if tag.Heading? {
      node, next := Some(Node(Heading(HeadingLevelFrom(tag.level), []), range)), pos;
    } else if tag.CodeBlock? {
      node, next := Some(Node(CodeBlock(None, []), range)), pos;
    } else if tag.Paragraph? {
      node, next := Some(Node(Paragraph([]), range)), pos;
    } else if tag.Item? {
      node, next := Some(Node(Item([]), range)), pos;
    } else {
      node, next := None, pos;
    }
  }

  /** `Parser::parse`: consumes the whole stream. */
  method Parse(events: Events) returns (nodes: seq<Node>)
    ensures nodes == FromEvents(events)
  {
    var next;
    nodes, next := ParseEvents(events, 0, None);
  }
}
