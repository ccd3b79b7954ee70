/** The tree that the canonical markdown builder produces: a `Node` pairs a `MarkdownNode`
    variant with the byte range of the source text it was built from. */
module MarkdownAst {
  import opened Wrappers
  import Cmark

  /** Inline style of a text node; inline code is the only style the builder assigns. */
  datatype Style = Code

  /** Declared list item kinds; the builder never constructs a value of this type. */
  datatype ItemKind = Unordered

  datatype TaskListItemKind = Checked | Unchecked

  datatype HeadingLevel = H1 | H2 | H3 | H4 | H5 | H6 {
    /** The heading's depth, 1 for `#` up to 6 for `######`. */
    function Number(): nat {
      match this
      case H1 => 1 case H2 => 2 case H3 => 3 case H4 => 4 case H5 => 5 case H6 => 6
    }
  }

  datatype BlockQuoteKind = Note | Tip | Important | Warning | Caution {
    function Name(): string {
      match this
      case Note => "note" case Tip => "tip" case Important => "important"
      case Warning => "warning" case Caution => "caution"
    }
  }

  /** An ordered list carries its start number; pulldown-cmark reports it as a u64. */
  datatype ListKind = Ordered(start: nat) | Unordered

  datatype TextNode = TextNode(content: string, style: Option<Style>)

  type Text = seq<TextNode>

  type Range = Cmark.Range

  datatype Node = Node(markdownNode: MarkdownNode, sourceRange: Range)

  datatype MarkdownNode =
    | Heading(level: HeadingLevel, text: Text)
    | Paragraph(text: Text)
    | BlockQuote(kind: Option<BlockQuoteKind>, nodes: seq<Node>)
    | CodeBlock(lang: Option<string>, text: Text)
    | List(listKind: ListKind, nodes: seq<Node>)
    | Item(text: Text)
    | TaskListItem(taskKind: TaskListItemKind, text: Text)
  {
    /** Block quotes and lists hold child nodes; every other variant holds text. */
    predicate IsContainer() {
      BlockQuote? || List?
    }
  }

  /** Conversion of the tokenizer's heading level, keeping the depth. */
  function HeadingLevelFrom(level: Cmark.HeadingLevel): (r: HeadingLevel)
    ensures r.Number() == level.Number()
  {
    match level
    case H1 => H1 case H2 => H2 case H3 => H3 case H4 => H4 case H5 => H5 case H6 => H6
  }

  /** Conversion of the tokenizer's callout kind, keeping the variant. */
  function BlockQuoteKindFrom(kind: Cmark.BlockQuoteKind): (r: BlockQuoteKind)
    ensures r.Name() == kind.Name()
  {
    match kind
    case Tip => Tip case Note => Note case Warning => Warning
    case Caution => Caution case Important => Important
  }

  /** A plain-text node: the content and no style. */
  function TextNodeFrom(s: string): (r: TextNode)
    ensures r.content == s && r.style == None
  {
    TextNode(s, None)
  }

  /** A text holding the single node `TextNodeFrom(s)`. */
  function TextFrom(s: string): (r: Text)
    ensures |r| == 1 && r[0] == TextNodeFrom(s)
  {
    [TextNodeFrom(s)]
  }

  /** Both conversions are injective: distinct tokenizer values stay distinct. */
  lemma ConversionsInjective(a: Cmark.HeadingLevel, b: Cmark.HeadingLevel,
                             c: Cmark.BlockQuoteKind, d: Cmark.BlockQuoteKind)
    ensures HeadingLevelFrom(a) == HeadingLevelFrom(b) ==> a == b
    ensures BlockQuoteKindFrom(c) == BlockQuoteKindFrom(d) ==> c == d
  {
  }
}
