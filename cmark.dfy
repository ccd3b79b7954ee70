/** The event vocabulary of the external CommonMark tokenizer (pulldown-cmark) that both markdown
    builders consume. The tokenizer itself is not modelled: a document reaches the builders as a
    sequence of these events. Payloads the builders never inspect are kept only where they name
    the variant (a code block's info string, a link destination). */
module Cmark {
  import opened Wrappers

  datatype HeadingLevel = H1 | H2 | H3 | H4 | H5 | H6 {
    function Number(): nat {
      match this
      case H1 => 1 case H2 => 2 case H3 => 3 case H4 => 4 case H5 => 5 case H6 => 6
    }
  }

  /** Callout kinds the tokenizer recognises from `> [!NOTE]` and similar. */
  datatype BlockQuoteKind = Note | Tip | Important | Warning | Caution {
    function Name(): string {
      match this
      case Note => "note" case Tip => "tip" case Important => "important"
      case Warning => "warning" case Caution => "caution"
    }
  }

  /** Byte offsets `start..end` (half-open) into the source text. */
  datatype Range = Range(start: nat, end: nat)

  datatype Tag =
    | Paragraph
    | Heading(level: HeadingLevel)
    | BlockQuote(kind: Option<BlockQuoteKind>)
    | CodeBlock(info: string)
    | HtmlBlock
    | List(start: Option<nat>)
    | Item
    | FootnoteDefinition(name: string)
    | DefinitionList
    | DefinitionListTitle
    | DefinitionListDefinition
    | Table
    | TableHead
    | TableRow
    | TableCell
    | Emphasis
    | Strong
    | Strikethrough
    | Superscript
    | Subscript
    | Link(destination: string)
    | Image(destination: string)
    | MetadataBlock

  datatype TagEnd =
    | EndParagraph
    | EndHeading(level: HeadingLevel)
    | EndBlockQuote(kind: Option<BlockQuoteKind>)
    | EndCodeBlock
    | EndHtmlBlock
    | EndList(ordered: bool)
    | EndItem
    | EndFootnoteDefinition
    | EndDefinitionList
    | EndDefinitionListTitle
    | EndDefinitionListDefinition
    | EndTable
    | EndTableHead
    | EndTableRow
    | EndTableCell
    | EndEmphasis
    | EndStrong
    | EndStrikethrough
    | EndSuperscript
    | EndSubscript
    | EndLink
    | EndImage
    | EndMetadataBlock

  datatype Event =
    | Start(tag: Tag)
    | End(tagEnd: TagEnd)
    | Text(text: string)
    | Code(code: string)
    | InlineMath(math: string)
    | DisplayMath(math: string)
    | Html(html: string)
    | InlineHtml(html: string)
    | FootnoteReference(name: string)
    | SoftBreak
    | HardBreak
    | Rule
    | TaskListMarker(checked: bool)
}
