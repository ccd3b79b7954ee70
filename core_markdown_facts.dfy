/** Properties of the flat builder: what one event does to the output, that the output only
    grows, where pushed text lands, and that ignored events can be dropped from the stream. */
module CoreMarkdownFacts {
  import opened Wrappers
  import Cmark
  import opened Seqs
  import opened CoreMarkdown

  /** Whether `e` moves the current node of `s` to the output. */
  predicate Closes(s: ParserState, e: Cmark.Event) {
    e.End? && s.currentNode.Some? && MatchesTagEnd(s.currentNode.value, e.tagEnd)
  }

  /** One event appends the current node to the output exactly when it is a matching end event,
      and leaves the output alone otherwise. */
  lemma HandleEventOutput(s: ParserState, e: Cmark.Event)
    ensures s.HandleEvent(e).output == s.output + (if Closes(s, e) then [s.currentNode.value] else [])
    ensures Closes(s, e) ==> s.HandleEvent(e).currentNode.None?
    ensures e.End? && !Closes(s, e) ==> s.HandleEvent(e) == s
  {
  }

  lemma RunStep(s: ParserState, events: seq<Cmark.Event>, k: nat)
    requires k < |events|
    ensures Run(s, events[..k + 1]) == Run(s, events[..k]).HandleEvent(events[k])
  {
    assert events[..k + 1][..k] == events[..k];
  }

  /** The output only ever grows, at the end, by at most one node per event. */
  lemma {:induction false} RunOutputGrows(s: ParserState, events: seq<Cmark.Event>)
    ensures s.output <= Run(s, events).output
    ensures |Run(s, events).output| <= |s.output| + |events|
    decreases |events|
  {
    if events != [] {
      var before := Run(s, events[..|events| - 1]);
      RunOutputGrows(s, events[..|events| - 1]);
      HandleEventOutput(before, events[|events| - 1]);
    }
  }

  /** Nodes, once output, stay where they are: the output after a prefix of the stream is a prefix
      of the output after a longer one. */
  lemma {:induction false} RunOutputPrefix(s: ParserState, events: seq<Cmark.Event>, i: nat, j: nat)
    requires i <= j <= |events|
    ensures Run(s, events[..i]).output <= Run(s, events[..j]).output
    decreases j - i
  {
    if i < j {
      RunOutputPrefix(s, events, i, j - 1);
      RunStep(s, events, j - 1);
      HandleEventOutput(Run(s, events[..j - 1]), events[j - 1]);
    }
  }

  /** `parse` returns every node the events closed, in order, and at most one more. */
  lemma FromEventsOutput(events: seq<Cmark.Event>)
    ensures Run(ParserState([], None), events).output <= FromEvents(events)
    ensures |FromEvents(events)| <= |events| + 1
  {
    RunOutputGrows(ParserState([], None), events);
  }

  // ---- Where pushed text lands ----

  /** The text of a node in document order. */
  function Texts(n: Node): seq<TextNode>
    decreases n
  {
    if n.BlockQuote? then TextsOf(n.nodes) else n.text
  }

  function TextsOf(ns: seq<Node>): seq<TextNode>
    decreases ns
  {
    if ns == [] then [] else TextsOf(ns[..|ns| - 1]) + Texts(ns[|ns| - 1])
  }

  /** A node with all of its text erased. */
  function Shape(n: Node): Node
    decreases n
  {
    match n
    case Heading(level, _) => Heading(level, [])
    case Paragraph(_) => Paragraph([])
    case CodeBlock(lang, _) => CodeBlock(lang, [])
    case Item(kind, _) => Item(kind, [])
    case BlockQuote(kind, ns) => BlockQuote(kind, ShapeOf(ns))
  }

  function ShapeOf(ns: seq<Node>): seq<Node>
    decreases ns
  {
    if ns == [] then [] else ShapeOf(ns[..|ns| - 1]) + [Shape(ns[|ns| - 1])]
  }


  /** Pushed text changes no structure and lands at the very end of the node's text, or is
      dropped when the innermost last block quote is empty. */
  lemma {:induction false} PushTextNodeEffect(n: Node, t: TextNode)
    ensures Shape(n.PushTextNode(t)) == Shape(n)
    ensures Texts(n.PushTextNode(t)) == Texts(n) + (if n.TakesText() then [t] else [])
    decreases n
  {
    if n.BlockQuote? && n.nodes != [] {
      var ns := n.nodes;
      var init, last := ns[..|ns| - 1], ns[|ns| - 1];
      var pushed := init + [last.PushTextNode(t)];
      PushTextNodeEffect(last, t);
      assert pushed[..|pushed| - 1] == init;
      Regroup(TextsOf(init), Texts(last), if last.TakesText() then [t] else []);
    }
  }

  // ---- Ignored events ----

  function DropIgnored(events: seq<Cmark.Event>): (r: seq<Cmark.Event>)
    ensures |r| <= |events|
    ensures forall i :: 0 <= i < |r| ==> !Ignored(r[i])
  {
    if events == [] then []
    else
      var last := events[|events| - 1];
      DropIgnored(events[..|events| - 1]) + if Ignored(last) then [] else [last]
  }

  /** The builder behaves the same without the events it ignores. */
  lemma {:induction false} RunDropIgnored(s: ParserState, events: seq<Cmark.Event>)
    ensures Run(s, DropIgnored(events)) == Run(s, events)
    decreases |events|
  {
    if events != [] {
      var init, last := events[..|events| - 1], events[|events| - 1];
      RunDropIgnored(s, init);
      if !Ignored(last) {
        var d := DropIgnored(init) + [last];
        assert d[..|d| - 1] == DropIgnored(init);
      } else {
        assert DropIgnored(events) == DropIgnored(init) + [] == DropIgnored(init);
        assert Run(s, events) == Run(s, init).HandleEvent(last) == Run(s, init);
      }
    }
  }

  lemma FromEventsDropIgnored(events: seq<Cmark.Event>)
    ensures FromEvents(DropIgnored(events)) == FromEvents(events)
  {
    RunDropIgnored(ParserState([], None), events);
  }
}
