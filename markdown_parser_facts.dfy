/** Properties of the canonical markdown builder: where the nodes' ranges come from, which events
    matter, where pushed text goes, and the kinds open tags map to. */
module MarkdownParserFacts {
  import opened Wrappers
  import Cmark
  import opened Seqs
  import opened MarkdownAst
  import opened MarkdownParser


  // ---- Source ranges ----

  /** The source ranges of a node and its descendants, in pre-order. */
  function Ranges(n: Node): seq<Range>
    decreases n
  {
    [n.sourceRange] + if n.markdownNode.IsContainer() then RangesOf(n.markdownNode.nodes) else []
  }

  function RangesOf(ns: seq<Node>): seq<Range>
    decreases ns
  {
    if ns == [] then [] else RangesOf(ns[..|ns| - 1]) + Ranges(ns[|ns| - 1])
  }

  /** The ranges of the open events in `events[from..to]` that the builder turns into nodes. */
  function StartRanges(events: Events, from: nat, to: nat): seq<Range>
    requires from <= to <= |events|
    decreases (to as int) - (from as int)
  {
    if from == to then []
    else
      (if events[from].0.Start? && Supported(events[from].0.tag) then [events[from].1] else [])
      + StartRanges(events, from + 1, to)
  }

  predicate NoTaskMarkers(events: Events) {
    forall i :: 0 <= i < |events| ==> !events[i].0.TaskListMarker?
  }

  lemma {:induction false} StartRangesSplit(events: Events, a: nat, b: nat, c: nat)
    requires a <= b <= c <= |events|
    ensures StartRanges(events, a, c) == StartRanges(events, a, b) + StartRanges(events, b, c)
    decreases (b as int) - (a as int)
  {
    if a < b {
      StartRangesSplit(events, a + 1, b, c);
      var head := if events[a].0.Start? && Supported(events[a].0.tag) then [events[a].1] else [];
      Regroup(head, StartRanges(events, a + 1, b), StartRanges(events, b, c));
    }
  }

  lemma {:induction false} PushTextNodeRanges(n: Node, t: TextNode)
    ensures Ranges(PushTextNode(n, t)) == Ranges(n)
    decreases n
  {
    if n.markdownNode.IsContainer() {
      PushLastRanges(n.markdownNode.nodes, t);
    }
  }

  lemma {:induction false} PushLastRanges(ns: seq<Node>, t: TextNode)
    ensures RangesOf(PushLast(ns, t)) == RangesOf(ns)
    decreases ns
  {
    if ns != [] {
      PushTextNodeRanges(ns[|ns| - 1], t);
      var r := PushLast(ns, t);
      assert r[..|r| - 1] == ns[..|ns| - 1];
    }
  }

  /** Without task list markers, a level adds to its nodes exactly the ranges of the supported
      open events it consumes, nested in pre-order and in stream order. */
  lemma {:induction false} LevelRanges(acc: seq<Node>, events: Events, pos: nat, current: Option<Cmark.Tag>)
    requires pos <= |events| && NoTaskMarkers(events)
    ensures var r := Level(acc, events, pos, current);
      RangesOf(r.nodes) == RangesOf(acc) + StartRanges(events, pos, r.next)
    decreases |events| - pos, 1
  {
    var r := Level(acc, events, pos, current);
    if pos == |events| {
      assert RangesOf(acc) + [] == RangesOf(acc);
    } else if Closes(events[pos].0, current) {
      assert StartRanges(events, pos, pos + 1) == [];
      assert RangesOf(acc) + [] == RangesOf(acc);
    } else {
      var step := Consume(acc, events, pos);
      ConsumeRanges(acc, events, pos);
      LevelRanges(step.nodes, events, step.next, current);
      StartRangesSplit(events, pos, step.next, r.next);
      Regroup(RangesOf(acc), StartRanges(events, pos, step.next), StartRanges(events, step.next, r.next));
    }
  }

  lemma {:induction false} ConsumeRanges(acc: seq<Node>, events: Events, pos: nat)
    requires pos < |events| && NoTaskMarkers(events)
    ensures var r := Consume(acc, events, pos);
      RangesOf(r.nodes) == RangesOf(acc) + StartRanges(events, pos, r.next)
    decreases |events| - pos, 0
  {
    var r := Consume(acc, events, pos);
    var e := events[pos].0;
    assert !e.TaskListMarker?;
    if e.Start? {
      var tagged := TagToNode(e.tag, events, pos + 1, events[pos].1);
      TagRanges(e.tag, events, pos + 1, events[pos].1);
      var head := if Supported(e.tag) then [events[pos].1] else [];
      assert StartRanges(events, pos, r.next) == head + StartRanges(events, pos + 1, r.next);
      if tagged.node.Some? {
        assert (acc + [tagged.node.value])[..|acc|] == acc;
        Regroup(RangesOf(acc), head, StartRanges(events, pos + 1, r.next));
      } else {
        assert RangesOf(acc) + [] == RangesOf(acc);
      }
    } else {
      if e.Text? {
        PushLastRanges(acc, TextNode(e.text, None));
      } else if e.Code? {
        PushLastRanges(acc, TextNode(e.code, Some(Style.Code)));
      }
      assert StartRanges(events, pos, pos + 1) == [];
      assert RangesOf(acc) + [] == RangesOf(acc);
    }
  }

  lemma {:induction false} TagRanges(tag: Cmark.Tag, events: Events, pos: nat, range: Cmark.Range)
    requires pos <= |events| && NoTaskMarkers(events)
    ensures var r := TagToNode(tag, events, pos, range);
      (r.node.Some? ==> Ranges(r.node.value) == [range] + StartRanges(events, pos, r.next))
      && (r.node.None? ==> r.next == pos)
    decreases |events| - pos, 2
  {
    var r := TagToNode(tag, events, pos, range);
    if tag.BlockQuote? || tag.List? {
      LevelRanges([], events, pos, Some(tag));
      assert RangesOf([]) == [];
    } else if Supported(tag) {
      assert !r.node.value.markdownNode.IsContainer();
      assert StartRanges(events, pos, pos) == [];
    }
  }

  /** Parsing a whole stream without task list markers: one node per supported open event, each
      carrying that event's range, nested in pre-order and in stream order. */
  lemma FromEventsRanges(events: Events)
    requires NoTaskMarkers(events)
    ensures RangesOf(FromEvents(events)) == StartRanges(events, 0, |events|)
  {
    LevelRanges([], events, 0, None);
    assert RangesOf([]) == [];
  }

  // ---- Ignored events ----

  /** The stream with every ignored event (math, HTML, breaks, rules, footnote references)
      removed. */
  function DropIgnored(events: Events): (r: Events)
    ensures |r| <= |events|
  {
    if events == [] then []
    else
      var last := events[|events| - 1];
      DropIgnored(events[..|events| - 1]) + if Ignored(last.0) then [] else [last]
  }

  /** The position in `DropIgnored(events)` that corresponds to position `p` in `events`. */
  function Kept(events: Events, p: nat): nat
    requires p <= |events|
  {
    |DropIgnored(events[..p])|
  }

  lemma {:induction false} DropIgnoredPrefix(events: Events, p: nat, q: nat)
    requires p <= q <= |events|
    ensures DropIgnored(events[..p]) <= DropIgnored(events[..q])
    decreases q - p
  {
    if p < q {
      DropIgnoredPrefix(events, p, q - 1);
      assert events[..q][..q - 1] == events[..q - 1];
    }
  }

  lemma KeptStep(events: Events, p: nat)
    requires p < |events|
    ensures Kept(events, p + 1) == Kept(events, p) + (if Ignored(events[p].0) then 0 else 1)
    ensures Kept(events, p + 1) <= |DropIgnored(events)|
    ensures !Ignored(events[p].0) ==> DropIgnored(events)[Kept(events, p)] == events[p]
  {
    assert events[..p + 1][..p] == events[..p];
    assert events[..p + 1][p] == events[p];
    DropIgnoredPrefix(events, p + 1, |events|);
    assert events[..|events|] == events;
  }

  lemma KeptEnds(events: Events)
    ensures Kept(events, 0) == 0 && Kept(events, |events|) == |DropIgnored(events)|
  {
    assert events[..0] == [];
    assert events[..|events|] == events;
  }

  /** Ignored events have no effect on a level: on the stream without them, the level starting
      at the corresponding position yields the same nodes and stops at the corresponding place. */
  lemma {:induction false} LevelDropIgnored(acc: seq<Node>, events: Events, pos: nat, current: Option<Cmark.Tag>)
    requires pos <= |events|
    ensures var r := Level(acc, events, pos, current);
      Kept(events, pos) <= |DropIgnored(events)|
      && Level(acc, DropIgnored(events), Kept(events, pos), current) == Parsed(r.nodes, Kept(events, r.next))
    decreases |events| - pos, 1
  {
    var kept := DropIgnored(events);
    if pos == |events| {
      KeptEnds(events);
    } else {
      KeptStep(events, pos);
      if Ignored(events[pos].0) {
        LevelDropIgnored(acc, events, pos + 1, current);
      } else if !Closes(events[pos].0, current) {
        ConsumeDropIgnored(acc, events, pos);
        var step := Consume(acc, events, pos);
        LevelDropIgnored(step.nodes, events, step.next, current);
      }
    }
  }

  lemma {:induction false} ConsumeDropIgnored(acc: seq<Node>, events: Events, pos: nat)
    requires pos < |events| && !Ignored(events[pos].0)
    ensures var r := Consume(acc, events, pos);
      Kept(events, pos) < |DropIgnored(events)|
      && Consume(acc, DropIgnored(events), Kept(events, pos)) == Parsed(r.nodes, Kept(events, r.next))
    decreases |events| - pos, 0
  {
    KeptStep(events, pos);
    if events[pos].0.Start? {
      TagDropIgnored(events[pos].0.tag, events, pos + 1, events[pos].1);
    }
  }

  lemma {:induction false} TagDropIgnored(tag: Cmark.Tag, events: Events, pos: nat, range: Cmark.Range)
    requires pos <= |events|
    ensures var r := TagToNode(tag, events, pos, range);
      Kept(events, pos) <= |DropIgnored(events)|
      && TagToNode(tag, DropIgnored(events), Kept(events, pos), range) == Opened(r.node, Kept(events, r.next))
    decreases |events| - pos, 2
  {
    if tag.BlockQuote? || tag.List? {
      LevelDropIgnored([], events, pos, Some(tag));
    } else if pos < |events| {
      KeptStep(events, pos);
    } else {
      KeptEnds(events);
    }
  }

  /** Removing ignored events from a document does not change its parse. */
  lemma FromEventsDropIgnored(events: Events)
    ensures FromEvents(DropIgnored(events)) == FromEvents(events)
  {
    LevelDropIgnored([], events, 0, None);
    KeptEnds(events);
  }

  lemma {:induction false} DropAllIgnored(events: Events)
    requires forall i :: 0 <= i < |events| ==> Ignored(events[i].0)
    ensures DropIgnored(events) == []
  {
    if events != [] {
      var init := events[..|events| - 1];
      assert forall i :: 0 <= i < |init| ==> init[i] == events[i];
      DropAllIgnored(init);
    }
  }

  /** A document made only of ignored events parses to no nodes. */
  lemma OnlyIgnoredEvents(events: Events)
    requires forall i :: 0 <= i < |events| ==> Ignored(events[i].0)
    ensures FromEvents(events) == []
  {
    DropAllIgnored(events);
    FromEventsDropIgnored(events);
  }

  // ---- Where pushed text lands ----

  /** The text of a node in document order. */
  function Texts(n: Node): seq<TextNode>
    decreases n
  {
    match n.markdownNode
    case Heading(_, text) => text
    case Paragraph(text) => text
    case CodeBlock(_, text) => text
    case TaskListItem(_, text) => text
    case Item(text) => text
    case BlockQuote(_, ns) => TextsOf(ns)
    case List(_, ns) => TextsOf(ns)
  }

  function TextsOf(ns: seq<Node>): seq<TextNode>
    decreases ns
  {
    if ns == [] then [] else TextsOf(ns[..|ns| - 1]) + Texts(ns[|ns| - 1])
  }

  /** A node with all of its text erased: what remains is the tree structure, kinds and ranges. */
  function Shape(n: Node): Node
    decreases n
  {
    match n.markdownNode
    case Heading(level, _) => Node(Heading(level, []), n.sourceRange)
    case Paragraph(_) => Node(Paragraph([]), n.sourceRange)
    case CodeBlock(lang, _) => Node(CodeBlock(lang, []), n.sourceRange)
    case TaskListItem(kind, _) => Node(TaskListItem(kind, []), n.sourceRange)
    case Item(_) => Node(Item([]), n.sourceRange)
    case BlockQuote(kind, ns) => Node(BlockQuote(kind, ShapeOf(ns)), n.sourceRange)
    case List(kind, ns) => Node(List(kind, ShapeOf(ns)), n.sourceRange)
  }

  function ShapeOf(ns: seq<Node>): seq<Node>
    decreases ns
  {
    if ns == [] then [] else ShapeOf(ns[..|ns| - 1]) + [Shape(ns[|ns| - 1])]
  }

  /** Pushing text changes no structure, and appends the text at the very end of the node's text
      exactly when the node ends in a leaf; otherwise the text is dropped. */
  lemma {:induction false} PushTextNodeEffect(n: Node, t: TextNode)
    ensures Shape(PushTextNode(n, t)) == Shape(n)
    ensures Texts(PushTextNode(n, t)) == Texts(n) + (if HasLastLeaf(n) then [t] else [])
    decreases n
  {
    if n.markdownNode.IsContainer() {
      PushLastEffect(n.markdownNode.nodes, t);
    }
  }

  /** A text or code event only ever extends the text at the end of the current level. */
  lemma {:induction false} PushLastEffect(nodes: seq<Node>, t: TextNode)
    ensures ShapeOf(PushLast(nodes, t)) == ShapeOf(nodes)
    ensures TextsOf(PushLast(nodes, t)) ==
      TextsOf(nodes) + (if nodes != [] && HasLastLeaf(nodes[|nodes| - 1]) then [t] else [])
    decreases nodes
  {
    if nodes != [] {
      var last := nodes[|nodes| - 1];
      var r := PushLast(nodes, t);
      PushTextNodeEffect(last, t);
      Regroup(TextsOf(nodes[..|nodes| - 1]), Texts(last), if HasLastLeaf(last) then [t] else []);
      assert r[..|r| - 1] == nodes[..|nodes| - 1];
    }
  }
}
