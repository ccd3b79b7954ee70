/** Properties of the outline: the tree holds every heading exactly once in document order and
    nests only deeper headings under shallower ones; fully expanded, its rows are the note's
    headings; expanding, collapsing and toggling change only the flags; and `new` can select the
    wrong row because it selects before expanding. */
module OutlineStateFacts {
  import opened Wrappers
  import opened Seqs
  import opened Usize
  import opened ListSelection
  import MarkdownAst
  import I = OutlineItem
  import opened OutlineState

  // ---- The tree holds the headings in order ----

  function AsHeading(e: HeadingEntry): Heading {
    Heading(e.range.start, e.level, e.content)
  }

  /** The headings of an entry and its descendants, in pre-order. */
  function PreOrder(e: HeadingEntry): seq<Heading>
    decreases e
  {
    [AsHeading(e)] + PreOrderAll(e.children)
  }

  function PreOrderAll(es: seq<HeadingEntry>): seq<Heading>
    decreases es
  {
    if es == [] then [] else PreOrderAll(es[..|es| - 1]) + PreOrder(es[|es| - 1])
  }

  lemma PreOrderAllSnoc(es: seq<HeadingEntry>, e: HeadingEntry)
    ensures PreOrderAll(es + [e]) == PreOrderAll(es) + PreOrder(e)
  {
    assert (es + [e])[..|es|] == es;
  }

  /** One level consumes exactly the headings between its start and where it stops, and its
      entries hold them in pre-order. */
  lemma {:induction false} LevelPreOrder(acc: seq<HeadingEntry>, hs: seq<Heading>, pos: nat,
                                         parent: Option<HeadingLevel>, maxEnd: nat)
    requires pos <= |hs|
    ensures PreOrderAll(Level(acc, hs, pos, parent, maxEnd).entries)
            == PreOrderAll(acc) + hs[pos..Level(acc, hs, pos, parent, maxEnd).next]
    decreases |hs| - pos, 1
  {
    if pos == |hs| || (parent.Some? && !Deeper(hs[pos].level, parent.value)) {
      assert hs[pos..pos] == [];
    } else {
      var here := Entry(hs, pos, maxEnd);
      var r := Level(acc + [here.entry], hs, here.next, parent, maxEnd);
      EntryPreOrder(hs, pos, maxEnd);
      LevelPreOrder(acc + [here.entry], hs, here.next, parent, maxEnd);
      PreOrderAllSnoc(acc, here.entry);
      assert hs[pos..r.next] == hs[pos..here.next] + hs[here.next..r.next];
      Regroup(PreOrderAll(acc), hs[pos..here.next], hs[here.next..r.next]);
    }
  }

  lemma {:induction false} EntryPreOrder(hs: seq<Heading>, pos: nat, maxEnd: nat)
    requires pos < |hs|
    ensures PreOrder(Entry(hs, pos, maxEnd).entry) == hs[pos..Entry(hs, pos, maxEnd).next]
    decreases |hs| - pos, 0
  {
    var r := Entry(hs, pos, maxEnd);
    assert AsHeading(r.entry) == hs[pos];
    if pos + 1 < |hs| && Deeper(hs[pos + 1].level, hs[pos].level) {
      LevelPreOrder([], hs, pos + 1, Some(hs[pos].level), maxEnd);
      assert hs[pos..r.next] == [hs[pos]] + hs[pos + 1..r.next];
    } else {
      assert hs[pos..r.next] == [hs[pos]];
    }
  }

  /** `build_outline_tree` places every heading once, in document order. */
  lemma BuildTreePreOrder(hs: seq<Heading>, maxEnd: nat)
    ensures PreOrderAll(BuildTree(hs, maxEnd)) == hs
  {
    LevelPreOrder([], hs, 0, None, maxEnd);
    assert hs[0..|hs|] == hs;
  }

  // ---- The tree nests deeper headings under shallower ones ----

  /** Every child is strictly deeper than its parent, at every depth. */
  predicate WellNested(e: HeadingEntry)
    decreases e
  {
    forall i :: 0 <= i < |e.children| ==> Deeper(e.children[i].level, e.level) && WellNested(e.children[i])
  }

  /** All of `es` are well nested and, under a parent, deeper than it. */
  predicate NestedUnder(es: seq<HeadingEntry>, parent: Option<HeadingLevel>) {
    forall i :: 0 <= i < |es| ==> WellNested(es[i]) && (parent.Some? ==> Deeper(es[i].level, parent.value))
  }

  lemma {:induction false} LevelNested(acc: seq<HeadingEntry>, hs: seq<Heading>, pos: nat,
                                       parent: Option<HeadingLevel>, maxEnd: nat)
    requires pos <= |hs| && NestedUnder(acc, parent)
    ensures NestedUnder(Level(acc, hs, pos, parent, maxEnd).entries, parent)
    decreases |hs| - pos, 1
  {
    if !(pos == |hs| || (parent.Some? && !Deeper(hs[pos].level, parent.value))) {
      var here := Entry(hs, pos, maxEnd);
      EntryNested(hs, pos, maxEnd);
      LevelNested(acc + [here.entry], hs, here.next, parent, maxEnd);
    }
  }

  lemma {:induction false} EntryNested(hs: seq<Heading>, pos: nat, maxEnd: nat)
    requires pos < |hs|
    ensures WellNested(Entry(hs, pos, maxEnd).entry)
    decreases |hs| - pos, 0
  {
    if pos + 1 < |hs| && Deeper(hs[pos + 1].level, hs[pos].level) {
      LevelNested([], hs, pos + 1, Some(hs[pos].level), maxEnd);
    }
  }

  lemma BuildTreeNested(hs: seq<Heading>, maxEnd: nat)
    ensures forall i :: 0 <= i < |BuildTree(hs, maxEnd)| ==> WellNested(BuildTree(hs, maxEnd)[i])
  {
    LevelNested([], hs, 0, None, maxEnd);
  }

  // ---- Headings ----

  /** `to_headings` misses no heading node. */
  lemma {:induction false} ToHeadingsComplete(nodes: seq<MarkdownAst.Node>, k: nat)
    requires k < |nodes| && nodes[k].markdownNode.Heading?
    ensures exists i :: 0 <= i < |ToHeadings(nodes)| && ToHeadings(nodes)[i].index == k
    decreases |nodes|
  {
    var init := nodes[..|nodes| - 1];
    if k < |nodes| - 1 {
      ToHeadingsComplete(init, k);
      var i :| 0 <= i < |ToHeadings(init)| && ToHeadings(init)[i].index == k;
      assert ToHeadings(nodes)[i] == ToHeadings(init)[i];
    } else {
      assert ToHeadings(nodes)[|ToHeadings(nodes)| - 1].index == k;
    }
  }

  // ---- Fully expanded, the rows are the headings ----

  /** What one outline row shows: where its heading starts and its text. */
  function Rows(items: seq<I.Item>): seq<(nat, string)> {
    seq(|items|, i requires 0 <= i < |items| => (items[i].range.start, items[i].content))
  }

  function HeadingRows(hs: seq<Heading>): seq<(nat, string)> {
    seq(|hs|, i requires 0 <= i < |hs| => (hs[i].index, hs[i].content))
  }

  lemma RowsConcat(a: seq<I.Item>, b: seq<I.Item>)
    ensures Rows(a + b) == Rows(a) + Rows(b)
  {
  }

  lemma HeadingRowsConcat(a: seq<Heading>, b: seq<Heading>)
    ensures HeadingRows(a + b) == HeadingRows(a) + HeadingRows(b)
  {
  }

  lemma {:induction false} ExpandedRowsEntry(e: HeadingEntry)
    ensures Rows(I.Flatten(ExpandedTo(ToItem(e), true))) == HeadingRows(PreOrder(e))
    decreases e, 1
  {
    var item := ExpandedTo(ToItem(e), true);
    if e.children != [] {
      var kids := ExpandedToAllItems(ToItems(e.children), true);
      assert item == I.HeadingEntry(e.range, e.content, kids, true);
      ExpandedRowsAll(e.children);
      RowsConcat([item], I.FlattenAll(kids));
      HeadingRowsConcat([AsHeading(e)], PreOrderAll(e.children));
    }
  }

  lemma {:induction false} ExpandedRowsAll(es: seq<HeadingEntry>)
    ensures Rows(I.FlattenAll(ExpandedToAllItems(ToItems(es), true))) == HeadingRows(PreOrderAll(es))
    decreases es, 0
  {
    if es != [] {
      var init, last := es[..|es| - 1], es[|es| - 1];
      var all := ExpandedToAllItems(ToItems(es), true);
      var front := ExpandedToAllItems(ToItems(init), true);
      assert all[..|all| - 1] == front;
      ExpandedRowsAll(init);
      ExpandedRowsEntry(last);
      var a, b := I.FlattenAll(front), I.Flatten(ExpandedTo(ToItem(last), true));
      RowsConcat(a, b);
      HeadingRowsConcat(PreOrderAll(init), PreOrder(last));
    }
  }

  /** After `set_nodes`, the outline lists every heading node of the note, once each, in
      document order, with its node index and text. */
  lemma SetNodesRows(s: OutlineState, nodes: seq<MarkdownAst.Node>)
    ensures var hs := ToHeadings(nodes);
      Rows(I.FlattenAll(s.SetNodes(nodes).items)) == HeadingRows(hs)
  {
    var hs := ToHeadings(nodes);
    ExpandedRowsAll(BuildTree(hs, |nodes|));
    BuildTreePreOrder(hs, |nodes|);
  }

  // ---- Expanding and collapsing ----

  /** Every entry, at every depth, has `expanded` set to the flag. */
  predicate AllExpandedAs(items: seq<I.Item>, expanded: bool)
    decreases items
  {
    forall i :: 0 <= i < |items| ==>
      items[i].HeadingEntry? ==> items[i].expanded == expanded && AllExpandedAs(items[i].children, expanded)
  }

  lemma {:induction false} ExpandedToAllSets(items: seq<I.Item>, expanded: bool)
    ensures AllExpandedAs(ExpandedToAllItems(items, expanded), expanded)
    decreases items
  {
    var r := ExpandedToAllItems(items, expanded);
    forall i | 0 <= i < |r| && r[i].HeadingEntry?
      ensures AllExpandedAs(r[i].children, expanded)
    {
      ExpandedToAllSets(items[i].children, expanded);
    }
  }

  /** Setting the flags twice is setting them the second way: `expand_all` and `collapse_all`
      are idempotent, and each undoes the other's effect on the shape. */
  lemma {:induction false} ExpandedToAllTwice(items: seq<I.Item>, first: bool, second: bool)
    ensures ExpandedToAllItems(ExpandedToAllItems(items, first), second) == ExpandedToAllItems(items, second)
    decreases items
  {
    var once := ExpandedToAllItems(items, first);
    forall i | 0 <= i < |items| && items[i].HeadingEntry?
      ensures ExpandedTo(once[i], second) == ExpandedTo(items[i], second)
    {
      ExpandedToAllTwice(items[i].children, first, second);
    }
  }

  /** Collapsed, the outline shows exactly its top-level items. */
  lemma {:induction false} CollapsedFlatten(items: seq<I.Item>)
    ensures I.FlattenAll(ExpandedToAllItems(items, false)) == ExpandedToAllItems(items, false)
    decreases |items|
  {
    if items != [] {
      var r := ExpandedToAllItems(items, false);
      var front := ExpandedToAllItems(items[..|items| - 1], false);
      assert r[..|r| - 1] == front;
      CollapsedFlatten(items[..|items| - 1]);
    }
  }

  // ---- Toggling ----

  /** Toggling changes only flags: with the flags all set one way, the tree is what it was. */
  lemma {:induction false} ToggleKeepsShape(items: seq<I.Item>, target: I.Range, shouldToggle: bool,
                                            expanded: bool)
    ensures ExpandedToAllItems(ToggleAll(items, target, shouldToggle), expanded)
            == ExpandedToAllItems(items, expanded)
    decreases items
  {
    var toggled := ToggleAll(items, target, shouldToggle);
    forall i | 0 <= i < |items| && items[i].HeadingEntry?
      ensures ExpandedTo(toggled[i], expanded) == ExpandedTo(items[i], expanded)
    {
      ToggleKeepsShape(items[i].children, target, shouldToggle, expanded);
    }
  }

  /** Toggling the same range twice restores the tree. */
  lemma {:induction false} ToggleTwice(items: seq<I.Item>, target: I.Range)
    ensures ToggleAll(ToggleAll(items, target, true), target, true) == items
    decreases items
  {
    var twice := ToggleAll(ToggleAll(items, target, true), target, true);
    forall i | 0 <= i < |items|
      ensures twice[i] == items[i]
    {
      if items[i].HeadingEntry? {
        ToggleTwice(items[i].children, target);
      }
    }
  }

  /** With `should_toggle` false, nothing changes. */
  lemma {:induction false} ToggleNothing(items: seq<I.Item>, target: I.Range)
    ensures ToggleAll(items, target, false) == items
    decreases items
  {
    var r := ToggleAll(items, target, false);
    forall i | 0 <= i < |items|
      ensures r[i] == items[i]
    {
      if items[i].HeadingEntry? {
        ToggleNothing(items[i].children, target);
      }
    }
  }

  /** `toggle_item` on a flat outline, one that flattening leaves as it is, flips the selected entry. */
  lemma ToggleItemFlipsSelected(s: OutlineState)
    requires s.listState.selected.Some? && s.listState.selected.value < |s.items|
    requires s.items[s.listState.selected.value].HeadingEntry?
    requires I.FlattenAll(s.items) == s.items
    ensures s.ToggleItem().items[s.listState.selected.value].HeadingEntry?
    ensures s.ToggleItem().items[s.listState.selected.value].expanded
            == !s.items[s.listState.selected.value].expanded
  {
  }

  // ---- Moving the selection ----

  /** `next` selects a row, and one no further than the last heading. */
  lemma NextInBounds(s: OutlineState, amount: nat)
    ensures s.Next(amount).listState.selected.Some?
    ensures s.maxHeadingCount > 0 ==> s.Next(amount).listState.selected.value < s.maxHeadingCount
    ensures s.listState.selected.Some? ==> s.Next(amount).listState.selected.value >= Min(s.listState.selected.value, SaturatingSub(s.maxHeadingCount, 1))
  {
  }

  /** `previous` keeps no selection as none and never moves down. */
  lemma PreviousMovesUp(s: OutlineState, amount: nat)
    ensures s.Previous(amount).listState.selected.None? <==> s.listState.selected.None?
    ensures s.listState.selected.Some? ==>
      s.Previous(amount).listState.selected.value <= s.listState.selected.value
      && (s.listState.selected.value >= amount ==>
            s.Previous(amount).listState.selected.value == s.listState.selected.value - amount)
  {
  }

  // ---- `new` selects on the collapsed tree ----

  /** Three headings, H1 at node 0, H2 at node 1 and H1 at node 2, with no text. */
  predicate ThreeHeadings(nodes: seq<MarkdownAst.Node>) {
    && |nodes| == 3
    && nodes[0].markdownNode == MarkdownAst.Heading(MarkdownAst.H1, [])
    && nodes[1].markdownNode == MarkdownAst.Heading(MarkdownAst.H2, [])
    && nodes[2].markdownNode == MarkdownAst.Heading(MarkdownAst.H1, [])
  }

  lemma ThreeHeadingsOutline(nodes: seq<MarkdownAst.Node>)
    requires ThreeHeadings(nodes)
    ensures ToOutline(ToHeadings(nodes), 3)
         == [I.HeadingEntry(I.Range(0, 1), "", [I.Heading(I.Range(1, 2), "")], false),
             I.Heading(I.Range(2, 3), "")]
  {
    var a := Heading(0, MarkdownAst.H1, "");
    var b := Heading(1, MarkdownAst.H2, "");
    var c := Heading(2, MarkdownAst.H1, "");
    assert HeadingContent([]) == "";
    assert ToHeadings(nodes[..1]) == [a] by {
      assert nodes[..1][..0] == [];
    }
    assert ToHeadings(nodes[..2]) == [a, b] by {
      assert nodes[..2][..1] == nodes[..1];
    }
    assert ToHeadings(nodes) == [a, b, c] by {
      assert nodes[..2] == nodes[..|nodes| - 1];
    }
    var hs := [a, b, c];
    var eb := HeadingEntry(I.Range(1, 2), MarkdownAst.H2, "", []);
    var ea := HeadingEntry(I.Range(0, 1), MarkdownAst.H1, "", [eb]);
    var ec := HeadingEntry(I.Range(2, 3), MarkdownAst.H1, "", []);
    assert Entry(hs, 1, 3) == Opened(eb, 2);
    assert Level([eb], hs, 2, Some(MarkdownAst.H1), 3) == Built([eb], 2);
    assert Level([], hs, 1, Some(MarkdownAst.H1), 3) == Built([eb], 2);
    assert Entry(hs, 0, 3) == Opened(ea, 2);
    assert Entry(hs, 2, 3) == Opened(ec, 3);
    assert Level([ea, ec], hs, 3, None, 3) == Built([ea, ec], 3);
    assert [] + [ea] == [ea];
    assert [ea] + [ec] == [ea, ec];
    assert Level([], hs, 0, None, 3) == Built([ea, ec], 3);
    assert ToItems([ea, ec]) == [ToItem(ea), ToItem(ec)];
    assert ToItems([eb]) == [ToItem(eb)];
  }

  /** The collapsed outline of those headings: an H1 entry holding the H2, then the other H1. */
  function Collapsed(): seq<I.Item> {
    [I.HeadingEntry(I.Range(0, 1), "", [I.Heading(I.Range(1, 2), "")], false), I.Heading(I.Range(2, 3), "")]
  }

  /** On the collapsed outline, node 2 is found in row 1. */
  lemma CollapsedFinds()
    ensures I.FindItem(Collapsed(), 2) == Some((1, I.Heading(I.Range(2, 3), "")))
  {
    var items := Collapsed();
    assert I.FlattenAll(items) == items by {
      CollapsedFlatten(items);
      var b := I.Heading(I.Range(1, 2), "");
      assert ExpandedToAllItems([b], false) == [b];
      assert ExpandedToAllItems(items, false) == items;
    }
  }

  /** Expanded, the same outline shows the H2 in row 1. */
  lemma ExpandedRows()
    ensures I.FlattenAll(ExpandedToAllItems(Collapsed(), true))
         == [I.HeadingEntry(I.Range(0, 1), "", [I.Heading(I.Range(1, 2), "")], true),
             I.Heading(I.Range(1, 2), ""), I.Heading(I.Range(2, 3), "")]
  {
    var b := I.Heading(I.Range(1, 2), "");
    var c := I.Heading(I.Range(2, 3), "");
    var a := I.HeadingEntry(I.Range(0, 1), "", [b], true);
    var expanded := ExpandedToAllItems(Collapsed(), true);
    assert ExpandedToAllItems([b], true) == [b];
    assert expanded == [a, c];
    assert I.FlattenAll([b]) == [b] by {
      assert [b][..0] == [];
    }
    assert I.Flatten(a) == [a, b];
    assert I.FlattenAll([a]) == [a, b] by {
      assert [a][..0] == [];
    }
    assert expanded[..1] == [a];
  }

  /** As written, `new` on those headings with node 2 (the second H1) selects row 1, which after
      expansion is the H2 at node 1, a heading whose range does not hold node 2. */
  lemma NewSelectsOtherHeading(nodes: seq<MarkdownAst.Node>)
    requires ThreeHeadings(nodes)
    ensures New(nodes, 2, true).Selected() == Some(I.Heading(I.Range(1, 2), ""))
    ensures !New(nodes, 2, true).Selected().value.ContainsIndex(2)
  {
    ThreeHeadingsOutline(nodes);
    var start := DefaultState.(open := true, maxHeadingCount := |ToHeadings(nodes)|, items := Collapsed());
    CollapsedFinds();
    var selected := start.SelectAt(2);
    assert selected.listState.selected == Some(1);
    ExpandedRows();
    assert New(nodes, 2, true) == selected.ExpandAll();
  }
}
