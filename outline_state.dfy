/** The outline panel's state (basalt/src/outline/state.rs): the note's headings, nested into a
    tree by level, shown as a flattened list with a selection. Nodes come from the note editor's
    markdown parser, whose `Node` has the same shape as the canonical builder's. */
module OutlineState {
  import opened Wrappers
  import opened Usize
  import opened ListSelection
  import MarkdownAst
  import I = OutlineItem

  type HeadingLevel = MarkdownAst.HeadingLevel

  /** A heading of the note: the index of its node, its level and its text. */
  datatype Heading = Heading(index: nat, level: HeadingLevel, content: string)

  /** A heading with the node range it covers and the deeper headings that follow it. */
  datatype HeadingEntry = HeadingEntry(range: I.Range, level: HeadingLevel, content: string,
                                       children: seq<HeadingEntry>)

  /** `a > b` on heading levels, which are ordered by depth. */
  predicate Deeper(a: HeadingLevel, b: HeadingLevel) {
    a.Number() > b.Number()
  }

  // ---- Building the tree ----

  datatype Built = Built(entries: seq<HeadingEntry>, next: nat)

  datatype Opened = Opened(entry: HeadingEntry, next: nat)

  /** `build_outline_tree_rec`: the entries of one level, appended to `acc`, from position `pos`
      until the first heading no deeper than `parent` (which is not consumed) or the end. */
  function Level(acc: seq<HeadingEntry>, hs: seq<Heading>, pos: nat, parent: Option<HeadingLevel>,
                 maxEnd: nat): (r: Built)
    requires pos <= |hs|
    ensures pos <= r.next <= |hs|
    ensures r.next < |hs| ==> parent.Some? && !Deeper(hs[r.next].level, parent.value)
    decreases |hs| - pos, 1
  {
    if pos == |hs| || (parent.Some? && !Deeper(hs[pos].level, parent.value)) then Built(acc, pos)
    else
      var here := Entry(hs, pos, maxEnd);
      Level(acc + [here.entry], hs, here.next, parent, maxEnd)
  }

  /** One round of that loop: the heading at `pos` becomes an entry ranging up to the next
      heading's node (or `maxEnd`), with children when the next heading is deeper. */
  function Entry(hs: seq<Heading>, pos: nat, maxEnd: nat): (r: Opened)
    requires pos < |hs|
    ensures pos < r.next <= |hs|
    ensures r.entry.range == I.Range(hs[pos].index, if pos + 1 < |hs| then hs[pos + 1].index else maxEnd)
    ensures r.entry.level == hs[pos].level && r.entry.content == hs[pos].content
    ensures r.entry.children != [] ==> pos + 1 < |hs| && Deeper(hs[pos + 1].level, hs[pos].level)
    decreases |hs| - pos, 0
  {
    var heading := hs[pos];
    var rangeEnd := if pos + 1 < |hs| then hs[pos + 1].index else maxEnd;
    var children :=
      if pos + 1 < |hs| && Deeper(hs[pos + 1].level, heading.level)
      then Level([], hs, pos + 1, Some(heading.level), maxEnd)
      else Built([], pos + 1);
    Opened(HeadingEntry(I.Range(heading.index, rangeEnd), heading.level, heading.content, children.entries),
           children.next)
  }

  /** `build_outline_tree`: the top level consumes every heading. */
  function BuildTree(hs: seq<Heading>, maxEnd: nat): seq<HeadingEntry> {
    Level([], hs, 0, None, maxEnd).entries
  }

  /** `build_outline_tree_rec` as the loop the source runs over a shared position. */
  method BuildOutlineTreeRec(hs: seq<Heading>, pos: nat, parent: Option<HeadingLevel>, maxEnd: nat)
    returns (result: seq<HeadingEntry>, next: nat)
    requires pos <= |hs|
    ensures Built(result, next) == Level([], hs, pos, parent, maxEnd)
    decreases |hs| - pos
  {
    result := [];
    next := pos;
    while next < |hs|
      invariant pos <= next <= |hs|
      invariant Level(result, hs, next, parent, maxEnd) == Level([], hs, pos, parent, maxEnd)
      decreases |hs| - next
    {
      if parent.Some? && !Deeper(hs[next].level, parent.value) {
        break;
      }
      ghost var before, at := result, next;
      var heading := hs[next];
      next := next + 1;
      var rangeEnd := if next < |hs| then hs[next].index else maxEnd;
      var children := [];
      if next < |hs| && Deeper(hs[next].level, heading.level) {
        children, next := BuildOutlineTreeRec(hs, next, Some(heading.level), maxEnd);
      }
      result := result + [HeadingEntry(I.Range(heading.index, rangeEnd), heading.level, heading.content, children)];
      assert Opened(result[|result| - 1], next) == Entry(hs, at, maxEnd);
      assert result == before + [Entry(hs, at, maxEnd).entry];
    }
  }

  method BuildOutlineTree(hs: seq<Heading>, maxEnd: nat) returns (entries: seq<HeadingEntry>)
    ensures entries == BuildTree(hs, maxEnd)
  {
    var next;
    entries, next := BuildOutlineTreeRec(hs, 0, None, maxEnd);
  }

  // ---- Conversions ----

  /** `From<HeadingEntry> for Item`: a childless entry becomes a plain heading item; any other
      becomes a collapsed entry item with its children converted. */
  function ToItem(e: HeadingEntry): (r: I.Item)
    ensures r.range == e.range && r.content == e.content
    ensures r.Heading? <==> e.children == []
    ensures r.HeadingEntry? ==> !r.expanded && r.children == ToItems(e.children)
    decreases e
  {
    if e.children == [] then I.Heading(e.range, e.content)
    else I.HeadingEntry(e.range, e.content, ToItems(e.children), false)
  }

  function ToItems(es: seq<HeadingEntry>): (r: seq<I.Item>)
    ensures |r| == |es|
    ensures forall i :: 0 <= i < |r| ==> r[i] == ToItem(es[i])
    decreases es
  {
    if es == [] then [] else ToItems(es[..|es| - 1]) + [ToItem(es[|es| - 1])]
  }

  /** The text of a heading node as a string: its text nodes' contents, concatenated. */
  function HeadingContent(text: MarkdownAst.Text): string
    decreases |text|
  {
    if text == [] then [] else HeadingContent(text[..|text| - 1]) + text[|text| - 1].content
  }

  /** Whether `h` describes the node at its index. */
  predicate DescribesNode(nodes: seq<MarkdownAst.Node>, h: Heading) {
    h.index < |nodes|
    && nodes[h.index].markdownNode.Heading?
    && nodes[h.index].markdownNode.level == h.level
    && h.content == HeadingContent(nodes[h.index].markdownNode.text)
  }

  /** `to_headings`: the heading nodes, each with its index in the node list, in order. */
  function ToHeadings(nodes: seq<MarkdownAst.Node>): (r: seq<Heading>)
    ensures |r| <= |nodes|
    ensures forall i :: 0 <= i < |r| ==> DescribesNode(nodes, r[i])
    ensures forall i, j :: 0 <= i < j < |r| ==> r[i].index < r[j].index
    decreases |nodes|
  {
    if nodes == [] then []
    else
      var init := nodes[..|nodes| - 1];
      var last := nodes[|nodes| - 1].markdownNode;
      assert forall h :: DescribesNode(init, h) ==> DescribesNode(nodes, h);
      ToHeadings(init)
        + if last.Heading? then [Heading(|nodes| - 1, last.level, HeadingContent(last.text))] else []
  }

  /** `to_items`. */
  function ToOutline(hs: seq<Heading>, maxEnd: nat): seq<I.Item> {
    ToItems(BuildTree(hs, maxEnd))
  }

  // ---- Expanding, collapsing and toggling ----

  /** `expanded_to_all_items`: every entry, at every depth, gets `expanded`. */
  function ExpandedToAllItems(items: seq<I.Item>, expanded: bool): (r: seq<I.Item>)
    ensures |r| == |items|
    ensures forall i :: 0 <= i < |r| ==> r[i] == ExpandedTo(items[i], expanded)
    decreases items
  {
    if items == [] then []
    else ExpandedToAllItems(items[..|items| - 1], expanded) + [ExpandedTo(items[|items| - 1], expanded)]
  }

  function ExpandedTo(item: I.Item, expanded: bool): (r: I.Item)
    ensures r.range == item.range && r.content == item.content && r.Heading? == item.Heading?
    ensures r.HeadingEntry? ==> r.expanded == expanded
    decreases item
  {
    if item.Heading? then item
    else I.HeadingEntry(item.range, item.content, ExpandedToAllItems(item.children, expanded), expanded)
  }

  /** `toggle_item_in_tree`: flip `expanded` on every entry whose range is `target`. */
  function ToggleItemInTree(item: I.Item, target: I.Range, shouldToggle: bool): (r: I.Item)
    ensures r.range == item.range && r.content == item.content && r.Heading? == item.Heading?
    ensures r.HeadingEntry? ==>
      r.expanded == (if item.range == target && shouldToggle then !item.expanded else item.expanded)
      && |r.children| == |item.children|
    ensures item.Heading? ==> r == item
    decreases item
  {
    if item.Heading? then item
    else
      var expanded := if item.range == target && shouldToggle then !item.expanded else item.expanded;
      I.HeadingEntry(item.range, item.content, ToggleAll(item.children, target, shouldToggle), expanded)
  }

  function ToggleAll(items: seq<I.Item>, target: I.Range, shouldToggle: bool): (r: seq<I.Item>)
    ensures |r| == |items|
    ensures forall i :: 0 <= i < |r| ==> r[i] == ToggleItemInTree(items[i], target, shouldToggle)
    decreases items
  {
    if items == [] then []
    else ToggleAll(items[..|items| - 1], target, shouldToggle)
           + [ToggleItemInTree(items[|items| - 1], target, shouldToggle)]
  }

  // ---- The state ----

  /** `selected` is the first of the rows `flat` whose range holds node `index`, or nothing when
      no row holds it. */
  predicate FirstContaining(flat: seq<I.Item>, index: nat, selected: Option<nat>) {
    if selected.Some? then
      selected.value < |flat| && flat[selected.value].ContainsIndex(index)
      && forall j :: 0 <= j < selected.value ==> !flat[j].ContainsIndex(index)
    else
      forall j :: 0 <= j < |flat| ==> !flat[j].ContainsIndex(index)
  }

  datatype OutlineState = OutlineState(
    selectedItemIndex: Option<nat>,
    maxHeadingCount: nat,
    items: seq<I.Item>,
    open: bool,
    listState: ListState,
    active: bool)
  {
    /** `selected`: the flattened item at the list selection, if there is one. */
    function Selected(): (r: Option<I.Item>)
      ensures r.Some? <==> listState.selected.Some? && listState.selected.value < |I.FlattenAll(items)|
      ensures r.Some? ==> r.value == I.FlattenAll(items)[listState.selected.value]
    {
      var flat := I.FlattenAll(items);
      if listState.selected.Some? && listState.selected.value < |flat| then Some(flat[listState.selected.value])
      else None
    }

    function SetActive(active: bool): (r: OutlineState)
      ensures r == this.(active := active)
    {
      this.(active := active)
    }

    function Toggle(): (r: OutlineState)
      ensures r == this.(open := !open)
    {
      this.(open := !open)
    }

    function Open(): (r: OutlineState)
      ensures r == this.(open := true)
    {
      this.(open := true)
    }

    function Close(): (r: OutlineState)
      ensures r == this.(open := false)
    {
      this.(open := false)
    }

    /** `toggle_item`: when the selected row (row 0 without a selection) is an entry, flip every
        entry with that entry's range; otherwise nothing changes. */
    function ToggleItem(): (r: OutlineState)
      ensures var index := listState.selected.UnwrapOr(0);
        var flat := I.FlattenAll(items);
        if index < |flat| && flat[index].HeadingEntry?
        then r == this.(items := ToggleAll(items, flat[index].range, true))
        else r == this
    {
      var index := listState.selected.UnwrapOr(0);
      var flat := I.FlattenAll(items);
      if index < |flat| && flat[index].HeadingEntry? then
        this.(items := ToggleAll(items, flat[index].range, true))
      else this
    }

    /** `select_at`: select the first flattened item whose range holds node `index`. */
    function SelectAt(index: nat): (r: OutlineState)
      ensures r.items == items && r.selectedItemIndex == r.listState.selected
      ensures FirstContaining(I.FlattenAll(items), index, r.listState.selected)
    {
      var found := I.FindItem(items, index);
      var selected := if found.Some? then Some(found.value.0) else None;
      this.(selectedItemIndex := selected, listState := listState.Select(selected))
    }

    function ExpandAll(): (r: OutlineState)
      ensures r == this.(items := ExpandedToAllItems(items, true))
    {
      this.(items := ExpandedToAllItems(items, true))
    }

    function CollapseAll(): (r: OutlineState)
      ensures r == this.(items := ExpandedToAllItems(items, false))
    {
      this.(items := ExpandedToAllItems(items, false))
    }

    /** `set_nodes`: rebuild the tree from new nodes, fully expanded, keeping the selection. */
    function SetNodes(nodes: seq<MarkdownAst.Node>): (r: OutlineState)
      ensures r.maxHeadingCount == |ToHeadings(nodes)|
      ensures r.items == ExpandedToAllItems(ToOutline(ToHeadings(nodes), |nodes|), true)
      ensures r.listState == listState && r.selectedItemIndex == selectedItemIndex
      ensures r.open == open && r.active == active
    {
      var headings := ToHeadings(nodes);
      this.(maxHeadingCount := |headings|, items := ToOutline(headings, |nodes|)).ExpandAll()
    }

    /** `next`: move the selection down by `amount`, stopping at the last heading; select the
        first row when nothing is selected. */
    function Next(amount: nat): (r: OutlineState)
      ensures r == this.(listState := listState.Select(Some(
        if listState.selected.Some?
        then Min(listState.selected.value + amount, SaturatingSub(maxHeadingCount, 1))
        else 0)))
    {
      var index := if listState.selected.Some?
        then Min(listState.selected.value + amount, SaturatingSub(maxHeadingCount, 1))
        else 0;
      this.(listState := listState.Select(Some(index)))
    }

    /** `previous`: move the selection up by `amount`, stopping at the first row. */
    function Previous(amount: nat): (r: OutlineState)
      ensures r == this.(listState := listState.Select(
        if listState.selected.Some? then Some(SaturatingSub(listState.selected.value, amount)) else None))
    {
      var index := if listState.selected.Some? then Some(SaturatingSub(listState.selected.value, amount)) else None;
      this.(listState := listState.Select(index))
    }
  }

  /** `OutlineState::default()`. */
  const DefaultState: OutlineState := OutlineState(None, 0, [], false, ListSelection.Default, false)

  /** `OutlineState::new`, as written: the selection is made on the collapsed tree, which is
      expanded afterwards. */
  function New(nodes: seq<MarkdownAst.Node>, index: nat, open: bool): (r: OutlineState)
    ensures r.maxHeadingCount == |ToHeadings(nodes)| && r.open == open && !r.active
    ensures r.items == ExpandedToAllItems(ToOutline(ToHeadings(nodes), |nodes|), true)
    ensures r.selectedItemIndex == r.listState.selected
    ensures FirstContaining(I.FlattenAll(ToOutline(ToHeadings(nodes), |nodes|)), index, r.listState.selected)
  {
    var headings := ToHeadings(nodes);
    DefaultState.(open := open, maxHeadingCount := |headings|, items := ToOutline(headings, |nodes|))
      .SelectAt(index).ExpandAll()
  }

  /** `OutlineState::new` with the tree expanded before the selection is made. */
  function NewExpandedFirst(nodes: seq<MarkdownAst.Node>, index: nat, open: bool): (r: OutlineState)
    ensures r.maxHeadingCount == |ToHeadings(nodes)| && r.open == open && !r.active
    ensures r.items == ExpandedToAllItems(ToOutline(ToHeadings(nodes), |nodes|), true)
    ensures r.selectedItemIndex == r.listState.selected
    ensures FirstContaining(I.FlattenAll(r.items), index, r.listState.selected)
    ensures r.Selected().Some? ==> r.Selected().value.ContainsIndex(index)
    ensures r.Selected().None? <==> forall j :: 0 <= j < |I.FlattenAll(r.items)| ==> !I.FlattenAll(r.items)[j].ContainsIndex(index)
  {
    var headings := ToHeadings(nodes);
    DefaultState.(open := open, maxHeadingCount := |headings|, items := ToOutline(headings, |nodes|))
      .ExpandAll().SelectAt(index)
  }
}
