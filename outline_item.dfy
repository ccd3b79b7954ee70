/** The outline's tree of headings (basalt/src/outline/item.rs): an entry with children can be
    expanded or collapsed, and the outline list shows the tree flattened in pre-order, skipping
    the children of collapsed entries. Ranges are half-open intervals of node indices. */
module OutlineItem {
  import opened Wrappers
  import opened Seqs

  /** `Range<usize>`: `start..end`, half-open. */
  datatype Range = Range(start: nat, end: nat) {
    predicate Contains(i: nat) {
      start <= i < end
    }
  }

  datatype Item =
    | Heading(range: Range, content: string)
    | HeadingEntry(range: Range, content: string, children: seq<Item>, expanded: bool)
  {
    /** `contains_index`, on either variant's range. */
    predicate ContainsIndex(i: nat) {
      range.Contains(i)
    }
  }

  /** `flatten` for one item: the item itself, then, when it is an expanded entry, its children
      flattened in order. */
  function Flatten(item: Item): (r: seq<Item>)
    ensures |r| >= 1 && r[0] == item
    ensures (item.Heading? || !item.expanded) ==> r == [item]
    decreases item
  {
    if item.Heading? || !item.expanded then [item] else [item] + FlattenAll(item.children)
  }

  /** `Flatten for Vec<Item>`: the items' flattenings, concatenated in order. */
  function FlattenAll(items: seq<Item>): (r: seq<Item>)
    ensures |r| >= |items|
    decreases items
  {
    if items == [] then [] else FlattenAll(items[..|items| - 1]) + Flatten(items[|items| - 1])
  }

  /** The first position at or after `from` in `flat` whose item's range contains `index`. */
  function FindFrom(flat: seq<Item>, index: nat, from: nat): (r: Option<(nat, Item)>)
    requires from <= |flat|
    ensures r.Some? ==> (from <= r.value.0 < |flat| && flat[r.value.0] == r.value.1
      && r.value.1.ContainsIndex(index)
      && forall j :: from <= j < r.value.0 ==> !flat[j].ContainsIndex(index))
    ensures r.None? ==> forall j :: from <= j < |flat| ==> !flat[j].ContainsIndex(index)
    decreases |flat| - from
  {
    if from == |flat| then None
    else if flat[from].ContainsIndex(index) then Some((from, flat[from]))
    else FindFrom(flat, index, from + 1)
  }

  /** `FindItem::find_item`: the first flattened item whose range contains `index`, with its
      position in the flattened list. */
  function FindItem(items: seq<Item>, index: nat): (r: Option<(nat, Item)>)
    ensures r.Some? ==> (r.value.0 < |FlattenAll(items)| && FlattenAll(items)[r.value.0] == r.value.1
      && r.value.1.ContainsIndex(index)
      && forall j :: 0 <= j < r.value.0 ==> !FlattenAll(items)[j].ContainsIndex(index))
    ensures r.None? <==> forall j :: 0 <= j < |FlattenAll(items)| ==> !FlattenAll(items)[j].ContainsIndex(index)
  {
    FindFrom(FlattenAll(items), index, 0)
  }

  /** Flattening distributes over concatenation of item lists. */
  lemma {:induction false} FlattenAllConcat(a: seq<Item>, b: seq<Item>)
    ensures FlattenAll(a + b) == FlattenAll(a) + FlattenAll(b)
    decreases |b|
  {
    if b == [] {
      assert a + b == a;
    } else {
      var init, last := b[..|b| - 1], b[|b| - 1];
      assert (a + b)[..|a + b| - 1] == a + init;
      FlattenAllConcat(a, init);
      Regroup(FlattenAll(a), FlattenAll(init), Flatten(last));
    }
  }

  /** An expanded entry's flattening is the entry, then each child's flattening in order. */
  lemma ExpandedFlatten(item: Item, i: nat)
    requires item.HeadingEntry? && item.expanded && i < |item.children|
    ensures Flatten(item) == [item] + FlattenAll(item.children[..i]) + Flatten(item.children[i])
                                    + FlattenAll(item.children[i + 1..])
  {
    var cs := item.children;
    assert cs == cs[..i] + [cs[i]] + cs[i + 1..];
    FlattenAllConcat(cs[..i] + [cs[i]], cs[i + 1..]);
    FlattenAllConcat(cs[..i], [cs[i]]);
    assert FlattenAll([cs[i]]) == Flatten(cs[i]) by {
      assert [cs[i]][..0] == [];
    }
  }
}
