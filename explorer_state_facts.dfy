/** Properties of the file explorer: its rows stay the sorted flattening of its items, the rows at
    depth 0 are the items, sorting twice restores the tree, toggling a directory twice restores it,
    the selection stays on a row, and the offset it scrolls to is computed from the wrong count. */
module ExplorerStateFacts {
  import opened Wrappers
  import opened Seqs
  import opened Usize
  import opened ListSelection
  import opened Strings
  import V = VaultEntry
  import opened ExplorerItem
  import opened ExplorerState

  // ---- The rows are the sorted flattening of the items ----

  /** The explorer's invariant: items sorted its way, rows flattened from them. */
  predicate Consistent(s: ExplorerState) {
    SortedBy(s.sort, s.items) && s.flatItems == FlattenAll(s.sort, 0, s.items)
  }

  lemma NewConsistent(title: string, entries: seq<V.VaultEntry>)
    ensures Consistent(New(title, entries))
  {
    SortItemsSorted(Asc, FromEntries(entries));
  }

  lemma FlattenWithItemsConsistent(s: ExplorerState, items: seq<Item>)
    ensures Consistent(s.FlattenWithItems(items))
    ensures multiset(s.FlattenWithItems(items).items) == multiset(items)
  {
    SortItemsSorted(s.sort, items);
  }

  lemma FlattenWithSortConsistent(s: ExplorerState, sort: Sort)
    ensures Consistent(s.FlattenWithSort(sort)) && s.FlattenWithSort(sort).sort == sort
    ensures multiset(s.FlattenWithSort(sort).items) == multiset(s.items)
  {
    SortItemsSorted(sort, s.items);
  }

  /** `select` keeps the invariant, whichever row it acts on. */
  lemma SelectConsistent(s: ExplorerState)
    requires Consistent(s)
    ensures Consistent(s.Select())
  {
    if s.listState.selected.Some? && s.listState.selected.value < |s.flatItems| {
      var row := s.flatItems[s.listState.selected.value].0;
      if row.Directory? {
        FlattenWithItemsConsistent(s, ToggleAll(s.items, row.path));
      }
    }
  }

  /** Moving the selection and toggling visibility keep it trivially. */
  lemma MovesConsistent(s: ExplorerState, amount: nat, windowHeight: nat)
    requires Consistent(s)
    ensures Consistent(s.Next(amount)) && Consistent(s.Previous(amount))
    ensures Consistent(s.Toggle()) && Consistent(s.UpdateOffset(windowHeight))
  {
  }

  // ---- Depths ----

  /** The items of the rows at exactly depth `d`, in order. */
  function AtDepth(rows: seq<(Item, nat)>, d: nat): seq<Item> {
    if rows == [] then []
    else (if rows[0].1 == d then [rows[0].0] else []) + AtDepth(rows[1..], d)
  }

  lemma {:induction false} AtDepthConcat(a: seq<(Item, nat)>, b: seq<(Item, nat)>, d: nat)
    ensures AtDepth(a + b, d) == AtDepth(a, d) + AtDepth(b, d)
  {
    if a == [] {
      assert a + b == b;
    } else {
      assert (a + b)[1..] == a[1..] + b;
      AtDepthConcat(a[1..], b, d);
      Regroup(if a[0].1 == d then [a[0].0] else [], AtDepth(a[1..], d), AtDepth(b, d));
    }
  }

  lemma {:induction false} AtDepthNone(rows: seq<(Item, nat)>, d: nat)
    requires forall k :: 0 <= k < |rows| ==> rows[k].1 > d
    ensures AtDepth(rows, d) == []
  {
    if rows != [] {
      AtDepthNone(rows[1..], d);
    }
  }

  /** Below an item's own row, its flattening is deeper. */
  lemma {:induction false} FlattenDeeper(sort: Sort, d: nat, item: Item)
    ensures forall k :: 1 <= k < |Flatten(sort, d, item)| ==> Flatten(sort, d, item)[k].1 > d
    decreases Height(item), 0, 0
  {
    if item.Directory? && item.expanded {
      SortedHeight(sort, item.items);
      FlattenAllAtLeast(sort, d + 1, SortItems(sort, item.items));
    }
  }

  lemma {:induction false} FlattenAllAtLeast(sort: Sort, d: nat, items: seq<Item>)
    ensures forall k :: 0 <= k < |FlattenAll(sort, d, items)| ==> FlattenAll(sort, d, items)[k].1 >= d
    decreases MaxHeight(items), 1, |items|
  {
    if items != [] {
      FlattenDeeper(sort, d, items[0]);
      FlattenAllAtLeast(sort, d, items[1..]);
    }
  }

  /** The rows at the top depth are the items themselves, in order. */
  lemma {:induction false} AtDepthFlattenAll(sort: Sort, d: nat, items: seq<Item>)
    ensures AtDepth(FlattenAll(sort, d, items), d) == items
    decreases |items|
  {
    if items != [] {
      var first := Flatten(sort, d, items[0]);
      FlattenDeeper(sort, d, items[0]);
      AtDepthNone(first[1..], d);
      assert first == [first[0]] + first[1..];
      AtDepthConcat([first[0]], first[1..], d);
      assert AtDepth([first[0]], d) == [items[0]];
      AtDepthConcat(first, FlattenAll(sort, d, items[1..]), d);
      AtDepthFlattenAll(sort, d, items[1..]);
    }
  }

  /** In a consistent explorer, the rows at depth 0 are its items. */
  lemma TopRowsAreItems(s: ExplorerState)
    requires Consistent(s)
    ensures AtDepth(s.flatItems, 0) == s.items
  {
    AtDepthFlattenAll(s.sort, 0, s.items);
  }

  // ---- Sorting twice ----

  /** `sort` applied twice gives back the explorer it started from: each flip is a stable
      sort, so items of equal key come back in the order they had. */
  lemma SortTwice(s: ExplorerState)
    requires Consistent(s)
    ensures s.Sort().Sort() == s
  {
    var once := s.Sort();
    var twice := once.Sort();
    FlattenWithSortConsistent(s, once.sort);
    FlattenWithSortConsistent(once, s.sort);
    forall x
      ensures KeyClass(twice.items, x) == KeyClass(s.items, x)
    {
      SortItemsStable(once.sort, s.items, x);
      SortItemsStable(s.sort, once.items, x);
    }
    SortedByKeyClasses(s.sort, s.items, twice.items);
  }

  // ---- Toggling ----

  lemma {:induction false} ToggleItemTwice(item: Item, identifier: V.Path)
    ensures ToggleItemInTree(ToggleItemInTree(item, identifier), identifier) == item
    decreases item, 1
  {
    if item.Directory? {
      ToggleAllTwice(item.items, identifier);
    }
  }

  /** Toggling the same directory twice restores the tree. */
  lemma {:induction false} ToggleAllTwice(items: seq<Item>, identifier: V.Path)
    ensures ToggleAll(ToggleAll(items, identifier), identifier) == items
    decreases items, 0
  {
    forall i | 0 <= i < |items|
      ensures ToggleAll(ToggleAll(items, identifier), identifier)[i] == items[i]
    {
      ToggleItemTwice(items[i], identifier);
    }
  }

  /** Whether a directory at `identifier` occurs in the tree. */
  predicate HasDirectory(item: Item, identifier: V.Path)
    decreases item
  {
    item.Directory? && (item.path == identifier || exists i :: 0 <= i < |item.items| && HasDirectory(item.items[i], identifier))
  }

  /** Toggling a path no directory has changes nothing. */
  lemma {:induction false} ToggleAbsent(item: Item, identifier: V.Path)
    requires !HasDirectory(item, identifier)
    ensures ToggleItemInTree(item, identifier) == item
    decreases item
  {
    if item.Directory? {
      forall i | 0 <= i < |item.items|
        ensures ToggleItemInTree(item.items[i], identifier) == item.items[i]
      {
        ToggleAbsent(item.items[i], identifier);
      }
    }
  }

  // ---- Moving the selection ----

  /** `next` keeps a selection on a row when there are rows, and never moves up. */
  lemma NextInBounds(s: ExplorerState, amount: nat)
    requires s.listState.selected.Some?
    ensures s.Next(amount).listState.selected.Some?
    ensures s.flatItems != [] ==> s.Next(amount).listState.selected.value < |s.flatItems|
    ensures s.listState.selected.value < |s.flatItems| ==>
      s.listState.selected.value <= s.Next(amount).listState.selected.value
  {
  }

  lemma PreviousMovesUp(s: ExplorerState, amount: nat)
    ensures s.Previous(amount).listState.selected.None? <==> s.listState.selected.None?
    ensures s.listState.selected.Some? ==>
      s.Previous(amount).listState.selected.value <= s.listState.selected.value
  {
  }

  // ---- The offset counts the top-level items ----

  /** Flattening files only gives one row each. */
  lemma {:induction false} FilesFlatten(sort: Sort, d: nat, items: seq<Item>)
    requires forall i :: 0 <= i < |items| ==> items[i].File?
    ensures |FlattenAll(sort, d, items)| == |items|
    decreases |items|
  {
    if items != [] {
      FilesFlatten(sort, d, items[1..]);
    }
  }

  /** An explorer whose one top-level item is an expanded directory of `files` notes. */
  predicate OneOpenDirectory(s: ExplorerState, files: nat) {
    && Consistent(s)
    && |s.items| == 1
    && s.items[0].Directory? && s.items[0].expanded
    && |s.items[0].items| == files
    && forall i :: 0 <= i < files ==> s.items[0].items[i].File?
  }

  /** Such an explorer shows the directory and one row per note. */
  lemma OneOpenDirectoryRows(s: ExplorerState, files: nat)
    requires OneOpenDirectory(s, files)
    ensures |s.flatItems| == files + 1
  {
    var dir := s.items[0];
    var sorted := SortItems(s.sort, dir.items);
    forall i | 0 <= i < |sorted|
      ensures sorted[i].File?
    {
      assert sorted[i] in multiset(dir.items);
    }
    FilesFlatten(s.sort, 1, sorted);
    assert s.flatItems == Flatten(s.sort, 0, dir) + FlattenAll(s.sort, 0, []);
  }

  /** As written, with nine notes, row 4 selected and a window of four rows, the offset is 0,
      which leaves the selected row below the window; the list, when drawn, moves the window
      down to rows 1 to 4, so the selected row is shown at the bottom rather than centred. */
  lemma OffsetLosesCentring(s: ExplorerState)
    requires OneOpenDirectory(s, 9) && s.listState.selected == Some(4)
    ensures s.UpdateOffset(4).listState.offset == 0
    ensures !(s.UpdateOffset(4).listState.offset <= 4 < s.UpdateOffset(4).listState.offset + 4)
    ensures DrawnOffset(s.UpdateOffset(4).listState.offset, 4, 4) == 1
  {
  }

  /** Counting the ten rows, the offset is 2, which centres row 4 in rows 2 to 5, and the
      list draws it as it is. */
  lemma OffsetByRowsCentresSelectedRow(s: ExplorerState)
    requires OneOpenDirectory(s, 9) && s.listState.selected == Some(4)
    ensures s.UpdateOffsetByRows(4).listState.offset == 2
    ensures DrawnOffset(s.UpdateOffsetByRows(4).listState.offset, 4, 4) == 2
  {
    OneOpenDirectoryRows(s, 9);
  }
}
