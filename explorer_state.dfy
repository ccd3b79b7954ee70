/** The file explorer's state (basalt/src/explorer/state.rs): the vault's tree, sorted with
    directories first and then by lowercased name, shown as a flattened list of rows with depths,
    a selection and a scroll offset. */
module ExplorerState {
  import opened Wrappers
  import opened Seqs
  import opened Usize
  import opened ListSelection
  import opened Strings
  import V = VaultEntry
  import opened ExplorerItem

  datatype Sort = Asc | Desc

  // ---- The scroll offset ----

  /** `calculate_offset`: centre the selected row, unless that would leave blank rows below the
      last item, in which case the last items fill the window. Either way the selected row is in
      the window, and the window runs past the last item only when the items do not fill it. */
  function CalculateOffset(row: nat, itemsCount: nat, windowHeight: nat): (r: nat)
    ensures row < itemsCount && 0 < windowHeight ==> r <= row < r + windowHeight
    ensures row < itemsCount && windowHeight <= itemsCount ==> r + windowHeight <= itemsCount
    ensures row + windowHeight / 2 <= SaturatingSub(itemsCount, 1) ==> r == SaturatingSub(row, windowHeight / 2)
  {
    var half := windowHeight / 2;
    if row + half > SaturatingSub(itemsCount, 1) then SaturatingSub(itemsCount, windowHeight)
    else SaturatingSub(row, half)
  }

  // ---- Sorting ----

  /** `sort_items_by`: directories before files; otherwise by lowercased name. */
  function CompareItems(sort: Sort, a: Item, b: Item): (r: Ordering)
    ensures a.IsDir() && !b.IsDir() ==> r == Less
    ensures !a.IsDir() && b.IsDir() ==> r == Greater
    ensures a.IsDir() == b.IsDir() && sort == Asc ==> r == Cmp(Lower(a.Name()), Lower(b.Name()))
    ensures a.IsDir() == b.IsDir() && sort == Desc ==> r == Cmp(Lower(b.Name()), Lower(a.Name()))
  {
    if a.IsDir() && !b.IsDir() then Less
    else if !a.IsDir() && b.IsDir() then Greater
    else if sort == Asc then Cmp(Lower(a.Name()), Lower(b.Name()))
    else Cmp(Lower(b.Name()), Lower(a.Name()))
  }

  lemma CompareReverse(sort: Sort, a: Item, b: Item)
    ensures CompareItems(sort, b, a) == CompareItems(sort, a, b).Reverse()
  {
    CmpReverse(Lower(a.Name()), Lower(b.Name()));
  }

  lemma CompareTransitive(sort: Sort, a: Item, b: Item, c: Item)
    requires CompareItems(sort, a, b) != Greater && CompareItems(sort, b, c) != Greater
    ensures CompareItems(sort, a, c) != Greater
  {
    if a.IsDir() == b.IsDir() && b.IsDir() == c.IsDir() {
      var la, lb, lc := Lower(a.Name()), Lower(b.Name()), Lower(c.Name());
      if sort == Asc {
        CmpTransitive(la, lb, lc);
      } else {
        CmpTransitive(lc, lb, la);
      }
    }
  }

  /** Descending order is ascending order reversed, within each kind. */
  lemma DescReversesAsc(a: Item, b: Item)
    ensures a.IsDir() == b.IsDir() ==> CompareItems(Desc, a, b) == CompareItems(Asc, a, b).Reverse()
    ensures a.IsDir() != b.IsDir() ==> CompareItems(Desc, a, b) == CompareItems(Asc, a, b)
  {
    CmpReverse(Lower(a.Name()), Lower(b.Name()));
  }

  predicate SortedBy(sort: Sort, s: seq<Item>) {
    forall i, j :: 0 <= i < j < |s| ==> CompareItems(sort, s[i], s[j]) != Greater
  }

  /** Insert `x` into sorted `s` after every item not after it. */
  function Insert(sort: Sort, s: seq<Item>, x: Item): (r: seq<Item>)
    ensures multiset(r) == multiset(s) + multiset{x}
    ensures |r| == |s| + 1
    decreases |s|
  {
    if s == [] then [x]
    else if CompareItems(sort, s[|s| - 1], x) == Greater then
      assert s == s[..|s| - 1] + [s[|s| - 1]];
      Insert(sort, s[..|s| - 1], x) + [s[|s| - 1]]
    else s + [x]
  }

  /** `items.sort_by(sort_items_by(sort))`: a stable sort, here by insertion. */
  function SortItems(sort: Sort, s: seq<Item>): (r: seq<Item>)
    ensures multiset(r) == multiset(s)
    ensures |r| == |s|
    decreases |s|
  {
    if s == [] then []
    else
      assert s == s[..|s| - 1] + [s[|s| - 1]];
      Insert(sort, SortItems(sort, s[..|s| - 1]), s[|s| - 1])
  }

  lemma SortedSnoc(sort: Sort, s: seq<Item>, x: Item)
    requires SortedBy(sort, s)
    requires forall i :: 0 <= i < |s| ==> CompareItems(sort, s[i], x) != Greater
    ensures SortedBy(sort, s + [x])
  {
    var r := s + [x];
    forall i, j | 0 <= i < j < |r|
      ensures CompareItems(sort, r[i], r[j]) != Greater
    {
      if j < |s| {
        assert r[i] == s[i] && r[j] == s[j];
      }
    }
  }

  /** Whatever is inserted among items not after `bound`, when not after it itself, stays so. */
  lemma InsertBelow(sort: Sort, s: seq<Item>, x: Item, bound: Item)
    requires forall i :: 0 <= i < |s| ==> CompareItems(sort, s[i], bound) != Greater
    requires CompareItems(sort, x, bound) != Greater
    ensures forall i :: 0 <= i < |s| + 1 ==> CompareItems(sort, Insert(sort, s, x)[i], bound) != Greater
  {
    var r := Insert(sort, s, x);
    forall i | 0 <= i < |r|
      ensures CompareItems(sort, r[i], bound) != Greater
    {
      assert r[i] in multiset(r);
      if r[i] != x {
        assert r[i] in multiset(s);
        var k :| 0 <= k < |s| && s[k] == r[i];
      }
    }
  }

  lemma {:induction false} InsertSorted(sort: Sort, s: seq<Item>, x: Item)
    requires SortedBy(sort, s)
    ensures SortedBy(sort, Insert(sort, s, x))
    decreases |s|
  {
    if s != [] {
      var init, last := s[..|s| - 1], s[|s| - 1];
      assert SortedBy(sort, init);
      if CompareItems(sort, last, x) == Greater {
        InsertSorted(sort, init, x);
        CompareReverse(sort, last, x);
        InsertBelow(sort, init, x, last);
        SortedSnoc(sort, Insert(sort, init, x), last);
      } else {
        forall i | 0 <= i < |s|
          ensures CompareItems(sort, s[i], x) != Greater
        {
          if i < |s| - 1 {
            CompareTransitive(sort, s[i], last, x);
          }
        }
        SortedSnoc(sort, s, x);
      }
    }
  }

  /** The sort's result is sorted and a permutation of its input. */
  lemma {:induction false} SortItemsSorted(sort: Sort, s: seq<Item>)
    ensures SortedBy(sort, SortItems(sort, s))
    ensures multiset(SortItems(sort, s)) == multiset(s)
    decreases |s|
  {
    if s != [] {
      SortItemsSorted(sort, s[..|s| - 1]);
      InsertSorted(sort, SortItems(sort, s[..|s| - 1]), s[|s| - 1]);
    }
  }

  /** Two items compare equal, in either order, exactly when they are of the same kind and
      have the same lowercased name. */
  predicate SameKey(a: Item, b: Item) {
    a.IsDir() == b.IsDir() && Lower(a.Name()) == Lower(b.Name())
  }

  /** The items of `s` with the same key as `x`, in their order in `s`. */
  function KeyClass(s: seq<Item>, x: Item): (r: seq<Item>)
    ensures |r| <= |s|
    decreases |s|
  {
    if s == [] then []
    else KeyClass(s[..|s| - 1], x) + (if SameKey(s[|s| - 1], x) then [s[|s| - 1]] else [])
  }

  /** The key class of `x` holds exactly the items of `s` with the key of `x`. */
  lemma {:induction false} KeyClassMembers(s: seq<Item>, x: Item, y: Item)
    ensures y in KeyClass(s, x) <==> y in s && SameKey(y, x)
    decreases |s|
  {
    if s != [] {
      var init := s[..|s| - 1];
      KeyClassMembers(init, x, y);
      assert s == init + [s[|s| - 1]];
    }
  }

  /** Appending `y` extends its own key class by `y` and no other. */
  lemma KeyClassSnoc(s: seq<Item>, y: Item, x: Item)
    ensures KeyClass(s + [y], x) == KeyClass(s, x) + (if SameKey(y, x) then [y] else [])
  {
    assert (s + [y])[..|s|] == s;
  }

  /** Items that compare strictly in one direction do not share a key. */
  lemma GreaterNotSameKey(sort: Sort, a: Item, b: Item, x: Item)
    requires CompareItems(sort, a, b) == Greater
    ensures !(SameKey(a, x) && SameKey(b, x))
  { }

  /** Two parts commute after a common prefix when one of them is empty. */
  lemma AppendSwap(a: seq<Item>, p: seq<Item>, q: seq<Item>)
    requires p == [] || q == []
    ensures a + p + q == a + q + p
  {
    if p == [] {
      assert a + p == a && a + q + p == a + q;
    } else {
      assert a + q == a && a + p + q == a + p;
    }
  }

  /** Inserting adds `e` at the end of its own key class and leaves every other class alone. */
  lemma {:induction false} InsertStable(sort: Sort, s: seq<Item>, e: Item, x: Item)
    ensures KeyClass(Insert(sort, s, e), x) == KeyClass(s, x) + (if SameKey(e, x) then [e] else [])
    decreases |s|
  {
    if s == [] {
      KeyClassSnoc([], e, x);
    } else {
      var init, last := s[..|s| - 1], s[|s| - 1];
      if CompareItems(sort, last, e) == Greater {
        InsertStable(sort, init, e, x);
        GreaterNotSameKey(sort, last, e, x);
        KeyClassSnoc(Insert(sort, init, e), last, x);
        AppendSwap(KeyClass(init, x), if SameKey(e, x) then [e] else [], if SameKey(last, x) then [last] else []);
      } else {
        KeyClassSnoc(s, e, x);
      }
    }
  }

  /** The sort is stable: items with the same key keep their order. */
  lemma {:induction false} SortItemsStable(sort: Sort, s: seq<Item>, x: Item)
    ensures KeyClass(SortItems(sort, s), x) == KeyClass(s, x)
    decreases |s|
  {
    if s != [] {
      var init := s[..|s| - 1];
      SortItemsStable(sort, init, x);
      InsertStable(sort, SortItems(sort, init), s[|s| - 1], x);
    }
  }

  /** In a sorted sequence nothing after an item compares below it, so an item of `s` is not
      above its last one. */
  lemma SortedLast(sort: Sort, s: seq<Item>, y: Item)
    requires SortedBy(sort, s) && y in s
    ensures CompareItems(sort, y, s[|s| - 1]) != Greater
  {
    var k :| 0 <= k < |s| && s[k] == y;
    if k == |s| - 1 {
      CompareReverse(sort, y, y);
    }
  }

  /** Two sorted sequences with the same key classes end in items of the same key. */
  lemma LastSameKey(sort: Sort, r: seq<Item>, t: seq<Item>)
    requires SortedBy(sort, r) && SortedBy(sort, t) && r != [] && t != []
    requires r[|r| - 1] in t && t[|t| - 1] in r
    ensures SameKey(r[|r| - 1], t[|t| - 1])
  {
    var y, z := r[|r| - 1], t[|t| - 1];
    SortedLast(sort, r, z);
    SortedLast(sort, t, y);
    CompareReverse(sort, y, z);
  }

  lemma SnocInjective(a: seq<Item>, b: seq<Item>, y: Item, z: Item)
    requires a + [y] == b + [z]
    ensures a == b && y == z
  {
    assert a == (a + [y])[..|a|] && b == (b + [z])[..|b|];
  }

  /** Equal key classes stay equal once the same last item is removed from both sequences. */
  lemma KeyClassPeel(r: seq<Item>, t: seq<Item>, x: Item)
    requires r != [] && t != [] && r[|r| - 1] == t[|t| - 1]
    requires KeyClass(r, x) == KeyClass(t, x)
    ensures KeyClass(r[..|r| - 1], x) == KeyClass(t[..|t| - 1], x)
  {
    var y := r[|r| - 1];
    if SameKey(y, x) {
      SnocInjective(KeyClass(r[..|r| - 1], x), KeyClass(t[..|t| - 1], x), y, y);
    } else {
      assert KeyClass(r[..|r| - 1], x) + [] == KeyClass(r[..|r| - 1], x);
      assert KeyClass(t[..|t| - 1], x) + [] == KeyClass(t[..|t| - 1], x);
    }
  }

  /** Two sorted sequences with the same key classes end in the same item. */
  lemma LastOfKeyClasses(sort: Sort, r: seq<Item>, t: seq<Item>)
    requires SortedBy(sort, r) && SortedBy(sort, t) && r != [] && t != []
    requires forall x :: KeyClass(r, x) == KeyClass(t, x)
    ensures r[|r| - 1] == t[|t| - 1]
  {
    var y, z := r[|r| - 1], t[|t| - 1];
    KeyClassMembers(r, y, y);
    KeyClassMembers(t, y, y);
    KeyClassMembers(r, z, z);
    KeyClassMembers(t, z, z);
    LastSameKey(sort, r, t);
    assert KeyClass(r, y) == KeyClass(r[..|r| - 1], y) + [y];
    assert KeyClass(t, y) == KeyClass(t[..|t| - 1], y) + [z];
    SnocInjective(KeyClass(r[..|r| - 1], y), KeyClass(t[..|t| - 1], y), y, z);
  }

  /** A key class of a nonempty sequence holds an item of it, so a sequence whose classes are
      all empty is empty. */
  lemma EmptyKeyClasses(r: seq<Item>, t: seq<Item>)
    requires r == [] && forall x :: KeyClass(r, x) == KeyClass(t, x)
    ensures t == []
  {
    if t != [] {
      KeyClassMembers(t, t[0], t[0]);
    }
  }

  /** A sorted sequence is fixed by its key classes: two sorted sequences with the same
      classes, each in the same order, are equal. */
  lemma {:induction false} SortedByKeyClasses(sort: Sort, r: seq<Item>, t: seq<Item>)
    requires SortedBy(sort, r) && SortedBy(sort, t)
    requires forall x :: KeyClass(r, x) == KeyClass(t, x)
    ensures r == t
    decreases |r|
  {
    if r == [] {
      EmptyKeyClasses(r, t);
    } else if t == [] {
      EmptyKeyClasses(t, r);
    } else {
      LastOfKeyClasses(sort, r, t);
      var ri, ti := r[..|r| - 1], t[..|t| - 1];
      forall x
        ensures KeyClass(ri, x) == KeyClass(ti, x)
      {
        KeyClassPeel(r, t, x);
      }
      SortedByKeyClasses(sort, ri, ti);
      assert r == ri + [r[|r| - 1]] && t == ti + [t[|t| - 1]];
    }
  }

  // ---- Flattening ----

  /** How deeply a tree nests, which bounds the flattening's recursion through sorted copies. */
  function Height(item: Item): nat
    decreases item, 1
  {
    if item.File? then 0 else 1 + MaxHeight(item.items)
  }

  function MaxHeight(items: seq<Item>): (r: nat)
    ensures forall i :: 0 <= i < |items| ==> Height(items[i]) <= r
    decreases items, 0
  {
    if items == [] then 0
    else
      var rest := MaxHeight(items[1..]);
      assert forall i :: 1 <= i < |items| ==> items[i] == items[1..][i - 1];
      if Height(items[0]) > rest then Height(items[0]) else rest
  }

  lemma {:induction false} MaxHeightBound(items: seq<Item>, bound: nat)
    requires forall i :: 0 <= i < |items| ==> Height(items[i]) <= bound
    ensures MaxHeight(items) <= bound
    decreases |items|
  {
    if items != [] {
      MaxHeightBound(items[1..], bound);
    }
  }

  /** Sorting keeps the items, and so their height. */
  lemma SortedHeight(sort: Sort, items: seq<Item>)
    ensures MaxHeight(SortItems(sort, items)) <= MaxHeight(items)
  {
    var sorted := SortItems(sort, items);
    forall i | 0 <= i < |sorted|
      ensures Height(sorted[i]) <= MaxHeight(items)
    {
      assert sorted[i] in multiset(items);
      var k :| 0 <= k < |items| && items[k] == sorted[i];
    }
    MaxHeightBound(sorted, MaxHeight(items));
  }

  /** `flatten(sort, depth)` for one item: the item at `depth`, then, for an expanded directory,
      its items sorted and flattened one level deeper. */
  function Flatten(sort: Sort, depth: nat, item: Item): (r: seq<(Item, nat)>)
    ensures |r| >= 1 && r[0] == (item, depth)
    ensures (item.File? || !item.expanded) ==> r == [(item, depth)]
    decreases Height(item), 0, 0
  {
    if item.Directory? && item.expanded then
      SortedHeight(sort, item.items);
      [(item, depth)] + FlattenAll(sort, depth + 1, SortItems(sort, item.items))
    else [(item, depth)]
  }

  /** `items.iter().flat_map(flatten(sort, depth))`. */
  function FlattenAll(sort: Sort, depth: nat, items: seq<Item>): (r: seq<(Item, nat)>)
    ensures |r| >= |items|
    decreases MaxHeight(items), 1, |items|
  {
    if items == [] then []
    else Flatten(sort, depth, items[0]) + FlattenAll(sort, depth, items[1..])
  }

  // ---- Toggling a directory ----

  /** `toggle_item_in_tree`: flip `expanded` on every directory whose path is `identifier`. */
  function ToggleItemInTree(item: Item, identifier: V.Path): (r: Item)
    ensures item.File? ==> r == item
    ensures item.Directory? ==> (r.Directory? && r.name == item.name && r.path == item.path
      && r.expanded == (if item.path == identifier then !item.expanded else item.expanded)
      && r.items == ToggleAll(item.items, identifier))
    decreases item, 1
  {
    match item
    case File(_) => item
    case Directory(name, path, expanded, items) =>
      Directory(name, path, if path == identifier then !expanded else expanded, ToggleAll(items, identifier))
  }

  function ToggleAll(items: seq<Item>, identifier: V.Path): (r: seq<Item>)
    ensures |r| == |items|
    ensures forall i :: 0 <= i < |items| ==> r[i] == ToggleItemInTree(items[i], identifier)
    decreases items, 0
  {
    if items == [] then [] else [ToggleItemInTree(items[0], identifier)] + ToggleAll(items[1..], identifier)
  }

  // ---- The state ----

  datatype ExplorerState = ExplorerState(
    title: string,
    selectedNote: Option<V.Note>,
    selectedItemIndex: Option<nat>,
    selectedItemPath: Option<V.Path>,
    items: seq<Item>,
    flatItems: seq<(Item, nat)>,
    open: bool,
    sort: Sort,
    listState: ListState,
    active: bool)
  {
    function SetActive(active: bool): (r: ExplorerState)
      ensures r == this.(active := active)
    {
      this.(active := active)
    }

    function Toggle(): (r: ExplorerState)
      ensures r == this.(open := !open)
    {
      this.(open := !open)
    }

    function Open(): (r: ExplorerState)
      ensures r == this.(open := true)
    {
      this.(open := true)
    }

    function Close(): (r: ExplorerState)
      ensures r == this.(open := false)
    {
      this.(open := false)
    }

    function IsOpen(): bool {
      open
    }

    function SelectedPath(): Option<V.Path> {
      selectedItemPath
    }

    /** `flatten_with_sort`: sort the items the given way and flatten them again. */
    function FlattenWithSort(sort: Sort): (r: ExplorerState)
      ensures r == this.(items := SortItems(sort, items), flatItems := FlattenAll(sort, 0, SortItems(sort, items)),
                         sort := sort)
    {
      var sorted := SortItems(sort, items);
      this.(flatItems := FlattenAll(sort, 0, sorted), items := sorted, sort := sort)
    }

    /** `flatten_with_items`: replace the items, sorted the current way, and flatten them. */
    function FlattenWithItems(newItems: seq<Item>): (r: ExplorerState)
      ensures r == this.(items := SortItems(sort, newItems), flatItems := FlattenAll(sort, 0, SortItems(sort, newItems)))
    {
      var sorted := SortItems(sort, newItems);
      this.(flatItems := FlattenAll(sort, 0, sorted), items := sorted)
    }

    /** `sort`: flip the order and sort again. */
    function Sort(): (r: ExplorerState)
      ensures r == FlattenWithSort(if sort == Asc then Desc else Asc)
    {
      FlattenWithSort(if sort == Asc then Desc else Asc)
    }

    /** `update_offset_mut`: with items, scroll so the selected row (row 0 without a selection)
        is placed by `calculate_offset`, counting the top-level items. */
    function UpdateOffset(windowHeight: nat): (r: ExplorerState)
      ensures items == [] ==> r == this
      ensures items != [] ==> r == this.(listState := listState.WithOffset(
        CalculateOffset(listState.selected.UnwrapOr(0), |items|, windowHeight)))
    {
      if items == [] then this
      else
        var offset := CalculateOffset(listState.selected.UnwrapOr(0), |items|, windowHeight);
        this.(listState := listState.WithOffset(offset))
    }

    /** `update_offset_mut` counting the rows the list shows. */
    function UpdateOffsetByRows(windowHeight: nat): (r: ExplorerState)
      ensures items == [] ==> r == this
      ensures items != [] ==> r == this.(listState := listState.WithOffset(
        CalculateOffset(listState.selected.UnwrapOr(0), |flatItems|, windowHeight)))
      ensures (items != [] && 0 < windowHeight && listState.selected.Some?
               && listState.selected.value < |flatItems|) ==>
        r.listState.offset <= listState.selected.value < r.listState.offset + windowHeight
    {
      if items == [] then this
      else
        var offset := CalculateOffset(listState.selected.UnwrapOr(0), |flatItems|, windowHeight);
        this.(listState := listState.WithOffset(offset))
    }

    /** `select`: on a directory row, toggle that directory and flatten again; on a file row,
        select its note; without a selected row, nothing. */
    function Select(): (r: ExplorerState)
      ensures listState.selected.None? || listState.selected.value >= |flatItems| ==> r == this
      ensures listState.selected.Some? && listState.selected.value < |flatItems| ==>
        var row := flatItems[listState.selected.value].0;
        if row.Directory? then r == FlattenWithItems(ToggleAll(items, row.path))
        else r == this.(selectedNote := Some(row.note), selectedItemIndex := listState.selected,
                        selectedItemPath := Some(row.note.path))
    {
      if listState.selected.None? || listState.selected.value >= |flatItems| then this
      else
        var index := listState.selected.value;
        var row := flatItems[index].0;
        if row.Directory? then FlattenWithItems(ToggleAll(items, row.path))
        else this.(selectedNote := Some(row.note), selectedItemIndex := Some(index),
                   selectedItemPath := Some(row.note.path))
    }

    /** `next`: move down by `amount`, stopping at the last row; no selection stays none. */
    function Next(amount: nat): (r: ExplorerState)
      ensures r == this.(listState := listState.Select(
        if listState.selected.Some?
        then Some(Min(listState.selected.value + amount, SaturatingSub(|flatItems|, 1)))
        else None))
    {
      var index := if listState.selected.Some?
        then Some(Min(listState.selected.value + amount, SaturatingSub(|flatItems|, 1)))
        else None;
      this.(listState := listState.Select(index))
    }

    /** `previous`: move up by `amount`, stopping at the first row; no selection stays none. */
    function Previous(amount: nat): (r: ExplorerState)
      ensures r == this.(listState := listState.Select(
        if listState.selected.Some? then Some(SaturatingSub(listState.selected.value, amount)) else None))
    {
      var index := if listState.selected.Some? then Some(SaturatingSub(listState.selected.value, amount)) else None;
      this.(listState := listState.Select(index))
    }
  }

  /** `ExplorerState::default()`. */
  function DefaultState(title: string): ExplorerState {
    ExplorerState(title, None, None, None, [], [], false, Asc, ListSelection.Default, false)
  }

  /** `ExplorerState::new`: open, ascending, the first row selected, and the vault's entries
      converted, sorted and flattened. */
  function New(title: string, entries: seq<V.VaultEntry>): (r: ExplorerState)
    ensures r.open && r.sort == Asc && r.listState.selected == Some(0) && r.selectedNote.None?
    ensures r.items == SortItems(Asc, FromEntries(entries)) && r.flatItems == FlattenAll(Asc, 0, r.items)
    ensures r.title == title && !r.active
  {
    DefaultState(title).(open := true, sort := Asc, listState := WithSelected(Some(0)))
      .FlattenWithItems(FromEntries(entries))
  }
}
