/** The vault list's state (basalt/src/vault_selector.rs): the vaults, the highlighted row and
    the vault chosen with `select`. The vaults are a type parameter: only their order matters. */
module VaultSelector {
  import opened Wrappers
  import opened Usize
  import opened ListSelection

  datatype VaultSelectorState<V> = VaultSelectorState(selectedItemIndex: Option<nat>, items: seq<V>,
                                                      listState: ListState)
  {
    /** `select`: the highlighted row becomes the chosen one. */
    function Select(): (r: VaultSelectorState<V>)
      ensures r.selectedItemIndex == listState.selected
      ensures r.items == items && r.listState == listState
    {
      this.(selectedItemIndex := listState.selected)
    }

    /** `selected`: the chosen row. */
    function Selected(): (r: Option<nat>)
      ensures r == selectedItemIndex
    {
      selectedItemIndex
    }

    /** `get_item`: the vault at `index`, if there is one. */
    function GetItem(index: nat): (r: Option<V>)
      ensures r.Some? <==> index < |items|
      ensures r.Some? ==> r.value == items[index]
    {
      if index < |items| then Some(items[index]) else None
    }

    /** `next`: one row down, stopping at the last. `items.len() - 1` is computed only when a
        row is highlighted; on an empty list it wraps around to `usize::MAX`, as a release build
        computes it, so the highlight moves one row further. */
    function Next(): (r: VaultSelectorState<V>)
      ensures r.items == items && r.selectedItemIndex == selectedItemIndex
      ensures listState.selected.None? ==> r.listState == listState.Select(None)
      ensures listState.selected.Some? ==> r.listState.selected.Some? && r.listState.offset == listState.offset
      ensures |items| > 0 && listState.selected.Some? ==> r.listState.selected.value < |items|
      ensures listState.selected.Some? && listState.selected.value + 1 < |items| ==>
        r.listState.selected == Some(listState.selected.value + 1)
      ensures |items| > 0 && listState.selected.Some? && listState.selected.value + 1 >= |items| ==>
        r.listState.selected == Some(|items| - 1)
      ensures |items| == 0 && listState.selected.Some? ==>
        r.listState.selected == Some(Min(listState.selected.value + 1, MAX))
    {
      var index := if listState.selected.Some? then Some(Min(listState.selected.value + 1, WrappingSub(|items|, 1))) else None;
      this.(listState := listState.Select(index))
    }

    /** `previous`: `ListState::select_previous`. */
    function Previous(): (r: VaultSelectorState<V>)
      ensures r.items == items && r.selectedItemIndex == selectedItemIndex
      ensures r.listState == listState.SelectPrevious()
    {
      this.(listState := listState.SelectPrevious())
    }
  }

  /** `VaultSelectorState::new`: the first row highlighted, nothing chosen. */
  function New<V>(items: seq<V>): (r: VaultSelectorState<V>)
    ensures r.items == items && r.selectedItemIndex == None
    ensures r.listState.selected == Some(0) && r.listState.offset == 0
  {
    VaultSelectorState(None, items, WithSelected(Some(0)))
  }

  /** Choosing after moving reports the row moved to, and `get_item` finds its vault. */
  lemma NextThenSelect<V>(s: VaultSelectorState<V>)
    requires s.listState.selected.Some? && |s.items| > 0
    ensures s.Next().Select().Selected() == s.Next().listState.selected
    ensures s.Next().GetItem(s.Next().Select().Selected().value).Some?
  {
  }

  /** At the last row `next` stays. */
  lemma NextAtLast<V>(s: VaultSelectorState<V>)
    requires |s.items| > 0 && s.listState.selected == Some(|s.items| - 1)
    ensures s.Next().listState == s.listState
  {
  }

  /** At the first row `previous` stays: `select_previous` saturates at row 0. */
  lemma PreviousAtFirst<V>(s: VaultSelectorState<V>)
    requires s.listState.selected == Some(0)
    ensures s.Previous() == s
  {
  }

  /** With no vaults the fresh highlight on row 0 moves to row 1, which does not exist. */
  lemma NextOnEmptyList<V>()
    ensures New<V>([]).Next().listState.selected == Some(1)
  {
  }
}
