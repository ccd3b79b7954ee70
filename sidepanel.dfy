/** The side panel's state (basalt/src/sidepanel.rs): a titled list of notes that can be opened
    and closed, with a highlighted row, a chosen row and a scroll offset that keeps the
    highlighted row centred. */
module SidePanel {
  import opened Wrappers
  import opened Usize
  import opened ListSelection
  import E = ExplorerState

  datatype SidePanelState<N> = SidePanelState(title: string, selectedItemIndex: Option<nat>, items: seq<N>,
                                              open: bool, listState: ListState)
  {
    /** `open`, `close` and `toggle` change the flag only. */
    function Open(): (r: SidePanelState<N>)
      ensures r == this.(open := true)
    {
      this.(open := true)
    }

    function Close(): (r: SidePanelState<N>)
      ensures r == this.(open := false)
    {
      this.(open := false)
    }

    function Toggle(): (r: SidePanelState<N>)
      ensures r.open == !open && r.(open := open) == this
    {
      this.(open := !open)
    }

    /** `calculate_offset`: the first row shown so that the highlighted row (the first row when
        none is highlighted) is centred, or, near the end, so that the last rows fill the
        window. On an empty list `items.len() - 1` wraps around to `usize::MAX`, as a release
        build computes it. */
    function CalculateOffset(windowHeight: nat): (r: nat)
      ensures var idx := listState.selected.UnwrapOr(0);
        (idx < |items| && 0 < windowHeight ==> r <= idx < r + windowHeight)
        && (idx < |items| && windowHeight <= |items| ==> r + windowHeight <= |items|)
        && (0 < |items| && idx + windowHeight / 2 <= |items| - 1 ==> r == SaturatingSub(idx, windowHeight / 2))
        && (0 < |items| && idx + windowHeight / 2 > |items| - 1 ==> r == SaturatingSub(|items|, windowHeight))
        && (|items| == 0 && idx + windowHeight / 2 <= MAX ==> r == SaturatingSub(idx, windowHeight / 2))
    {
      var half := windowHeight / 2;
      var idx := listState.selected.UnwrapOr(0);
      if idx + half > WrappingSub(|items|, 1) then SaturatingSub(|items|, windowHeight) else SaturatingSub(idx, half)
    }

    /** `update_offset_mut`: the list's offset set to `calculate_offset`. */
    function UpdateOffset(windowHeight: nat): (r: SidePanelState<N>)
      ensures r == this.(listState := listState.WithOffset(CalculateOffset(windowHeight)))
    {
      this.(listState := listState.WithOffset(CalculateOffset(windowHeight)))
    }

    /** `select`: the highlighted row becomes the chosen one. */
    function Select(): (r: SidePanelState<N>)
      ensures r == this.(selectedItemIndex := listState.selected)
    {
      this.(selectedItemIndex := listState.selected)
    }

    function Selected(): (r: Option<nat>)
      ensures r == selectedItemIndex
    {
      selectedItemIndex
    }

    /** `next`: one row down, stopping at the last. `items.len() - 1` is computed only when a
        row is highlighted; on an empty list it wraps around to `usize::MAX`, so the highlight
        moves one row further. */
    function Next(): (r: SidePanelState<N>)
      ensures r.(listState := listState) == this
      ensures listState.selected.None? ==> r.listState == listState.Select(None)
      ensures listState.selected.Some? && listState.selected.value + 1 < |items| ==>
        r.listState.selected == Some(listState.selected.value + 1)
      ensures 0 < |items| && listState.selected.Some? && listState.selected.value + 1 >= |items| ==>
        r.listState.selected == Some(|items| - 1)
      ensures |items| == 0 && listState.selected.Some? ==>
        r.listState.selected == Some(Min(listState.selected.value + 1, MAX))
      ensures r.listState.offset == listState.Select(r.listState.selected).offset
    {
      var index := if listState.selected.Some? then Some(Min(listState.selected.value + 1, WrappingSub(|items|, 1))) else None;
      this.(listState := listState.Select(index))
    }

    /** `previous`: `ListState::select_previous`. */
    function Previous(): (r: SidePanelState<N>)
      ensures r == this.(listState := listState.SelectPrevious())
    {
      this.(listState := listState.SelectPrevious())
    }
  }

  /** `SidePanelState::new`: open, the first row highlighted, nothing chosen. */
  function New<N>(title: string, items: seq<N>): (r: SidePanelState<N>)
    ensures r.title == title && r.items == items && r.open
    ensures r.selectedItemIndex == None && r.listState.selected == Some(0) && r.listState.offset == 0
  {
    SidePanelState(title, None, items, true, WithSelected(Some(0)))
  }

  /** On a non-empty list the side panel's offset is the explorer's formula with the selection
      as the row. */
  lemma OffsetAgreesWithExplorer<N>(s: SidePanelState<N>, windowHeight: nat)
    requires |s.items| > 0
    ensures s.CalculateOffset(windowHeight) == E.CalculateOffset(s.listState.selected.UnwrapOr(0), |s.items|, windowHeight)
  {
  }

  /** The flag operations: toggling twice restores, and open/close fix the flag whatever it was. */
  lemma FlagLaws<N>(s: SidePanelState<N>)
    ensures s.Toggle().Toggle() == s
    ensures s.Close().Open() == s.Open() && s.Open().Close() == s.Close()
    ensures s.Toggle() == (if s.open then s.Close() else s.Open())
  {
  }

  /** A highlighted row within the list stays within it after `next` and `previous`. */
  lemma MovesStayInList<N>(s: SidePanelState<N>)
    requires s.listState.selected.Some? && s.listState.selected.value < |s.items|
    ensures s.Next().listState.selected.value < |s.items|
    ensures s.Previous().listState.selected.value < |s.items|
  {
  }
}
