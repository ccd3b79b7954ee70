/** The selection state of a ratatui list (`ListState`), reduced to what the states use: the
    selected row, if any, and the scroll offset. Its behaviour is taken from the library: selecting
    nothing resets the offset, and `select_previous` from no selection selects `usize::MAX`. */
module ListSelection {
  import opened Wrappers
  import opened Usize

  datatype ListState = ListState(offset: nat, selected: Option<nat>) {
    /** `ListState::select`. */
    function Select(index: Option<nat>): (r: ListState)
      ensures r.selected == index
      ensures r.offset == if index.None? then 0 else offset
    {
      ListState(if index.None? then 0 else offset, index)
    }

    /** `ListState::select_previous`: one row up, saturating; from no selection, the last row. */
    function SelectPrevious(): (r: ListState)
      ensures r.selected.Some? && r.offset == offset
      ensures selected.Some? ==> r.selected.value == SaturatingSub(selected.value, 1)
      ensures selected.None? ==> r.selected.value == MAX
    {
      Select(Some(if selected.Some? then SaturatingSub(selected.value, 1) else MAX))
    }

    /** `*list_state.offset_mut() = offset`. */
    function WithOffset(newOffset: nat): (r: ListState)
      ensures r.offset == newOffset && r.selected == selected
    {
      ListState(newOffset, selected)
    }
  }

  /** The first row the terminal library's `List` draws for the stored `offset`, the selected
      row and a window of `height` rows, taken from its documented behaviour as an assumption,
      for rows one line high, no scroll padding and enough rows to fill the window: a selection
      below the window moves the window down to end at it, one above moves it up to start at
      it, and otherwise the stored offset is kept. */
  function DrawnOffset(offset: nat, selected: nat, height: nat): (r: nat)
    requires 0 < height
    ensures r <= selected < r + height
    ensures offset <= selected < offset + height ==> r == offset
    ensures offset + height <= selected ==> r + height == selected + 1
    ensures selected < offset ==> r == selected
  {
    if offset + height <= selected then selected + 1 - height
    else if selected < offset then selected
    else offset
  }

  /** `ListState::default()`. */
  const Default: ListState := ListState(0, None)

  /** `ListState::default().with_selected(index)`. */
  function WithSelected(index: Option<nat>): (r: ListState)
    ensures r.selected == index && r.offset == 0
  {
    Default.Select(index)
  }
}
