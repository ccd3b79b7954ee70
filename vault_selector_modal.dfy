/** The vault selector modal (basalt/src/vault_selector_modal.rs): the vault list behind a
    visibility flag, and the generic scrolling text modal `ModalState`. */
module VaultSelectorModal {
  import opened Wrappers
  import opened Usize
  import opened Strings
  import opened Scrollbars
  import VS = VaultSelector

  datatype VaultSelectorModalState<V> = VaultSelectorModalState(vaultSelectorState: VS.VaultSelectorState<V>,
                                                                visible: bool)
  {
    /** `selected`: the list's chosen row. */
    function Selected(): (r: Option<nat>)
      ensures r == vaultSelectorState.selectedItemIndex
    {
      vaultSelectorState.Selected()
    }

    /** `select`, `get_item`, `next` and `previous` act on the list only. */
    function Select(): (r: VaultSelectorModalState<V>)
      ensures r.vaultSelectorState == vaultSelectorState.Select() && r.visible == visible
    {
      this.(vaultSelectorState := vaultSelectorState.Select())
    }

    function GetItem(index: nat): (r: Option<V>)
      ensures r == vaultSelectorState.GetItem(index)
    {
      vaultSelectorState.GetItem(index)
    }

    function Next(): (r: VaultSelectorModalState<V>)
      ensures r.vaultSelectorState == vaultSelectorState.Next() && r.visible == visible
    {
      this.(vaultSelectorState := vaultSelectorState.Next())
    }

    function Previous(): (r: VaultSelectorModalState<V>)
      ensures r.vaultSelectorState == vaultSelectorState.Previous() && r.visible == visible
    {
      this.(vaultSelectorState := vaultSelectorState.Previous())
    }

    /** `hide`: invisible, the list untouched. */
    function Hide(): (r: VaultSelectorModalState<V>)
      ensures !r.visible && r.vaultSelectorState == vaultSelectorState
    {
      this.(visible := false)
    }

    /** `toggle_visibility`: the flag flipped, the list untouched. */
    function ToggleVisibility(): (r: VaultSelectorModalState<V>)
      ensures r.visible == !visible && r.vaultSelectorState == vaultSelectorState
    {
      this.(visible := !visible)
    }
  }

  /** `VaultSelectorModalState::new`: a fresh list, hidden. */
  function New<V>(items: seq<V>): (r: VaultSelectorModalState<V>)
    ensures r.vaultSelectorState == VS.New(items) && !r.visible
  {
    VaultSelectorModalState(VS.New(items), false)
  }

  /** Toggling twice restores the state; hiding twice is hiding once; toggling a hidden modal
      shows it. */
  lemma VisibilityLaws<V>(m: VaultSelectorModalState<V>)
    ensures m.ToggleVisibility().ToggleVisibility() == m
    ensures m.Hide().Hide() == m.Hide()
    ensures m.Hide().ToggleVisibility().visible
  {
  }

  /** Moving in the list and toggling the visibility commute. */
  lemma NextToggleCommute<V>(m: VaultSelectorModalState<V>)
    ensures m.Next().ToggleVisibility() == m.ToggleVisibility().Next()
  {
  }

  datatype ModalTitle = ModalTitle(left: string, right: Option<string>)

  /** `ModalState`: a titled text with a scroll position between the first line and the number
      of lines. */
  datatype ModalState = ModalState(scrollbarState: ScrollbarState, scrollbarPosition: nat, viewportHeight: nat,
                                   text: string, title: ModalTitle, isOpen: bool)
  {
    function LineCount(): nat {
      |Lines(text)|
    }

    predicate Valid() {
      scrollbarPosition <= LineCount() && scrollbarState.position == scrollbarPosition
    }

    /** `scroll_up`: `amount` lines up, stopping at the first line; nothing else changes. */
    function ScrollUp(amount: nat): (r: ModalState)
      ensures amount <= scrollbarPosition ==> r.scrollbarPosition == scrollbarPosition - amount
      ensures amount > scrollbarPosition ==> r.scrollbarPosition == 0
      ensures r == this.(scrollbarState := scrollbarState.Position(r.scrollbarPosition),
                         scrollbarPosition := r.scrollbarPosition)
    {
      var position := SaturatingSub(scrollbarPosition, amount);
      this.(scrollbarState := scrollbarState.Position(position), scrollbarPosition := position)
    }

    /** `scroll_down`: `amount` lines down, never past the number of lines; nothing else changes. */
    function ScrollDown(amount: nat): (r: ModalState)
      requires scrollbarPosition <= MAX && amount <= MAX
      ensures r.scrollbarPosition <= LineCount()
      ensures scrollbarPosition + amount <= Min(LineCount(), MAX) ==> r.scrollbarPosition == scrollbarPosition + amount
      ensures scrollbarPosition + amount > LineCount() && LineCount() <= MAX ==> r.scrollbarPosition == LineCount()
      ensures r == this.(scrollbarState := scrollbarState.Position(r.scrollbarPosition),
                         scrollbarPosition := r.scrollbarPosition)
    {
      var position := Min(SaturatingAdd(scrollbarPosition, amount), LineCount());
      this.(scrollbarState := scrollbarState.Position(position), scrollbarPosition := position)
    }

    /** `reset_scrollbar`: the first line, a default scrollbar; nothing else changes. */
    function ResetScrollbar(): (r: ModalState)
      ensures r == this.(scrollbarState := DefaultState, scrollbarPosition := 0)
      ensures r.Valid()
    {
      this.(scrollbarState := DefaultState, scrollbarPosition := 0)
    }
  }

  /** `ModalState::new`: closed, at the first line, with a scrollbar as long as the text. */
  function NewModal(title: ModalTitle, text: string): (r: ModalState)
    ensures r.title == title && r.text == text && !r.isOpen
    ensures r.scrollbarPosition == 0 && r.viewportHeight == 0 && r.scrollbarState == NewState(|Lines(text)|)
    ensures r.Valid()
  {
    ModalState(NewState(|Lines(text)|), 0, 0, text, title, false)
  }

  /** Scrolling keeps the position within the text, and scrolling down and back up by an amount
      within the text returns to the same state. */
  lemma ModalScrolling(m: ModalState, amount: nat)
    requires m.Valid() && m.LineCount() <= MAX && amount <= MAX
    ensures m.ScrollUp(amount).Valid() && m.ScrollDown(amount).Valid()
    ensures m.scrollbarPosition + amount <= m.LineCount() ==> m.ScrollDown(amount).ScrollUp(amount) == m
    ensures amount <= m.scrollbarPosition ==> m.ScrollUp(amount).ScrollDown(amount) == m
  {
  }
}
