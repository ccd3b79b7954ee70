/** The help modal's state (basalt/src/help_modal.rs): a text and a scroll position that stays
    between the first line and the number of lines of the text. */
module HelpModal {
  import opened Usize
  import opened Strings
  import opened Scrollbars

  datatype HelpModalState = HelpModalState(scrollbarState: ScrollbarState, scrollbarPosition: nat,
                                           viewportHeight: nat, text: string)
  {
    /** `text.lines().count()`. */
    function LineCount(): nat {
      |Lines(text)|
    }

    /** The position is within the text, and the scrollbar shows it. */
    predicate Valid() {
      scrollbarPosition <= LineCount() && scrollbarState.position == scrollbarPosition
    }

    /** `scroll_up`: `amount` lines up, stopping at the first line. */
    function ScrollUp(amount: nat): (r: HelpModalState)
      ensures amount <= scrollbarPosition ==> r.scrollbarPosition == scrollbarPosition - amount
      ensures amount > scrollbarPosition ==> r.scrollbarPosition == 0
      ensures r.scrollbarState == scrollbarState.Position(r.scrollbarPosition)
      ensures r.text == text && r.viewportHeight == viewportHeight
    {
      var position := SaturatingSub(scrollbarPosition, amount);
      this.(scrollbarState := scrollbarState.Position(position), scrollbarPosition := position)
    }

    /** `scroll_down`: `amount` lines down, never past the number of lines. */
    function ScrollDown(amount: nat): (r: HelpModalState)
      requires scrollbarPosition <= MAX && amount <= MAX
      ensures r.scrollbarPosition <= LineCount()
      ensures scrollbarPosition + amount <= Min(LineCount(), MAX) ==> r.scrollbarPosition == scrollbarPosition + amount
      ensures scrollbarPosition + amount > LineCount() && LineCount() <= MAX ==> r.scrollbarPosition == LineCount()
      ensures r.scrollbarState == scrollbarState.Position(r.scrollbarPosition)
      ensures r.text == text && r.viewportHeight == viewportHeight
    {
      var position := Min(SaturatingAdd(scrollbarPosition, amount), LineCount());
      this.(scrollbarState := scrollbarState.Position(position), scrollbarPosition := position)
    }

    /** `reset_scrollbar`: back to the first line with a default scrollbar. */
    function ResetScrollbar(): (r: HelpModalState)
      ensures r.scrollbarPosition == 0 && r.scrollbarState == DefaultState
      ensures r.text == text && r.viewportHeight == viewportHeight
    {
      this.(scrollbarState := DefaultState, scrollbarPosition := 0)
    }
  }

  /** `HelpModalState::new`: the text, at its first line, with a scrollbar as long as the text. */
  function New(text: string): (r: HelpModalState)
    ensures r.text == text && r.scrollbarPosition == 0 && r.viewportHeight == 0
    ensures r.scrollbarState == NewState(|Lines(text)|)
    ensures r.Valid()
  {
    HelpModalState(NewState(|Lines(text)|), 0, 0, text)
  }

  /** Every operation keeps the position within the text. */
  lemma ScrollingKeepsValid(m: HelpModalState, amount: nat)
    requires m.Valid()
    ensures m.ScrollUp(amount).Valid() && m.ResetScrollbar().Valid()
    ensures m.scrollbarPosition <= MAX && amount <= MAX ==> m.ScrollDown(amount).Valid()
  {
  }

  /** Scrolling down and back up by an amount that stays within the text returns to the same
      state... */
  lemma ScrollDownUp(m: HelpModalState, amount: nat)
    requires m.Valid() && m.scrollbarPosition + amount <= m.LineCount() && m.LineCount() <= MAX
    ensures m.ScrollDown(amount).ScrollUp(amount) == m
  {
  }

  /** ...and so does scrolling up and back down by no more than the position. */
  lemma ScrollUpDown(m: HelpModalState, amount: nat)
    requires m.Valid() && amount <= m.scrollbarPosition && m.scrollbarPosition <= MAX
    ensures m.ScrollUp(amount).ScrollDown(amount) == m
  {
  }
}
