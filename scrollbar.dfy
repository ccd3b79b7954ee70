/** ratatui's `ScrollbarState`, reduced to the two numbers the states set: the length of the
    content and the position; and the `Scrollbar` pair of a state and a position that the editor
    and the markdown view keep. */
module Scrollbars {
  datatype ScrollbarState = ScrollbarState(contentLength: nat, position: nat) {
    /** `ScrollbarState::position`: the same state at another position. */
    function Position(p: nat): (r: ScrollbarState)
      ensures r.position == p && r.contentLength == contentLength
    {
      this.(position := p)
    }
  }

  /** `ScrollbarState::default()`. */
  const DefaultState: ScrollbarState := ScrollbarState(0, 0)

  /** `ScrollbarState::new(content_length)`: at the start of the content. */
  function NewState(contentLength: nat): (r: ScrollbarState)
    ensures r.contentLength == contentLength && r.position == 0
  {
    ScrollbarState(contentLength, 0)
  }

  datatype Scrollbar = Scrollbar(state: ScrollbarState, position: nat)

  /** `Scrollbar::default()`. */
  const DefaultScrollbar: Scrollbar := Scrollbar(DefaultState, 0)
}
