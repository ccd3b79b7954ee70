/** The markdown view widget's state (basalt-widgets/src/markdown/state.rs): a text and its
    scrollbar. Unlike the modals, scrolling down has no upper bound besides `usize::MAX`. */
module MarkdownViewState {
  import opened Usize
  import opened Strings
  import opened Scrollbars

  datatype MarkdownViewState = MarkdownViewState(text: string, scrollbar: Scrollbar)
  {
    /** `get_lines`: the lines of the text, in order. */
    function GetLines(): (r: seq<string>)
      ensures forall i :: 0 <= i < |r| ==> '\n' !in r[i]
      ensures text == [] ==> r == []
    {
      Lines(text)
    }

    /** The scrollbar shows the position. */
    predicate Valid() {
      scrollbar.state.position == scrollbar.position
    }

    /** `scroll_up`: `amount` lines up, stopping at the first line. */
    function ScrollUp(amount: nat): (r: MarkdownViewState)
      ensures amount <= scrollbar.position ==> r.scrollbar.position == scrollbar.position - amount
      ensures amount > scrollbar.position ==> r.scrollbar.position == 0
      ensures r.scrollbar.state == scrollbar.state.Position(r.scrollbar.position)
      ensures r.text == text
    {
      var position := SaturatingSub(scrollbar.position, amount);
      this.(scrollbar := Scrollbar(scrollbar.state.Position(position), position))
    }

    /** `scroll_down`: `amount` lines down, saturating at `usize::MAX`. */
    function ScrollDown(amount: nat): (r: MarkdownViewState)
      ensures scrollbar.position + amount <= MAX ==> r.scrollbar.position == scrollbar.position + amount
      ensures scrollbar.position + amount > MAX ==> r.scrollbar.position == MAX
      ensures r.scrollbar.state == scrollbar.state.Position(r.scrollbar.position)
      ensures r.text == text
    {
      var position := SaturatingAdd(scrollbar.position, amount);
      this.(scrollbar := Scrollbar(scrollbar.state.Position(position), position))
    }

    /** `set_text`: only the text changes. */
    function SetText(newText: string): (r: MarkdownViewState)
      ensures r.text == newText && r.scrollbar == scrollbar
    {
      this.(text := newText)
    }

    /** `reset_scrollbar`: only the scrollbar changes, back to its default. */
    function ResetScrollbar(): (r: MarkdownViewState)
      ensures r.scrollbar == DefaultScrollbar && r.text == text
    {
      this.(scrollbar := DefaultScrollbar)
    }
  }

  /** `MarkdownViewState::new`: the text, at its first line. */
  function New(text: string): (r: MarkdownViewState)
    ensures r.text == text && r.scrollbar == DefaultScrollbar && r.Valid()
  {
    MarkdownViewState(text, DefaultScrollbar)
  }

  /** The lines of a text without carriage returns and without a final line feed join back into
      the text. */
  lemma GetLinesJoin(m: MarkdownViewState)
    requires m.text != [] && m.text[|m.text| - 1] != '\n' && '\r' !in m.text
    ensures Join(m.GetLines(), '\n') == m.text
  {
    JoinOfLines(m.text);
  }

  /** Scrolling down and back up by the same amount, below `usize::MAX`, returns to the same
      state; scrolling keeps the scrollbar in step with the position. */
  lemma ScrollDownUp(m: MarkdownViewState, amount: nat)
    requires m.Valid() && m.scrollbar.position + amount <= MAX
    ensures m.ScrollDown(amount).ScrollUp(amount) == m
    ensures m.ScrollDown(amount).Valid() && m.ScrollUp(amount).Valid()
  {
  }

  /** Replacing the text and resetting the scrollbar touch disjoint parts: they commute. */
  lemma SetTextResetCommute(m: MarkdownViewState, text: string)
    ensures m.SetText(text).ResetScrollbar() == m.ResetScrollbar().SetText(text)
  {
  }
}
