/** `stylize`: ASCII letters and digits mapped to their counterparts in the Mathematical
    Alphanumeric Symbols block (and, for a few double-struck capitals, the Letterlike Symbols
    block); every other character is kept. */
module StylizedText {
  import opened Wrappers

  datatype FontStyle = BlackBoardBold | FrakturBold | Script

  predicate IsUpper(c: char) { 'A' <= c <= 'Z' }
  predicate IsLower(c: char) { 'a' <= c <= 'z' }
  predicate IsDigit(c: char) { '0' <= c <= '9' }

  /** The characters `stylize` changes. */
  predicate IsAsciiAlphanumeric(c: char) { IsUpper(c) || IsLower(c) || IsDigit(c) }

  /** A Unicode scalar value: what `char::from_u32` accepts. */
  predicate IsScalar(n: int) { 0 <= n < 0xD800 || 0xE000 <= n < 0x11_0000 }

  /** `char::from_u32`. */
  function FromU32(n: nat): (r: Option<char>)
    ensures r.Some? <==> IsScalar(n)
    ensures r.Some? ==> r.value as int == n
  {
    if IsScalar(n) then Some(n as char) else None
  }

  /** The double-struck capitals that live in the Letterlike Symbols block rather than at their
      place in the Mathematical Alphanumeric Symbols block. */
  function LetterlikeCapital(c: char): (r: Option<nat>)
    ensures r.Some? <==> c in "CHNPQRZ"
  {
    match c
    case 'C' => Some(0x2102)
    case 'H' => Some(0x210D)
    case 'N' => Some(0x2115)
    case 'P' => Some(0x2119)
    case 'Q' => Some(0x211A)
    case 'R' => Some(0x211D)
    case 'Z' => Some(0x2124)
    case _ => None
  }

  /** The first code point of the capitals, the small letters and the digits of a style. */
  function UpperBase(style: FontStyle): nat {
    match style
    case BlackBoardBold => 0x1D538
    case FrakturBold => 0x1D56C
    case Script => 0x1D4D0
  }

  function LowerBase(style: FontStyle): nat {
    match style
    case BlackBoardBold => 0x1D552
    case FrakturBold => 0x1D586
    case Script => 0x1D4EA
  }

  function DigitBase(style: FontStyle): nat {
    match style
    case BlackBoardBold => 0x1D7D8
    case FrakturBold => 0x1D7CE
    case Script => 0x1D7CE
  }

  /** The styled code point of `c`, before the `unwrap_or`: the Letterlike exceptions first,
      then the capital, small-letter and digit ranges, and nothing for any other character. */
  function Styled(c: char, style: FontStyle): (r: Option<char>)
    ensures r.Some? <==> IsAsciiAlphanumeric(c)
  {
    if style == BlackBoardBold && LetterlikeCapital(c).Some? then FromU32(LetterlikeCapital(c).value)
    else if IsUpper(c) then FromU32(UpperBase(style) + (c as int - 'A' as int))
    else if IsLower(c) then FromU32(LowerBase(style) + (c as int - 'a' as int))
    else if IsDigit(c) then FromU32(DigitBase(style) + (c as int - '0' as int))
    else None
  }

  /** `stylize_char`: the styled character, or `c` itself when it has none. */
  function StylizeChar(c: char, style: FontStyle): (r: char)
    ensures !IsAsciiAlphanumeric(c) ==> r == c
    ensures IsAsciiAlphanumeric(c) ==> 0x2100 <= r as int < 0x1_D800
  {
    Styled(c, style).UnwrapOr(c)
  }

  /** `stylize`: each character stylized on its own. */
  function Stylize(input: string, style: FontStyle): (r: string)
    ensures |r| == |input|
  {
    seq(|input|, i requires 0 <= i < |input| => StylizeChar(input[i], style))
  }

  // ---- Properties ----

  /** Letters and digits go to their base plus their offset in the alphabet; the double-struck
      capitals C, H, N, P, Q, R and Z are the exception. */
  lemma StylizeOffsets(c: char, style: FontStyle)
    ensures IsUpper(c) && !(style == BlackBoardBold && c in "CHNPQRZ")
      ==> StylizeChar(c, style) as int == UpperBase(style) + (c as int - 'A' as int)
    ensures IsLower(c) ==> StylizeChar(c, style) as int == LowerBase(style) + (c as int - 'a' as int)
    ensures IsDigit(c) ==> StylizeChar(c, style) as int == DigitBase(style) + (c as int - '0' as int)
    ensures style == BlackBoardBold && c in "CHNPQRZ"
      ==> StylizeChar(c, style) as int == LetterlikeCapital(c).value
  {
  }

  /** Bold Fraktur and Script share their digits, the mathematical bold digits. */
  lemma FrakturScriptDigits(c: char)
    requires IsDigit(c)
    ensures StylizeChar(c, FrakturBold) == StylizeChar(c, Script)
  {
  }

  /** The ASCII letter or digit whose styled form is `d`, if there is one: the inverse of
      `StylizeChar` on the styled characters. */
  function Unstyle(d: char, style: FontStyle): (r: Option<char>)
    ensures r.Some? ==> IsAsciiAlphanumeric(r.value) && StylizeChar(r.value, style) == d
  {
    var n := d as int;
    if style == BlackBoardBold && LetterlikeSource(n).Some? then
      LetterlikeSource(n)
    else if UpperBase(style) <= n < UpperBase(style) + 26 then
      var c := ('A' as int + (n - UpperBase(style))) as char;
      if style == BlackBoardBold && c in "CHNPQRZ" then None else Some(c)
    else if LowerBase(style) <= n < LowerBase(style) + 26 then
      Some(('a' as int + (n - LowerBase(style))) as char)
    else if DigitBase(style) <= n < DigitBase(style) + 10 then
      Some(('0' as int + (n - DigitBase(style))) as char)
    else
      None
  }

  /** The capital that a Letterlike code point stands for. */
  function LetterlikeSource(n: int): (r: Option<char>)
    ensures r.Some? ==> r.value in "CHNPQRZ" && LetterlikeCapital(r.value) == Some(n)
  {
    if n == 0x2102 then Some('C')
    else if n == 0x210D then Some('H')
    else if n == 0x2115 then Some('N')
    else if n == 0x2119 then Some('P')
    else if n == 0x211A then Some('Q')
    else if n == 0x211D then Some('R')
    else if n == 0x2124 then Some('Z')
    else None
  }

  /** Unstyling a stylized letter or digit gives it back. */
  lemma UnstyleStylize(c: char, style: FontStyle)
    requires IsAsciiAlphanumeric(c)
    ensures Unstyle(StylizeChar(c, style), style) == Some(c)
  {
  }

  /** No style maps two letters or digits to the same character. */
  lemma StylizeCharInjective(c: char, d: char, style: FontStyle)
    requires IsAsciiAlphanumeric(c) && IsAsciiAlphanumeric(d) && c != d
    ensures StylizeChar(c, style) != StylizeChar(d, style)
  {
    UnstyleStylize(c, style);
    UnstyleStylize(d, style);
  }

  /** A styled character is left as it is: the styled forms are not ASCII. */
  lemma StylizeCharIdempotent(c: char, style: FontStyle)
    ensures StylizeChar(StylizeChar(c, style), style) == StylizeChar(c, style)
  {
  }

  /** Stylizing twice is stylizing once. */
  lemma StylizeIdempotent(s: string, style: FontStyle)
    ensures Stylize(Stylize(s, style), style) == Stylize(s, style)
  {
    forall i | 0 <= i < |s|
      ensures Stylize(Stylize(s, style), style)[i] == Stylize(s, style)[i]
    {
      StylizeCharIdempotent(s[i], style);
    }
  }

  /** Stylizing works character by character, so it distributes over concatenation. */
  lemma StylizeConcat(s: string, t: string, style: FontStyle)
    ensures Stylize(s + t, style) == Stylize(s, style) + Stylize(t, style)
  {
  }

  /** Each character of the result is the stylized character at the same place; the unchanged
      characters are exactly those that are not ASCII letters or digits. */
  lemma StylizeAt(s: string, style: FontStyle, i: nat)
    requires i < |s|
    ensures Stylize(s, style)[i] == StylizeChar(s[i], style)
    ensures Stylize(s, style)[i] == s[i] <==> !IsAsciiAlphanumeric(s[i])
  {
  }

  /** `Unstyle` applied to each character, keeping those that are not styled. */
  function UnstyleText(s: string, style: FontStyle): (r: string)
    ensures |r| == |s|
  {
    seq(|s|, i requires 0 <= i < |s| => Unstyle(s[i], style).UnwrapOr(s[i]))
  }

  /** A text that holds no styled characters comes back from stylizing. */
  lemma UnstyleTextStylize(s: string, style: FontStyle)
    requires forall i :: 0 <= i < |s| ==> Unstyle(s[i], style).None?
    ensures UnstyleText(Stylize(s, style), style) == s
  {
    forall i | 0 <= i < |s|
      ensures UnstyleText(Stylize(s, style), style)[i] == s[i]
    {
      if IsAsciiAlphanumeric(s[i]) {
        UnstyleStylize(s[i], style);
      }
    }
  }

  // ---- The documented examples ----

  /** `My Heading` in Bold Fraktur, and the three examples of `stylize`'s own documentation, one per
      style; the space is kept. */
  lemma MyHeading()
    ensures Stylize("My Heading", FrakturBold) == "\U{1D578}\U{1D59E} \U{1D573}\U{1D58A}\U{1D586}\U{1D589}\U{1D58E}\U{1D593}\U{1D58C}"
  {
  }

  lemma BlackBoardBoldExample()
    ensures Stylize("Black Board Bold", BlackBoardBold) == "\U{1D539}\U{1D55D}\U{1D552}\U{1D554}\U{1D55C} \U{1D539}\U{1D560}\U{1D552}\U{1D563}\U{1D555} \U{1D539}\U{1D560}\U{1D55D}\U{1D555}"
  {
  }

  lemma FrakturBoldExample()
    ensures Stylize("Fraktur Bold", FrakturBold) == "\U{1D571}\U{1D597}\U{1D586}\U{1D590}\U{1D599}\U{1D59A}\U{1D597} \U{1D56D}\U{1D594}\U{1D591}\U{1D589}"
  {
  }

  lemma ScriptExample()
    ensures Stylize("Script", Script) == "\U{1D4E2}\U{1D4EC}\U{1D4FB}\U{1D4F2}\U{1D4F9}\U{1D4FD}"
  {
  }
}
