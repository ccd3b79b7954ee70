/** Key bindings of the configuration (basalt/src/config/key_binding.rs): the parser of key
    strings such as `ctrl+g`, the text a key is stored under, and the commands a binding names.

    The modifiers are a set of flags; `KeyModifiers::NONE` is the empty set and `union` is set
    union. The key codes are those the parser can produce. */
module KeyBinding {
  import opened Wrappers
  import opened Strings
  import opened ConfigErrors

  datatype Modifier = Shift | Control | Alt | Super | Hyper | Meta

  type KeyModifiers = set<Modifier>

  type U8 = n: nat | n < 256

  datatype KeyCode =
    | Null
    | Char(c: char)
    | F(n: U8)
    | Backspace | BackTab | Delete | Down | End | Enter | Home | Insert
    | Left | PageDown | PageUp | Right | Tab | Up

  datatype Key = Key(modifiers: KeyModifiers, code: KeyCode)

  /** `Key::CTRLC`. */
  const CtrlC: Key := Key({Control}, Char('c'))

  // ---- Parsing ----

  /** `parse_modifiers`: exactly the seven accepted spellings; anything else is an unknown
      modifier, reported with the text as given. */
  function ParseModifiers(s: string): (r: Result<KeyModifiers, ConfigError>)
    ensures r.Err? ==> r.error == UnknownKeyModifiers(s)
  {
    if s == "" then Ok({})
    else if s == "alt" then Ok({Alt})
    else if s == "ctrl" || s == "control" then Ok({Control})
    else if s == "hyper" then Ok({Hyper})
    else if s == "meta" then Ok({Meta})
    else if s == "shift" then Ok({Shift})
    else if s == "super" then Ok({Super})
    else Err(UnknownKeyModifiers(s))
  }

  /** The accepted spellings, each naming at most one flag. */
  lemma ParseModifiersAccepts(s: string)
    ensures ParseModifiers(s).Ok? <==> s in ["", "alt", "ctrl", "control", "hyper", "meta", "shift", "super"]
    ensures ParseModifiers(s).Ok? ==> |ParseModifiers(s).value| <= 1
    ensures s == "ctrl" || s == "control" ==> ParseModifiers(s) == Ok({Control})
  {
  }

  /** The modifier segments collected into one result (the first error, in order, wins) and then
      reduced by union, `NONE` when there are none. */
  function ParseModifierList(parts: seq<string>): (r: Result<KeyModifiers, ConfigError>)
    ensures parts == [] ==> r == Ok({})
    ensures r.Err? ==> r.error.UnknownKeyModifiers?
  {
    if parts == [] then Ok({})
    else
      var first := ParseModifiers(parts[0]);
      if first.Err? then Err(first.error)
      else
        var rest := ParseModifierList(parts[1..]);
        if rest.Err? then rest
        else Ok(first.value + rest.value)
  }

  /** The list parses iff every piece does; then each piece's modifiers are included, and the
      error is that of the first piece that fails. */
  lemma {:induction false} ParseModifierListAll(parts: seq<string>)
    ensures ParseModifierList(parts).Ok? <==> forall i :: 0 <= i < |parts| ==> ParseModifiers(parts[i]).Ok?
    ensures ParseModifierList(parts).Ok? ==>
              forall i :: 0 <= i < |parts| ==> ParseModifiers(parts[i]).value <= ParseModifierList(parts).value
    ensures ParseModifierList(parts).Err? ==>
              exists k :: 0 <= k < |parts| && ParseModifierList(parts).error == UnknownKeyModifiers(parts[k])
                && ParseModifiers(parts[k]).Err? && forall j :: 0 <= j < k ==> ParseModifiers(parts[j]).Ok?
  {
    if parts != [] {
      ParseModifierListAll(parts[1..]);
      assert forall i :: 1 <= i < |parts| ==> parts[i] == parts[1..][i - 1];
      if ParseModifiers(parts[0]).Ok? && ParseModifierList(parts[1..]).Err? {
        var k :| 0 <= k < |parts[1..]| && ParseModifierList(parts[1..]).error == UnknownKeyModifiers(parts[1..][k])
                && ParseModifiers(parts[1..][k]).Err? && forall j :: 0 <= j < k ==> ParseModifiers(parts[1..][j]).Ok?;
        assert forall j :: 0 <= j < k + 1 ==> ParseModifiers(parts[j]).Ok? by {
          forall j | 0 <= j < k + 1
            ensures ParseModifiers(parts[j]).Ok?
          {
            if j > 0 {
              assert parts[j] == parts[1..][j - 1];
            }
          }
        }
        assert parts[k + 1] == parts[1..][k];
      }
    }
  }

  /** The number of bytes of a character in UTF-8. */
  function Utf8Width(c: char): (r: nat)
    ensures 1 <= r <= 4
    ensures r == 1 <==> c as int < 0x80
  {
    if c as int < 0x80 then 1 else if c as int < 0x800 then 2 else if c as int < 0x1_0000 then 3 else 4
  }

  /** `str::len`: the length in bytes. */
  function ByteLen(s: string): (r: nat)
    ensures r == 0 <==> s == []
    ensures r >= |s|
    ensures r == 1 <==> |s| == 1 && s[0] as int < 0x80
  {
    if s == [] then 0 else Utf8Width(s[0]) + ByteLen(s[1..])
  }

  predicate IsDigit(c: char) {
    '0' <= c <= '9'
  }

  /** The decimal value of a string of digits. */
  function DigitsValue(ds: string): (r: nat)
    requires forall i :: 0 <= i < |ds| ==> IsDigit(ds[i])
  {
    if ds == [] then 0
    else
      assert IsDigit(ds[|ds| - 1]);
      10 * DigitsValue(ds[..|ds| - 1]) + (ds[|ds| - 1] as int - '0' as int)
  }

  /** `str::parse::<u8>`: an optional `+`, then at least one digit, and no more than 255. */
  function ParseU8(s: string): (r: Option<U8>)
    ensures r.Some? <==> (
      var ds := if s != [] && s[0] == '+' then s[1..] else s;
      ds != [] && (forall i :: 0 <= i < |ds| ==> IsDigit(ds[i])) && DigitsValue(ds) < 256)
    ensures r.Some? ==> r.value == DigitsValue(if s[0] == '+' then s[1..] else s)
  {
    var ds := if s != [] && s[0] == '+' then s[1..] else s;
    if ds != [] && (forall i :: 0 <= i < |ds| ==> IsDigit(ds[i])) && DigitsValue(ds) < 256
    then Some(DigitsValue(ds))
    else None
  }

  /** The table of named keys `parse_code` falls back on. */
  function NamedKey(s: string): (r: Option<KeyCode>)
    ensures r.Some? ==> !r.value.Char? && !r.value.F? && !r.value.Null?
  {
    if s == "backspace" then Some(Backspace)
    else if s == "backtab" then Some(BackTab)
    else if s == "delete" then Some(Delete)
    else if s == "down" then Some(Down)
    else if s == "end" then Some(End)
    else if s == "enter" then Some(Enter)
    else if s == "home" then Some(Home)
    else if s == "insert" then Some(Insert)
    else if s == "left" then Some(Left)
    else if s == "page_down" then Some(PageDown)
    else if s == "page_up" then Some(PageUp)
    else if s == "right" then Some(Right)
    else if s == "tab" then Some(Tab)
    else if s == "up" then Some(Up)
    else None
  }

  /** `parse_code`: by byte length, the empty code is `Null` and a one-byte code is that
      character; a longer one is a function key `f<u8>`, else a named key, else unknown. */
  function ParseCode(code: string): (r: Result<KeyCode, ConfigError>)
    ensures code == [] ==> r == Ok(Null)
    ensures ByteLen(code) == 1 ==> r == Ok(Char(code[0]))
    ensures ByteLen(code) > 1 && code[0] == 'f' && ParseU8(code[1..]).Some? ==> r == Ok(F(ParseU8(code[1..]).value))
    ensures ByteLen(code) > 1 && (code[0] != 'f' || ParseU8(code[1..]).None?) ==>
              r == if NamedKey(code).Some? then Ok(NamedKey(code).value) else Err(UnknownKeyCode(code))
    ensures r.Err? ==> r.error == UnknownKeyCode(code)
  {
    var len := ByteLen(code);
    if len == 0 then Ok(Null)
    else if len == 1 then Ok(Char(code[0]))
    else if code[0] == 'f' && ParseU8(code[1..]).Some? then Ok(F(ParseU8(code[1..]).value))
    else if NamedKey(code).Some? then Ok(NamedKey(code).value)
    else Err(UnknownKeyCode(code))
  }

  /** `KeyVisitor::visit_str`: the lowercased text split on `+`; the last piece is the code and
      the pieces before it are modifiers. A failing modifier is reported before the code is looked
      at; either error is wrapped by `de::Error::custom`. */
  function ParseKey(value: string): (r: Result<Key, ConfigError>)
    ensures r.Err? ==> r.error.InvalidKeybinding?
  {
    var parts := Split(Lower(value), '+');
    var modifiers := ParseModifierList(parts[..|parts| - 1]);
    if modifiers.Err? then Err(Custom(modifiers.error.Message()))
    else
      var code := ParseCode(parts[|parts| - 1]);
      if code.Err? then Err(Custom(code.error.Message()))
      else Ok(Key(modifiers.value, code.value))
  }

  // ---- What parsing does ----

  /** Parsing does not depend on case. */
  lemma ParseCaseInsensitive(value: string)
    ensures ParseKey(value) == ParseKey(Lower(value))
  {
    LowerIdempotent(value);
  }

  /** A key string written as lowercase `+`-free pieces parses piece by piece: it fails on the first
      unknown modifier, then on an unknown code, and otherwise has the union of the modifiers and
      the code of the last piece. */
  lemma {:induction false} ParseKeyPieces(mods: seq<string>, code: string)
    requires forall i :: 0 <= i < |mods| ==> '+' !in mods[i] && Lower(mods[i]) == mods[i]
    requires '+' !in code && Lower(code) == code
    ensures ParseModifierList(mods).Err? ==>
              ParseKey(Join(mods + [code], '+')) == Err(InvalidKeybinding(ParseModifierList(mods).error.Message()))
    ensures ParseModifierList(mods).Ok? && ParseCode(code).Err? ==>
              ParseKey(Join(mods + [code], '+')) == Err(InvalidKeybinding("Unknown code: " + code))
    ensures ParseModifierList(mods).Ok? && ParseCode(code).Ok? ==>
              ParseKey(Join(mods + [code], '+')) == Ok(Key(ParseModifierList(mods).value, ParseCode(code).value))
  {
    var parts := mods + [code];
    assert forall i :: 0 <= i < |parts| ==> '+' !in parts[i] && Lower(parts[i]) == parts[i] by {
      forall i | 0 <= i < |parts|
        ensures '+' !in parts[i] && Lower(parts[i]) == parts[i]
      {
        if i == |mods| {
          assert parts[i] == code;
        } else {
          assert parts[i] == mods[i];
        }
      }
    }
    LowerJoin(parts);
    SplitJoin(parts, '+');
    assert parts[..|parts| - 1] == mods;
  }

  /** Lowercase pieces join into a lowercase string. */
  lemma {:induction false} LowerJoin(parts: seq<string>)
    requires |parts| >= 1
    requires forall i :: 0 <= i < |parts| ==> Lower(parts[i]) == parts[i]
    ensures Lower(Join(parts, '+')) == Join(parts, '+')
  {
    if |parts| > 1 {
      LowerJoin(parts[1..]);
      var j := Join(parts, '+');
      var rest := Join(parts[1..], '+');
      assert j == parts[0] + ['+'] + rest;
      forall i | 0 <= i < |j|
        ensures LowerChar(j[i]) == j[i]
      {
        if i < |parts[0]| {
          assert j[i] == parts[0][i] == Lower(parts[0])[i];
        } else if i > |parts[0]| {
          assert j[i] == rest[i - |parts[0]| - 1] == Lower(rest)[i - |parts[0]| - 1];
        }
      }
    }
  }

  /** A key without `+` has no modifiers. */
  lemma ParseKeyAlone(value: string)
    requires '+' !in value && Lower(value) == value
    ensures ParseCode(value).Ok? ==> ParseKey(value) == Ok(Key({}, ParseCode(value).value))
    ensures ParseCode(value).Err? ==> ParseKey(value) == Err(InvalidKeybinding("Unknown code: " + value))
  {
    ParseKeyPieces([], value);
    assert [] + [value] == [value];
  }

  /** A modifier outside the accepted list fails the whole parse, whatever follows. */
  lemma ParseKeyUnknownModifier(m: string, code: string)
    requires '+' !in m && Lower(m) == m && '+' !in code && Lower(code) == code
    requires ParseModifiers(m).Err?
    ensures ParseKey(m + "+" + code) == Err(InvalidKeybinding("Unknown modifiers: " + m))
  {
    ParseKeyPieces([m], code);
    assert Join([m] + [code], '+') == m + "+" + code;
  }

  // ---- Display ----

  /** The name crossterm prints for a key code (its `Display`, on Linux): an assumption about the
      library, which is not part of this model. */
  function KeyCodeName(code: KeyCode): (r: string)
    ensures code.Char? && code.c != ' ' ==> r == [code.c]
    ensures code.F? ==> r == "F" + Decimal(code.n)
  {
    match code
    case Null => "Null"
    case Char(c) => if c == ' ' then "Space" else [c]
    case F(n) => "F" + Decimal(n)
    case Backspace => "Backspace"
    case BackTab => "Back Tab"
    case Delete => "Del"
    case Down => "Down"
    case End => "End"
    case Enter => "Enter"
    case Home => "Home"
    case Insert => "Insert"
    case Left => "Left"
    case PageDown => "Page Down"
    case PageUp => "Page Up"
    case Right => "Right"
    case Tab => "Tab"
    case Up => "Up"
  }

  /** The decimal digits of `n`, most significant first, without leading zeros. */
  function Decimal(n: nat): (r: string)
    ensures r != [] && forall i :: 0 <= i < |r| ==> IsDigit(r[i])
    ensures DigitsValue(r) == n
  {
    var last := ((n % 10) + '0' as int) as char;
    if n < 10 then [last]
    else
      var r := Decimal(n / 10) + [last];
      assert r[..|r| - 1] == Decimal(n / 10);
      r
  }

  /** `str::replace(" ", "_")` on single characters. */
  function ReplaceSpaces(s: string): (r: string)
    ensures |r| == |s|
    ensures forall i :: 0 <= i < |s| ==> r[i] == if s[i] == ' ' then '_' else s[i]
  {
    seq(|s|, i requires 0 <= i < |s| => if s[i] == ' ' then '_' else s[i])
  }

  /** The code part of a key's text: the library's name, lowercased, spaces as underscores. */
  function CodeText(code: KeyCode): (r: string)
    ensures |r| == |KeyCodeName(code)|
  {
    ReplaceSpaces(Lower(KeyCodeName(code)))
  }

  /** The flags of `KeyModifiers`, in declaration order, with their lowercased names. */
  const Flags: seq<(Modifier, string)> :=
    [(Shift, "shift"), (Control, "control"), (Alt, "alt"), (Super, "super"), (Hyper, "hyper"), (Meta, "meta")]

  /** The names of the flags of `flags` that `m` holds, in order. */
  function NamesOf(m: KeyModifiers, flags: seq<(Modifier, string)>): (r: seq<string>)
    ensures |r| <= |flags|
  {
    if flags == [] then []
    else (if flags[0].0 in m then [flags[0].1] else []) + NamesOf(m, flags[1..])
  }

  /** `KeyModifiers::iter_names`, lowercased: the names of the set flags in declaration order. */
  function ModifierNames(m: KeyModifiers): (r: seq<string>)
    ensures |r| <= 6
  {
    NamesOf(m, Flags)
  }

  /** `Display for Key`: the code alone without modifiers, else the code first and then the
      modifier names, all joined by `+`. */
  function Display(key: Key): (r: string)
    ensures key.modifiers == {} ==> r == CodeText(key.code)
    ensures key.modifiers != {} ==> r == Join([CodeText(key.code)] + ModifierNames(key.modifiers), '+')
  {
    if key.modifiers == {} then CodeText(key.code)
    else Join([CodeText(key.code)] + ModifierNames(key.modifiers), '+')
  }

  /** A character's code text, for a lowercase ASCII character other than space. */
  lemma CodeTextChar(c: char)
    requires c as int < 0x80 && !IsAsciiUpper(c) && c != ' '
    ensures CodeText(Char(c)) == [c]
  {
    LowerKeeps([c]);
  }

  /** The text is not the parser's input syntax: Ctrl+C is stored as `c+control`, which the parser
      rejects, since it reads `c` as a modifier; the parser's own spelling is `ctrl+c`. */
  lemma CtrlCText()
    ensures Display(CtrlC) == "c" + "+" + "control"
    ensures ParseKey(Display(CtrlC)) == Err(InvalidKeybinding(UnknownKeyModifiers("c").Message()))
    ensures ParseKey("ctrl" + "+" + "c") == Ok(CtrlC)
  {
    CtrlCDisplay();
    CtrlCRejected();
    CtrlCAccepted();
  }

  lemma ControlNames()
    ensures ModifierNames({Control}) == ["control"]
  {
    var m: KeyModifiers := {Control};
    var tail := Flags[2..];
    assert NamesOf(m, tail) == [] by {
      assert NamesOf(m, tail[4..]) == [];
      assert NamesOf(m, tail[3..]) == [];
      assert NamesOf(m, tail[2..]) == [];
      assert NamesOf(m, tail[1..]) == [];
    }
    assert NamesOf(m, Flags[1..]) == ["control"];
  }

  lemma CtrlCDisplay()
    ensures Display(CtrlC) == "c" + "+" + "control"
  {
    CodeTextChar('c');
    ControlNames();
    assert [CodeText(Char('c'))] + ModifierNames({Control}) == ["c", "control"];
    assert Join(["c", "control"][1..], '+') == "control";
  }

  lemma CtrlCRejected()
    ensures ParseKey("c" + "+" + "control") == Err(InvalidKeybinding(UnknownKeyModifiers("c").Message()))
  {
    LowerKeeps("c");
    LowerKeeps("control");
    ParseKeyUnknownModifier("c", "control");
  }

  lemma CtrlCAccepted()
    ensures ParseKey("ctrl" + "+" + "c") == Ok(CtrlC)
  {
    LowerKeeps("c");
    LowerKeeps("ctrl");
    assert ByteLen("c") == 1;
    ParseModifiersAccepts("ctrl");
    assert ParseModifierList(["ctrl"]) == Ok({Control} + {});
    ParseKeyPieces(["ctrl"], "c");
    assert Join(["ctrl"] + ["c"], '+') == "ctrl" + "+" + "c";
  }

  /** Without modifiers the text does read back, for a lowercase ASCII character other than `+`
      and space. */
  lemma DisplayParsesChar(c: char)
    requires c as int < 0x80 && !IsAsciiUpper(c) && c != '+' && c != ' '
    ensures ParseKey(Display(Key({}, Char(c)))) == Ok(Key({}, Char(c)))
  {
    CodeTextChar(c);
    LowerKeeps([c]);
    assert ByteLen([c]) == 1;
    ParseKeyAlone([c]);
  }

  /** ...and for a function key. */
  lemma DisplayParsesF(n: U8)
    ensures ParseKey(Display(Key({}, F(n)))) == Ok(Key({}, F(n)))
  {
    var text := FText(n);
    LowerKeeps(text);
    ParseCodeF(n);
    ParseKeyAlone(text);
  }

  /** The code text of a function key is `f` and its number. */
  lemma FText(n: U8) returns (text: string)
    ensures text == CodeText(F(n)) && text == "f" + Decimal(n)
    ensures '+' !in text && (forall i :: 0 <= i < |text| ==> !IsAsciiUpper(text[i]))
  {
    var d := Decimal(n);
    var lower := Lower("F" + d);
    assert lower == "f" + d by {
      forall i | 0 <= i < |lower|
        ensures lower[i] == ("f" + d)[i]
      {
        if i > 0 {
          assert ("F" + d)[i] == d[i - 1] == ("f" + d)[i];
        }
      }
    }
    text := ReplaceSpaces(lower);
    assert text == "f" + d by {
      forall i | 0 <= i < |text|
        ensures text[i] == ("f" + d)[i]
      {
        if i > 0 {
          assert lower[i] == d[i - 1];
        }
      }
    }
    assert forall i :: 0 <= i < |text| ==> !IsAsciiUpper(text[i]) && text[i] != '+' by {
      forall i | 0 <= i < |text|
        ensures !IsAsciiUpper(text[i]) && text[i] != '+'
      {
        if i > 0 {
          assert text[i] == d[i - 1];
        }
      }
    }
  }

  /** `f` and a number below 256 is that function key. */
  lemma ParseCodeF(n: U8)
    ensures ParseCode("f" + Decimal(n)) == Ok(F(n))
  {
    var d := Decimal(n);
    var code := "f" + d;
    assert code[1..] == d;
    assert d[0] != '+';
    assert ParseU8(d) == Some(n);
    assert ByteLen(code) > 1;
  }

  /** Parsing a list of modifiers splits over concatenation. */
  lemma {:induction false} ParseModifierListConcat(a: seq<string>, b: seq<string>)
    ensures ParseModifierList(a + b) ==
              if ParseModifierList(a).Err? then ParseModifierList(a)
              else if ParseModifierList(b).Err? then ParseModifierList(b)
              else Ok(ParseModifierList(a).value + ParseModifierList(b).value)
  {
    if a == [] {
      assert a + b == b;
      if ParseModifierList(b).Ok? {
        assert {} + ParseModifierList(b).value == ParseModifierList(b).value;
      }
    } else {
      assert (a + b)[0] == a[0];
      assert (a + b)[1..] == a[1..] + b;
      assert a + b != [];
      if ParseModifiers(a[0]).Err? {
        assert ParseModifierList(a + b) == Err(ParseModifiers(a[0]).error);
      } else {
        ParseModifierListConcat(a[1..], b);
        var first := ParseModifiers(a[0]).value;
        var restA, restB := ParseModifierList(a[1..]), ParseModifierList(b);
        if restA.Ok? && restB.Ok? {
          assert ParseModifierList(a + b) == Ok(first + (restA.value + restB.value));
          assert ParseModifierList(a) == Ok(first + restA.value);
          assert first + (restA.value + restB.value) == (first + restA.value) + restB.value;
        }
      }
    }
  }

  function FlagSet(flags: seq<(Modifier, string)>): set<Modifier> {
    set k | 0 <= k < |flags| :: flags[k].0
  }

  /** Each flag name the printer uses reads back as its flag... */
  lemma {:induction false} NamesOfReadBack(m: KeyModifiers, flags: seq<(Modifier, string)>)
    requires forall k :: 0 <= k < |flags| ==> ParseModifiers(flags[k].1) == Ok({flags[k].0})
    ensures ParseModifierList(NamesOf(m, flags)) == Ok(m * FlagSet(flags))
  {
    if flags != [] {
      var x := flags[0].0;
      var head := if x in m then [flags[0].1] else [];
      assert forall k :: 0 <= k < |flags[1..]| ==> flags[1..][k] == flags[k + 1];
      NamesOfReadBack(m, flags[1..]);
      ParseModifierListConcat(head, NamesOf(m, flags[1..]));
      assert ParseModifiers(flags[0].1) == Ok({x});
      if x in m {
        assert head[1..] == [];
        assert ParseModifierList(head) == Ok({x} + {});
        assert {x} + {} == m * {x};
      } else {
        assert m * {x} == {};
      }
      assert FlagSet(flags) == {x} + FlagSet(flags[1..]) by {
        forall y | y in FlagSet(flags)
          ensures y in {x} + FlagSet(flags[1..])
        {
          var k :| 0 <= k < |flags| && flags[k].0 == y;
          if k > 0 {
            assert flags[1..][k - 1] == flags[k];
          }
        }
        forall y | y in FlagSet(flags[1..])
          ensures y in FlagSet(flags)
        {
          var k :| 0 <= k < |flags[1..]| && flags[1..][k].0 == y;
          assert flags[k + 1] == flags[1..][k];
        }
      }
      assert NamesOf(m, flags) == head + NamesOf(m, flags[1..]);
      assert m * FlagSet(flags) == m * {x} + m * FlagSet(flags[1..]);
    } else {
      assert FlagSet(flags) == {};
      assert m * FlagSet(flags) == {};
      assert NamesOf(m, flags) == [];
    }
  }

  /** ...so the printed modifier names, together, read back as the same modifiers: only their place
      after the code keeps the text from parsing. */
  lemma ModifierNamesReadBack(m: KeyModifiers)
    ensures ParseModifierList(ModifierNames(m)) == Ok(m)
  {
    assert ParseModifiers("control") == Ok({Control});
    assert forall k :: 0 <= k < |Flags| ==> ParseModifiers(Flags[k].1) == Ok({Flags[k].0});
    NamesOfReadBack(m, Flags);
    assert FlagSet(Flags) == {Shift, Control, Alt, Super, Hyper, Meta} by {
      assert Flags[0].0 == Shift && Flags[1].0 == Control && Flags[2].0 == Alt;
      assert Flags[3].0 == Super && Flags[4].0 == Hyper && Flags[5].0 == Meta;
    }
    forall x | x in m
      ensures x in FlagSet(Flags)
    {
      match x
      case Shift =>
      case Control =>
      case Alt =>
      case Super =>
      case Hyper =>
      case Meta =>
    }
    assert m * FlagSet(Flags) == m;
  }

  /** The names of set flags, for flags whose names are plain lowercase words. */
  lemma {:induction false} NamesOfPlain(m: KeyModifiers, flags: seq<(Modifier, string)>)
    requires forall k :: 0 <= k < |flags| ==> '+' !in flags[k].1 && Lower(flags[k].1) == flags[k].1
    ensures forall i :: 0 <= i < |NamesOf(m, flags)| ==>
              '+' !in NamesOf(m, flags)[i] && Lower(NamesOf(m, flags)[i]) == NamesOf(m, flags)[i]
  {
    if flags != [] {
      assert forall k :: 0 <= k < |flags[1..]| ==> flags[1..][k] == flags[k + 1];
      NamesOfPlain(m, flags[1..]);
      var head := if flags[0].0 in m then [flags[0].1] else [];
      var rest := NamesOf(m, flags[1..]);
      forall i | 0 <= i < |head + rest|
        ensures '+' !in (head + rest)[i] && Lower((head + rest)[i]) == (head + rest)[i]
      {
        if i >= |head| {
          assert (head + rest)[i] == rest[i - |head|];
        }
      }
    }
  }

  /** The printed modifier names are plain lowercase words. */
  lemma ModifierNamesPlain(m: KeyModifiers)
    ensures forall i :: 0 <= i < |ModifierNames(m)| ==>
              '+' !in ModifierNames(m)[i] && Lower(ModifierNames(m)[i]) == ModifierNames(m)[i]
  {
    LowerKeeps("shift");
    LowerKeeps("control");
    LowerKeeps("alt");
    LowerKeeps("super");
    LowerKeeps("hyper");
    LowerKeeps("meta");
    NamesOfPlain(m, Flags);
  }

  /** Written modifiers first, the printed pieces of a character key read back as the key. */
  lemma RearrangedTextParses(m: KeyModifiers, c: char)
    requires c as int < 0x80 && !IsAsciiUpper(c) && c != '+' && c != ' '
    ensures ParseKey(Join(ModifierNames(m) + [CodeText(Char(c))], '+')) == Ok(Key(m, Char(c)))
  {
    CodeTextChar(c);
    LowerKeeps([c]);
    assert ByteLen([c]) == 1;
    ModifierNamesReadBack(m);
    var names := ModifierNames(m);
    ModifierNamesPlain(m);
    ParseKeyPieces(names, [c]);
  }

  // ---- Commands ----

  datatype ScrollAmount = One | HalfPage

  /** The actions a command stands for. */
  datatype Action =
    | ScrollUp(amount: ScrollAmount)
    | ScrollDown(amount: ScrollAmount)
    | Next | Prev | Quit | Select | ToggleHelp | ToggleMode | ToggleVaultSelector

  datatype Command =
    | ScrollUpCommand | ScrollDownCommand | PageUpCommand | PageDownCommand
    | NextCommand | PreviousCommand | QuitCommand | SelectCommand
    | ToggleHelpCommand | ToggleModeCommand | ToggleVaultSelectorCommand

  /** `From<Command> for Action`: scrolling by one for the scroll commands, by half a page for
      the page commands, and the like-named action otherwise. */
  function ToAction(c: Command): (r: Action)
    ensures r.ScrollUp? <==> c == ScrollUpCommand || c == PageUpCommand
    ensures r.ScrollDown? <==> c == ScrollDownCommand || c == PageDownCommand
    ensures (r.ScrollUp? || r.ScrollDown?) ==> (r.amount == One <==> c == ScrollUpCommand || c == ScrollDownCommand)
  {
    match c
    case ScrollUpCommand => ScrollUp(One)
    case ScrollDownCommand => ScrollDown(One)
    case PageUpCommand => ScrollUp(HalfPage)
    case PageDownCommand => ScrollDown(HalfPage)
    case NextCommand => Next
    case PreviousCommand => Prev
    case QuitCommand => Quit
    case SelectCommand => Select
    case ToggleHelpCommand => ToggleHelp
    case ToggleModeCommand => ToggleMode
    case ToggleVaultSelectorCommand => ToggleVaultSelector
  }

  /** No two commands stand for the same action. */
  lemma ToActionInjective(a: Command, b: Command)
    requires ToAction(a) == ToAction(b)
    ensures a == b
  {
  }

  /** A binding read from the configuration: a key and a command. */
  datatype KeyBinding = KeyBinding(key: Key, command: Command)

  /** `KeyBinding::CTRLC`. */
  const CtrlCBinding: KeyBinding := KeyBinding(CtrlC, QuitCommand)
}
