/** The string operations the states rely on: ASCII lowercasing and Rust's ordering of strings,
    which compares them character by character. */
module Strings {
  datatype Ordering = Less | Equal | Greater {
    /** `Ordering::reverse`. */
    function Reverse(): (r: Ordering)
      ensures (this == Less <==> r == Greater) && (this == Equal <==> r == Equal)
    {
      match this
      case Less => Greater
      case Equal => Equal
      case Greater => Less
    }
  }

  predicate IsAsciiUpper(c: char) {
    'A' <= c <= 'Z'
  }

  /** `char::to_lowercase` on ASCII letters; every other character is kept. */
  function LowerChar(c: char): (r: char)
    ensures IsAsciiUpper(c) ==> r as int == c as int + 32
    ensures !IsAsciiUpper(c) ==> r == c
  {
    if IsAsciiUpper(c) then (c as int + 32) as char else c
  }

  /** `str::to_lowercase`, character by character. */
  function Lower(s: string): (r: string)
    ensures |r| == |s|
    ensures forall i :: 0 <= i < |s| ==> r[i] == LowerChar(s[i])
  {
    seq(|s|, i requires 0 <= i < |s| => LowerChar(s[i]))
  }

  /** `Ord for str`: lexicographic order on characters, a proper prefix first. */
  function Cmp(a: string, b: string): (r: Ordering)
    ensures r == Equal <==> a == b
    decreases |a|
  {
    if a == [] then (if b == [] then Equal else Less)
    else if b == [] then Greater
    else if a[0] < b[0] then Less
    else if a[0] > b[0] then Greater
    else
      assert a == [a[0]] + a[1..] && b == [b[0]] + b[1..];
      Cmp(a[1..], b[1..])
  }

  /** Swapping the arguments reverses the order. */
  lemma {:induction false} CmpReverse(a: string, b: string)
    ensures Cmp(b, a) == Cmp(a, b).Reverse()
    decreases |a|
  {
    if a != [] && b != [] && a[0] == b[0] {
      CmpReverse(a[1..], b[1..]);
    }
  }

  /** "Not after" is transitive. */
  lemma {:induction false} CmpTransitive(a: string, b: string, c: string)
    requires Cmp(a, b) != Greater && Cmp(b, c) != Greater
    ensures Cmp(a, c) != Greater
    decreases |a|
  {
    if a != [] && b != [] && c != [] && a[0] == b[0] && b[0] == c[0] {
      CmpTransitive(a[1..], b[1..], c[1..]);
    }
  }

  /** Lowercasing twice is lowercasing once. */
  lemma LowerIdempotent(s: string)
    ensures Lower(Lower(s)) == Lower(s)
  {
  }

  /** `s.split(sep)`: the pieces between the separators, in order; there is always at least one
      piece, and the empty string splits into one empty piece. */
  function Split(s: string, sep: char): (r: seq<string>)
    ensures |r| >= 1
    ensures forall i :: 0 <= i < |r| ==> sep !in r[i]
    ensures |r| <= |s| + 1
  {
    if s == [] then [[]]
    else if s[0] == sep then [[]] + Split(s[1..], sep)
    else
      var rest := Split(s[1..], sep);
      [[s[0]] + rest[0]] + rest[1..]
  }

  /** `parts.join(sep)`. */
  function Join(parts: seq<string>, sep: char): (r: string)
    requires |parts| >= 1
    ensures parts[0] <= r
  {
    if |parts| == 1 then parts[0] else parts[0] + [sep] + Join(parts[1..], sep)
  }

  /** Splitting and joining are inverse: joining the pieces gives the string back... */
  lemma {:induction false} JoinSplit(s: string, sep: char)
    ensures Join(Split(s, sep), sep) == s
  {
    if s != [] {
      JoinSplit(s[1..], sep);
      var rest := Split(s[1..], sep);
      if s[0] == sep {
        assert ([[]] + rest)[1..] == rest;
      } else {
        var r := [[s[0]] + rest[0]] + rest[1..];
        if |rest| == 1 {
          assert s == [s[0]] + s[1..];
        } else {
          assert r[1..] == rest[1..];
          assert Join(rest, sep) == rest[0] + [sep] + Join(rest[1..], sep);
          assert s == [s[0]] + s[1..];
        }
      }
    }
  }

  /** ...and splitting a join of separator-free pieces gives the pieces back. */
  lemma {:induction false} SplitJoin(parts: seq<string>, sep: char)
    requires |parts| >= 1
    requires forall i :: 0 <= i < |parts| ==> sep !in parts[i]
    ensures Split(Join(parts, sep), sep) == parts
    decreases |parts|, |parts[0]|
  {
    if |parts[0]| > 0 {
      var tail := [parts[0][1..]] + parts[1..];
      assert tail[0] == parts[0][1..];
      assert tail[1..] == parts[1..];
      SplitJoin(tail, sep);
      var j := Join(parts, sep);
      JoinFirst(parts, tail, sep);
      assert j[0] == parts[0][0] && j[0] != sep;
      assert j[1..] == Join(tail, sep);
      assert [parts[0][0]] + parts[0][1..] == parts[0];
    } else if |parts| == 1 {
    } else {
      SplitJoin(parts[1..], sep);
      var j := Join(parts, sep);
      assert j == [sep] + Join(parts[1..], sep);
      assert j[1..] == Join(parts[1..], sep);
      assert [parts[0]] + parts[1..] == parts;
    }
  }

  /** Removing the first character of the first piece removes the first character of the join. */
  lemma JoinFirst(parts: seq<string>, tail: seq<string>, sep: char)
    requires |parts| >= 1 && |parts[0]| > 0
    requires tail == [parts[0][1..]] + parts[1..]
    ensures Join(parts, sep) == [parts[0][0]] + Join(tail, sep)
  {
    assert tail[1..] == parts[1..];
    if |parts| > 1 {
      assert Join(tail, sep) == parts[0][1..] + [sep] + Join(parts[1..], sep);
    }
  }

  /** A string without uppercase ASCII letters is its own lowercase. */
  lemma LowerKeeps(s: string)
    requires forall i :: 0 <= i < |s| ==> !IsAsciiUpper(s[i])
    ensures Lower(s) == s
  {
  }

  /** One trailing carriage return removed. */
  function StripCr(line: string): (r: string)
    ensures r <= line
    ensures '\r' !in line ==> r == line
  {
    if line != [] && line[|line| - 1] == '\r' then line[..|line| - 1] else line
  }

  /** `str::lines`: the pieces between line feeds, without the empty piece after a final line
      feed; a piece that a line feed ends loses one carriage return before it, the unterminated
      last piece keeps its own. The empty string has no lines. */
  function Lines(s: string): (r: seq<string>)
    ensures forall i :: 0 <= i < |r| ==> '\n' !in r[i]
    ensures s == [] ==> r == []
    ensures var pieces := Split(s, '\n');
      |r| == (if pieces[|pieces| - 1] == [] then |pieces| - 1 else |pieces|)
      && (forall i :: 0 <= i < |pieces| - 1 ==> r[i] == StripCr(pieces[i]))
      && (pieces[|pieces| - 1] != [] ==> r[|r| - 1] == pieces[|pieces| - 1])
  {
    var pieces := Split(s, '\n');
    var ended := seq(|pieces| - 1, i requires 0 <= i < |pieces| - 1 => StripCr(pieces[i]));
    var last := pieces[|pieces| - 1];
    if last == [] then ended else ended + [last]
  }

  /** A carriage return is dropped before a line feed only: `"a\r"` is one line `"a\r"`, and
      `"a\r\n"` is the line `"a"`. */
  lemma LinesCarriageReturn()
    ensures Lines("a\r") == ["a\r"]
    ensures Lines("a\r\n") == ["a"]
  {
    var cr, crlf := "a\r"[1..], "a\r\n"[1..];
    assert cr == "\r" && cr[1..] == [];
    var rest := Split(cr[1..], '\n');
    assert rest == [[]] && rest[1..] == [];
    assert [cr[0]] + rest[0] == "\r";
    assert Split(cr, '\n') == ["\r"];
    var whole := "a\r";
    assert whole[1..] == cr && whole[0] == 'a' && ['a'] + "\r" == "a\r";
    assert Split(whole, '\n') == ["a\r"];
    assert crlf == "\r\n" && crlf[1..] == "\n" && crlf[1..][1..] == [];
    assert Split(crlf[1..], '\n') == [[], []];
    assert Split(crlf, '\n') == ["\r", []];
  }

  /** The last piece of a split is empty only after a final separator, or for the empty string. */
  lemma {:induction false} SplitLast(s: string, sep: char)
    ensures var r := Split(s, sep); r[|r| - 1] == [] ==> s == [] || s[|s| - 1] == sep
  {
    if s != [] {
      SplitLast(s[1..], sep);
      var rest := Split(s[1..], sep);
      if s[0] != sep && |rest| == 1 {
        assert Split(s, sep) == [[s[0]] + rest[0]];
      }
    }
  }

  /** Lines without line feeds or carriage returns, the last one not empty, come back from their
      join. */
  lemma LinesOfJoin(ls: seq<string>)
    requires |ls| >= 1 && ls[|ls| - 1] != []
    requires forall i :: 0 <= i < |ls| ==> '\n' !in ls[i] && '\r' !in ls[i]
    ensures Lines(Join(ls, '\n')) == ls
  {
    SplitJoin(ls, '\n');
    LinesOfSplit(Join(ls, '\n'), ls);
  }

  lemma LinesOfSplit(s: string, pieces: seq<string>)
    requires |pieces| >= 1 && pieces[|pieces| - 1] != []
    requires forall i :: 0 <= i < |pieces| ==> '\r' !in pieces[i]
    requires Split(s, '\n') == pieces
    ensures Lines(s) == pieces
  {
    KeptLines(pieces);
  }

  /** Lines of pieces whose last one is not empty and none of which holds a carriage return. */
  lemma KeptLines(pieces: seq<string>)
    requires |pieces| >= 1 && pieces[|pieces| - 1] != []
    requires forall i :: 0 <= i < |pieces| ==> '\r' !in pieces[i]
    ensures seq(|pieces| - 1, i requires 0 <= i < |pieces| - 1 => StripCr(pieces[i])) + [pieces[|pieces| - 1]] == pieces
  {
  }

  /** A text without carriage returns that does not end in a line feed is the join of its lines. */
  lemma JoinOfLines(s: string)
    requires s != [] && s[|s| - 1] != '\n' && '\r' !in s
    ensures Join(Lines(s), '\n') == s
  {
    var pieces := Split(s, '\n');
    SplitLast(s, '\n');
    JoinSplit(s, '\n');
    forall i | 0 <= i < |pieces|
      ensures '\r' !in pieces[i]
    {
      JoinPieceIn(pieces, '\n', i);
    }
    KeptLines(pieces);
  }

  /** `s` without its final line feed, if it has one. */
  function WithoutFinalLineFeed(s: string): (r: string)
    ensures s != [] && s[|s| - 1] == '\n' ==> r + "\n" == s
    ensures !(s != [] && s[|s| - 1] == '\n') ==> r == s
  {
    if s != [] && s[|s| - 1] == '\n' then s[..|s| - 1] else s
  }

  /** A join extended by one piece. */
  lemma {:induction false} JoinSnoc(parts: seq<string>, x: string, sep: char)
    requires |parts| >= 1
    ensures Join(parts + [x], sep) == Join(parts, sep) + [sep] + x
    decreases |parts|
  {
    if |parts| > 1 {
      assert (parts + [x])[1..] == parts[1..] + [x];
      JoinSnoc(parts[1..], x, sep);
    } else {
      assert (parts + [x])[1..] == [x];
    }
  }

  /** A final line feed after a text without carriage returns ends its last piece: the lines are
      the pieces of the text before it. */
  lemma LinesOfTerminated(t: string)
    requires '\r' !in t
    ensures Lines(t + "\n") == Split(t, '\n')
  {
    var pieces := Split(t, '\n');
    JoinSplit(t, '\n');
    JoinSnoc(pieces, [], '\n');
    assert t + "\n" == Join(pieces + [[]], '\n');
    SplitJoin(pieces + [[]], '\n');
    forall i | 0 <= i < |pieces|
      ensures '\r' !in pieces[i]
    {
      JoinPieceIn(pieces, '\n', i);
    }
    var r := Lines(t + "\n");
    assert |r| == |pieces|;
    forall i | 0 <= i < |pieces|
      ensures r[i] == pieces[i]
    {
      assert r[i] == StripCr(pieces[i]);
    }
  }

  /** A non-empty text without carriage returns has lines, and joining them gives the text back
      less its final line feed. */
  lemma JoinOfLinesFinalLineFeed(s: string)
    requires s != [] && '\r' !in s
    ensures Lines(s) != [] && Join(Lines(s), '\n') == WithoutFinalLineFeed(s)
  {
    if s[|s| - 1] == '\n' {
      var t := s[..|s| - 1];
      assert s == t + "\n" && '\r' !in t;
      LinesOfTerminated(t);
      JoinSplit(t, '\n');
    } else {
      SplitLast(s, '\n');
      JoinOfLines(s);
    }
  }

  /** Every piece of a join is part of it. */
  lemma {:induction false} JoinPieceIn(parts: seq<string>, sep: char, i: nat)
    requires i < |parts|
    ensures forall c :: c in parts[i] ==> c in Join(parts, sep)
  {
    if i > 0 {
      JoinPieceIn(parts[1..], sep, i - 1);
    }
  }
}
