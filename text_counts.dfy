/** Character and word counts of a note (basalt/src/text_counts.rs). A character count is the
    number of Unicode scalar values; a word count removes fifteen markdown symbols and then counts
    the runs of non-whitespace characters. */
module TextCounts {
  import Seqs
  datatype CharCount = CharCount(value: nat)

  datatype WordCount = WordCount(value: nat)

  /** `From<&str> for CharCount`: `chars().count()`. */
  function CharCountOf(s: string): (r: CharCount)
    ensures r.value == |s|
  {
    CharCount(|s|)
  }

  /** Both wrappers give back the number they were made from. */
  lemma CountRoundTrips(n: nat)
    ensures CharCount(n).value == n && WordCount(n).value == n
    ensures forall c: CharCount :: CharCount(c.value) == c
    ensures forall w: WordCount :: WordCount(w.value) == w
  {
  }

  /** The characters `WordCount` deletes before counting. */
  predicate IsMarkdownSymbol(c: char) {
    c in ['*', '_', '`', '<', '>', '?', '!', '[', ']', '(', ')', '=', '~', '#', '+']
  }

  /** `char::is_whitespace`: the characters with the Unicode White_Space property. */
  predicate IsWhitespace(c: char) {
    ('\t' <= c <= '\r') || c == ' ' || c == '\U{85}' || c == '\U{A0}' || c == '\U{1680}'
    || ('\U{2000}' <= c <= '\U{200A}') || c == '\U{2028}' || c == '\U{2029}' || c == '\U{202F}'
    || c == '\U{205F}' || c == '\U{3000}'
  }

  predicate AllWhitespace(s: string) {
    forall i :: 0 <= i < |s| ==> IsWhitespace(s[i])
  }

  predicate NoWhitespace(s: string) {
    forall i :: 0 <= i < |s| ==> !IsWhitespace(s[i])
  }

  /** `str::replace(special_symbols, "")`: the string without the markdown symbols. */
  function RemoveSymbols(s: string): (r: string)
    ensures |r| <= |s|
    ensures forall i :: 0 <= i < |r| ==> !IsMarkdownSymbol(r[i])
    ensures (forall i :: 0 <= i < |s| ==> !IsMarkdownSymbol(s[i])) ==> r == s
  {
    if s == [] then []
    else (if IsMarkdownSymbol(s[0]) then [] else [s[0]]) + RemoveSymbols(s[1..])
  }

  /** Removal character by character distributes over concatenation. */
  lemma {:induction false} RemoveSymbolsConcat(s: string, t: string)
    ensures RemoveSymbols(s + t) == RemoveSymbols(s) + RemoveSymbols(t)
  {
    if s == [] {
      assert s + t == t;
    } else {
      assert (s + t)[1..] == s[1..] + t;
      RemoveSymbolsConcat(s[1..], t);
    }
  }

  /** The length of the run of non-whitespace characters that starts `s`. */
  function WordLength(s: string): (n: nat)
    ensures n <= |s|
    ensures forall i :: 0 <= i < n ==> !IsWhitespace(s[i])
    ensures n < |s| ==> IsWhitespace(s[n])
  {
    if s == [] || IsWhitespace(s[0]) then 0 else 1 + WordLength(s[1..])
  }

  /** `str::split_whitespace`: the maximal runs of non-whitespace characters, in order. */
  function SplitWhitespace(s: string): (r: seq<string>)
    ensures forall i :: 0 <= i < |r| ==> r[i] != [] && NoWhitespace(r[i])
    decreases |s|
  {
    if s == [] then []
    else if IsWhitespace(s[0]) then SplitWhitespace(s[1..])
    else
      var n := WordLength(s);
      var rest := SplitWhitespace(s[n..]);
      assert forall i :: 0 <= i < |rest| ==> ([s[..n]] + rest)[i + 1] == rest[i];
      [s[..n]] + rest
  }

  /** `From<&str> for WordCount`. */
  function WordCountOf(s: string): (r: WordCount)
    ensures r.value == |SplitWhitespace(RemoveSymbols(s))|
  {
    WordCount(|SplitWhitespace(RemoveSymbols(s))|)
  }

  // ---- What the word count does ----

  /** Whitespace alone holds no word. */
  lemma {:induction false} SplitAllWhitespace(s: string)
    requires AllWhitespace(s)
    ensures SplitWhitespace(s) == []
  {
    if s != [] {
      SplitAllWhitespace(s[1..]);
    }
  }

  /** A run without whitespace is one word. */
  lemma OneWord(s: string)
    requires s != [] && NoWhitespace(s)
    ensures SplitWhitespace(s) == [s]
  {
    WordLengthAll(s);
    assert s[|s|..] == [] && s[..|s|] == s;
  }

  lemma {:induction false} WordLengthAll(s: string)
    requires NoWhitespace(s)
    ensures WordLength(s) == |s|
  {
    if s != [] {
      WordLengthAll(s[1..]);
    }
  }

  /** Leading whitespace does not count. */
  lemma {:induction false} SkipWhitespace(w: string, b: string)
    requires AllWhitespace(w)
    ensures SplitWhitespace(w + b) == SplitWhitespace(b)
  {
    if w == [] {
      assert w + b == b;
    } else {
      assert (w + b)[1..] == w[1..] + b;
      SkipWhitespace(w[1..], b);
    }
  }

  /** A word ends at whitespace, so whatever follows the whitespace does not extend it. */
  lemma {:induction false} WordLengthBefore(a: string, t: string)
    requires t != [] && IsWhitespace(t[0])
    ensures WordLength(a + t) == WordLength(a)
  {
    if a == [] {
      assert a + t == t;
    } else if !IsWhitespace(a[0]) {
      assert (a + t)[1..] == a[1..] + t;
      WordLengthBefore(a[1..], t);
    }
  }

  /** Words on either side of whitespace are counted apart: the split of `a`, whitespace, `b` is
      the split of `a` followed by the split of `b`. */
  lemma {:induction false} SplitConcat(a: string, w: string, b: string)
    requires w != [] && AllWhitespace(w)
    ensures SplitWhitespace(a + w + b) == SplitWhitespace(a) + SplitWhitespace(b)
    decreases |a|
  {
    var s := a + w + b;
    if a == [] {
      assert s == w + b;
      SkipWhitespace(w, b);
    } else if IsWhitespace(a[0]) {
      assert s[1..] == a[1..] + w + b;
      SplitConcat(a[1..], w, b);
    } else {
      assert s == a + (w + b);
      WordLengthBefore(a, w + b);
      var n := WordLength(a);
      assert s[..n] == a[..n];
      assert s[n..] == a[n..] + w + b;
      SplitConcat(a[n..], w, b);
      Seqs.Regroup([a[..n]], SplitWhitespace(a[n..]), SplitWhitespace(b));
    }
  }

  /** The word count adds up over text separated by whitespace. */
  lemma WordCountConcat(a: string, w: string, b: string)
    requires w != [] && AllWhitespace(w)
    ensures WordCountOf(a + w + b).value == WordCountOf(a).value + WordCountOf(b).value
  {
    assert RemoveSymbols(w) == w by {
      assert forall i :: 0 <= i < |w| ==> !IsMarkdownSymbol(w[i]);
    }
    RemoveSymbolsConcat(a + w, b);
    RemoveSymbolsConcat(a, w);
    SplitConcat(RemoveSymbols(a), w, RemoveSymbols(b));
  }

  /** Markdown symbols and whitespace alone make no word. */
  lemma NoWords(s: string)
    requires forall i :: 0 <= i < |s| ==> IsMarkdownSymbol(s[i]) || IsWhitespace(s[i])
    ensures WordCountOf(s).value == 0
  {
    OnlyWhitespaceLeft(s);
    SplitAllWhitespace(RemoveSymbols(s));
  }

  lemma {:induction false} OnlyWhitespaceLeft(s: string)
    requires forall i :: 0 <= i < |s| ==> IsMarkdownSymbol(s[i]) || IsWhitespace(s[i])
    ensures AllWhitespace(RemoveSymbols(s))
  {
    if s != [] {
      OnlyWhitespaceLeft(s[1..]);
    }
  }

  // ---- Documents built from lines ----

  /** The parts joined by `sep`. */
  function Joined(parts: seq<string>, sep: string): (r: string)
    requires |parts| >= 1
  {
    if |parts| == 1 then parts[0] else parts[0] + sep + Joined(parts[1..], sep)
  }

  function SumWords(parts: seq<string>): nat {
    if parts == [] then 0 else WordCountOf(parts[0]).value + SumWords(parts[1..])
  }

  function SumLengths(parts: seq<string>): nat {
    if parts == [] then 0 else |parts[0]| + SumLengths(parts[1..])
  }

  /** Parts joined by whitespace have the words of all parts. */
  lemma {:induction false} WordCountJoined(parts: seq<string>, sep: string)
    requires |parts| >= 1 && sep != [] && AllWhitespace(sep)
    ensures WordCountOf(Joined(parts, sep)).value == SumWords(parts)
  {
    if |parts| > 1 {
      WordCountJoined(parts[1..], sep);
      WordCountConcat(parts[0], sep, Joined(parts[1..], sep));
    } else {
      assert parts[1..] == [];
    }
  }

  /** ...and the characters of all parts and separators. */
  lemma {:induction false} CharCountJoined(parts: seq<string>, sep: string)
    requires |parts| >= 1
    ensures CharCountOf(Joined(parts, sep)).value == SumLengths(parts) + (|parts| - 1) * |sep|
  {
    if |parts| > 1 {
      CharCountJoined(parts[1..], sep);
    } else {
      assert parts[1..] == [];
    }
  }

  /** A run of `n` copies of `c`. */
  function Repeat(c: char, n: nat): (r: string)
    ensures |r| == n && forall i :: 0 <= i < n ==> r[i] == c
  {
    if n == 0 then [] else [c] + Repeat(c, n - 1)
  }

  /** A single word of letters and digits. */
  predicate PlainWord(w: string) {
    w != [] && forall i :: 0 <= i < |w| ==> !IsWhitespace(w[i]) && !IsMarkdownSymbol(w[i])
  }

  /** A plain word counts once and a run of symbols not at all. */
  lemma PlainWordCount(w: string)
    requires PlainWord(w)
    ensures WordCountOf(w).value == 1
  {
    NoSymbols(w);
    OneWord(w);
  }

  lemma {:induction false} OnlySymbolsVanish(s: string)
    requires forall i :: 0 <= i < |s| ==> IsMarkdownSymbol(s[i])
    ensures RemoveSymbols(s) == []
  {
    if s != [] {
      OnlySymbolsVanish(s[1..]);
    }
  }

  lemma NoSymbols(s: string)
    requires forall i :: 0 <= i < |s| ==> !IsMarkdownSymbol(s[i])
    ensures RemoveSymbols(s) == s
  {
  }

  /** The sums over a part and the rest. */
  lemma SumsStep(parts: seq<string>, k: nat)
    requires k < |parts|
    ensures SumWords(parts[k..]) == WordCountOf(parts[k]).value + SumWords(parts[k + 1..])
    ensures SumLengths(parts[k..]) == |parts[k]| + SumLengths(parts[k + 1..])
  {
    assert parts[k..][1..] == parts[k + 1..];
  }

  lemma SumsOfSix(lines: seq<string>)
    requires |lines| == 6
    ensures SumWords(lines) == WordCountOf(lines[0]).value + WordCountOf(lines[1]).value
      + WordCountOf(lines[2]).value + WordCountOf(lines[3]).value + WordCountOf(lines[4]).value
      + WordCountOf(lines[5]).value
    ensures SumLengths(lines) == |lines[0]| + |lines[1]| + |lines[2]| + |lines[3]| + |lines[4]| + |lines[5]|
  {
    assert lines[6..] == [];
    SumsStep(lines, 5);
    SumsStep(lines, 4);
    SumsStep(lines, 3);
    SumsStep(lines, 2);
    SumsStep(lines, 1);
    SumsStep(lines, 0);
    assert lines[0..] == lines;
  }

  // ---- The documents of the unit test ----

  /** A line of `marks`, a word and a third word, separated by single spaces, counts two words. */
  lemma MarkedLineCounts(marks: string, word: string, last: string)
    requires forall i :: 0 <= i < |marks| ==> IsMarkdownSymbol(marks[i])
    requires PlainWord(word) && PlainWord(last)
    ensures WordCountOf(marks + " " + (word + " " + last)).value == 2
  {
    NoWords(marks);
    PlainWordCount(word);
    PlainWordCount(last);
    WordCountConcat(word, " ", last);
    WordCountConcat(marks, " ", word + " " + last);
  }

  /** The `n`-th heading line of the first test document: `n` marks, the heading word and the
      digit `n`. */
  function HeadingLine(n: nat, heading: string): (r: string)
    requires 1 <= n <= 6
  {
    Repeat('#', n) + " " + (heading + " " + [('0' as int + n) as char])
  }

  lemma HeadingLineCounts(n: nat, heading: string)
    requires 1 <= n <= 6 && PlainWord(heading)
    ensures WordCountOf(HeadingLine(n, heading)).value == 2
    ensures |HeadingLine(n, heading)| == n + |heading| + 3
  {
    var digit := [('0' as int + n) as char];
    assert PlainWord(digit);
    MarkedLineCounts(Repeat('#', n), heading, digit);
  }

  /** The six-heading document of the unit test, `# Heading 1` to `###### Heading 6` joined by
      blank lines, has 12 words and 91 characters. */
  lemma HeadingsDocument(heading: string, doc: string)
    requires heading == "Heading"
    requires doc == Joined([HeadingLine(1, heading), HeadingLine(2, heading), HeadingLine(3, heading),
                            HeadingLine(4, heading), HeadingLine(5, heading), HeadingLine(6, heading)], "\n\n")
    ensures WordCountOf(doc).value == 12
    ensures CharCountOf(doc).value == 91
  {
    var lines := [HeadingLine(1, heading), HeadingLine(2, heading), HeadingLine(3, heading),
                  HeadingLine(4, heading), HeadingLine(5, heading), HeadingLine(6, heading)];
    AsciiWordPlain(heading);
    HeadingLineCounts(1, heading);
    HeadingLineCounts(2, heading);
    HeadingLineCounts(3, heading);
    HeadingLineCounts(4, heading);
    HeadingLineCounts(5, heading);
    HeadingLineCounts(6, heading);
    WordCountJoined(lines, "\n\n");
    CharCountJoined(lines, "\n\n");
    SumsOfSix(lines);
  }

  lemma SumsOfFour(parts: seq<string>)
    requires |parts| == 4
    ensures SumWords(parts) == WordCountOf(parts[0]).value + WordCountOf(parts[1]).value
      + WordCountOf(parts[2]).value + WordCountOf(parts[3]).value
    ensures SumLengths(parts) == |parts[0]| + |parts[1]| + |parts[2]| + |parts[3]|
  {
    assert parts[4..] == [];
    SumsStep(parts, 3);
    SumsStep(parts, 2);
    SumsStep(parts, 1);
    SumsStep(parts, 0);
    assert parts[0..] == parts;
  }

  /** Four parts joined by whitespace. */
  lemma JoinedFour(l0: string, l1: string, l2: string, l3: string, sep: string)
    requires sep != [] && AllWhitespace(sep)
    ensures WordCountOf(Joined([l0, l1, l2, l3], sep)).value
         == WordCountOf(l0).value + WordCountOf(l1).value + WordCountOf(l2).value + WordCountOf(l3).value
  {
    WordCountJoined([l0, l1, l2, l3], sep);
    SumsOfFour([l0, l1, l2, l3]);
  }

  lemma JoinedFourLength(l0: string, l1: string, l2: string, l3: string, sep: string)
    ensures |Joined([l0, l1, l2, l3], sep)| == |l0| + |l1| + |l2| + |l3| + 3 * |sep|
  {
    CharCountJoined([l0, l1, l2, l3], sep);
    SumsOfFour([l0, l1, l2, l3]);
  }

  /** Only markdown symbols. */
  predicate AllSymbols(s: string) {
    forall i :: 0 <= i < |s| ==> IsMarkdownSymbol(s[i])
  }

  /** A box `[` w `]` keeps the words of `w`. */
  lemma BoxCount(lb: string, w: string, rb: string)
    requires AllSymbols(lb) && AllSymbols(rb)
    ensures WordCountOf(lb + w + rb).value == WordCountOf(w).value
  {
    OnlySymbolsVanish(lb);
    OnlySymbolsVanish(rb);
    RemoveSymbolsConcat(lb, w);
    RemoveSymbolsConcat(lb + w, rb);
    assert RemoveSymbols(lb + w) == RemoveSymbols(w);
    assert RemoveSymbols(lb + w + rb) == RemoveSymbols(w);
  }

  /** A line of two tokens, as `## Tasks`. */
  function Line2(a: string, b: string): (r: string)
    ensures |r| == |a| + |b| + 1
  {
    a + " " + b
  }

  /** A line of four tokens, as `- [x] Completed task`. */
  function Line4(a: string, b: string, c: string, d: string): (r: string)
    ensures |r| == |a| + |b| + |c| + |d| + 3
  {
    a + " " + (b + " " + (c + " " + d))
  }

  lemma Line2Count(marks: string, word: string)
    requires AllSymbols(marks) && PlainWord(word)
    ensures WordCountOf(Line2(marks, word)).value == 1
  {
    NoWords(marks);
    PlainWordCount(word);
    WordCountConcat(marks, " ", word);
  }

  lemma Line4Count(a: string, b: string, c: string, d: string)
    ensures WordCountOf(Line4(a, b, c, d)).value
         == WordCountOf(a).value + WordCountOf(b).value + WordCountOf(c).value + WordCountOf(d).value
  {
    WordCountConcat(c, " ", d);
    WordCountConcat(b, " ", c + " " + d);
    WordCountConcat(a, " ", b + " " + (c + " " + d));
  }

  /** `- [ ] Task` counts the dash and the task. */
  lemma OpenTaskCount(dash: string, lb: string, rb: string, task: string)
    requires AllSymbols(lb) && AllSymbols(rb) && PlainWord(dash) && PlainWord(task)
    ensures WordCountOf(Line4(dash, lb, rb, task)).value == 2
  {
    NoWords(lb);
    NoWords(rb);
    PlainWordCount(dash);
    PlainWordCount(task);
    Line4Count(dash, lb, rb, task);
  }

  /** `- [x] Completed task` counts the dash, the `x` and both words. */
  lemma DoneTaskCount(dash: string, box: string, completed: string, task: string)
    requires PlainWord(dash) && PlainWord(completed) && PlainWord(task)
    ensures WordCountOf(Line4(dash, box, completed, task)).value == 3 + WordCountOf(box).value
  {
    PlainWordCount(dash);
    PlainWordCount(completed);
    PlainWordCount(task);
    Line4Count(dash, box, completed, task);
  }

  /** A document of the shape of the second test document, whatever its tokens, as long as each
      token is made of symbols or of plain characters as there, has 10 words. */
  lemma TasksShapeWords(marks: string, dash: string, lb: string, rb: string, unsure: string, tasks: string,
                        task: string, lowerTask: string, completed: string, x: string)
    requires AllSymbols(marks) && AllSymbols(lb) && AllSymbols(rb) && AllSymbols(unsure)
    requires PlainWord(dash) && PlainWord(tasks) && PlainWord(task) && PlainWord(lowerTask) && PlainWord(completed) && PlainWord(x)
    ensures WordCountOf(TasksText(marks, dash, lb, rb, unsure, tasks, task, lowerTask, completed, x)).value == 10
  {
    Line2Count(marks, tasks);
    OpenTaskCount(dash, lb, rb, task);
    PlainWordCount(x);
    BoxCount(lb, x, rb);
    DoneTaskCount(dash, lb + x + rb, completed, lowerTask);
    NoWords(unsure);
    DoneTaskCount(dash, unsure, completed, lowerTask);
    JoinedFour(Line2(marks, tasks), Line4(dash, lb, rb, task), Line4(dash, lb + x + rb, completed, lowerTask),
               Line4(dash, unsure, completed, lowerTask), "\n\n");
  }

  /** ...and its characters are those of its tokens plus the separators. */
  lemma TasksShapeLength(marks: string, dash: string, lb: string, rb: string, unsure: string, tasks: string,
                         task: string, lowerTask: string, completed: string, x: string)
    ensures |TasksText(marks, dash, lb, rb, unsure, tasks, task, lowerTask, completed, x)|
         == 3 * |dash| + 2 * |lb| + 2 * |rb| + |task| + 2 * |lowerTask| + 2 * |completed| + |marks| + |tasks| + |x| + |unsure| + 16
  {
    JoinedFourLength(Line2(marks, tasks), Line4(dash, lb, rb, task), Line4(dash, lb + x + rb, completed, lowerTask),
                     Line4(dash, unsure, completed, lowerTask), "\n\n");
  }

  /** The second test document from its tokens: a heading and three task lines joined by blank
      lines. */
  function TasksText(marks: string, dash: string, lb: string, rb: string, unsure: string, tasks: string,
                     task: string, lowerTask: string, completed: string, x: string): (r: string)
  {
    Joined([Line2(marks, tasks), Line4(dash, lb, rb, task), Line4(dash, lb + x + rb, completed, lowerTask),
            Line4(dash, unsure, completed, lowerTask)], "\n\n")
  }

  /** ASCII letters and digits, and dashes, are neither whitespace nor markdown symbols. */
  predicate AsciiWord(w: string) {
    w != [] && forall i :: 0 <= i < |w| ==> 'a' <= w[i] <= 'z' || 'A' <= w[i] <= 'Z' || '0' <= w[i] <= '9' || w[i] == '-'
  }

  lemma AsciiWordPlain(w: string)
    requires AsciiWord(w)
    ensures PlainWord(w)
  {
  }

  /** The tokens of the second test document: symbols, or plain words. */
  lemma TaskTokens(marks: string, dash: string, lb: string, rb: string, unsure: string, tasks: string,
                   task: string, lowerTask: string, completed: string, x: string)
    requires marks == "##" && dash == "-" && lb == "[" && rb == "]" && unsure == "[?]"
    requires tasks == "Tasks" && task == "Task" && lowerTask == "task" && completed == "Completed" && x == "x"
    ensures AllSymbols(marks) && AllSymbols(lb) && AllSymbols(rb) && AllSymbols(unsure)
    ensures PlainWord(dash) && PlainWord(tasks) && PlainWord(task) && PlainWord(lowerTask) && PlainWord(completed) && PlainWord(x)
  {
    AsciiWordPlain(dash);
    AsciiWordPlain(tasks);
    AsciiWordPlain(task);
    AsciiWordPlain(lowerTask);
    AsciiWordPlain(completed);
    AsciiWordPlain(x);
  }

  /** The second test document: `## Tasks` and three task lines, `- [ ] Task`,
      `- [x] Completed task` and `- [?] Completed task`, joined by blank lines; it has 10 words and
      64 characters. The symbols `#`, `[`, `]` and `?` vanish, so the dashes and the `x` count as
      words. The tokens are parameters pinned to their text so that the count is reasoned about
      token by token. */
  lemma TasksDocument(marks: string, dash: string, lb: string, rb: string, unsure: string, tasks: string,
                      task: string, lowerTask: string, completed: string, x: string)
    requires marks == "##" && dash == "-" && lb == "[" && rb == "]" && unsure == "[?]"
    requires tasks == "Tasks" && task == "Task" && lowerTask == "task" && completed == "Completed" && x == "x"
    ensures WordCountOf(TasksText(marks, dash, lb, rb, unsure, tasks, task, lowerTask, completed, x)).value == 10
    ensures CharCountOf(TasksText(marks, dash, lb, rb, unsure, tasks, task, lowerTask, completed, x)).value == 64
  {
    TaskTokens(marks, dash, lb, rb, unsure, tasks, task, lowerTask, completed, x);
    TasksShapeWords(marks, dash, lb, rb, unsure, tasks, task, lowerTask, completed, x);
    TasksShapeLength(marks, dash, lb, rb, unsure, tasks, task, lowerTask, completed, x);
  }
}
