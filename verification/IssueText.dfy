/**
 Text that travels through an Issue Form response: line-wise Markdown escaping, and the
 backslash-doubling sentinel that keeps a literal "no response" placeholder apart from a missing one.
 */
module IssueText {
  import opened Characters
  import opened Wrappers
  import opened Ordering

  // ---- lines ------------------------------------------------------------------------------

  const BOM: char := '\U{FEFF}'

  /** Carriage returns become line feeds, alone or together with the line feed behind them. */
  function Unify(s: string): string {
    if s == [] then []
    else if s[0] == '\r' then ['\n'] + Unify(if |s| > 1 && s[1] == '\n' then s[2..] else s[1..])
    else [s[0]] + Unify(s[1..])
  }

  function NormalizeSource(s: string): string { Unify(if s != [] && s[0] == BOM then s[1..] else s) }

  /** Where the line end at the front of a text ends, or its first character. */
  function LineEnd(s: string): (n: nat)
    requires s != []
    ensures n <= |s|
  {
    if s[0] == '\r' && |s| > 1 && s[1] == '\n' then 2 else 1
  }

  lemma UnifyStep(s: string)
    requires s != []
    ensures Unify(s) == [if s[0] == '\r' then '\n' else s[0]] + Unify(s[LineEnd(s)..])
  {
  }

  lemma {:induction false} UnifyAdds(a: string, b: string)
    requires a != [] && a[|a| - 1] == '\r' && b != [] ==> b[0] != '\n'
    ensures Unify(a + b) == Unify(a) + Unify(b)
    decreases |a|
  {
    if a == [] {
      assert a + b == b;
    } else {
      var n := LineEnd(a);
      assert LineEnd(a + b) == n by { assert |a| > 1 ==> (a + b)[1] == a[1]; }
      UnifyStep(a);
      UnifyStep(a + b);
      hide Unify;
      UnifyAdds(a[n..], b);
      assert (a + b)[n..] == a[n..] + b;
    }
  }

  /** Each of the three line ends becomes one line feed, wherever it stands, and all other text is kept. */
  lemma LineEndsUnify(a: string, b: string)
    requires a != [] && a[|a| - 1] == '\r' && b != [] ==> b[0] != '\n'
    ensures Unify(a + b) == Unify(a) + Unify(b)
    ensures Unify("\r\n") == Unify("\r") == Unify("\n") == "\n"
    ensures '\r' !in a ==> Unify(a) == a
  {
    UnifyAdds(a, b);
    SingleLineEnds();
    UnifyPlain(a);
  }

  lemma SingleLineEnds()
    ensures Unify("\r\n") == Unify("\r") == Unify("\n") == "\n"
  {
    assert "\r\n"[2..] == [] && "\r"[1..] == [] && "\n"[1..] == [];
  }

  /** Lines of a text; there is always at least one. */
  function Split(s: string): (r: seq<string>)
    ensures |r| > 0
  {
    if s == [] then [[]]
    else
      var rest := Split(s[1..]);
      if s[0] == '\n' then [[]] + rest else [[s[0]] + rest[0]] + rest[1..]
  }

  function Join(lines: seq<string>): string {
    if lines == [] then []
    else if |lines| == 1 then lines[0]
    else lines[0] + ['\n'] + Join(lines[1..])
  }

  predicate OneLine(s: string) { '\n' !in s }

  lemma {:induction false} JoinUndoesSplit(s: string)
    ensures Join(Split(s)) == s
    ensures forall i :: 0 <= i < |Split(s)| ==> OneLine(Split(s)[i])
  {
    if s != [] {
      JoinUndoesSplit(s[1..]);
      var rest, all := Split(s[1..]), Split(s);
      if s[0] == '\n' {
        assert all[1..] == rest;
      } else {
        assert all[1..] == rest[1..];
      }
    }
  }

  lemma SplitOneLine(s: string, rest: seq<string>)
    requires OneLine(s) && rest != []
    ensures Split(s) == [s]
    ensures Split(s + ['\n'] + Join(rest)) == [s] + Split(Join(rest))
    decreases |s|
  {
    var t := s + ['\n'] + Join(rest);
    if s == [] {
      assert t[1..] == Join(rest);
    } else {
      SplitOneLine(s[1..], rest);
      assert t[1..] == s[1..] + ['\n'] + Join(rest);
      assert s == [s[0]] + s[1..];
    }
  }

  lemma {:induction false} SplitUndoesJoin(lines: seq<string>)
    requires lines != [] && forall i :: 0 <= i < |lines| ==> OneLine(lines[i])
    ensures Split(Join(lines)) == lines
  {
    if |lines| == 1 {
      SplitOneLine(lines[0], [[]]);
    } else {
      SplitUndoesJoin(lines[1..]);
      SplitOneLine(lines[0], lines[1..]);
    }
  }

  // ---- escaping one line ---------------------------------------------------------------------

  function Indent(line: string): (n: nat)
    ensures n <= |line| && (forall i :: 0 <= i < n ==> line[i] == ' ') && (n < |line| ==> line[n] != ' ')
  {
    if line == [] || line[0] != ' ' then 0 else 1 + Indent(line[1..])
  }

  predicate StartsWith(s: string, prefix: string): (r: bool)
    ensures r && prefix != [] ==> s != [] && s[0] == prefix[0]
  {
    |prefix| <= |s| && prefix == s[..|prefix|]
  }

  /** How many of one character a text starts with. */
  function Leading(s: string, c: char): (n: nat)
    ensures n <= |s| && (n > 0 <==> s != [] && s[0] == c)
  {
    if s == [] || s[0] != c then 0 else 1 + Leading(s[1..], c)
  }

  predicate HeadingMark(s: string) {
    var n := Leading(s, '#');
    1 <= n <= 6 && (n == |s| || s[n] in " \t")
  }

  predicate FenceMark(s: string) { StartsWith(s, "```") || StartsWith(s, "~~~") }

  predicate CommentMark(s: string) { StartsWith(s, "<!--") }

  function Hashes(n: nat): string { seq(n, _ => '#') }

  lemma {:induction false} LeadingHashes(s: string)
    ensures s[..Leading(s, '#')] == Hashes(Leading(s, '#')) && (Leading(s, '#') < |s| ==> s[Leading(s, '#')] != '#')
  {
    if s != [] && s[0] == '#' {
      LeadingHashes(s[1..]);
      var n := Leading(s[1..], '#');
      assert s[..n + 1] == ['#'] + s[1..][..n];
    }
  }

  predicate HashesThen(s: string, n: nat, rest: string) {
    1 <= n <= 6 && s == Hashes(n) + rest && (rest == [] || rest[0] == ' ' || rest[0] == '\t')
  }

  /** An opening line, as Markdown has it: one to six hashes and then white space or nothing, a code fence, or a comment. */
  ghost predicate OpensMarkdown(s: string) {
    || (exists n, rest :: HashesThen(s, n, rest))
    || (exists rest :: s == "```" + rest) || (exists rest :: s == "~~~" + rest) || (exists rest :: s == "<!--" + rest)
  }

  lemma {:induction false} HashesLead(n: nat, rest: string)
    requires rest == [] || rest[0] != '#'
    ensures Leading(Hashes(n) + rest, '#') == n
  {
    var s := Hashes(n) + rest;
    if n > 0 {
      HashesLead(n - 1, rest);
      assert s[1..] == Hashes(n - 1) + rest;
    } else {
      assert s == rest;
    }
  }

  lemma StartsMeans(s: string, prefix: string)
    ensures StartsWith(s, prefix) <==> exists rest :: s == prefix + rest
  {
    if StartsWith(s, prefix) { assert s == prefix + s[|prefix|..]; }
  }

  /** The marks the escaper looks for are exactly those. */
  lemma MarkMeansOpening(s: string)
    ensures Mark(s) <==> OpensMarkdown(s)
  {
    StartsMeans(s, "```");
    StartsMeans(s, "~~~");
    StartsMeans(s, "<!--");
    HeadingMeans(s);
  }

  lemma HeadingMeans(s: string)
    ensures HeadingMark(s) <==> exists n, rest :: HashesThen(s, n, rest)
  {
    if HeadingMark(s) {
      LeadingHashes(s);
      var n := Leading(s, '#');
      var rest := s[n..];
      assert s == s[..n] + rest && (rest != [] ==> rest[0] == s[n]);
      assert HashesThen(s, n, rest);
    }
    if n: nat, rest :| HashesThen(s, n, rest) {
      HashesLead(n, rest);
      assert rest != [] ==> s[n] == rest[0];
    }
  }

  predicate Mark(s: string) { HeadingMark(s) || FenceMark(s) || CommentMark(s) }

  /** The line opens a heading, a fence or an HTML comment. */
  predicate Opens(line: string) { Indent(line) <= 3 && Mark(line[Indent(line)..]) }

  function EscapeLine(line: string): string {
    if Opens(line) then line[..Indent(line)] + ['\\'] + line[Indent(line)..] else line
  }

  /** Digits, at least one, and then a dot or a parenthesis. */
  predicate OrderedMark(s: string) {
    s != [] && '0' <= s[0] <= '9' && |s| > 1 && (s[1] in ".)" || OrderedMark(s[1..]))
  }

  /** What a backslash may have been put in front of. */
  predicate Escapable(s: string) {
    s != [] && (s[0] in "#-+*`~>" || OrderedMark(s) || CommentMark(s))
  }

  predicate StartsEscaped(line: string) {
    Indent(line) <= 3 && Indent(line) < |line| && line[Indent(line)] == '\\' && Escapable(line[Indent(line) + 1..])
  }

  function UnescapeLine(line: string): string {
    if StartsEscaped(line) then line[..Indent(line)] + line[Indent(line) + 1..] else line
  }

  lemma {:induction false} IndentOf(spaces: string, rest: string)
    requires (forall i :: 0 <= i < |spaces| ==> spaces[i] == ' ') && (rest != [] ==> rest[0] != ' ')
    ensures Indent(spaces + rest) == |spaces|
  {
    if spaces != [] {
      IndentOf(spaces[1..], rest);
      assert (spaces + rest)[1..] == spaces[1..] + rest;
    } else {
      assert spaces + rest == rest;
    }
  }

  function Spaces(n: nat): string { seq(n, _ => ' ') }

  /** A line that opens a heading, a fence or a comment behind at most three spaces. */
  ghost predicate OpeningLine(line: string) { exists n, rest :: n <= 3 && line == Spaces(n) + rest && OpensMarkdown(rest) }

  lemma IndentIs(n: nat, rest: string)
    requires rest != [] ==> rest[0] != ' '
    ensures Indent(Spaces(n) + rest) == n && (Spaces(n) + rest)[..n] == Spaces(n) && (Spaces(n) + rest)[n..] == rest
  {
    IndentOf(Spaces(n), rest);
  }

  lemma IndentSplits(line: string)
    ensures line == Spaces(Indent(line)) + line[Indent(line)..]
  {
    assert line[..Indent(line)] == Spaces(Indent(line));
  }

  /** What escaping a line does, said without looking for its indentation. */
  lemma EscapeLineMeans(line: string)
    ensures Opens(line) <==> OpeningLine(line)
    ensures !OpeningLine(line) ==> EscapeLine(line) == line
    ensures forall n: nat, rest :: n <= 3 && line == Spaces(n) + rest && OpensMarkdown(rest) ==> EscapeLine(line) == Spaces(n) + "\\" + rest
  {
    hide Mark, OpensMarkdown;
    IndentSplits(line);
    MarkMeansOpening(line[Indent(line)..]);
    forall n: nat, rest | n <= 3 && line == Spaces(n) + rest && OpensMarkdown(rest)
      ensures Opens(line) && EscapeLine(line) == Spaces(n) + "\\" + rest
    {
      MarkMeansOpening(rest);
      MarkStart(rest);
      IndentIs(n, rest);
    }
  }

  /** A bullet, a quote, a heading or a fence character, a numbered item, or a comment. */
  ghost predicate BlockStart(s: string) {
    || (s != [] && s[0] in {'#', '-', '+', '*', '`', '~', '>'})
    || (exists digits, tail :: Numbered(s, digits, tail))
    || (exists rest :: s == "<!--" + rest)
  }

  predicate Numbered(s: string, digits: string, tail: string) {
    && s == digits + tail && digits != [] && (forall i :: 0 <= i < |digits| ==> digits[i] in DIGITS)
    && tail != [] && (tail[0] == '.' || tail[0] == ')')
  }

  lemma {:induction false} NumberedIff(s: string)
    ensures OrderedMark(s) <==> exists digits, tail :: Numbered(s, digits, tail)
    decreases |s|
  {
    hide DIGITS;
    if OrderedMark(s) {
      InDigits(s[0]);
      if s[1] in ".)" {
        assert Numbered(s, [s[0]], s[1..]);
      } else {
        NumberedIff(s[1..]);
        var digits, tail :| Numbered(s[1..], digits, tail);
        assert Numbered(s, [s[0]] + digits, tail);
      }
    }
    if digits, tail :| Numbered(s, digits, tail) {
      assert s[0] == digits[0] && digits[0] in DIGITS;
      InDigits(s[0]);
      if |digits| > 1 {
        NumberedIff(s[1..]);
        assert Numbered(s[1..], digits[1..], tail);
      } else {
        assert s[1] == tail[0];
      }
    }
  }

  lemma BlockCharacter(c: char)
    ensures c in "#-+*`~>" <==> c in {'#', '-', '+', '*', '`', '~', '>'}
  {
    var all := "#-+*`~>";
    assert all[0] == '#' && all[1] == '-' && all[2] == '+' && all[3] == '*' && all[4] == '`' && all[5] == '~' && all[6] == '>';
  }

  lemma BlockStartIff(s: string)
    ensures Escapable(s) <==> BlockStart(s)
  {
    assert OrderedMark(s) ==> s != [];
    hide OrderedMark, Numbered;
    if s != [] { BlockCharacter(s[0]); }
    NumberedIff(s);
    StartsMeans(s, "<!--");
    assert CommentMark(s) <==> exists rest :: s == "<!--" + rest;
  }

  /** A line with a backslash in front of a block start, behind at most three spaces. */
  ghost predicate EscapedLine(line: string) { exists n, rest :: n <= 3 && line == Spaces(n) + "\\" + rest && BlockStart(rest) }

  /** What unescaping a line does, said without looking for its indentation. */
  lemma UnescapeLineMeans(line: string)
    ensures StartsEscaped(line) <==> EscapedLine(line)
    ensures !EscapedLine(line) ==> UnescapeLine(line) == line
    ensures forall n: nat, rest :: n <= 3 && line == Spaces(n) + "\\" + rest && BlockStart(rest) ==> UnescapeLine(line) == Spaces(n) + rest
  {
    hide Escapable, BlockStart;
    var at := Indent(line);
    IndentSplits(line);
    if at < |line| {
      BlockStartIff(line[at + 1..]);
      assert line[at] == '\\' ==> line == Spaces(at) + "\\" + line[at + 1..];
    }
    forall n: nat, rest | n <= 3 && line == Spaces(n) + "\\" + rest && BlockStart(rest)
      ensures StartsEscaped(line) && UnescapeLine(line) == Spaces(n) + rest
    {
      BlockStartIff(rest);
      assert line == Spaces(n) + ("\\" + rest);
      IndentIs(n, "\\" + rest);
      assert line[n + 1..] == rest && line[n] == '\\';
    }
  }

  lemma EscapedShape(line: string)
    requires Opens(line)
    ensures var n := Indent(line);
      && Indent(EscapeLine(line)) == n && n < |EscapeLine(line)| && EscapeLine(line)[n] == '\\'
      && EscapeLine(line)[..n] == line[..n] && EscapeLine(line)[n + 1..] == line[n..]
  {
    IndentOf(line[..Indent(line)], ['\\'] + line[Indent(line)..]);
    assert EscapeLine(line) == line[..Indent(line)] + (['\\'] + line[Indent(line)..]);
  }

  /** An escaped line opens nothing, so escaping it again changes nothing. */
  lemma EscapedLineOpensNothing(line: string)
    ensures !Opens(EscapeLine(line))
  {
    if Opens(line) {
      EscapedShape(line);
      var rest := EscapeLine(line)[Indent(line)..];
      assert rest[0] == '\\';
      assert !StartsWith(rest, "```") && !StartsWith(rest, "~~~") && !StartsWith(rest, "<!--");
    }
  }

  lemma MarksAreEscapable(s: string)
    requires Mark(s)
    ensures Escapable(s)
  {
  }

  /** Unescaping undoes escaping on exactly those lines that do not already start escaped. */
  lemma UnescapesExactly(line: string)
    ensures UnescapeLine(EscapeLine(line)) == line <==> !EscapedLine(line)
    ensures EscapedLine(line) ==> EscapeLine(line) == line
  {
    UnescapeLineMeans(line);
    hide EscapedLine;
    if Opens(line) {
      EscapedShape(line);
      MarksAreEscapable(line[Indent(line)..]);
      NotBothEscapedAndOpen(line);
      assert line == line[..Indent(line)] + line[Indent(line)..];
    } else if StartsEscaped(line) {
      assert |UnescapeLine(line)| == |line| - 1;
    }
  }

  lemma NotBothEscapedAndOpen(line: string)
    requires Opens(line)
    ensures !StartsEscaped(line)
  {
    var s := line[Indent(line)..];
    MarksAreEscapable(s);
  }

  // ---- escaping a value ------------------------------------------------------------------------

  function EscapeValue(v: string): string { Join(Map(Split(NormalizeSource(v)), EscapeLine)) }

  function UnescapeValue(v: string): string { Join(Map(Split(NormalizeSource(v)), UnescapeLine)) }

  /** No carriage return and no byte order mark in front. */
  predicate Normalized(v: string) { '\r' !in v && (v != [] ==> v[0] != BOM) }

  lemma {:induction false} UnifyPlain(s: string)
    ensures '\r' !in Unify(s)
    ensures '\r' !in s ==> Unify(s) == s
    ensures s != [] ==> Unify(s) != [] && Unify(s)[0] == if s[0] == '\r' then '\n' else s[0]
    ensures s == [] ==> Unify(s) == []
    decreases |s|
  {
    if s != [] {
      if s[0] == '\r' {
        UnifyPlain(if |s| > 1 && s[1] == '\n' then s[2..] else s[1..]);
      } else {
        UnifyPlain(s[1..]);
        assert s == [s[0]] + s[1..];
      }
    }
  }

  lemma NormalizedIsFixed(v: string)
    ensures Normalized(v) ==> NormalizeSource(v) == v
    ensures '\r' !in NormalizeSource(v)
  {
    UnifyPlain(v);
    if v != [] { UnifyPlain(v[1..]); }
  }

  lemma EscapeLineIsOneLine(line: string)
    requires OneLine(line)
    ensures OneLine(EscapeLine(line))
  {
  }

  lemma EscapedLines(v: string)
    ensures Split(EscapeValue(v)) == Map(Split(NormalizeSource(v)), EscapeLine)
  {
    var lines := Split(NormalizeSource(v));
    JoinUndoesSplit(NormalizeSource(v));
    forall i | 0 <= i < |lines| ensures OneLine(Map(lines, EscapeLine)[i]) { EscapeLineIsOneLine(lines[i]); }
    SplitUndoesJoin(Map(lines, EscapeLine));
  }

  /** No line of an escaped value opens a heading, a fence or an HTML comment. */
  lemma EscapedValueOpensNothing(v: string, i: nat)
    requires i < |Split(EscapeValue(v))|
    ensures !OpeningLine(Split(EscapeValue(v))[i]) && !Opens(Split(EscapeValue(v))[i])
  {
    EscapeLineMeans(Split(EscapeValue(v))[i]);
    EscapedLines(v);
    EscapedLineOpensNothing(Split(NormalizeSource(v))[i]);
  }

  lemma {:induction false} JoinNoReturn(lines: seq<string>)
    requires forall i :: 0 <= i < |lines| ==> '\r' !in lines[i]
    ensures '\r' !in Join(lines)
  {
    if |lines| > 1 { JoinNoReturn(lines[1..]); }
  }

  lemma {:induction false} SplitNoReturn(s: string)
    requires '\r' !in s
    ensures forall i :: 0 <= i < |Split(s)| ==> '\r' !in Split(s)[i]
  {
    if s != [] { SplitNoReturn(s[1..]); }
  }

  lemma EscapeLineNoReturn(line: string)
    requires '\r' !in line
    ensures '\r' !in EscapeLine(line)
  {
  }

  lemma SplitFirst(s: string)
    ensures s != [] && s[0] != '\n' <==> Split(s)[0] != []
    ensures Split(s)[0] != [] ==> Split(s)[0][0] == s[0]
  {
  }

  /** Escaping yields normalized text, except that a second byte order mark is still in front. */
  lemma EscapedIsNormalized(v: string)
    ensures '\r' !in EscapeValue(v)
    ensures var n := NormalizeSource(v);
      EscapeValue(v) != [] && EscapeValue(v)[0] == BOM <==> n != [] && n[0] == BOM
  {
    var n := NormalizeSource(v);
    var lines := Split(n);
    NormalizedIsFixed(v);
    SplitNoReturn(n);
    forall i | 0 <= i < |lines| ensures '\r' !in Map(lines, EscapeLine)[i] { EscapeLineNoReturn(lines[i]); }
    JoinNoReturn(Map(lines, EscapeLine));
    EscapedLines(v);
    SplitFirst(n);
    SplitFirst(EscapeValue(v));
    FirstCharEscaped(lines[0]);
  }

  lemma FirstCharEscaped(line: string)
    ensures line == [] <==> EscapeLine(line) == []
    ensures line != [] ==> EscapeLine(line)[0] == line[0] || EscapeLine(line)[0] == '\\'
    ensures line != [] && line[0] == BOM ==> EscapeLine(line) == line
  {
    if line != [] && line[0] == BOM && Opens(line) { assert Indent(line) == 0 && line[0..] == line; MarkIsNoBom(line); }
  }

  lemma MarkStart(s: string)
    requires Mark(s)
    ensures s != [] && s[0] in "#`~<"
  {
  }

  lemma MarkIsNoBom(s: string)
    ensures s != [] && s[0] == BOM ==> !Mark(s)
  {
    if Mark(s) { MarkStart(s); }
  }

  predicate TwoMarks(v: string) { |v| >= 2 && v[0] == BOM && v[1] == BOM }

  /** Escaping twice is escaping once, unless the value starts with two byte order marks. */
  lemma EscapeIdempotentIff(v: string)
    ensures EscapeValue(EscapeValue(v)) == EscapeValue(v) <==> !TwoMarks(v)
  {
    var n, e := NormalizeSource(v), EscapeValue(v);
    EscapedIsNormalized(v);
    MarksInFront(v);
    if !TwoMarks(v) {
      NormalizedIsFixed(e);
      EscapedLines(v);
      var lines := Split(e);
      forall i | 0 <= i < |lines| ensures EscapeLine(lines[i]) == lines[i] { EscapedValueOpensNothing(v, i); }
      assert Map(lines, EscapeLine) == lines;
      JoinUndoesSplit(e);
    } else {
      forall i | 0 <= i < |Split(e)| ensures !Opens(Split(e)[i]) { EscapedValueOpensNothing(v, i); }
      ThirdMarkIsStripped(e);
    }
  }

  lemma MarksInFront(v: string)
    ensures TwoMarks(v) <==> NormalizeSource(v) != [] && NormalizeSource(v)[0] == BOM
  {
    UnifyPlain(v);
    if v != [] { UnifyPlain(v[1..]); }
  }

  /** A text whose front mark is stripped is not what it was, escaped or not. */
  lemma ThirdMarkIsStripped(e: string)
    requires e != [] && e[0] == BOM && '\r' !in e && forall i :: 0 <= i < |Split(e)| ==> !Opens(Split(e)[i])
    ensures EscapeValue(e) != e
  {
    UnifyPlain(e[1..]);
    EscapedIsNormalized(e);
    if EscapeValue(e) == e {
      assert NormalizeSource(e) == e[1..] && e[1..] != [] && e[1..][0] == BOM;
      UnchangedLines(e);
    }
  }

  lemma UnchangedLines(e: string)
    requires |e| >= 2 && e[0] == BOM && e[1] == BOM && '\r' !in e && forall i :: 0 <= i < |Split(e)| ==> !Opens(Split(e)[i])
    ensures EscapeValue(e) == e[1..]
  {
    UnifyPlain(e[1..]);
    var lines := Split(e[1..]);
    SplitFirst(e[1..]);
    assert Split(e)[1..] == lines[1..];
    hide Opens, EscapeLine, Split, Unify, Join;
    forall i | 0 <= i < |lines| ensures EscapeLine(lines[i]) == lines[i] {
      if i == 0 { FirstCharEscaped(lines[0]); } else { NotOpening(Split(e)[1..][i - 1]); }
    }
    assert Map(lines, EscapeLine) == lines;
    JoinUndoesSplit(e[1..]);
  }

  lemma NotOpening(line: string)
    ensures !Opens(line) ==> EscapeLine(line) == line
  {
  }

  // ---- the sentinel -----------------------------------------------------------------------------

  const NO_RESPONSE := "_No response_"

  function Slashes(n: nat): string { seq(n, _ => '\\') }

  function Sentinel(n: nat): string { Slashes(n) + NO_RESPONSE }

  /** The number of backslashes in front of the placeholder, when the value is nothing else. */
  function SentinelCount(v: string): (n: Option<nat>)
    ensures n.Some? <==> exists k: nat :: v == Sentinel(k)
    ensures n.Some? ==> v == Sentinel(n.value)
  {
    if |v| >= |NO_RESPONSE| && v == Sentinel(|v| - |NO_RESPONSE|) then Some(|v| - |NO_RESPONSE|) else None
  }

  function EncodeSentinel(v: string): string {
    match SentinelCount(v)
    case None => v
    case Some(n) => Sentinel(if n == 0 then 1 else 2 * n)
  }

  function DecodeSentinel(v: string): Option<string> {
    match SentinelCount(v)
    case Some(n) => if n == 1 then Some(NO_RESPONSE) else if n > 0 && n % 2 == 0 then Some(Sentinel(n / 2)) else None
    case None => None
  }

  lemma SentinelInjective(m: nat, n: nat)
    requires Sentinel(m) == Sentinel(n)
    ensures m == n
  {
    assert |Sentinel(m)| == m + |NO_RESPONSE| && |Sentinel(n)| == n + |NO_RESPONSE|;
  }

  lemma CountsItself(n: nat)
    ensures SentinelCount(Sentinel(n)) == Some(n)
  {
    SentinelInjective(n, SentinelCount(Sentinel(n)).value);
  }

  /** The encoding of a value is decoded back exactly when the value has the sentinel form. */
  lemma SentinelRoundTrip(v: string)
    ensures DecodeSentinel(EncodeSentinel(v)) == if SentinelCount(v).Some? then Some(v) else None
    ensures EncodeSentinel(v) != NO_RESPONSE
  {
    assert Sentinel(0) == NO_RESPONSE;
    CountsItself(0);
    match SentinelCount(v)
    case None =>
    case Some(n) =>
      var m := if n == 0 then 1 else 2 * n;
      CountsItself(m);
      assert |Sentinel(m)| > |NO_RESPONSE|;
  }

  /** Decoding answers exactly the encodings of sentinel forms. */
  lemma DecodesExactlySentinels(r: string, v: string)
    ensures DecodeSentinel(r) == Some(v) <==> r == EncodeSentinel(v) && exists k: nat :: v == Sentinel(k)
  {
    SentinelRoundTrip(v);
    var decoded := DecodeSentinel(r);
    if decoded == Some(v) {
      var n := SentinelCount(r).value;
      assert Sentinel(0) == NO_RESPONSE;
      CountsItself(if n == 1 then 0 else n / 2);
    }
  }

  lemma SentinelEncodingInjective(a: string, b: string)
    requires EncodeSentinel(a) == EncodeSentinel(b)
    ensures a == b
  {
    SentinelRoundTrip(a);
    SentinelRoundTrip(b);
  }

  // ---- a field from value to response and back -----------------------------------------------------

  function EncodeField(v: string): string { EscapeValue(EncodeSentinel(v)) }

  /** An empty response and the placeholder stand for no value at all. */
  function DecodeField(response: string): Option<string> {
    if response == [] || response == NO_RESPONSE then None
    else
      match DecodeSentinel(response)
      case Some(v) => Some(v)
      case None => Some(UnescapeValue(response))
  }

  /** Exactly the empty response and the placeholder are missing; a sentinel is decoded, and anything else unescaped. */
  lemma DecodedResponse(r: string)
    ensures DecodeField(r).None? <==> r == [] || r == "_No response_"
    ensures forall v :: r == EncodeSentinel(v) && (exists k: nat :: v == Sentinel(k)) ==> DecodeField(r) == Some(v)
    ensures r != [] && r != "_No response_" && (forall v :: DecodeSentinel(r) != Some(v)) ==> DecodeField(r) == Some(UnescapeValue(r))
  {
    hide EncodeSentinel, DecodeSentinel, UnescapeValue;
    forall v | r == EncodeSentinel(v) && exists k: nat :: v == Sentinel(k) ensures DecodeField(r) == Some(v) {
      DecodesExactlySentinels(r, v);
      SentinelRoundTrip(v);
      var k: nat :| v == Sentinel(k);
      EncodingIsNotEmpty(k);
    }
  }

  lemma EncodingIsNotEmpty(k: nat)
    ensures EncodeSentinel(Sentinel(k)) != []
  {
  }

  lemma SentinelCharacters(n: nat)
    ensures Sentinel(n) != [] && Sentinel(n)[0] in "\\_" && '\r' !in Sentinel(n) && OneLine(Sentinel(n))
  {
    assert forall i :: 0 <= i < |Sentinel(n)| ==> Sentinel(n)[i] == if i < n then '\\' else NO_RESPONSE[i - n];
  }

  lemma SentinelIsPlain(n: nat)
    ensures Normalized(Sentinel(n)) && Split(Sentinel(n)) == [Sentinel(n)] && EscapeValue(Sentinel(n)) == Sentinel(n)
  {
    hide Sentinel, Split, NormalizeSource, Opens;
    var s := Sentinel(n);
    SentinelCharacters(n);
    NormalizedIsFixed(s);
    SplitOneLine(s, [[]]);
    SentinelOpensNothing(s);
    assert Map([s], EscapeLine) == [s];
  }

  lemma SentinelOpensNothing(s: string)
    requires s != [] && s[0] in "\\_"
    ensures !Opens(s)
  {
    assert Indent(s) == 0 && s[0..] == s;
    if Mark(s) { MarkStart(s); }
  }

  /** Escaping never produces the sentinel form out of something else. */
  lemma EscapingMakesNoSentinel(v: string)
    requires Normalized(v) && SentinelCount(EscapeValue(v)).Some?
    ensures EscapeValue(v) == v
  {
    var n := SentinelCount(EscapeValue(v)).value;
    var lines := Split(v);
    NormalizedIsFixed(v);
    EscapedLines(v);
    SentinelIsPlain(n);
    assert |lines| == 1 && EscapeLine(lines[0]) == Sentinel(n);
    JoinUndoesSplit(v);
    if Opens(lines[0]) {
      EscapedShape(lines[0]);
      var at := Indent(lines[0]);
      assert Sentinel(n)[0] != ' ';
      assert at == 0;
      SentinelTail(n, lines[0]);
    }
  }

  lemma SentinelTail(n: nat, rest: string)
    requires Sentinel(n) == ['\\'] + rest
    ensures !Mark(rest[0..])
  {
    assert Sentinel(0)[0] == '_';
    assert n > 0;
    assert rest[0..] == rest && rest[0] == Sentinel(n)[1];
    assert Sentinel(n)[1] == if n == 1 then '_' else '\\';
    if Mark(rest) { MarkStart(rest); }
  }

  ghost predicate LooksEscaped(v: string) { exists i :: 0 <= i < |Split(v)| && EscapedLine(Split(v)[i]) }

  lemma UnescapeLineIsOneLine(line: string)
    requires OneLine(line)
    ensures OneLine(UnescapeLine(line))
  {
  }

  lemma UnescapeUndoesEscapeIff(v: string)
    requires Normalized(v)
    ensures UnescapeValue(EscapeValue(v)) == v <==> !LooksEscaped(v)
  {
    var lines, e := Split(v), EscapeValue(v);
    NormalizedIsFixed(v);
    EscapedIsNormalized(v);
    NormalizedIsFixed(e);
    EscapedLines(v);
    JoinUndoesSplit(v);
    var back := Map(Map(lines, EscapeLine), UnescapeLine);
    forall i | 0 <= i < |lines| ensures OneLine(back[i]) && (back[i] == lines[i] <==> !EscapedLine(lines[i])) {
      EscapeLineIsOneLine(lines[i]);
      UnescapeLineIsOneLine(EscapeLine(lines[i]));
      UnescapesExactly(lines[i]);
    }
    SplitUndoesJoin(back);
    assert UnescapeValue(e) == Join(back);
    if !LooksEscaped(v) { assert back == lines; }
  }

  /**
   A normalized, non-empty field value comes back exactly when it has the sentinel form, or no line
   of it already looks escaped.
   */
  lemma FieldRoundTripIff(v: string)
    requires Normalized(v) && v != []
    ensures DecodeField(EncodeField(v)) == Some(v) <==> SentinelCount(v).Some? || !LooksEscaped(v)
  {
    SentinelRoundTrip(v);
    match SentinelCount(v)
    case Some(n) =>
      SentinelIsPlain(if n == 0 then 1 else 2 * n);
    case None =>
      var e := EscapeValue(v);
      NormalizedIsFixed(v);
      EscapedNotEmpty(v);
      CountsItself(0);
      assert Sentinel(0) == NO_RESPONSE;
      if SentinelCount(e).Some? { EscapingMakesNoSentinel(v); }
      assert SentinelCount(e).None?;
      UnescapeUndoesEscapeIff(v);
  }

  lemma EscapedNotEmpty(v: string)
    requires Normalized(v) && v != []
    ensures EscapeValue(v) != []
  {
    NormalizedIsFixed(v);
    EscapedLines(v);
    if EscapeValue(v) == [] {
      FirstCharEscaped(Split(v)[0]);
      JoinUndoesSplit(v);
    }
  }

  /** A supplied value is never taken for a missing one. */
  lemma SuppliedIsNeverMissing(v: string)
    requires Normalized(v) && v != []
    ensures DecodeField(EncodeField(v)).Some?
  {
    SentinelRoundTrip(v);
    match SentinelCount(v)
    case Some(n) =>
      SentinelIsPlain(if n == 0 then 1 else 2 * n);
    case None =>
      EscapedNotEmpty(v);
      CountsItself(0);
      assert Sentinel(0) == NO_RESPONSE;
      if SentinelCount(EscapeValue(v)).Some? { EscapingMakesNoSentinel(v); }
  }
}
