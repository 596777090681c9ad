/** Branch names, slugs and format rules said without the scans that check them. */
module BranchRules {
  import opened Characters
  import opened Wrappers
  import opened Change
  import opened BranchFormat
  import BranchNaming

  // ---- slugs and words --------------------------------------------------------------------------

  /** The slugs of the formatter are exactly the texts that normalization leaves alone. */
  lemma SlugsAreFixedPoints(s: string)
    requires 0 < |s| <= 255
    ensures IsSlug(s) <==> BranchNaming.NormalizeSlug(s) == Some(s)
  {
    hide IsSlug;
    if IsSlug(s) { BranchNaming.SlugIsFixed(s); }
    if BranchNaming.NormalizeSlug(s) == Some(s) { BranchNaming.NormalizedSlugIsSlug(s); }
  }

  const WORD_CHARS: set<char> := LOWER + DIGITS

  lemma InWordChars(c: char)
    ensures LowerAlnum(c) <==> c in WORD_CHARS
  {
    hide LOWER, DIGITS;
    InLower(c);
    InDigits(c);
  }

  /** A letter or digit, and then letters, digits and hyphens. */
  predicate TypeWord(s: string) {
    1 <= |s| <= 32 && s[0] in WORD_CHARS && forall i :: 0 <= i < |s| ==> s[i] in WORD_CHARS + {'-'}
  }

  lemma TypeWordIff(s: string)
    ensures IsTypeWord(s) <==> TypeWord(s)
  {
    forall c: char ensures LowerAlnum(c) <==> c in WORD_CHARS { InWordChars(c); }
    hide WORD_CHARS, LowerAlnum;
  }

  // ---- branch names ---------------------------------------------------------------------------------

  const NAME_CHARS: set<char> := UPPER + WORD_CHARS + {'.', '_', '/', '-'}

  lemma InNameChars(c: char)
    ensures NameChar(c) <==> c in NAME_CHARS
  {
    hide UPPER, WORD_CHARS, LowerAlnum;
    InUpper(c);
    InWordChars(c);
    var others := "._/-";
    assert others[0] == '.' && others[1] == '_' && others[2] == '/' && others[3] == '-';
  }

  predicate SegmentStart(s: string) { s != [] && s[0] != '/' && s[0] != '.' && s[0] != '-' }

  /**
   A branch name: of name characters, at most 255 of them; wherever a slash splits it, both sides are there and the right one starts a
   segment; no two dots in a row, and neither a dot nor `.lock` at the end.
   */
  ghost predicate SafeName(s: string) {
    && |s| <= 255 && (forall i :: 0 <= i < |s| ==> s[i] in NAME_CHARS) && SegmentStart(s)
    && (forall a, b: string :: s == a + "/" + b ==> SegmentStart(b))
    && (forall a, b: string :: s != a + ".." + b) && (forall a: string :: s != a + "." && s != a + ".lock")
  }

  lemma SlashesSplit(s: string)
    requires SegmentStart(s)
    ensures SafeSegments(s) <==> forall a, b: string :: s == a + "/" + b ==> SegmentStart(b)
  {
    if forall a, b: string :: s == a + "/" + b ==> SegmentStart(b) {
      forall i | 0 <= i < |s| && s[i] == '/' ensures i < |s| - 1 && s[i + 1] !in "/.-" {
        assert s == s[..i] + "/" + s[i + 1..];
        assert SegmentStart(s[i + 1..]);
      }
    }
    if SafeSegments(s) {
      forall a, b: string | s == a + "/" + b ensures SegmentStart(b) {
        assert s[|a|] == '/';
        assert |a| < |s| - 1 && b[0] == s[|a| + 1] && s[|a| + 1] !in "/.-";
        StartChars(b[0]);
      }
    }
  }

  lemma StartChars(c: char)
    ensures c !in "/.-" <==> c != '/' && c != '.' && c != '-'
  {
    var marks := "/.-";
    assert marks[0] == '/' && marks[1] == '.' && marks[2] == '-';
  }

  lemma DotsSplit(s: string)
    ensures (forall i :: 0 <= i < |s| - 1 ==> !(s[i] == '.' && s[i + 1] == '.')) <==> forall a, b: string :: s != a + ".." + b
  {
    if i :| 0 <= i < |s| - 1 && s[i] == '.' && s[i + 1] == '.' { assert s == s[..i] + ".." + s[i + 2..]; }
    if a, b: string :| s == a + ".." + b { assert s[|a|] == '.' && s[|a| + 1] == '.'; }
  }

  lemma EndsMean(s: string, suffix: string)
    ensures EndsWith(s, suffix) <==> exists a: string :: s == a + suffix
  {
    if EndsWith(s, suffix) { assert s == s[..|s| - |suffix|] + suffix; }
  }

  lemma SafeNameIff(s: string)
    ensures ValidSpelling(s) <==> SafeName(s)
  {
    hide NAME_CHARS, NameChar, SafeSegments, EndsWith;
    NameCharsIff(s);
    if s != [] {
      StartChars(s[0]);
      FirstSegment(s);
      if SegmentStart(s) { SlashesSplit(s); }
      DotsSplit(s);
      EndsMean(s, ".lock");
      EndsInDot(s);
    }
  }

  lemma NameCharsIff(s: string)
    ensures (forall i :: 0 <= i < |s| ==> NameChar(s[i])) <==> forall i :: 0 <= i < |s| ==> s[i] in NAME_CHARS
  {
    hide NAME_CHARS, NameChar;
    forall i | 0 <= i < |s| ensures NameChar(s[i]) <==> s[i] in NAME_CHARS { InNameChars(s[i]); }
  }

  lemma EndsInDot(s: string)
    requires s != []
    ensures s[|s| - 1] == '.' <==> exists a: string :: s == a + "."
  {
    if s[|s| - 1] == '.' { assert s == s[..|s| - 1] + "."; }
  }

  lemma FirstSegment(s: string)
    ensures SafeSegments(s) ==> s != [] && s[0] !in "/.-"
  {
  }

  // ---- formats -------------------------------------------------------------------------------------------

  function SpellPieces(pieces: seq<Piece>): string {
    if pieces == [] then [] else (match pieces[0] case Literal(c) => [c] case Hole(name) => "{" + name + "}") + SpellPieces(pieces[1..])
  }

  lemma {:induction false} CloseBehind(name: string, rest: string)
    requires '{' !in name && '}' !in name
    ensures Close(name + "}" + rest) == Some(|name|)
  {
    var s := name + "}" + rest;
    if name != [] {
      assert s[1..] == name[1..] + "}" + rest;
      CloseBehind(name[1..], rest);
    }
  }

  lemma HoleNames(name: string)
    ensures name in {NUMBER, SLUG, TYPE} ==> '{' !in name && '}' !in name
  {
  }

  lemma NoBraces(c: char)
    ensures NameChar(c) ==> c != '{' && c != '}'
  {
  }

  /** Supported pieces are read back from what they spell. */
  lemma {:induction false} SpelledPiecesRead(pieces: seq<Piece>)
    requires forall i :: 0 <= i < |pieces| ==> Supported(pieces[i])
    ensures Pieces(SpellPieces(pieces)) == pieces
  {
    if pieces != [] {
      var rest, s := SpellPieces(pieces[1..]), SpellPieces(pieces);
      SpelledPiecesRead(pieces[1..]);
      assert pieces == [pieces[0]] + pieces[1..];
      assert Supported(pieces[0]);
      match pieces[0]
      case Literal(c) =>
        NoBraces(c);
        assert s[0] == c && s[1..] == rest;
      case Hole(name) =>
        HoleNames(name);
        CloseBehind(name, rest);
        assert s[0] == '{' && s[1..] == name + "}" + rest && s[1..|name| + 1] == name && s[|name| + 2..] == rest;
    }
  }

  lemma SpellFirst(p: Piece, rest: seq<Piece>)
    ensures SpellPieces([p] + rest) == (match p case Literal(c) => [c] case Hole(name) => "{" + name + "}") + SpellPieces(rest)
  {
    assert ([p] + rest)[1..] == rest;
  }

  lemma PiecesStep(format: string)
    requires format != []
    ensures Pieces(format) ==
      match Closing(format)
      case Some(k) => [Hole(format[1..k + 1])] + Pieces(format[k + 2..])
      case None => [Literal(format[0])] + Pieces(format[1..])
  {
  }

  lemma HoleStands(format: string)
    requires Closing(format).Some?
    ensures var k := Closing(format).value; format == "{" + format[1..k + 1] + "}" + format[k + 2..]
  {
    var k := Closing(format).value;
    assert format[0] == '{' && format[1..][k] == '}';
    hide Closing, Close;
    assert format[k + 1] == '}';
  }

  lemma {:induction false} PiecesSpell(format: string)
    ensures SpellPieces(Pieces(format)) == format
    decreases |format|
  {
    if format != [] {
      PiecesStep(format);
      hide Pieces, SpellPieces, Closing;
      match Closing(format)
      case Some(k) =>
        PiecesSpell(format[k + 2..]);
        HoleStands(format);
        SpellFirst(Hole(format[1..k + 1]), Pieces(format[k + 2..]));
      case None =>
        PiecesSpell(format[1..]);
        SpellFirst(Literal(format[0]), Pieces(format[1..]));
        assert format == [format[0]] + format[1..];
    }
  }

  lemma {:induction false} CountIs(pieces: seq<Piece>, name: string)
    ensures Count(pieces, name) == multiset(pieces)[Hole(name)]
  {
    if pieces != [] {
      CountIs(pieces[1..], name);
      assert pieces == [pieces[0]] + pieces[1..];
    }
  }

  /** A literal name character, or one of the three holes. */
  predicate Building(p: Piece) {
    match p
    case Literal(c) => c in NAME_CHARS
    case Hole(name) => name == "issueNumber" || name == "slug" || name == "type"
  }

  lemma BuildingIff(p: Piece)
    ensures Supported(p) <==> Building(p)
  {
    hide NAME_CHARS, NameChar;
    if p.Literal? { InNameChars(p.c); }
  }

  /** What a format is put together from: literals and holes, the number once, slug and type at most once. */
  ghost predicate BuiltFrom(format: string, pieces: seq<Piece>) {
    && format == SpellPieces(pieces) && (forall i :: 0 <= i < |pieces| ==> Building(pieces[i]))
    && multiset(pieces)[Hole("issueNumber")] == 1 && multiset(pieces)[Hole("slug")] <= 1 && multiset(pieces)[Hole("type")] <= 1
  }

  /** The rule declares one to 32 different type words exactly when its format has the type hole. */
  ghost predicate TypesFit(types: Option<seq<string>>, holes: nat) {
    && (types.Some? <==> holes == 1)
    && (types.Some? ==>
          && 1 <= |types.value| <= 32 && (forall i :: 0 <= i < |types.value| ==> TypeWord(types.value[i]))
          && (forall w :: w in types.value ==> multiset(types.value)[w] == 1))
  }

  lemma DistinctIff(words: seq<string>)
    ensures (forall i, j :: 0 <= i < j < |words| ==> words[i] != words[j]) <==> forall w :: w in words ==> multiset(words)[w] == 1
  {
    if forall i, j :: 0 <= i < j < |words| ==> words[i] != words[j] {
      forall w | w in words ensures multiset(words)[w] == 1 {
        var i :| 0 <= i < |words| && words[i] == w;
        OnceAt(words, i);
      }
    }
    if i, j :| 0 <= i < j < |words| && words[i] == words[j] {
      assert words == words[..j] + [words[j]] + words[j + 1..];
      assert words[..j][i] == words[j] && multiset(words[..j])[words[j]] >= 1;
      assert words[i] in words && multiset(words)[words[i]] >= 2;
    }
  }

  lemma OnceAt(words: seq<string>, i: nat)
    requires i < |words| && forall j :: 0 <= j < |words| && j != i ==> words[j] != words[i]
    ensures multiset(words)[words[i]] == 1
  {
    var a, b := words[..i], words[i + 1..];
    assert words == a + [words[i]] + b;
    assert words[i] !in a && words[i] !in b;
    assert multiset(a)[words[i]] == 0 && multiset(b)[words[i]] == 0;
  }

  lemma TypesFitIff(types: seq<string>)
    ensures ValidTypes(types) <==>
      && 1 <= |types| <= 32 && (forall i :: 0 <= i < |types| ==> TypeWord(types[i]))
      && (forall w :: w in types ==> multiset(types)[w] == 1)
  {
    hide TypeWord, IsTypeWord;
    forall i | 0 <= i < |types| ensures IsTypeWord(types[i]) <==> TypeWord(types[i]) { TypeWordIff(types[i]); }
    DistinctIff(types);
  }

  /** A rule is valid exactly when its format, of at most 200 characters, can be put together from pieces, and its types fit. */
  lemma RuleIff(rule: Rule)
    ensures ValidRule(rule) <==>
      1 <= |rule.format| <= 200 &&
      exists pieces :: BuiltFrom(rule.format, pieces) && TypesFit(rule.types, multiset(pieces)[Hole("type")])
  {
    var read := Pieces(rule.format);
    PiecesSpell(rule.format);
    CountIs(read, NUMBER);
    CountIs(read, SLUG);
    CountIs(read, TYPE);
    if rule.types.Some? { TypesFitIff(rule.types.value); }
    forall p ensures Supported(p) <==> Building(p) { BuildingIff(p); }
    hide Supported, Building, ValidTypes, TypeWord, Pieces, Count;
    if ValidRule(rule) { assert BuiltFrom(rule.format, read) && TypesFit(rule.types, multiset(read)[Hole("type")]); }
    forall pieces | BuiltFrom(rule.format, pieces) ensures pieces == read { SpelledPiecesRead(pieces); }
  }
}
