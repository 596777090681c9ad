/**
 The bounded declarative branch formatter: literal text with `{issueNumber}`, `{slug}` and
 `{type}` holes, rendered into a branch name and recognised back by a matcher compiled from the same format.
 */
module BranchFormat {
  import opened Wrappers
  import opened Change
  import Ordering

  const MAX_FORMAT: nat := 200
  const MAX_TYPES: nat := 32
  const MAX_TYPE: nat := 32
  const MAX_SLUG: nat := 100
  const MAX_NAME: nat := 255

  // ---- character classes and words --------------------------------------------------------

  predicate LowerAlnum(c: char) { 'a' <= c <= 'z' || '0' <= c <= '9' }

  predicate NameChar(c: char) { 'A' <= c <= 'Z' || LowerAlnum(c) || c in "._/-" }

  /** Lower-case words joined by single hyphens. */
  predicate IsSlug(s: string) {
    && s != [] && (forall i :: 0 <= i < |s| ==> LowerAlnum(s[i]) || s[i] == '-')
    && s[0] != '-' && s[|s| - 1] != '-' && forall i :: 0 <= i < |s| - 1 ==> !(s[i] == '-' && s[i + 1] == '-')
  }

  predicate IsTypeWord(s: string) {
    && 0 < |s| <= MAX_TYPE && LowerAlnum(s[0]) && forall i :: 0 <= i < |s| ==> LowerAlnum(s[i]) || s[i] == '-'
  }

  predicate StartsWith(s: string, prefix: string) { |prefix| <= |s| && s[..|prefix|] == prefix }

  predicate EndsWith(s: string, suffix: string) { |suffix| <= |s| && s[|s| - |suffix|..] == suffix }

  /** Segments between slashes are non-empty and start with neither a dot nor a hyphen. */
  predicate SafeSegments(s: string) {
    && s != [] && s[0] !in "/.-" && s[|s| - 1] != '/'
    && forall i :: 0 <= i < |s| - 1 && s[i] == '/' ==> s[i + 1] !in "/.-"
  }

  predicate ValidSpelling(branch: string) {
    && 0 < |branch| <= MAX_NAME && (forall i :: 0 <= i < |branch| ==> NameChar(branch[i]))
    && (forall i :: 0 <= i < |branch| - 1 ==> !(branch[i] == '.' && branch[i + 1] == '.'))
    && !EndsWith(branch, ".lock") && branch[|branch| - 1] != '.' && SafeSegments(branch)
  }

  // ---- the format --------------------------------------------------------------------------------

  datatype Piece = Literal(c: char) | Hole(name: string)

  /** Where the next brace stands, when it closes. */
  function Close(s: string): (r: Option<nat>)
    ensures r.Some? ==> r.value < |s| && s[r.value] == '}'
  {
    if s == [] || s[0] == '{' then None
    else if s[0] == '}' then Some(0)
    else
      match Close(s[1..])
      case None => None
      case Some(k) => Some(k + 1)
  }

  /** A brace pair without braces inside is a hole; every other character stands for itself. */
  function Pieces(format: string): seq<Piece>
    decreases |format|
  {
    if format == [] then []
    else if format[0] == '{' && Close(format[1..]).Some? then
      var k := Close(format[1..]).value;
      [Hole(format[1..k + 1])] + Pieces(format[k + 2..])
    else [Literal(format[0])] + Pieces(format[1..])
  }

  const NUMBER := "issueNumber"
  const SLUG := "slug"
  const TYPE := "type"

  function Count(pieces: seq<Piece>, name: string): nat {
    if pieces == [] then 0 else (if pieces[0] == Hole(name) then 1 else 0) + Count(pieces[1..], name)
  }

  predicate Supported(p: Piece) { if p.Literal? then NameChar(p.c) else p.name in {NUMBER, SLUG, TYPE} }

  datatype Rule = Rule(format: string, types: Option<seq<string>>)

  predicate ValidTypes(types: seq<string>) {
    && 0 < |types| <= MAX_TYPES && (forall i :: 0 <= i < |types| ==> IsTypeWord(types[i]))
    && forall i, j :: 0 <= i < j < |types| ==> types[i] != types[j]
  }

  predicate ValidFormat(format: string) {
    var pieces := Pieces(format);
    && 0 < |format| <= MAX_FORMAT && (forall i :: 0 <= i < |pieces| ==> Supported(pieces[i]))
    && Count(pieces, NUMBER) == 1 && Count(pieces, SLUG) <= 1 && Count(pieces, TYPE) <= 1
  }

  /** What a policy may declare: a type hole and a closed type vocabulary come together. */
  predicate ValidRule(rule: Rule) {
    && ValidFormat(rule.format) && (rule.types.Some? <==> Count(Pieces(rule.format), TYPE) == 1)
    && (rule.types.Some? ==> ValidTypes(rule.types.value))
  }

  datatype Violation =
    | BadLength | BadLiteral | UnsupportedHole(name: string) | RepeatedHole(name: string) | NumberMissing
    | TypesMissing | TypesUnused | BadTypeCount | BadTypeWord

  /** Type words are checked in order until the first that is malformed or was seen before. */
  method CheckTypes(types: seq<string>) returns (violations: seq<Violation>)
    ensures violations == [] <==> ValidTypes(types)
  {
    if types == [] || |types| > MAX_TYPES { return [BadTypeCount]; }
    var seen: set<string> := {};
    for i := 0 to |types|
      invariant forall k :: 0 <= k < i ==> IsTypeWord(types[k])
      invariant forall j, k :: 0 <= j < k < i ==> types[j] != types[k]
      invariant forall w :: w in seen <==> w in types[..i]
    {
      if !IsTypeWord(types[i]) || types[i] in seen {
        if types[i] in seen {
          var j :| 0 <= j < i && types[j] == types[i];
          assert types[j] == types[i];
        }
        return [BadTypeWord];
      }
      assert forall k :: 0 <= k < i ==> types[k] in types[..i];
      seen := seen + {types[i]};
    }
    return [];
  }

  method CheckFormat(format: string) returns (violations: seq<Violation>)
    ensures violations == [] <==> ValidFormat(format)
  {
    if format == [] || |format| > MAX_FORMAT { return [BadLength]; }
    var pieces := Pieces(format);
    violations := [];
    for i := 0 to |pieces|
      invariant violations == [] <==> forall k :: 0 <= k < i ==> Supported(pieces[k])
    {
      if !Supported(pieces[i]) {
        violations := violations + [if pieces[i].Literal? then BadLiteral else UnsupportedHole(pieces[i].name)];
      }
    }
    if Count(pieces, NUMBER) > 1 { violations := violations + [RepeatedHole(NUMBER)]; }
    if Count(pieces, SLUG) > 1 { violations := violations + [RepeatedHole(SLUG)]; }
    if Count(pieces, TYPE) > 1 { violations := violations + [RepeatedHole(TYPE)]; }
    if Count(pieces, NUMBER) == 0 { violations := violations + [NumberMissing]; }
  }

  /** Every violation is collected; there is none exactly when the rule is valid. */
  method ValidateRule(rule: Rule) returns (violations: seq<Violation>)
    ensures violations == [] <==> ValidRule(rule)
  {
    violations := CheckFormat(rule.format);
    if violations == [BadLength] { return; }
    var usesType := Count(Pieces(rule.format), TYPE) > 0;
    if rule.types.None? {
      if usesType { violations := violations + [TypesMissing]; }
      return;
    }
    if !usesType { violations := violations + [TypesUnused]; }
    var bad := CheckTypes(rule.types.value);
    violations := violations + bad;
  }

  // ---- rendering ----------------------------------------------------------------------------------

  datatype Values = Values(issueNumber: nat, slug: Option<string>, type_: Option<string>)

  function FillHole(name: string, v: Values): string {
    if name == NUMBER then Decimal(v.issueNumber) else if name == SLUG then v.slug.GetOr("") else v.type_.GetOr("")
  }

  function FillPieces(pieces: seq<Piece>, v: Values): string {
    if pieces == [] then []
    else (if pieces[0].Literal? then [pieces[0].c] else FillHole(pieces[0].name, v)) + FillPieces(pieces[1..], v)
  }

  predicate HasHole(rule: Rule, name: string) { Count(Pieces(rule.format), name) > 0 }

  predicate ValidValues(rule: Rule, v: Values) {
    && ValidNumber(v.issueNumber)
    && (HasHole(rule, SLUG) ==> v.slug.Some? && |v.slug.value| <= MAX_SLUG && IsSlug(v.slug.value))
    && (HasHole(rule, TYPE) ==> v.type_.Some? && v.type_.value in rule.types.GetOr([]))
  }

  /** `None` where the source throws. */
  function RenderFormat(rule: Rule, v: Values): Option<string> {
    if ValidRule(rule) && ValidValues(rule, v) && ValidSpelling(FillPieces(Pieces(rule.format), v))
    then Some(FillPieces(Pieces(rule.format), v))
    else None
  }

  // ---- matching -------------------------------------------------------------------------------------

  /** One part of the compiled matcher. */
  datatype Atom = Fixed(text: string) | AnySlug | OneOf(words: seq<string>)

  datatype Captures = Captures(slug: Option<string>, type_: Option<string>)

  function CompilePiece(p: Piece, types: seq<string>, n: nat): Atom {
    if p.Literal? then Fixed([p.c])
    else if p.name == NUMBER then Fixed(Decimal(n))
    else if p.name == SLUG then AnySlug
    else OneOf(types)
  }

  function Compile(pieces: seq<Piece>, types: seq<string>, n: nat): seq<Atom> {
    Ordering.Map(pieces, (p: Piece) => CompilePiece(p, types, n))
  }

  /** The matcher as a regular expression runs it: greedy slugs, words in order, first success wins. */
  function Exec(atoms: seq<Atom>, s: string): Option<Captures>
    decreases |atoms|, 1, 0
  {
    if atoms == [] then if s == [] then Some(Captures(None, None)) else None
    else
      match atoms[0]
      case Fixed(text) => if StartsWith(s, text) then Exec(atoms[1..], s[|text|..]) else None
      case AnySlug => TrySlug(atoms, s, |s|)
      case OneOf(words) => TryWords(atoms, words, s)
  }

  /** The longest slug in front of which the rest still matches; lengths are tried downwards. */
  function TrySlug(atoms: seq<Atom>, s: string, k: nat): Option<Captures>
    requires atoms != [] && k <= |s|
    decreases |atoms|, 0, k
  {
    if k == 0 then None
    else if IsSlug(s[..k]) && Exec(atoms[1..], s[k..]).Some?
    then Some(Exec(atoms[1..], s[k..]).value.(slug := Some(s[..k])))
    else TrySlug(atoms, s, k - 1)
  }

  function TryWords(atoms: seq<Atom>, words: seq<string>, s: string): Option<Captures>
    requires atoms != []
    decreases |atoms|, 0, |words|
  {
    if words == [] then None
    else if StartsWith(s, words[0]) && Exec(atoms[1..], s[|words[0]|..]).Some?
    then Some(Exec(atoms[1..], s[|words[0]|..]).value.(type_ := Some(words[0])))
    else TryWords(atoms, words[1..], s)
  }

  function Chosen(rule: Rule, branch: string, n: nat): Option<Captures> {
    Exec(Compile(Pieces(rule.format), rule.types.GetOr([]), n), branch)
  }

  predicate WithinSlugBound(c: Captures) { c.slug.Some? ==> |c.slug.value| <= MAX_SLUG }

  function MatchFormat(rule: Rule, branch: string, n: nat): Option<Captures> {
    if !ValidRule(rule) || !ValidNumber(n) || !ValidSpelling(branch) then None
    else if Chosen(rule, branch, n).Some? && WithinSlugBound(Chosen(rule, branch, n).value) then Chosen(rule, branch, n)
    else None
  }

  function Closing(format: string): (r: Option<nat>)
    ensures r.Some? ==> r.value + 2 <= |format|
  {
    if format != [] && format[0] == '{' then Close(format[1..]) else None
  }

  function HoleAtom(name: string, types: seq<string>, n: nat): Atom {
    if name == NUMBER then Fixed(Decimal(n)) else if name == SLUG then AnySlug else OneOf(types)
  }

  lemma CompileCons(p: Piece, rest: seq<Piece>, types: seq<string>, n: nat)
    ensures Compile([p] + rest, types, n) == [CompilePiece(p, types, n)] + Compile(rest, types, n)
  {
  }

  lemma CompileStep(format: string, types: seq<string>, n: nat)
    requires format != []
    ensures Compile(Pieces(format), types, n) ==
      match Closing(format)
      case Some(k) => [HoleAtom(format[1..k + 1], types, n)] + Compile(Pieces(format[k + 2..]), types, n)
      case None => [Fixed([format[0]])] + Compile(Pieces(format[1..]), types, n)
  {
    match Closing(format)
    case Some(k) => CompileCons(Hole(format[1..k + 1]), Pieces(format[k + 2..]), types, n);
    case None => CompileCons(Literal(format[0]), Pieces(format[1..]), types, n);
  }

  lemma AppendAtom(source: seq<Atom>, a: Atom, rest: seq<Atom>)
    ensures source + ([a] + rest) == source + [a] + rest
  {
  }

  /** The matcher source is assembled token by token behind a moving cursor. */
  method CompileFormat(format: string, types: seq<string>, n: nat) returns (source: seq<Atom>)
    ensures source == Compile(Pieces(format), types, n)
  {
    source := [];
    var cursor := 0;
    assert format[0..] == format;
    while cursor < |format|
      invariant cursor <= |format|
      invariant Compile(Pieces(format), types, n) == source + Compile(Pieces(format[cursor..]), types, n)
    {
      hide Pieces, Compile, Closing, HoleAtom;
      var rest := format[cursor..];
      CompileStep(rest, types, n);
      var closing := Closing(rest);
      if closing.Some? {
        AppendAtom(source, HoleAtom(rest[1..closing.value + 1], types, n), Compile(Pieces(rest[closing.value + 2..]), types, n));
        source := source + [HoleAtom(rest[1..closing.value + 1], types, n)];
        cursor := cursor + closing.value + 2;
        assert format[cursor..] == rest[closing.value + 2..];
      } else {
        AppendAtom(source, Fixed([rest[0]]), Compile(Pieces(rest[1..]), types, n));
        source := source + [Fixed([rest[0]])];
        cursor := cursor + 1;
        assert format[cursor..] == rest[1..];
      }
    }
    assert Pieces(format[cursor..]) == [];
  }

  method MatchBranchFormat(rule: Rule, branch: string, n: nat) returns (r: Option<Captures>)
    ensures r == MatchFormat(rule, branch, n)
  {
    var violations := ValidateRule(rule);
    if violations != [] || !ValidNumber(n) || !ValidSpelling(branch) { return None; }
    var source := CompileFormat(rule.format, rule.types.GetOr([]), n);
    var found := Exec(source, branch);
    if found.None? { return None; }
    if found.value.slug.Some? && |found.value.slug.value| > MAX_SLUG { return None; }
    return found;
  }
}
