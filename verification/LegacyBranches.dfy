/**
 The historical branch convention, written as a formatter rule, agrees with the fixed grammar: both sides derive
 and recognise the same branches.
 */
module LegacyBranches {
  import opened Wrappers
  import opened Change
  import Ordering
  import opened BranchFormat
  import opened BranchFormatTheorems
  import opened BranchNaming
  import Transition

  const LEGACY_TYPES := ["feat", "fix", "docs", "refactor", "test", "chore"]

  /** The format `{type}/{issueNumber}-{slug}`. */
  const LEGACY_FORMAT: string := "{" + TYPE + "}" + (['/'] + ("{" + NUMBER + "}" + (['-'] + ("{" + SLUG + "}"))))

  const LEGACY_RULE := Rule(LEGACY_FORMAT, Some(LEGACY_TYPES))

  const LEGACY_PIECES := [Hole(TYPE), Literal('/'), Hole(NUMBER), Literal('-'), Hole(SLUG)]

  lemma LegacyPieces()
    ensures Pieces(LEGACY_FORMAT) == LEGACY_PIECES
  {
    assert Pieces("") == [];
    hide Pieces;
    NamesHaveNoBrace();
    var last := "{" + SLUG + "}";
    assert last + "" == last;
    HolePiece(SLUG, "");
    var middle := "{" + NUMBER + "}" + (['-'] + last);
    LiteralPiece('-', last);
    HolePiece(NUMBER, ['-'] + last);
    LiteralPiece('/', middle);
    HolePiece(TYPE, ['/'] + middle);
  }

  lemma LegacyCount(name: string)
    ensures Count(LEGACY_PIECES, name) ==
      (if name == NUMBER then 1 else 0) + (if name == SLUG then 1 else 0) + (if name == TYPE then 1 else 0)
  {
    assert Count([], name) == 0;
    hide Count;
    var four := [Hole(SLUG)] + [];
    var three := [Literal('-')] + four;
    var two := [Hole(NUMBER)] + three;
    var one := [Literal('/')] + two;
    CountCons(Hole(SLUG), [], name);
    CountCons(Literal('-'), four, name);
    CountCons(Hole(NUMBER), three, name);
    CountCons(Literal('/'), two, name);
    CountCons(Hole(TYPE), one, name);
    assert LEGACY_PIECES == [Hole(TYPE)] + one;
  }

  lemma LegacyTypesAreWords()
    ensures ValidTypes(LEGACY_TYPES) && forall t :: t in LEGACY_TYPES <==> t in ORDINARY
  {
    assert LEGACY_TYPES[0][0] == 'f' && LEGACY_TYPES[0][1] == 'e' && LEGACY_TYPES[1][1] == 'i' && LEGACY_TYPES[2][0] == 'd'
           && LEGACY_TYPES[3][0] == 'r' && LEGACY_TYPES[4][0] == 't' && LEGACY_TYPES[5][0] == 'c' && LEGACY_TYPES[1][0] == 'f';
  }

  lemma LegacyRuleIsValid()
    ensures ValidRule(LEGACY_RULE) && HasHole(LEGACY_RULE, SLUG) && HasHole(LEGACY_RULE, TYPE)
  {
    hide Pieces, Count, ValidTypes;
    HoleNamesDiffer();
    LegacyPieces();
    LegacyCount(NUMBER);
    LegacyCount(SLUG);
    LegacyCount(TYPE);
    LegacyTypesAreWords();
  }

  lemma FillCons(p: Piece, rest: seq<Piece>, v: Values)
    ensures FillPieces([p] + rest, v) == (if p.Literal? then [p.c] else FillHole(p.name, v)) + FillPieces(rest, v)
  {
    assert ([p] + rest)[1..] == rest;
  }

  lemma LegacyFills(v: Values)
    ensures FillPieces(LEGACY_PIECES, v) == Spell(Parts(v.type_.GetOr(""), v.issueNumber, v.slug.GetOr("")))
  {
    assert FillPieces([], v) == [];
    hide FillPieces;
    HoleNamesDiffer();
    var four := [Hole(SLUG)] + [];
    var three := [Literal('-')] + four;
    var two := [Hole(NUMBER)] + three;
    var one := [Literal('/')] + two;
    FillCons(Hole(SLUG), [], v);
    FillCons(Literal('-'), four, v);
    FillCons(Hole(NUMBER), three, v);
    FillCons(Literal('/'), two, v);
    FillCons(Hole(TYPE), one, v);
    assert LEGACY_PIECES == [Hole(TYPE)] + one;
    SpelledOut(v.type_.GetOr(""), Decimal(v.issueNumber), v.slug.GetOr(""));
  }

  lemma SpelledOut(t: string, digits: string, slug: string)
    ensures t + (['/'] + (digits + (['-'] + (slug + [])))) == t + "/" + digits + "-" + slug
  {
  }

  lemma OrdinaryTypeShape(t: string)
    requires t in ORDINARY
    ensures 0 < |t| <= 8 && forall i :: 0 <= i < |t| ==> 'a' <= t[i] <= 'z'
  {
  }

  /** A canonical name is a safe Git branch name: a word, a slash, a number, a hyphen and a slug. */
  lemma CanonicalNamesAreSafe(p: Parts)
    requires p.type_ in ORDINARY && ValidNumber(p.issueNumber) && IsSlug(p.slug) && |p.slug| <= MAX_SLUG
    ensures ValidSpelling(Spell(p))
  {
    OrdinaryTypeShape(p.type_);
    Transition.SafeIntegerLength(p.issueNumber);
    SafeParts(p.type_, Decimal(p.issueNumber), p.slug);
  }

  lemma SafeParts(t: string, digits: string, slug: string)
    requires 0 < |t| <= 8 && (forall i :: 0 <= i < |t| ==> 'a' <= t[i] <= 'z')
    requires 0 < |digits| <= 16 && (forall i :: 0 <= i < |digits| ==> '0' <= digits[i] <= '9')
    requires IsSlug(slug) && |slug| <= MAX_SLUG
    ensures ValidSpelling(t + "/" + digits + "-" + slug)
  {
    var b := t + "/" + digits + "-" + slug;
    var cut := |t| + 1 + |digits|;
    assert b[|t|] == '/' && b[cut] == '-' && b[|b| - 1] == slug[|slug| - 1];
    assert forall i :: 0 <= i < |b| ==> LowerAlnum(b[i]) || b[i] == '-' || (b[i] == '/' && i == |t|);
    assert b[|t| + 1] == digits[0];
    assert |b| >= 5;
    assert b[|b| - 5..][0] == b[|b| - 5] && ".lock"[0] == '.';
  }

  /** Under the legacy rule the formatter derives exactly what the fixed grammar derives, as long as the slug is a formatter slug. */
  lemma LegacyRendersCanonicalNames(p: Parts)
    requires IsSlug(p.slug) && |p.slug| <= MAX_SLUG
    ensures RenderFormat(LEGACY_RULE, Values(p.issueNumber, Some(p.slug), Some(p.type_))) == DeriveBranchName(p)
  {
    hide Pieces, Count, IsSlug, FillPieces, ValidSpelling, Spell;
    LegacyRuleIsValid();
    LegacyPieces();
    LegacyTypesAreWords();
    LegacyFills(Values(p.issueNumber, Some(p.slug), Some(p.type_)));
    SlugsAreSlugText(p.slug);
    if p.type_ in ORDINARY && ValidNumber(p.issueNumber) { CanonicalNamesAreSafe(p); }
  }

  lemma SlugsAreSlugText(s: string)
    requires IsSlug(s)
    ensures SlugText(s)
  {
  }

  /** Every reading of a canonical name under the legacy rule is its own parts. */
  lemma LegacyReadingIsUnique(p: Parts, c: Captures)
    requires DeriveBranchName(p).Some? && Spells(LEGACY_RULE, DeriveBranchName(p).value, p.issueNumber, c)
    ensures c == Captures(Some(p.slug), Some(p.type_))
  {
    hide IsSlug, FillPieces, Dissect, SlugText;
    LegacyPieces();
    LegacyTypesAreWords();
    LegacyFills(Values(p.issueNumber, c.slug, c.type_));
    var q := Parts(c.type_.value, p.issueNumber, c.slug.value);
    SlugsAreSlugText(q.slug);
    RecognizeUndoesDerive(p);
    RecognizeUndoesDerive(q);
  }

  /** The formatter's matcher and the fixed grammar recognise the same thing: the legacy rule gives back a canonical name's parts. */
  lemma LegacyMatchesCanonicalNames(p: Parts)
    requires DeriveBranchName(p).Some? && IsSlug(p.slug) && |p.slug| <= MAX_SLUG
    ensures MatchFormat(LEGACY_RULE, DeriveBranchName(p).value, p.issueNumber) == Some(Captures(Some(p.slug), Some(p.type_)))
    ensures RecognizeBranchName(DeriveBranchName(p).value) == Some(p)
  {
    hide Pieces, Count, IsSlug, FillPieces, ValidSpelling, Spell, Exec, Compile, Spells, ValidRule, Reads;
    var v := Values(p.issueNumber, Some(p.slug), Some(p.type_));
    LegacyRendersCanonicalNames(p);
    LegacyRuleIsValid();
    var b := DeriveBranchName(p).value;
    RenderedIsAcceptedIff(LEGACY_RULE, v);
    MatcherShape(LEGACY_RULE, p.issueNumber);
    ExecSound(Matcher(LEGACY_RULE, p.issueNumber), b);
    ReadsIffSpells(LEGACY_RULE, b, p.issueNumber, Chosen(LEGACY_RULE, b, p.issueNumber).value);
    LegacyReadingIsUnique(p, Chosen(LEGACY_RULE, b, p.issueNumber).value);
    RecognizeUndoesDerive(p);
  }

  /** Conversely the matcher accepts nothing under the legacy rule but canonical names of that number. */
  lemma LegacyMatchIsCanonical(branch: string, n: nat)
    requires MatchFormat(LEGACY_RULE, branch, n).Some?
    ensures var c := MatchFormat(LEGACY_RULE, branch, n).value;
      && c.slug.Some? && c.type_.Some? && DeriveBranchName(Parts(c.type_.value, n, c.slug.value)) == Some(branch)
      && RecognizeBranchName(branch) == Some(Parts(c.type_.value, n, c.slug.value))
  {
    hide Pieces, Count, FillPieces, ValidSpelling, Spell, Exec, Compile, IsSlug;
    MatchIsSound(LEGACY_RULE, branch, n);
    LegacyRuleIsValid();
    var c := MatchFormat(LEGACY_RULE, branch, n).value;
    LegacyRendersCanonicalNames(Parts(c.type_.value, n, c.slug.value));
    RecognizeUndoesDerive(Parts(c.type_.value, n, c.slug.value));
  }
}
