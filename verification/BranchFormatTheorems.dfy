/** Rendering and matching are two directions of one format. */
module BranchFormatTheorems {
  import opened Wrappers
  import opened Change
  import Ordering
  import opened BranchFormat

  // ---- what the compiled matcher means -------------------------------------------------------

  function FillAtom(a: Atom, c: Captures): string {
    match a
    case Fixed(text) => text
    case AnySlug => c.slug.GetOr("")
    case OneOf(_) => c.type_.GetOr("")
  }

  /** The text the captures stand for. */
  function Fill(atoms: seq<Atom>, c: Captures): string {
    if atoms == [] then [] else FillAtom(atoms[0], c) + Fill(atoms[1..], c)
  }

  function Slugs(atoms: seq<Atom>): nat {
    if atoms == [] then 0 else (if atoms[0].AnySlug? then 1 else 0) + Slugs(atoms[1..])
  }

  function Choices(atoms: seq<Atom>): nat {
    if atoms == [] then 0 else (if atoms[0].OneOf? then 1 else 0) + Choices(atoms[1..])
  }

  predicate FitsAtom(a: Atom, c: Captures) {
    match a
    case Fixed(_) => true
    case AnySlug => c.slug.Some? && IsSlug(c.slug.value)
    case OneOf(words) => c.type_.Some? && c.type_.value in words
  }

  /** Captures are admissible for every atom, and there are none that no atom asks for. */
  predicate Fits(atoms: seq<Atom>, c: Captures) { forall i :: 0 <= i < |atoms| ==> FitsAtom(atoms[i], c) }

  predicate Tight(atoms: seq<Atom>, c: Captures) {
    (c.slug.Some? <==> Slugs(atoms) > 0) && (c.type_.Some? <==> Choices(atoms) > 0)
  }

  lemma {:induction false} UnaskedIsUnused(atoms: seq<Atom>, c: Captures, d: Captures)
    requires Slugs(atoms) > 0 ==> c.slug == d.slug
    requires Choices(atoms) > 0 ==> c.type_ == d.type_
    ensures Fill(atoms, c) == Fill(atoms, d) && (Fits(atoms, c) ==> Fits(atoms, d))
  {
    if atoms != [] {
      UnaskedIsUnused(atoms[1..], c, d);
      if Fits(atoms, c) {
        forall i | 0 <= i < |atoms[1..]| ensures FitsAtom(atoms[1..][i], c) { assert atoms[1..][i] == atoms[i + 1]; }
        forall i | 0 <= i < |atoms| ensures FitsAtom(atoms[i], d) {
          assert FitsAtom(atoms[i], c);
          if i > 0 { assert atoms[i] == atoms[1..][i - 1]; }
        }
      }
    }
  }

  ghost predicate Reads(atoms: seq<Atom>, c: Captures, s: string) { Fits(atoms, c) && Tight(atoms, c) && s == Fill(atoms, c) }

  lemma FitsCons(atoms: seq<Atom>, c: Captures)
    requires atoms != []
    ensures Fits(atoms, c) <==> FitsAtom(atoms[0], c) && Fits(atoms[1..], c)
  {
    assert forall i :: 0 <= i < |atoms| - 1 ==> atoms[1..][i] == atoms[i + 1];
    if FitsAtom(atoms[0], c) && Fits(atoms[1..], c) {
      forall i | 0 <= i < |atoms| ensures FitsAtom(atoms[i], c) { if i > 0 { assert atoms[i] == atoms[1..][i - 1]; } }
    }
  }

  /** One more capture in front of a reading of the rest. */
  lemma ReadsCons(atoms: seq<Atom>, c: Captures, d: Captures, head: string, tail: string)
    requires atoms != [] && Slugs(atoms) <= 1 && Choices(atoms) <= 1 && Reads(atoms[1..], d, tail)
    requires FitsAtom(atoms[0], c) && head == FillAtom(atoms[0], c)
    requires c == match atoms[0] case Fixed(_) => d case AnySlug => d.(slug := Some(head)) case OneOf(_) => d.(type_ := Some(head))
    ensures Reads(atoms, c, head + tail)
  {
    UnaskedIsUnused(atoms[1..], d, c);
    FitsCons(atoms, c);
  }

  /** Whatever the matcher captures spells the text it was given. */
  lemma {:induction false} ExecSound(atoms: seq<Atom>, s: string)
    requires Slugs(atoms) <= 1 && Choices(atoms) <= 1 && Exec(atoms, s).Some?
    ensures Reads(atoms, Exec(atoms, s).value, s)
    decreases |atoms|, 1, 0
  {
    hide IsSlug;
    if atoms != [] {
      match atoms[0]
      case Fixed(text) =>
        ExecSound(atoms[1..], s[|text|..]);
        ReadsCons(atoms, Exec(atoms, s).value, Exec(atoms, s).value, text, s[|text|..]);
        assert s == text + s[|text|..];
      case AnySlug => TrySlugSound(atoms, s, |s|);
      case OneOf(words) => TryWordsSound(atoms, words, s);
    }
  }

  lemma {:induction false} TrySlugSound(atoms: seq<Atom>, s: string, k: nat)
    requires atoms != [] && atoms[0].AnySlug? && Slugs(atoms) <= 1 && Choices(atoms) <= 1 && k <= |s|
    requires TrySlug(atoms, s, k).Some?
    ensures Reads(atoms, TrySlug(atoms, s, k).value, s)
    decreases |atoms|, 0, k
  {
    hide IsSlug, Reads;
    if IsSlug(s[..k]) && Exec(atoms[1..], s[k..]).Some? {
      ExecSound(atoms[1..], s[k..]);
      ReadsCons(atoms, TrySlug(atoms, s, k).value, Exec(atoms[1..], s[k..]).value, s[..k], s[k..]);
      assert s == s[..k] + s[k..];
    } else {
      TrySlugSound(atoms, s, k - 1);
    }
  }

  lemma {:induction false} TryWordsSound(atoms: seq<Atom>, words: seq<string>, s: string)
    requires atoms != [] && atoms[0].OneOf? && Slugs(atoms) <= 1 && Choices(atoms) <= 1
    requires forall i :: 0 <= i < |words| ==> words[i] in atoms[0].words
    requires TryWords(atoms, words, s).Some?
    ensures Reads(atoms, TryWords(atoms, words, s).value, s)
    decreases |atoms|, 0, |words|
  {
    hide IsSlug, Reads;
    var w := words[0];
    if StartsWith(s, w) && Exec(atoms[1..], s[|w|..]).Some? {
      ExecSound(atoms[1..], s[|w|..]);
      ReadsCons(atoms, TryWords(atoms, words, s).value, Exec(atoms[1..], s[|w|..]).value, w, s[|w|..]);
      assert s == w + s[|w|..];
    } else {
      TryWordsSound(atoms, words[1..], s);
    }
  }

  /** The matcher misses nothing: every spelling of admissible captures is accepted. */
  lemma {:induction false} ExecComplete(atoms: seq<Atom>, c: Captures)
    requires Fits(atoms, c)
    ensures Exec(atoms, Fill(atoms, c)).Some?
    decreases |atoms|
  {
    hide IsSlug;
    if atoms != [] {
      var head, rest, s := FillAtom(atoms[0], c), Fill(atoms[1..], c), Fill(atoms, c);
      FitsCons(atoms, c);
      ExecComplete(atoms[1..], c);
      assert s[|head|..] == rest && s[..|head|] == head;
      match atoms[0]
      case Fixed(_) =>
      case AnySlug =>
        SlugIsNotEmpty(head);
        TrySlugFinds(atoms, s, |s|, |head|);
      case OneOf(words) =>
        var i :| 0 <= i < |words| && words[i] == head;
        TryWordsFinds(atoms, words, s, i);
    }
  }

  lemma SlugIsNotEmpty(s: string)
    requires IsSlug(s)
    ensures s != []
  {
  }

  lemma {:induction false} TrySlugFinds(atoms: seq<Atom>, s: string, k: nat, at: nat)
    requires atoms != [] && 0 < at <= k <= |s| && IsSlug(s[..at]) && Exec(atoms[1..], s[at..]).Some?
    ensures TrySlug(atoms, s, k).Some?
    decreases k
  {
    hide IsSlug;
    if at < k { TrySlugFinds(atoms, s, k - 1, at); }
  }

  lemma {:induction false} TryWordsFinds(atoms: seq<Atom>, words: seq<string>, s: string, i: nat)
    requires atoms != [] && i < |words| && StartsWith(s, words[i]) && Exec(atoms[1..], s[|words[i]|..]).Some?
    ensures TryWords(atoms, words, s).Some?
    decreases |words|
  {
    if i > 0 { TryWordsFinds(atoms, words[1..], s, i - 1); }
  }

  // ---- one hole of unknown length leaves no choice ----------------------------------------------

  function FixedLength(atoms: seq<Atom>): nat {
    if atoms == [] then 0 else (if atoms[0].Fixed? then |atoms[0].text| else 0) + FixedLength(atoms[1..])
  }

  lemma {:induction false} FillLength(atoms: seq<Atom>, c: Captures)
    requires Slugs(atoms) <= 1 && Choices(atoms) <= 1
    ensures |Fill(atoms, c)| == FixedLength(atoms) + (if Slugs(atoms) == 1 then |c.slug.GetOr("")| else 0)
                                + if Choices(atoms) == 1 then |c.type_.GetOr("")| else 0
  {
    if atoms != [] { FillLength(atoms[1..], c); }
  }

  /** Spellings of equal hole lengths agree hole by hole. */
  lemma {:induction false} SameLengthsSameHoles(atoms: seq<Atom>, c: Captures, d: Captures)
    requires Fill(atoms, c) == Fill(atoms, d)
    requires |c.slug.GetOr("")| == |d.slug.GetOr("")| && |c.type_.GetOr("")| == |d.type_.GetOr("")|
    ensures Slugs(atoms) > 0 ==> c.slug.GetOr("") == d.slug.GetOr("")
    ensures Choices(atoms) > 0 ==> c.type_.GetOr("") == d.type_.GetOr("")
  {
    if atoms != [] {
      var x, y := FillAtom(atoms[0], c), FillAtom(atoms[0], d);
      assert x == Fill(atoms, c)[..|x|] == Fill(atoms, d)[..|y|] == y;
      assert Fill(atoms[1..], c) == Fill(atoms, c)[|x|..];
      assert Fill(atoms[1..], d) == Fill(atoms, d)[|y|..];
      SameLengthsSameHoles(atoms[1..], c, d);
    }
  }

  lemma ReadingIsUnique(atoms: seq<Atom>, c: Captures, d: Captures, s: string)
    requires Reads(atoms, c, s) && Reads(atoms, d, s) && Slugs(atoms) <= 1 && Choices(atoms) <= 1
    requires Slugs(atoms) == 0 || Choices(atoms) == 0
    ensures c == d
  {
    FillLength(atoms, c);
    FillLength(atoms, d);
    SameLengthsSameHoles(atoms, c, d);
  }

  // ---- from formats to matchers -------------------------------------------------------------------

  function CapturesOf(rule: Rule, v: Values): Captures {
    Captures(if HasHole(rule, SLUG) then v.slug else None, if HasHole(rule, TYPE) then v.type_ else None)
  }

  lemma {:induction false} CompiledCounts(pieces: seq<Piece>, types: seq<string>, n: nat)
    requires forall i :: 0 <= i < |pieces| ==> Supported(pieces[i])
    ensures Slugs(Compile(pieces, types, n)) == Count(pieces, SLUG)
    ensures Choices(Compile(pieces, types, n)) == Count(pieces, TYPE)
  {
    if pieces != [] {
      CompiledCounts(pieces[1..], types, n);
      assert pieces == [pieces[0]] + pieces[1..];
      CompileCons(pieces[0], pieces[1..], types, n);
      var atoms := Compile(pieces, types, n);
      assert atoms[1..] == Compile(pieces[1..], types, n);
      HoleNamesDiffer();
    }
  }

  lemma HoleNamesDiffer()
    ensures NUMBER != SLUG && NUMBER != TYPE && SLUG != TYPE
  {
    assert NUMBER[0] == 'i' && SLUG[0] == 's' && TYPE[0] == 't';
  }

  /** Rendering a format and spelling its compiled matcher are the same thing. */
  lemma {:induction false} CompiledSpellsFormat(pieces: seq<Piece>, types: seq<string>, v: Values, c: Captures)
    requires forall i :: 0 <= i < |pieces| ==> Supported(pieces[i])
    requires Count(pieces, SLUG) > 0 ==> c.slug.GetOr("") == v.slug.GetOr("")
    requires Count(pieces, TYPE) > 0 ==> c.type_.GetOr("") == v.type_.GetOr("")
    ensures Fill(Compile(pieces, types, v.issueNumber), c) == FillPieces(pieces, v)
  {
    if pieces != [] {
      CompiledSpellsFormat(pieces[1..], types, v, c);
      assert pieces == [pieces[0]] + pieces[1..];
      CompileCons(pieces[0], pieces[1..], types, v.issueNumber);
      var atoms := Compile(pieces, types, v.issueNumber);
      assert atoms[1..] == Compile(pieces[1..], types, v.issueNumber);
      HoleNamesDiffer();
    }
  }

  lemma {:induction false} CompiledFits(pieces: seq<Piece>, types: seq<string>, n: nat, c: Captures)
    requires forall i :: 0 <= i < |pieces| ==> Supported(pieces[i])
    ensures Fits(Compile(pieces, types, n), c) <==>
      && (Count(pieces, SLUG) > 0 ==> c.slug.Some? && IsSlug(c.slug.value))
      && (Count(pieces, TYPE) > 0 ==> c.type_.Some? && c.type_.value in types)
  {
    hide IsSlug;
    if pieces != [] {
      CompiledFits(pieces[1..], types, n, c);
      assert pieces == [pieces[0]] + pieces[1..];
      CompileCons(pieces[0], pieces[1..], types, n);
      var atoms := Compile(pieces, types, n);
      assert atoms[1..] == Compile(pieces[1..], types, n);
      FitsCons(atoms, c);
      HoleNamesDiffer();
    }
  }

  function Matcher(rule: Rule, n: nat): seq<Atom> { Compile(Pieces(rule.format), rule.types.GetOr([]), n) }

  lemma MatcherShape(rule: Rule, n: nat)
    requires ValidRule(rule)
    ensures Slugs(Matcher(rule, n)) <= 1 && Choices(Matcher(rule, n)) <= 1
    ensures Slugs(Matcher(rule, n)) > 0 <==> HasHole(rule, SLUG)
    ensures Choices(Matcher(rule, n)) > 0 <==> HasHole(rule, TYPE)
  {
    CompiledCounts(Pieces(rule.format), rule.types.GetOr([]), n);
  }

  // ---- theorems --------------------------------------------------------------------------------------

  /** Sound: what the matcher recovers renders back to exactly the branch it was given. */
  lemma MatchIsSound(rule: Rule, branch: string, n: nat)
    requires MatchFormat(rule, branch, n).Some?
    ensures var c := MatchFormat(rule, branch, n).value; RenderFormat(rule, Values(n, c.slug, c.type_)) == Some(branch)
  {
    hide ValidSpelling, IsSlug, Compile, Pieces, Exec, ValidTypes, ValidNumber;
    var c := MatchFormat(rule, branch, n).value;
    var v := Values(n, c.slug, c.type_);
    MatcherShape(rule, n);
    ExecSound(Matcher(rule, n), branch);
    CompiledFits(Pieces(rule.format), rule.types.GetOr([]), n, c);
    CompiledSpellsFormat(Pieces(rule.format), rule.types.GetOr([]), v, c);
  }

  lemma RenderedReads(rule: Rule, v: Values)
    requires RenderFormat(rule, v).Some?
    ensures Reads(Matcher(rule, v.issueNumber), CapturesOf(rule, v), RenderFormat(rule, v).value)
    ensures WithinSlugBound(CapturesOf(rule, v))
  {
    hide ValidSpelling, IsSlug, Compile, Pieces, ValidTypes, ValidNumber;
    MatcherShape(rule, v.issueNumber);
    CompiledFits(Pieces(rule.format), rule.types.GetOr([]), v.issueNumber, CapturesOf(rule, v));
    CompiledSpellsFormat(Pieces(rule.format), rule.types.GetOr([]), v, CapturesOf(rule, v));
  }

  /** A rendered branch always has a chosen split, and is accepted exactly when that split keeps the slug bound. */
  lemma RenderedIsAcceptedIff(rule: Rule, v: Values)
    requires RenderFormat(rule, v).Some?
    ensures var b := RenderFormat(rule, v).value;
      && Chosen(rule, b, v.issueNumber).Some?
      && (MatchFormat(rule, b, v.issueNumber).Some? <==> WithinSlugBound(Chosen(rule, b, v.issueNumber).value))
  {
    hide ValidSpelling, IsSlug, Compile, Pieces, Exec, ValidTypes, ValidNumber;
    RenderedReads(rule, v);
    ExecComplete(Matcher(rule, v.issueNumber), CapturesOf(rule, v));
  }

  // ---- which split is chosen, in terms of the format alone ------------------------------------------

  /** A reading of the branch: a slug, of whatever length, and a declared type that the format spells out as this branch. */
  predicate Spells(rule: Rule, branch: string, n: nat, c: Captures) {
    && c.slug.Some? && IsSlug(c.slug.value) && c.type_.Some? && c.type_.value in rule.types.GetOr([])
    && FillPieces(Pieces(rule.format), Values(n, c.slug, c.type_)) == branch
  }

  lemma ReadsIffSpells(rule: Rule, branch: string, n: nat, c: Captures)
    requires ValidRule(rule) && HasHole(rule, SLUG) && HasHole(rule, TYPE)
    ensures Reads(Matcher(rule, n), c, branch) <==> Spells(rule, branch, n, c)
  {
    hide IsSlug, Compile, Pieces, ValidTypes;
    MatcherShape(rule, n);
    CompiledFits(Pieces(rule.format), rule.types.GetOr([]), n, c);
    CompiledSpellsFormat(Pieces(rule.format), rule.types.GetOr([]), Values(n, c.slug, c.type_), c);
  }

  /** The slug hole stands in front of the type hole. */
  predicate SlugFirst(pieces: seq<Piece>) {
    pieces != [] && (pieces[0] == Hole(SLUG) || (pieces[0] != Hole(TYPE) && SlugFirst(pieces[1..])))
  }

  predicate SlugAtomFirst(atoms: seq<Atom>) { atoms != [] && (atoms[0].AnySlug? || (atoms[0].Fixed? && SlugAtomFirst(atoms[1..]))) }

  predicate TypeAtomFirst(atoms: seq<Atom>, words: seq<string>) {
    atoms != [] && (atoms[0] == OneOf(words) || (atoms[0].Fixed? && TypeAtomFirst(atoms[1..], words)))
  }

  lemma {:induction false} CompiledOrder(pieces: seq<Piece>, types: seq<string>, n: nat)
    requires forall i :: 0 <= i < |pieces| ==> Supported(pieces[i])
    ensures SlugFirst(pieces) ==> SlugAtomFirst(Compile(pieces, types, n))
    ensures !SlugFirst(pieces) && Count(pieces, TYPE) > 0 ==> TypeAtomFirst(Compile(pieces, types, n), types)
  {
    if pieces != [] {
      CompiledOrder(pieces[1..], types, n);
      assert pieces == [pieces[0]] + pieces[1..];
      CompileCons(pieces[0], pieces[1..], types, n);
      assert Compile(pieces, types, n)[1..] == Compile(pieces[1..], types, n);
      HoleNamesDiffer();
    }
  }

  /** Reading past a fixed text. */
  lemma ReadsFixed(atoms: seq<Atom>, c: Captures, s: string)
    requires atoms != [] && atoms[0].Fixed? && Reads(atoms, c, s)
    ensures StartsWith(s, atoms[0].text) && Reads(atoms[1..], c, s[|atoms[0].text|..])
  {
    FitsCons(atoms, c);
  }

  lemma {:induction false} TrySlugLongest(atoms: seq<Atom>, s: string, k: nat, at: nat)
    requires atoms != [] && 0 < at <= k <= |s| && IsSlug(s[..at]) && Exec(atoms[1..], s[at..]).Some?
    ensures TrySlug(atoms, s, k).Some? && TrySlug(atoms, s, k).value.slug.Some? && |TrySlug(atoms, s, k).value.slug.value| >= at
    decreases k
  {
    hide IsSlug;
    if at < k { TrySlugLongest(atoms, s, k - 1, at); }
  }

  /** With the slug in front, the chosen slug is at least as long as that of any reading. */
  lemma {:induction false} ChosenSlugIsLongest(atoms: seq<Atom>, s: string, d: Captures)
    requires SlugAtomFirst(atoms) && Reads(atoms, d, s)
    ensures d.slug.Some? && Exec(atoms, s).Some? && Exec(atoms, s).value.slug.Some?
    ensures |Exec(atoms, s).value.slug.value| >= |d.slug.value|
    decreases |atoms|
  {
    hide IsSlug;
    if atoms[0].Fixed? {
      ReadsFixed(atoms, d, s);
      ChosenSlugIsLongest(atoms[1..], s[|atoms[0].text|..], d);
    } else {
      var slug := d.slug.value;
      FitsCons(atoms, d);
      assert s[..|slug|] == slug && s[|slug|..] == Fill(atoms[1..], d);
      SlugIsNotEmpty(slug);
      ExecComplete(atoms[1..], d);
      TrySlugLongest(atoms, s, |s|, |slug|);
    }
  }

  /** With the type in front: the text has a reading in which this word is the type. */
  ghost predicate WordReads(atoms: seq<Atom>, s: string, word: string) {
    exists c :: Reads(atoms, c, s) && c.type_ == Some(word)
  }

  predicate WordMatches(atoms: seq<Atom>, s: string, word: string)
    requires atoms != []
  {
    StartsWith(s, word) && Exec(atoms[1..], s[|word|..]).Some?
  }

  lemma WordReadsIffMatches(atoms: seq<Atom>, s: string, word: string)
    requires atoms != [] && atoms[0].OneOf? && word in atoms[0].words && Slugs(atoms) <= 1 && Choices(atoms) <= 1
    ensures WordReads(atoms, s, word) <==> WordMatches(atoms, s, word)
  {
    hide IsSlug;
    if WordMatches(atoms, s, word) {
      var rest := Exec(atoms[1..], s[|word|..]).value;
      ExecSound(atoms[1..], s[|word|..]);
      ReadsCons(atoms, rest.(type_ := Some(word)), rest, word, s[|word|..]);
      assert s == word + s[|word|..];
    }
    if WordReads(atoms, s, word) {
      var c :| Reads(atoms, c, s) && c.type_ == Some(word);
      FitsCons(atoms, c);
      assert s[..|word|] == word && s[|word|..] == Fill(atoms[1..], c);
      ExecComplete(atoms[1..], c);
    }
  }

  lemma {:induction false} TryWordsFirst(atoms: seq<Atom>, words: seq<string>, s: string) returns (k: nat)
    requires atoms != [] && TryWords(atoms, words, s).Some?
    ensures k < |words| && TryWords(atoms, words, s).value.type_ == Some(words[k]) && WordMatches(atoms, s, words[k])
    ensures forall j :: 0 <= j < k ==> !WordMatches(atoms, s, words[j])
    decreases |words|
  {
    if WordMatches(atoms, s, words[0]) {
      k := 0;
    } else {
      var rest := TryWordsFirst(atoms, words[1..], s);
      k := rest + 1;
      assert forall j :: 1 <= j < k ==> words[j] == words[1..][j - 1];
    }
  }

  /** With the type in front, the chosen type is the first listed word that has a reading at all. */
  lemma {:induction false} ChosenTypeIsFirst(atoms: seq<Atom>, words: seq<string>, s: string) returns (k: nat)
    requires TypeAtomFirst(atoms, words) && Slugs(atoms) <= 1 && Choices(atoms) <= 1 && Exec(atoms, s).Some?
    ensures k < |words| && Exec(atoms, s).value.type_ == Some(words[k])
    ensures forall j :: 0 <= j < k ==> !WordReads(atoms, s, words[j])
    decreases |atoms|
  {
    if atoms[0].Fixed? {
      var text := atoms[0].text;
      k := ChosenTypeIsFirst(atoms[1..], words, s[|text|..]);
      forall j | 0 <= j < k ensures !WordReads(atoms, s, words[j]) {
        if c :| Reads(atoms, c, s) && c.type_ == Some(words[j]) {
          ReadsFixed(atoms, c, s);
          assert WordReads(atoms[1..], s[|text|..], words[j]);
        }
      }
    } else {
      k := TryWordsFirst(atoms, words, s);
      forall j | 0 <= j < k ensures !WordReads(atoms, s, words[j]) { WordReadsIffMatches(atoms, s, words[j]); }
    }
  }

  /** One type leaves one slug. */
  lemma SameTypeSameReading(atoms: seq<Atom>, c: Captures, d: Captures, s: string)
    requires Reads(atoms, c, s) && Reads(atoms, d, s) && c.type_ == d.type_ && Slugs(atoms) <= 1 && Choices(atoms) <= 1
    ensures c == d
  {
    FillLength(atoms, c);
    FillLength(atoms, d);
    SameLengthsSameHoles(atoms, c, d);
  }

  ghost predicate HasReading(rule: Rule, branch: string, n: nat, word: string) {
    exists slug :: Spells(rule, branch, n, Captures(Some(slug), Some(word)))
  }

  ghost predicate HasShortReading(rule: Rule, branch: string, n: nat, word: string) {
    exists slug :: Spells(rule, branch, n, Captures(Some(slug), Some(word))) && |slug| <= MAX_SLUG
  }

  /** Slug in front: every reading of the branch keeps the slug bound. */
  ghost predicate AllReadingsShort(rule: Rule, branch: string, n: nat) {
    forall c :: Spells(rule, branch, n, c) ==> WithinSlugBound(c)
  }

  /** Type in front: the first listed word with a reading leaves a slug within the bound. */
  ghost predicate FirstWordShort(rule: Rule, branch: string, n: nat) {
    var words := rule.types.GetOr([]);
    exists k :: 0 <= k < |words| && HasShortReading(rule, branch, n, words[k])
      && forall j :: 0 <= j < k ==> !HasReading(rule, branch, n, words[j])
  }

  lemma SlugFirstIff(rule: Rule, branch: string, n: nat)
    requires ValidRule(rule) && HasHole(rule, SLUG) && HasHole(rule, TYPE) && SlugFirst(Pieces(rule.format))
    requires Chosen(rule, branch, n).Some?
    ensures WithinSlugBound(Chosen(rule, branch, n).value) <==> AllReadingsShort(rule, branch, n)
  {
    hide IsSlug, Compile, Pieces, Exec, ValidTypes, Spells, Reads;
    var c := Chosen(rule, branch, n).value;
    MatcherShape(rule, n);
    CompiledOrder(Pieces(rule.format), rule.types.GetOr([]), n);
    ExecSound(Matcher(rule, n), branch);
    ReadsIffSpells(rule, branch, n, c);
    forall d | Spells(rule, branch, n, d) ensures WithinSlugBound(c) ==> WithinSlugBound(d) {
      ReadsIffSpells(rule, branch, n, d);
      ChosenSlugIsLongest(Matcher(rule, n), branch, d);
    }
  }

  lemma TypeFirstIff(rule: Rule, branch: string, n: nat)
    requires ValidRule(rule) && HasHole(rule, SLUG) && HasHole(rule, TYPE) && !SlugFirst(Pieces(rule.format))
    requires Chosen(rule, branch, n).Some?
    ensures WithinSlugBound(Chosen(rule, branch, n).value) <==> FirstWordShort(rule, branch, n)
  {
    hide IsSlug, Compile, Pieces, Exec, ValidTypes, Spells, Reads;
    var c, words := Chosen(rule, branch, n).value, rule.types.GetOr([]);
    MatcherShape(rule, n);
    CompiledOrder(Pieces(rule.format), words, n);
    ExecSound(Matcher(rule, n), branch);
    ReadsIffSpells(rule, branch, n, c);
    var k := ChosenTypeIsFirst(Matcher(rule, n), words, branch);
    SpelledShape(rule, branch, n, c);
    assert HasReading(rule, branch, n, words[k]);
    forall j | 0 <= j < k ensures !HasReading(rule, branch, n, words[j]) {
      ReadingMatches(rule, branch, n, words[j]);
    }
    forall slug | Spells(rule, branch, n, Captures(Some(slug), Some(words[k]))) ensures c.slug == Some(slug) {
      ReadsIffSpells(rule, branch, n, Captures(Some(slug), Some(words[k])));
      SameTypeSameReading(Matcher(rule, n), c, Captures(Some(slug), Some(words[k])), branch);
    }
    assert WithinSlugBound(c) <==> HasShortReading(rule, branch, n, words[k]);
    if FirstWordShort(rule, branch, n) {
      var m :| 0 <= m < |words| && HasShortReading(rule, branch, n, words[m]) && forall j :: 0 <= j < m ==> !HasReading(rule, branch, n, words[j]);
      ShortIsReading(rule, branch, n, words[m]);
      assert m == k;
    }
  }

  lemma ReadingMatches(rule: Rule, branch: string, n: nat, word: string)
    requires ValidRule(rule) && HasHole(rule, SLUG) && HasHole(rule, TYPE)
    ensures HasReading(rule, branch, n, word) ==> WordReads(Matcher(rule, n), branch, word)
  {
    hide Spells, Reads;
    if slug :| Spells(rule, branch, n, Captures(Some(slug), Some(word))) {
      ReadsIffSpells(rule, branch, n, Captures(Some(slug), Some(word)));
    }
  }

  lemma SpelledShape(rule: Rule, branch: string, n: nat, c: Captures)
    requires Spells(rule, branch, n, c)
    ensures c.slug.Some? && c.type_.Some? && c == Captures(Some(c.slug.value), Some(c.type_.value))
  {
  }

  lemma ShortIsReading(rule: Rule, branch: string, n: nat, word: string)
    requires HasShortReading(rule, branch, n, word)
    ensures HasReading(rule, branch, n, word)
  {
  }

  /**
   Acceptance of rendered branches when both slug and type are open. With the slug in front the longest slug is
   chosen, so a rendered branch is accepted exactly when no reading of it has an overlong slug. With the type in front
   the first listed word with a reading is chosen, so it is accepted exactly when that word leaves a short enough slug.
   */
  lemma RenderedIsAcceptedByReadings(rule: Rule, v: Values)
    requires RenderFormat(rule, v).Some? && HasHole(rule, SLUG) && HasHole(rule, TYPE)
    ensures var b, n := RenderFormat(rule, v).value, v.issueNumber;
      MatchFormat(rule, b, n).Some? <==>
        if SlugFirst(Pieces(rule.format)) then AllReadingsShort(rule, b, n) else FirstWordShort(rule, b, n)
  {
    hide ValidSpelling, IsSlug, Compile, Pieces, Exec, ValidTypes, ValidNumber, AllReadingsShort, FirstWordShort, MatchFormat;
    var b, n := RenderFormat(rule, v).value, v.issueNumber;
    RenderedIsAcceptedIff(rule, v);
    if SlugFirst(Pieces(rule.format)) { SlugFirstIff(rule, b, n); } else { TypeFirstIff(rule, b, n); }
  }

  /** With at most one hole of unknown length there is only one split: the values come back. */
  lemma MatchRecoversValues(rule: Rule, v: Values)
    requires RenderFormat(rule, v).Some? && (!HasHole(rule, SLUG) || !HasHole(rule, TYPE))
    ensures MatchFormat(rule, RenderFormat(rule, v).value, v.issueNumber) == Some(CapturesOf(rule, v))
  {
    hide ValidSpelling, IsSlug, Compile, Pieces, Exec, ValidTypes, ValidNumber, Reads;
    var b := RenderFormat(rule, v).value;
    RenderedReads(rule, v);
    RenderedIsAcceptedIff(rule, v);
    MatcherShape(rule, v.issueNumber);
    ExecSound(Matcher(rule, v.issueNumber), b);
    ReadingIsUnique(Matcher(rule, v.issueNumber), CapturesOf(rule, v), Chosen(rule, b, v.issueNumber).value, b);
  }

  /** Acceptance means rendering: a branch is accepted for a number only if some values render it. */
  lemma AcceptedMeansRendered(rule: Rule, branch: string, n: nat)
    requires !HasHole(rule, SLUG) || !HasHole(rule, TYPE)
    ensures MatchFormat(rule, branch, n).Some? <==>
      exists slug, type_ :: RenderFormat(rule, Values(n, slug, type_)) == Some(branch)
  {
    hide MatchFormat, RenderFormat, HasHole;
    if MatchFormat(rule, branch, n).Some? {
      MatchIsSound(rule, branch, n);
      var c := MatchFormat(rule, branch, n).value;
      assert RenderFormat(rule, Values(n, c.slug, c.type_)) == Some(branch);
    }
    if slug, type_ :| RenderFormat(rule, Values(n, slug, type_)) == Some(branch) {
      MatchRecoversValues(rule, Values(n, slug, type_));
    }
  }

  // ---- the split that is chosen may be too long ---------------------------------------------------

  /** The format `{issueNumber}-{slug}-{type}`. */
  const TRAILING_TYPE: string := "{" + NUMBER + "}" + (['-'] + ("{" + SLUG + "}" + (['-'] + ("{" + TYPE + "}"))))

  function TwoTails(): Rule { Rule(TRAILING_TYPE, Some(["x", "b-x"])) }

  predicate NoBrace(name: string) { forall i :: 0 <= i < |name| ==> name[i] != '{' && name[i] != '}' }

  lemma {:induction false} CloseFinds(name: string, rest: string)
    requires NoBrace(name)
    ensures Close(name + "}" + rest) == Some(|name|)
  {
    var s := name + "}" + rest;
    if name != [] {
      CloseFinds(name[1..], rest);
      assert s[1..] == name[1..] + "}" + rest;
    }
  }

  lemma HolePiece(name: string, rest: string)
    requires NoBrace(name)
    ensures Pieces("{" + name + "}" + rest) == [Hole(name)] + Pieces(rest)
  {
    CloseFinds(name, rest);
    var s := "{" + name + "}" + rest;
    assert s[1..] == name + "}" + rest && s[1..|name| + 1] == name && s[|name| + 2..] == rest;
  }

  const TAIL_PIECES := [Hole(NUMBER), Literal('-'), Hole(SLUG), Literal('-'), Hole(TYPE)]

  lemma LiteralPiece(c: char, rest: string)
    requires c != '{'
    ensures Pieces([c] + rest) == [Literal(c)] + Pieces(rest)
  {
    assert ([c] + rest)[1..] == rest;
  }

  lemma TwoTailsPieces()
    ensures Pieces(TRAILING_TYPE) == TAIL_PIECES
  {
    assert Pieces("") == [];
    hide Pieces;
    NamesHaveNoBrace();
    var last := "{" + TYPE + "}";
    assert last + "" == last;
    HolePiece(TYPE, "");
    var middle := "{" + SLUG + "}" + (['-'] + last);
    LiteralPiece('-', last);
    HolePiece(SLUG, ['-'] + last);
    LiteralPiece('-', middle);
    HolePiece(NUMBER, ['-'] + middle);
  }

  lemma NamesHaveNoBrace()
    ensures NoBrace(NUMBER) && NoBrace(SLUG) && NoBrace(TYPE)
  {
  }

  lemma CountCons(p: Piece, rest: seq<Piece>, name: string)
    ensures Count([p] + rest, name) == (if p == Hole(name) then 1 else 0) + Count(rest, name)
  {
    assert ([p] + rest)[1..] == rest;
  }

  lemma CountTail(name: string)
    ensures Count(TAIL_PIECES, name) ==
      (if name == NUMBER then 1 else 0) + (if name == SLUG then 1 else 0) + (if name == TYPE then 1 else 0)
  {
    assert Count([], name) == 0;
    hide Count;
    var four := [Hole(TYPE)] + [];
    var three := [Literal('-')] + four;
    var two := [Hole(SLUG)] + three;
    var one := [Literal('-')] + two;
    CountCons(Hole(TYPE), [], name);
    CountCons(Literal('-'), four, name);
    CountCons(Hole(SLUG), three, name);
    CountCons(Literal('-'), two, name);
    CountCons(Hole(NUMBER), one, name);
    assert TAIL_PIECES == [Hole(NUMBER)] + one;
  }

  lemma TwoTailsCounts()
    ensures Count(TAIL_PIECES, NUMBER) == 1 && Count(TAIL_PIECES, SLUG) == 1 && Count(TAIL_PIECES, TYPE) == 1
  {
    hide Count;
    HoleNamesDiffer();
    CountTail(NUMBER);
    CountTail(SLUG);
    CountTail(TYPE);
  }

  lemma TwoTailsIsValid()
    ensures ValidRule(TwoTails()) && HasHole(TwoTails(), SLUG) && HasHole(TwoTails(), TYPE)
  {
    hide Pieces, Count;
    TwoTailsPieces();
    TwoTailsCounts();
  }

  lemma TailSpelling(slug: string)
    requires IsSlug(slug) && |slug| <= MAX_SLUG
    ensures ValidSpelling("1-" + slug + "-b-x")
  {
    var b := "1-" + slug + "-b-x";
    assert b[|b| - 1] == 'x' && b[|b| - 2] == '-';
    assert forall i :: 0 <= i < |b| ==> LowerAlnum(b[i]) || b[i] == '-';
  }

  lemma TwoTailsFills(slug: string)
    ensures FillPieces(TAIL_PIECES, Values(1, Some(slug), Some("b-x"))) == "1-" + slug + "-b-x"
  {
    var v := Values(1, Some(slug), Some("b-x"));
    HoleNamesDiffer();
    var p := TAIL_PIECES;
    assert p[1..] == [Literal('-'), Hole(SLUG), Literal('-'), Hole(TYPE)] && p[1..][1..] == [Hole(SLUG), Literal('-'), Hole(TYPE)];
    assert [Hole(SLUG), Literal('-'), Hole(TYPE)][1..] == [Literal('-'), Hole(TYPE)] && [Literal('-'), Hole(TYPE)][1..] == [Hole(TYPE)];
    assert Decimal(1) == "1";
    assert FillPieces([Hole(TYPE)], v) == "b-x" + [];
    assert FillPieces([Literal('-'), Hole(TYPE)], v) == "-b-x";
    assert FillPieces([Hole(SLUG), Literal('-'), Hole(TYPE)], v) == slug + "-b-x";
    assert FillPieces([Literal('-'), Hole(SLUG), Literal('-'), Hole(TYPE)], v) == "-" + (slug + "-b-x");
  }

  lemma TwoTailsRenders(slug: string)
    requires IsSlug(slug) && |slug| <= MAX_SLUG
    ensures RenderFormat(TwoTails(), Values(1, Some(slug), Some("b-x"))) == Some("1-" + slug + "-b-x")
  {
    hide Pieces, Count, FillPieces, ValidSpelling, IsSlug, ValidRule;
    TwoTailsPieces();
    TwoTailsIsValid();
    TwoTailsFills(slug);
    TailSpelling(slug);
    assert ["x", "b-x"][1] == "b-x";
  }

  const TAIL_ATOMS := [Fixed("-"), OneOf(["x", "b-x"])]

  lemma TailMatches()
    ensures Exec(TAIL_ATOMS, "-x") == Some(Captures(None, Some("x"))) && Exec(TAIL_ATOMS, "").None?
  {
    assert "-x"[1..] == "x" && "x"[1..] == "" && "-x"[..1] == "-" && "x"[..1] == "x";
    assert [OneOf(["x", "b-x"])][1..] == [] && TAIL_ATOMS[1..] == [OneOf(["x", "b-x"])];
    assert Exec([], "") == Some(Captures(None, None));
    assert TryWords([OneOf(["x", "b-x"])], ["x", "b-x"], "x") == Some(Captures(None, Some("x")));
    assert Exec([OneOf(["x", "b-x"])], "x") == Some(Captures(None, Some("x")));
  }

  lemma TailSlugs(slug: string)
    requires IsSlug(slug)
    ensures var s := slug + "-b-x"; var n := |slug|;
      && s[..n + 2] == slug + "-b" && IsSlug(s[..n + 2]) && !IsSlug(s[..n + 3]) && s[n + 2..] == "-x" && s[n + 4..] == ""
  {
    var s := slug + "-b-x";
    var n := |slug|;
    assert s[..n + 2] == slug + "-b" && s[..n + 3] == slug + "-b-";
    assert s[..n + 3][n + 2] == '-' && |s[..n + 3]| == n + 3;
    assert (slug + "-b")[n] == '-' && (slug + "-b")[n + 1] == 'b' && (slug + "-b")[n - 1] == slug[n - 1];
    assert forall i :: 0 <= i < n ==> (slug + "-b")[i] == slug[i];
  }

  /** The longest slug wins, so the shorter split that rendered the branch is never looked at. */
  lemma LongestSlugWins(slug: string)
    requires IsSlug(slug)
    ensures Chosen(TwoTails(), "1-" + slug + "-b-x", 1) == Some(Captures(Some(slug + "-b"), Some("x")))
  {
    hide IsSlug, Pieces;
    var s := slug + "-b-x";
    var n := |slug|;
    var atoms := [AnySlug] + TAIL_ATOMS;
    TailMatches();
    TailSlugs(slug);
    assert atoms[1..] == TAIL_ATOMS;
    assert TrySlug(atoms, s, n + 2) == Some(Captures(Some(slug + "-b"), Some("x")));
    assert TrySlug(atoms, s, n + 3) == TrySlug(atoms, s, n + 2);
    assert TrySlug(atoms, s, n + 4) == TrySlug(atoms, s, n + 3);
    TwoTailsPieces();
    MatcherOfTwoTails();
    ExecFixed("-", atoms, s);
    ExecFixed("1", [Fixed("-")] + atoms, "-" + s);
    assert "1" + ("-" + s) == "1-" + slug + "-b-x";
  }

  lemma MatcherOfTwoTails()
    ensures Compile(TAIL_PIECES, ["x", "b-x"], 1) == [Fixed("1")] + ([Fixed("-")] + ([AnySlug] + TAIL_ATOMS))
  {
    HoleNamesDiffer();
    assert Decimal(1) == "1";
  }

  lemma ExecFixed(text: string, atoms: seq<Atom>, s: string)
    ensures Exec([Fixed(text)] + atoms, text + s) == Exec(atoms, s)
  {
    assert ([Fixed(text)] + atoms)[1..] == atoms && (text + s)[|text|..] == s;
  }

  /** With both holes a branch can be rendered and yet not be recognised: the chosen split has too long a slug. */
  lemma RenderedButNotRecognised(slug: string)
    requires IsSlug(slug) && |slug| == MAX_SLUG
    ensures var v := Values(1, Some(slug), Some("b-x"));
      RenderFormat(TwoTails(), v).Some? && MatchFormat(TwoTails(), RenderFormat(TwoTails(), v).value, 1).None?
  {
    hide Chosen, RenderFormat;
    TwoTailsRenders(slug);
    LongestSlugWins(slug);
  }
}
