/** Canonical branch names `<type>/<issue-number>-<slug>`: slug normalization, derivation and recognition. */
module BranchNaming {
  import opened Characters
  import opened Wrappers
  import opened Change
  import opened BranchFormat

  // ---- slugs from titles ----------------------------------------------------------------------

  const MAX_TITLE_SOURCE: nat := 255

  /** Everything but lower-case letters and digits becomes a separator; a run of separators is one hyphen. */
  function Hyphenate(s: string): string
    decreases |s|
  {
    if s == [] then []
    else if LowerAlnum(s[0]) then [s[0]] + Hyphenate(s[1..])
    else ['-'] + Hyphenate(SkipSeparators(s))
  }

  function SkipSeparators(s: string): (r: string)
    ensures |r| <= |s| && (s != [] && !LowerAlnum(s[0]) ==> |r| < |s|) && (r != [] ==> LowerAlnum(r[0]))
  {
    if s == [] || LowerAlnum(s[0]) then s else SkipSeparators(s[1..])
  }

  function TrimLeft(s: string): string {
    if s != [] && s[0] == '-' then TrimLeft(s[1..]) else s
  }

  function TrimRight(s: string): string {
    if s != [] && s[|s| - 1] == '-' then TrimRight(s[..|s| - 1]) else s
  }

  /** Slug of an already decomposed text; overlong text is refused. */
  function NormalizeSlug(text: string): Option<string> {
    if |text| > MAX_TITLE_SOURCE then None else Some(TrimRight(TrimLeft(Hyphenate(Lower(text)))))
  }

  /** Hyphenated text: letters, digits and lone hyphens. */
  predicate Hyphenated(s: string) {
    && (forall i :: 0 <= i < |s| ==> LowerAlnum(s[i]) || s[i] == '-')
    && forall i :: 0 <= i < |s| - 1 ==> !(s[i] == '-' && s[i + 1] == '-')
  }

  lemma {:induction false} HyphenateShape(s: string)
    ensures Hyphenated(Hyphenate(s))
    ensures s != [] ==> Hyphenate(s) != [] && Hyphenate(s)[0] == if LowerAlnum(s[0]) then s[0] else '-'
    ensures s == [] ==> Hyphenate(s) == []
    decreases |s|
  {
    if s != [] {
      var rest := if LowerAlnum(s[0]) then s[1..] else SkipSeparators(s);
      HyphenateShape(rest);
      var r, tail := Hyphenate(s), Hyphenate(rest);
      assert r == [r[0]] + tail;
      forall i | 0 <= i < |r| - 1 ensures !(r[i] == '-' && r[i + 1] == '-') {
        if i > 0 { assert r[i] == tail[i - 1] && r[i + 1] == tail[i]; }
      }
    }
  }

  lemma {:induction false} TrimmedShape(s: string)
    requires Hyphenated(s)
    ensures Hyphenated(TrimLeft(s)) && (TrimLeft(s) != [] ==> TrimLeft(s)[0] != '-')
    decreases |s|
  {
    if s != [] && s[0] == '-' { TrimmedShape(s[1..]); }
  }

  lemma {:induction false} TrimmedRightShape(s: string)
    requires Hyphenated(s) && (s != [] ==> s[0] != '-')
    ensures var r := TrimRight(s);
      Hyphenated(r) && (r != [] ==> r[0] != '-' && r[|r| - 1] != '-')
    decreases |s|
  {
    if s != [] && s[|s| - 1] == '-' { TrimmedRightShape(s[..|s| - 1]); }
  }

  /** Whatever the text, the result is empty or a slug the formatter accepts. */
  lemma NormalizedSlugIsSlug(text: string)
    requires NormalizeSlug(text).Some?
    ensures NormalizeSlug(text).value == [] || IsSlug(NormalizeSlug(text).value)
  {
    HyphenateShape(Lower(text));
    TrimmedShape(Hyphenate(Lower(text)));
    TrimmedRightShape(TrimLeft(Hyphenate(Lower(text))));
  }

  /** The letters and digits of a text, in order. */
  function Essence(s: string): string {
    if s == [] then [] else (if LowerAlnum(s[0]) then [s[0]] else []) + Essence(s[1..])
  }

  lemma {:induction false} EssenceOfParts(a: string, b: string)
    ensures Essence(a + b) == Essence(a) + Essence(b)
  {
    if a == [] {
      assert a + b == b;
    } else {
      var s := a + b;
      assert s[1..] == a[1..] + b && s[0] == a[0];
      EssenceOfParts(a[1..], b);
      assert Essence(s) == (if LowerAlnum(s[0]) then [s[0]] else []) + Essence(s[1..]);
      hide Essence, LowerAlnum;
    }
  }

  lemma {:induction false} SkippingKeepsEssence(s: string)
    ensures Essence(SkipSeparators(s)) == Essence(s)
  {
    if s != [] && !LowerAlnum(s[0]) { SkippingKeepsEssence(s[1..]); }
  }

  lemma {:induction false} HyphenateKeepsEssence(s: string)
    ensures Essence(Hyphenate(s)) == Essence(s)
    decreases |s|
  {
    if s != [] {
      var rest := if LowerAlnum(s[0]) then s[1..] else SkipSeparators(s);
      HyphenateKeepsEssence(rest);
      SkippingKeepsEssence(s);
      assert Hyphenate(s)[1..] == Hyphenate(rest);
    }
  }

  lemma {:induction false} TrimLeftKeepsEssence(s: string)
    ensures Essence(TrimLeft(s)) == Essence(s)
  {
    if s != [] && s[0] == '-' { TrimLeftKeepsEssence(s[1..]); }
  }

  lemma {:induction false} TrimRightKeepsEssence(s: string)
    ensures Essence(TrimRight(s)) == Essence(s)
  {
    if s != [] && s[|s| - 1] == '-' {
      TrimRightKeepsEssence(s[..|s| - 1]);
      EssenceOfParts(s[..|s| - 1], [s[|s| - 1]]);
      assert s == s[..|s| - 1] + [s[|s| - 1]];
    }
  }

  /** Normalization loses nothing but separators and case, and gives up exactly when nothing usable is there. */
  lemma NormalizedSlugKeepsEssence(text: string)
    requires NormalizeSlug(text).Some?
    ensures Essence(NormalizeSlug(text).value) == Essence(Lower(text))
    ensures NormalizeSlug(text).value == [] <==> Essence(Lower(text)) == []
  {
    var h := Hyphenate(Lower(text));
    HyphenateKeepsEssence(Lower(text));
    TrimLeftKeepsEssence(h);
    TrimRightKeepsEssence(TrimLeft(h));
    NormalizedSlugIsSlug(text);
  }

  lemma {:induction false} HyphenateFixed(s: string)
    requires Hyphenated(s)
    ensures Hyphenate(s) == s
    decreases |s|
  {
    if s != [] {
      if LowerAlnum(s[0]) {
        HyphenateFixed(s[1..]);
      } else {
        assert |s| > 1 ==> LowerAlnum(s[1]);
        assert SkipSeparators(s) == s[1..];
        HyphenateFixed(s[1..]);
      }
      assert s == [s[0]] + s[1..];
    }
  }

  /** A slug is its own normal form. */
  lemma SlugIsFixed(s: string)
    requires IsSlug(s) && |s| <= MAX_TITLE_SOURCE
    ensures NormalizeSlug(s) == Some(s)
  {
    assert Lower(s) == s;
    HyphenateFixed(s);
  }

  // ---- the slug as a list of words ------------------------------------------------------------------

  function WordLength(s: string): (n: nat)
    ensures n <= |s| && (forall i :: 0 <= i < n ==> LowerAlnum(s[i])) && (n < |s| ==> !LowerAlnum(s[n]))
  {
    if s == [] || !LowerAlnum(s[0]) then 0 else 1 + WordLength(s[1..])
  }

  /** The maximal runs of lower-case letters and digits. */
  function Words(s: string): seq<string>
    decreases |s|
  {
    if s == [] then []
    else if WordLength(s) == 0 then Words(s[1..])
    else [s[..WordLength(s)]] + Words(s[WordLength(s)..])
  }

  function Hyphened(words: seq<string>): string {
    if words == [] then [] else if |words| == 1 then words[0] else words[0] + "-" + Hyphened(words[1..])
  }

  lemma {:induction false} HyphenateWord(s: string, n: nat)
    requires n <= |s| && forall i :: 0 <= i < n ==> LowerAlnum(s[i])
    ensures Hyphenate(s) == s[..n] + Hyphenate(s[n..])
  {
    if n == 0 {
      assert s[0..] == s;
    } else {
      HyphenateWord(s[1..], n - 1);
      assert s[1..][n - 1..] == s[n..] && s[..n] == [s[0]] + s[1..][..n - 1];
    }
  }

  lemma {:induction false} TrimRightBehind(a: string, b: string)
    requires TrimRight(b) != []
    ensures TrimRight(a + b) == a + TrimRight(b)
    decreases |b|
  {
    if b[|b| - 1] == '-' {
      TrimRightBehind(a, b[..|b| - 1]);
      assert (a + b)[..|a + b| - 1] == a + b[..|b| - 1];
    }
  }

  lemma {:induction false} SkippedWords(s: string)
    ensures Words(SkipSeparators(s)) == Words(s)
  {
    if s != [] && !LowerAlnum(s[0]) { SkippedWords(s[1..]); }
  }

  lemma LastIsKept(s: string)
    requires s != [] && s[|s| - 1] != '-'
    ensures TrimRight(s) == s && TrimRight(s + "-") == s
  {
    assert (s + "-")[..|s + "-"| - 1] == s;
  }

  /** From the front of a word on, trimming leaves the words with single hyphens. */
  lemma {:induction false} WordsFromWord(s: string)
    requires s != [] && LowerAlnum(s[0])
    ensures TrimRight(Hyphenate(s)) == Hyphened(Words(s)) != []
    decreases |s|
  {
    var n := WordLength(s);
    var word, rest := s[..n], s[n..];
    assert n > 0 && LowerAlnum(word[n - 1]);
    HyphenateWord(s, n);
    LastIsKept(word);
    SkippedWords(rest);
    if rest == [] {
      assert Hyphenate(s) == word && Words(s) == [word];
    } else {
      var next := SkipSeparators(rest);
      assert Hyphenate(rest) == "-" + Hyphenate(next);
      assert Words(s) == [word] + Words(next);
      hide Hyphenate, Words;
      if next == [] {
        EmptyText();
        assert Hyphenate(s) == word + "-" && Words(s) == [word];
      } else {
        WordsFromWord(next);
        TrimRightBehind(word + "-", Hyphenate(next));
        assert Hyphenate(s) == (word + "-") + Hyphenate(next);
        WordInFront(word, Words(next));
      }
    }
  }

  lemma EmptyText()
    ensures Hyphenate([]) == [] && Words([]) == []
  {
  }

  lemma WordInFront(word: string, words: seq<string>)
    requires words != []
    ensures Hyphened([word] + words) == word + "-" + Hyphened(words)
  {
  }

  /** The slug of a text is its words in lower case with one hyphen between any two; overlong text is refused. */
  lemma SlugIsWords(text: string)
    ensures NormalizeSlug(text) == if |text| > 255 then None else Some(Hyphened(Words(Lower(text))))
  {
    var s := Lower(text);
    if s != [] && LowerAlnum(s[0]) {
      WordsFromWord(s);
      assert Hyphenate(s)[0] == s[0];
    } else if s != [] {
      var next := SkipSeparators(s);
      SkippedWords(s);
      assert Hyphenate(s) == "-" + Hyphenate(next);
      HyphenInFront(Hyphenate(next));
      hide Words;
      EmptyText();
      if next != [] { WordsFromWord(next); assert Hyphenate(next)[0] == next[0]; }
    }
  }

  lemma HyphenInFront(s: string)
    ensures TrimLeft("-" + s) == TrimLeft(s)
  {
    assert ("-" + s)[1..] == s;
  }

  // ---- derivation ---------------------------------------------------------------------------------

  const ORDINARY: set<string> := {"feat", "fix", "docs", "refactor", "test", "chore"}
  const INTEGRATION: set<string> := {"epic", "issue"}

  datatype Parts = Parts(type_: string, issueNumber: nat, slug: string)

  predicate SlugText(s: string) { s != [] && forall i :: 0 <= i < |s| ==> LowerAlnum(s[i]) || s[i] == '-' }

  function Spell(p: Parts): string { p.type_ + "/" + Decimal(p.issueNumber) + "-" + p.slug }

  /** Ordinary Change branches; `None` where the source throws. */
  function DeriveBranchName(p: Parts): Option<string> {
    if p.type_ in ORDINARY && ValidNumber(p.issueNumber) && SlugText(p.slug) then Some(Spell(p)) else None
  }

  /** Epic and source-Issue integration branches. */
  function DeriveIntegrationBranchName(p: Parts): Option<string> {
    if p.type_ in INTEGRATION && ValidNumber(p.issueNumber) && SlugText(p.slug) then Some(Spell(p)) else None
  }

  // ---- recognition -----------------------------------------------------------------------------------

  predicate Digit(c: char) { '0' <= c <= '9' }

  function DigitsLength(s: string): (n: nat)
    ensures n <= |s| && (forall i :: 0 <= i < n ==> Digit(s[i])) && (n < |s| ==> !Digit(s[n]))
  {
    if s == [] || !Digit(s[0]) then 0 else 1 + DigitsLength(s[1..])
  }

  function Number(digits: string): nat
    requires forall i :: 0 <= i < |digits| ==> Digit(digits[i])
  {
    if digits == [] then 0
    else
      assert Digit(digits[|digits| - 1]);
      Number(digits[..|digits| - 1]) * 10 + (digits[|digits| - 1] as int - '0' as int)
  }

  /** The part in front of the first slash; the type vocabularies hold no slash. */
  function UpToSlash(s: string): (n: nat)
    ensures n <= |s| && (forall i :: 0 <= i < n ==> s[i] != '/') && (n < |s| ==> s[n] == '/')
  {
    if s == [] || s[0] == '/' then 0 else 1 + UpToSlash(s[1..])
  }

  /** `<type>/<digits>-<slug>` for one of the given types. */
  function Dissect(types: set<string>, branch: string): Option<(string, string, string)> {
    var n := UpToSlash(branch);
    if n == |branch| || branch[..n] !in types then None
    else
      var rest := branch[n + 1..];
      var k := DigitsLength(rest);
      if k == 0 || k == |rest| || rest[k] != '-' || !SlugText(rest[k + 1..]) then None
      else Some((branch[..n], rest[..k], rest[k + 1..]))
  }

  predicate AllDigits(s: string) { s != [] && forall i :: 0 <= i < |s| ==> Digit(s[i]) }

  lemma DissectedDigits(types: set<string>, branch: string)
    requires Dissect(types, branch).Some?
    ensures var d := Dissect(types, branch).value;
      && AllDigits(d.1) && d.0 in types && SlugText(d.2) && branch == d.0 + "/" + d.1 + "-" + d.2
  {
    hide SlugText;
    var d, n := Dissect(types, branch).value, UpToSlash(branch);
    var rest := branch[n + 1..];
    var k := DigitsLength(rest);
    assert d == (branch[..n], rest[..k], rest[k + 1..]) && k > 0;
    assert AllDigits(rest[..k]);
    hide Dissect, UpToSlash, DigitsLength, AllDigits;
    CutAt(branch, n, '/');
    CutAt(rest, k, '-');
    Reassemble(branch[..n], rest[..k], rest[k + 1..]);
  }

  lemma CutAt(s: string, n: nat, c: char)
    requires n < |s| && s[n] == c
    ensures s == s[..n] + ([c] + s[n + 1..])
  {
  }

  lemma Reassemble(a: string, b: string, c: string)
    ensures a + (['/'] + (b + (['-'] + c))) == a + "/" + b + "-" + c
  {
  }

  /** The number must be a safe integer; integration branches also need it positive. */
  function RecognizeBranchName(branch: string): Option<Parts> {
    match Dissect(ORDINARY, branch)
    case Some(d) =>
      DissectedDigits(ORDINARY, branch);
      if Number(d.1) > MAX_SAFE_INTEGER then None else Some(Parts(d.0, Number(d.1), d.2))
    case None =>
      match Dissect(INTEGRATION, branch)
      case None => None
      case Some(d) =>
        DissectedDigits(INTEGRATION, branch);
        if Number(d.1) > MAX_SAFE_INTEGER || Number(d.1) < 1 then None else Some(Parts(d.0, Number(d.1), d.2))
  }

  lemma {:induction false} NumberOfDecimal(n: nat)
    ensures Number(Decimal(n)) == n
  {
    var d := Decimal(n);
    assert d[|d| - 1] as int - '0' as int == n % 10;
    if n >= 10 {
      NumberOfDecimal(n / 10);
      assert d[..|d| - 1] == Decimal(n / 10);
    }
  }

  lemma {:induction false} LeadingPart(head: string, rest: string)
    requires forall i :: 0 <= i < |head| ==> head[i] != '/'
    ensures UpToSlash(head + "/" + rest) == |head|
  {
    if head != [] { assert (head + "/" + rest)[1..] == head[1..] + "/" + rest; LeadingPart(head[1..], rest); }
  }

  lemma {:induction false} LeadingDigits(digits: string, rest: string)
    requires (forall i :: 0 <= i < |digits| ==> Digit(digits[i])) && (rest != [] ==> !Digit(rest[0]))
    ensures DigitsLength(digits + rest) == |digits|
  {
    if digits != [] {
      assert (digits + rest)[1..] == digits[1..] + rest;
      LeadingDigits(digits[1..], rest);
    } else {
      assert digits + rest == rest;
    }
  }

  predicate Slashless(types: set<string>) { forall t :: t in types ==> forall i :: 0 <= i < |t| ==> t[i] != '/' }

  lemma VocabulariesAreSlashless()
    ensures Slashless(ORDINARY) && Slashless(INTEGRATION)
  {
  }

  lemma VocabulariesAreDisjoint(t: string)
    ensures t in INTEGRATION ==> t !in ORDINARY
  {
    if t in INTEGRATION {
      assert t == "epic" || t == "issue";
      assert "epic"[0] == 'e' && "issue"[0] == 'i';
    }
  }

  /** Dissecting undoes assembling. */
  lemma Assembled(types: set<string>, t: string, digits: string, slug: string)
    requires (forall i :: 0 <= i < |t| ==> t[i] != '/') && AllDigits(digits) && SlugText(slug)
    ensures Dissect(types, t + "/" + digits + "-" + slug) == if t in types then Some((t, digits, slug)) else None
  {
    var rest := digits + ("-" + slug);
    var branch := t + "/" + digits + "-" + slug;
    assert branch == t + "/" + rest;
    LeadingPart(t, rest);
    LeadingDigits(digits, "-" + slug);
    assert branch[|t| + 1..] == rest && branch[..|t|] == t;
    assert rest[..|digits|] == digits && rest[|digits| + 1..] == slug && rest[|digits|] == '-';
  }

  /** What was derived is recognised with all its parts. */
  lemma RecognizeUndoesDerive(p: Parts)
    ensures DeriveBranchName(p).Some? ==> RecognizeBranchName(DeriveBranchName(p).value) == Some(p)
    ensures DeriveIntegrationBranchName(p).Some? ==> RecognizeBranchName(DeriveIntegrationBranchName(p).value) == Some(p)
  {
    hide SlugText;
    VocabulariesAreSlashless();
    VocabulariesAreDisjoint(p.type_);
    NumberOfDecimal(p.issueNumber);
    if DeriveBranchName(p).Some? || DeriveIntegrationBranchName(p).Some? {
      hide Slashless;
      TypeIsSlashless(p.type_);
      Assembled(ORDINARY, p.type_, Decimal(p.issueNumber), p.slug);
      Assembled(INTEGRATION, p.type_, Decimal(p.issueNumber), p.slug);
    }
  }

  lemma TypeIsSlashless(t: string)
    requires t in ORDINARY || t in INTEGRATION
    ensures forall i :: 0 <= i < |t| ==> t[i] != '/'
  {
    VocabulariesAreSlashless();
  }

  const SLUG_CHARS: set<char> := LOWER + DIGITS + {'-'}

  predicate SlugLike(s: string) { s != [] && forall i :: 0 <= i < |s| ==> s[i] in SLUG_CHARS }

  lemma SlugLikeIff(s: string)
    ensures SlugText(s) <==> SlugLike(s)
  {
    forall c: char ensures LowerAlnum(c) || c == '-' <==> c in SLUG_CHARS {
      hide LOWER, DIGITS;
      InLower(c);
      InDigits(c);
    }
    hide SLUG_CHARS;
  }

  ghost predicate Spelled(branch: string, p: Parts, digits: string) {
    && AllDigits(digits) && Number(digits) == p.issueNumber && SlugLike(p.slug)
    && branch == p.type_ + "/" + digits + "-" + p.slug
  }

  /**
   Exactly the spellings of parts are recognised: any digits, leading zeros or not, whose number is a safe
   integer, and for the integration types at least one.
   */
  lemma RecognizedIff(branch: string, p: Parts)
    ensures RecognizeBranchName(branch) == Some(p) <==>
      && (p.type_ in ORDINARY || (p.type_ in INTEGRATION && p.issueNumber >= 1)) && p.issueNumber <= 9007199254740991
      && exists digits :: Spelled(branch, p, digits)
  {
    VocabulariesAreDisjoint(p.type_);
    SlugLikeIff(p.slug);
    if RecognizeBranchName(branch) == Some(p) {
      hide SlugText, SlugLike, AllDigits, Number;
      var types := if Dissect(ORDINARY, branch).Some? then ORDINARY else INTEGRATION;
      DissectedDigits(types, branch);
      assert Spelled(branch, p, Dissect(types, branch).value.1);
    }
    if (p.type_ in ORDINARY || p.type_ in INTEGRATION) && exists digits :: Spelled(branch, p, digits) {
      var digits :| Spelled(branch, p, digits);
      hide SlugText, SlugLike, AllDigits, Number, Dissect;
      TypeIsSlashless(p.type_);
      Assembled(ORDINARY, p.type_, digits, p.slug);
      Assembled(INTEGRATION, p.type_, digits, p.slug);
    }
  }

  /** The derived names are exactly the recognised ones whose positive number is written in plain decimal, each by its own vocabulary. */
  lemma DerivedIffRecognized(branch: string, p: Parts)
    ensures DeriveBranchName(p) == Some(branch) || DeriveIntegrationBranchName(p) == Some(branch) <==>
      && RecognizeBranchName(branch) == Some(p) && p.issueNumber >= 1
      && branch == p.type_ + "/" + Decimal(p.issueNumber) + "-" + p.slug
    ensures DeriveBranchName(p).Some? ==> p.type_ in {"feat", "fix", "docs", "refactor", "test", "chore"}
    ensures DeriveIntegrationBranchName(p).Some? ==> p.type_ in {"epic", "issue"}
  {
    hide SlugText, RecognizeBranchName, Spelled;
    RecognizeUndoesDerive(p);
    RecognizedIff(branch, p);
    SlugLikeIff(p.slug);
    if RecognizeBranchName(branch) == Some(p) { SpelledSlug(branch, p); }
  }

  lemma SpelledSlug(branch: string, p: Parts)
    requires exists digits :: Spelled(branch, p, digits)
    ensures SlugLike(p.slug)
  {
  }

  /** A leading zero does not change the number. */
  lemma {:induction false} LeadingZero(digits: string)
    requires AllDigits(digits)
    ensures AllDigits("0" + digits) && Number("0" + digits) == Number(digits)
  {
    var more := "0" + digits;
    assert more[..|more| - 1] == "0" + digits[..|digits| - 1];
    if |digits| > 1 { LeadingZero(digits[..|digits| - 1]); } else { assert more[..1] == "0" && Number("0") == 0; }
  }

  // ---- the converse ------------------------------------------------------------------------------------

  predicate NoLeadingZero(digits: string) { digits != [] && digits[0] != '0' }

  lemma {:induction false} CanonicalDigits(digits: string)
    requires AllDigits(digits)
    ensures Decimal(Number(digits)) == digits <==> NoLeadingZero(digits) || digits == "0"
    ensures NoLeadingZero(digits) ==> Number(digits) > 0
  {
    var n, front, last := Number(digits), digits[..|digits| - 1], digits[|digits| - 1];
    assert n % 10 == last as int - '0' as int;
    assert digits == front + [last];
    if front == [] {
      assert Number(front) == 0 && n < 10;
      assert Decimal(n) == [last];
    } else {
      CanonicalDigits(front);
      assert n / 10 == Number(front);
      if n < 10 {
        assert Number(front) == 0 && |Decimal(n)| == 1;
      } else {
        assert Decimal(n) == Decimal(Number(front)) + [last];
        DecimalNeverStartsZero(Number(front));
      }
    }
  }

  lemma {:induction false} DecimalNeverStartsZero(n: nat)
    requires n > 0
    ensures Decimal(n)[0] != '0'
  {
    if n >= 10 { DecimalNeverStartsZero(n / 10); }
  }

  /** A recognised ordinary branch is re-derived exactly when its number is written without a leading zero. */
  lemma DeriveUndoesRecognizeIff(branch: string)
    requires Dissect(ORDINARY, branch).Some? && RecognizeBranchName(branch).Some?
    ensures DeriveBranchName(RecognizeBranchName(branch).value) == Some(branch) <==> NoLeadingZero(Dissect(ORDINARY, branch).value.1)
  {
    hide SlugText, Dissect;
    var d := Dissect(ORDINARY, branch).value;
    var p := RecognizeBranchName(branch).value;
    DissectedDigits(ORDINARY, branch);
    CanonicalDigits(d.1);
    if DeriveBranchName(p) == Some(branch) {
      SamePartsSpell(d.0, Decimal(p.issueNumber), d.1, d.2);
      assert Number("0") == 0;
    }
  }

  lemma SamePartsSpell(t: string, x: string, y: string, slug: string)
    requires t + "/" + x + "-" + slug == t + "/" + y + "-" + slug
    ensures x == y
  {
    var a, b := t + "/" + x + "-" + slug, t + "/" + y + "-" + slug;
    assert |x| == |y|;
    assert x == a[|t| + 1..|t| + 1 + |x|] && y == b[|t| + 1..|t| + 1 + |y|];
  }
}
