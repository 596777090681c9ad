/** The worker-facing handoff of an issued Change: one healthy Draft with one canonical pair, and nothing local. */
module Handoff {
  import opened Wrappers
  import opened Ordering
  import opened Change
  import opened Projection
  import opened ProjectionTheorems
  import opened AbortRecovery
  import opened Issuance
  import opened ProjectionContract
  import GitHubWorld
  import IssuanceRuns

  // ---- options -------------------------------------------------------------------------------

  datatype Reference = Reference(host: string, repositoryId: string, number: nat)

  datatype Compatibility = ImplementationNative | HistoricalIssueRoot

  datatype Native = Native(
    compatibility: Option<Compatibility>, implementation: Option<Reference>, authorization: Option<Reference>,
    sources: Option<seq<Reference>>)

  const NOT_NATIVE := Native(None, None, None, None)

  datatype RepositoryIdentity = RepositoryIdentity(host: string, repositoryId: string, name: string)

  datatype Options = Options(name: Option<string>, identity: Option<RepositoryIdentity>, native: Native)

  const NO_OPTIONS := Options(None, None, NOT_NATIVE)

  const MAX_LOCATOR: nat := 256

  /** `owner/name`: two non-empty parts without white space around exactly one slash. */
  predicate ValidLocator(s: string) {
    0 < |s| <= MAX_LOCATOR && exists k :: 0 < k < |s| - 1 && s[k] == '/' && WordsAround(s, k)
  }

  predicate WordsAround(s: string, k: nat) { forall i :: 0 <= i < |s| && i != k ==> !IsWhitespace(s[i]) && s[i] != '/' }

  /** The locator evidence matches the Change and whatever locator the caller gave. */
  predicate RepositoryFits(id: Identity, name: Option<string>, evidence: Option<RepositoryIdentity>) {
    && (name.Some? ==> ValidLocator(name.value))
    && (evidence.Some? ==>
          && ValidLocator(evidence.value.name) && ValidIdentity(Identity(evidence.value.host, evidence.value.repositoryId, id.rootIssue))
          && evidence.value.host == id.host && evidence.value.repositoryId == id.repositoryId
          && (name.Some? ==> Lower(name.value) == Lower(evidence.value.name)))
  }

  /** Only evidence names the repository; an unproven locator is dropped. */
  function BoundName(evidence: Option<RepositoryIdentity>): Option<string> {
    if evidence.Some? then Some(evidence.value.name) else None
  }

  predicate HistoricalFits(n: Native, rootIssue: nat) {
    && n.implementation.None? && n.authorization.None?
    && n.sources.Some? && exists i :: 0 <= i < |n.sources.value| && n.sources.value[i].number == rootIssue
  }

  /** Native topology on the projecting side: the Implementation is the root of this very Change. */
  predicate NativeFits(n: Native, id: Identity) {
    n == NOT_NATIVE ||
    match n.compatibility
    case None => false
    case Some(ImplementationNative) =>
      n.implementation == Some(Reference(id.host, id.repositoryId, id.rootIssue)) && n.authorization == n.implementation
    case Some(HistoricalIssueRoot) => HistoricalFits(n, id.rootIssue)
  }

  /** On the validating side the Implementation is compared by number only. */
  predicate TransportedNativeFits(n: Native, id: Identity) {
    n == NOT_NATIVE ||
    match n.compatibility
    case None => false
    case Some(ImplementationNative) =>
      n.implementation.Some? && n.implementation.value.number == id.rootIssue && n.authorization == n.implementation
    case Some(HistoricalIssueRoot) => HistoricalFits(n, id.rootIssue)
  }

  // ---- the handoff ------------------------------------------------------------------------------

  datatype Handoff = Handoff(
    identity: Identity, name: Option<string>, state: State, branch: string, baseBranch: string, pullRequest: nat, native: Native)

  function NamedCanonical(branch: string): Candidate<BranchEvidence> -> bool {
    (c: Candidate<BranchEvidence>) => c.class_ == Canonical && c.evidence.name == branch
  }

  function NumberedCanonical(branch: string, base: string, number: nat): Candidate<PullRequestEvidence> -> bool {
    (c: Candidate<PullRequestEvidence>) =>
      c.class_ == Canonical && c.evidence.number == number && c.evidence.head == branch && c.evidence.base == base
  }

  predicate OpenDraft(p: PullRequestEvidence, rootIssue: nat) {
    p.open && p.draft && !p.merged && p.accepted != Some(true) && p.rootIssue in {None, Some(rootIssue)}
  }

  predicate OnePair(p: Projection, branch: string, base: string, number: nat, rootIssue: nat) {
    var branches := Filter(p.branches, NamedCanonical(branch));
    var pullRequests := Filter(p.pullRequests, NumberedCanonical(branch, base, number));
    && |branches| == 1 && branches[0].evidence.rootIssue in {None, Some(rootIssue)}
    && |pullRequests| == 1 && OpenDraft(pullRequests[0].evidence, rootIssue)
  }

  /** The Change names its canonical pair, and the candidates show exactly that pair. */
  predicate PairShown(p: Projection, change: Change) {
    && p.canonicalBranch.Some? && p.canonicalBaseBranch.Some?
    && change.artifacts.branch == p.canonicalBranch && change.artifacts.pullRequest.Some?
    && OnePair(p, p.canonicalBranch.value, p.canonicalBaseBranch.value, change.artifacts.pullRequest.value,
               change.identity.rootIssue)
  }

  /** The projection may be handed off. */
  predicate Admissible(p: Projection, o: Options) {
    && ValidResult(p) && p.valid && p.status == Healthy && p.diagnostics == [] && p.change.Some?
    && var change := p.change.value;
       && RepositoryFits(change.identity, o.name, o.identity) && NativeFits(o.native, change.identity)
       && change.state == Draft && PairShown(p, change)
  }

  function ProjectHandoff(p: Projection, o: Options): Option<Handoff> {
    if !Admissible(p, o) then None
    else
      var change := p.change.value;
      Some(Handoff(change.identity, BoundName(o.identity), Draft, p.canonicalBranch.value, p.canonicalBaseBranch.value,
                   change.artifacts.pullRequest.value, o.native))
  }

  predicate ValidHandoff(h: Handoff, evidence: Option<RepositoryIdentity>) {
    && ValidIdentity(h.identity) && h.state == Draft && ValidText(h.branch, MAX_TEXT) && ValidText(h.baseBranch, MAX_TEXT)
    && ValidNumber(h.pullRequest) && RepositoryFits(h.identity, h.name, evidence) && TransportedNativeFits(h.native, h.identity)
  }

  /** The validator at a transport boundary. */
  function ValidateHandoff(h: Handoff, evidence: Option<RepositoryIdentity>): Option<Handoff> {
    if ValidHandoff(h, evidence) then Some(h.(name := BoundName(evidence))) else None
  }

  /** Problems accumulate here as well; a locator without evidence is dropped, never trusted. */
  method CheckHandoff(h: Handoff, evidence: Option<RepositoryIdentity>) returns (r: Option<Handoff>, problems: seq<Problem>)
    ensures r == ValidateHandoff(h, evidence) && (r.Some? <==> problems == [])
  {
    problems := If(h.state != Draft, NotDraft) + If(!ValidText(h.branch, MAX_TEXT), BranchMissing);
    problems := problems + If(!ValidText(h.baseBranch, MAX_TEXT), BaseMissing) + If(!ValidNumber(h.pullRequest), PullRequestMissing);
    problems := problems + If(!RepositoryFits(h.identity, h.name, evidence), RepositoryConflict);
    problems := problems + If(!TransportedNativeFits(h.native, h.identity), NativeInvalid);
    problems := problems + If(!ValidIdentity(h.identity), IdentityInvalid);
    if problems != [] { return None, problems; }
    r := Some(h.(name := BoundName(evidence)));
  }

  datatype Problem =
    | InvalidProjection | NotHealthy | CarriesDiagnostics | ChangeMissing | RepositoryConflict | NativeInvalid | NotDraft
    | BranchMissing | BaseMissing | BranchMismatch | PullRequestMissing | BranchAmbiguous | PullRequestAmbiguous
    | BranchConflict | PullRequestNotDraft | IdentityInvalid

  function If(condition: bool, problem: Problem): seq<Problem> { if condition then [problem] else [] }

  /** Problems accumulate; a handoff is made only when there is none. */
  method TryProjectHandoff(p: Projection, o: Options) returns (h: Option<Handoff>, problems: seq<Problem>)
    ensures h == ProjectHandoff(p, o) && (h.Some? <==> problems == [])
  {
    if !ValidResult(p) { return None, [InvalidProjection]; }
    if !p.valid || p.status != Healthy { return None, [NotHealthy]; }
    if p.diagnostics != [] { return None, [CarriesDiagnostics]; }
    if p.change.None? { return None, [ChangeMissing]; }
    var change := p.change.value;
    problems := If(!RepositoryFits(change.identity, o.name, o.identity), RepositoryConflict);
    problems := problems + If(!NativeFits(o.native, change.identity), NativeInvalid);
    if change.state != Draft { return None, [NotDraft]; }
    problems := problems + If(p.canonicalBranch.None?, BranchMissing) + If(p.canonicalBaseBranch.None?, BaseMissing);
    problems := problems + If(p.canonicalBranch.Some? && change.artifacts.branch != p.canonicalBranch, BranchMismatch);
    problems := problems + If(change.artifacts.pullRequest.None?, PullRequestMissing);
    if p.canonicalBranch.None? || p.canonicalBaseBranch.None? || change.artifacts.pullRequest.None? { return None, problems; }
    var branch, base, number := p.canonicalBranch.value, p.canonicalBaseBranch.value, change.artifacts.pullRequest.value;
    var root := change.identity.rootIssue;
    var branches := Filter(p.branches, NamedCanonical(branch));
    var pullRequests := Filter(p.pullRequests, NumberedCanonical(branch, base, number));
    problems := problems + If(|branches| != 1, BranchAmbiguous) + If(|pullRequests| != 1, PullRequestAmbiguous);
    problems := problems + If(branches != [] && branches[0].evidence.rootIssue !in {None, Some(root)}, BranchConflict);
    problems := problems + If(pullRequests != [] && !OpenDraft(pullRequests[0].evidence, root), PullRequestNotDraft);
    if problems != [] { return None, problems; }
    h := Some(Handoff(change.identity, BoundName(o.identity), Draft, branch, base, number, o.native));
  }

  // ---- theorems ------------------------------------------------------------------------------------

  /** The place of the one canonical branch of a handoff among the candidates. */
  predicate BranchAt(p: Projection, h: Handoff, i: nat) {
    i < |p.branches| && p.branches[i].class_ == Canonical && p.branches[i].evidence.name == h.branch
  }

  /** The place of its one canonical pull request. */
  predicate PullRequestAt(p: Projection, h: Handoff, i: nat) {
    && i < |p.pullRequests| && p.pullRequests[i].class_ == Canonical && p.pullRequests[i].evidence.number == h.pullRequest
    && p.pullRequests[i].evidence.head == h.branch && p.pullRequests[i].evidence.base == h.baseBranch
  }

  /**
   Every accepted handoff, from whatever projection, comes from a healthy Draft with exactly one canonical branch and exactly one canonical
   pull request, which is open, unmerged, unaccepted and a draft; neither claims another Issue.
   */
  lemma AcceptedHandoffIsHealthyDraft(p: Projection, o: Options) returns (i: nat, j: nat)
    requires ProjectHandoff(p, o).Some?
    ensures var h := ProjectHandoff(p, o).value;
      && p.status == Healthy && p.change.Some? && p.change.value.state == Draft && h.identity == p.change.value.identity
      && Some(h.branch) == p.canonicalBranch == p.change.value.artifacts.branch
      && Some(h.baseBranch) == p.canonicalBaseBranch && Some(h.pullRequest) == p.change.value.artifacts.pullRequest
      && BranchAt(p, h, i) && (forall k: nat :: BranchAt(p, h, k) ==> k == i)
      && PullRequestAt(p, h, j) && (forall k: nat :: PullRequestAt(p, h, k) ==> k == j)
      && var branch, pullRequest := p.branches[i].evidence, p.pullRequests[j].evidence;
         && (branch.rootIssue.None? || branch.rootIssue == Some(h.identity.rootIssue))
         && (pullRequest.rootIssue.None? || pullRequest.rootIssue == Some(h.identity.rootIssue))
         && pullRequest.open && pullRequest.draft && !pullRequest.merged && pullRequest.accepted != Some(true)
  {
    hide Filter;
    var h := ProjectHandoff(p, o).value;
    i := OnlySelected(p.branches, NamedCanonical(h.branch));
    j := OnlySelected(p.pullRequests, NumberedCanonical(h.branch, h.baseBranch, h.pullRequest));
  }

  /** Where the one selected element stands. */
  lemma {:induction false} OnlySelected<T>(s: seq<T>, p: T -> bool) returns (i: nat)
    requires |Filter(s, p)| == 1
    ensures i < |s| && p(s[i]) && Filter(s, p) == [s[i]] && forall k: nat :: k < |s| && p(s[k]) ==> k == i
  {
    var front, last := s[..|s| - 1], s[|s| - 1];
    assert s == front + [last];
    FilterSnoc(front, last, p);
    hide Filter;
    assert forall k :: 0 <= k < |front| ==> s[k] == front[k];
    if p(last) {
      i := |s| - 1;
      assert Filter(front, p) == [] && forall x :: x in front ==> !p(x);
      assert forall k :: 0 <= k < |front| ==> s[k] in front;
    } else {
      i := OnlySelected(front, p);
    }
  }

  /** What is projected passes the validator unchanged, under the same repository evidence. */
  lemma HandoffValidates(p: Projection, o: Options)
    requires ProjectHandoff(p, o).Some?
    ensures ValidateHandoff(ProjectHandoff(p, o).value, o.identity) == Some(ProjectHandoff(p, o).value)
  {
  }

  /** The validator is weaker in one respect only: it does not see in which repository the Implementation stands. */
  lemma NativeFitsIff(n: Native, id: Identity)
    ensures NativeFits(n, id) <==>
      && TransportedNativeFits(n, id)
      && (n.compatibility == Some(ImplementationNative) ==>
            n.implementation.value.host == id.host && n.implementation.value.repositoryId == id.repositoryId)
  {
  }

  lemma OneCanonicalPullRequest(f: Facts, number: nat)
    requires Consistent(f) && !OffBase(f) && |CanonicalPullRequests(f)| == 1 && CanonicalPullRequests(f)[0].number == number
    ensures var found := Filter(PullRequestCandidates(f), NumberedCanonical(CanonicalBranch(f), f.baseBranch, number));
      |found| == 1 && found[0].evidence == CanonicalPullRequests(f)[0]
  {
    NoConflictingPullRequest(f);
    assert PullRequestCandidates(f) == Map(f.pullRequests, Classified(f));
    NumberedAmongCanonical(f, number);
    hide Filter;
    FilterImage(f.pullRequests, Classified(f), NumberedCanonical(CanonicalBranch(f), f.baseBranch, number), NumberedMatch(f, number));
  }

  function NumberedMatch(f: Facts, number: nat): PullRequestEvidence -> bool {
    (p: PullRequestEvidence) => IdentityMatches(f, p) && p.number == number
  }

  function Numbered(number: nat): PullRequestEvidence -> bool { (p: PullRequestEvidence) => p.number == number }

  lemma NumberedAmongCanonical(f: Facts, number: nat)
    requires |CanonicalPullRequests(f)| == 1 && CanonicalPullRequests(f)[0].number == number
    ensures Filter(f.pullRequests, NumberedMatch(f, number)) == CanonicalPullRequests(f)
  {
    FilterTwice(f.pullRequests, MatchesIdentity(f), Numbered(number), NumberedMatch(f, number));
    var only := CanonicalPullRequests(f);
    assert only == [] + [only[0]];
    FilterSnoc([], only[0], Numbered(number));
  }

  lemma DraftPair(input: Input)
    requires Project(input).status == Healthy && Project(input).change.Some? && Project(input).change.value.state == Draft
    ensures PairShown(Project(input), Project(input).change.value)
  {
    hide ProjectFacts, Project, PairShown, Readable, FactsOf;
    DiagnosticsExplainRejection(input);
    ValidMatches(input);
    ReadableFacts(input);
    DraftPairOfFacts(FactsOf(input));
  }

  lemma DraftPairOfFacts(f: Facts)
    requires ProjectFacts(f).status == Healthy && ProjectFacts(f).change.Some? && ProjectFacts(f).change.value.state == Draft
    requires forall p :: p in f.pullRequests ==> ValidPullRequest(p)
    ensures PairShown(ProjectFacts(f), ProjectFacts(f).change.value)
  {
    hide TallyOf, CanonicalBranch, BranchCandidates, PullRequestCandidates, OffBase, RootClaimsAgree, Consistent,
         CanonicalBranches, CanonicalPullRequests, AnyConflict, Filter, MergeProvenance, ValidText, ValidNumber;
    HealthyIff(f);
    HealthyChange(f);
    HealthyShape(f);
    var only := CanonicalPullRequests(f)[0];
    assert ProjectFacts(f).change == Some(ProjectedChange(f));
    assert ValidPullRequest(only);
    assert OpenDraft(only, f.identity.rootIssue);
    OneCanonicalPullRequest(f, only.number);
    assert |CanonicalBranches(f)| == 1;
    OneCanonicalBranch(f);
    var p := ProjectFacts(f);
    assert p.canonicalBranch == Some(CanonicalBranch(f)) && p.canonicalBaseBranch == Some(f.baseBranch);
    assert p.branches == BranchCandidates(f) && p.pullRequests == PullRequestCandidates(f);
    assert p.change.value.artifacts.pullRequest == Some(only.number);
  }

  lemma OneCanonicalBranch(f: Facts)
    requires Consistent(f) && |CanonicalBranches(f)| == 1
    ensures var found := Filter(BranchCandidates(f), NamedCanonical(CanonicalBranch(f)));
      |found| == 1 && found[0].evidence.rootIssue in {None, Some(f.identity.rootIssue)}
  {
    CanonicalBranchCandidates(f);
    hide Filter;
    var name := CanonicalBranch(f);
    var found := Filter(BranchCandidates(f), NamedCanonical(name));
    FilterCongruence(BranchCandidates(f), NamedCanonical(name), CanonicalBranchCandidate(name));
    assert found[0] in found && found[0] in BranchCandidates(f) && NamedCanonical(name)(found[0]);
    assert found[0].class_ == Canonical;
    var i :| 0 <= i < |f.branches| && BranchCandidates(f)[i] == found[0];
    assert found[0] == Candidate(f.branches[i], ClassifyBranch(f, f.branches[i]));
    CanonicalClaims(f, f.branches[i]);
  }

  lemma CanonicalClaims(f: Facts, b: BranchEvidence)
    requires ClassifyBranch(f, b) == Canonical
    ensures b.rootIssue.None? || b.rootIssue == Some(f.identity.rootIssue)
  {
    hide NameCounts, CanonicalBranch;
  }

  predicate Word(s: string) { s != [] && forall i :: 0 <= i < |s| ==> !IsWhitespace(s[i]) && s[i] != '/' }

  /** `owner/name`, said without looking for the slash. */
  ghost predicate IsLocator(s: string) { |s| <= 256 && exists owner, name :: Word(owner) && Word(name) && s == owner + "/" + name }

  lemma LocatorIff(s: string)
    ensures ValidLocator(s) <==> IsLocator(s)
  {
    if ValidLocator(s) {
      var k :| 0 < k < |s| - 1 && s[k] == '/' && WordsAround(s, k);
      assert Word(s[..k]) && Word(s[k + 1..]) && s == s[..k] + "/" + s[k + 1..];
    }
    if IsLocator(s) {
      var owner, name :| Word(owner) && Word(name) && s == owner + "/" + name;
      assert s[|owner|] == '/' && (forall i :: 0 <= i < |owner| ==> s[i] == owner[i])
        && forall i :: |owner| < i < |s| ==> s[i] == name[i - |owner| - 1];
      assert WordsAround(s, |owner|);
    }
  }

  /** Locator and evidence, where given, are well-formed and name one repository, which is that of the Change. */
  ghost predicate NamesRepository(id: Identity, name: Option<string>, evidence: Option<RepositoryIdentity>) {
    && (name.Some? ==> IsLocator(name.value))
    && (evidence.Some? ==> IsLocator(evidence.value.name) && evidence == Some(RepositoryIdentity(id.host, id.repositoryId, evidence.value.name)))
    && (name.Some? && evidence.Some? ==> Lower(name.value) == Lower(evidence.value.name))
  }

  lemma NamesRepositoryIff(id: Identity, name: Option<string>, evidence: Option<RepositoryIdentity>)
    requires ValidIdentity(id)
    ensures NamesRepository(id, name, evidence) <==> RepositoryFits(id, name, evidence)
  {
    hide IsLocator, ValidLocator, ValidIdentity, Lower;
    if name.Some? { LocatorIff(name.value); }
    if evidence.Some? { LocatorIff(evidence.value.name); }
  }

  /** Nothing is said; or this very Change is the Implementation and authorizes itself; or the root is among the sources. */
  ghost predicate RootedIn(n: Native, id: Identity) {
    var root := Reference(id.host, id.repositoryId, id.rootIssue);
    || n == Native(None, None, None, None)
    || n == Native(Some(ImplementationNative), Some(root), Some(root), n.sources)
    || (n.sources.Some? && n == Native(Some(HistoricalIssueRoot), None, None, n.sources)
        && exists source :: source in n.sources.value && source.number == id.rootIssue)
  }

  lemma RootedInIff(n: Native, id: Identity)
    ensures RootedIn(n, id) <==> NativeFits(n, id)
  {
    if n.sources.Some? && exists source :: source in n.sources.value && source.number == id.rootIssue {
      var source :| source in n.sources.value && source.number == id.rootIssue;
      var i :| 0 <= i < |n.sources.value| && n.sources.value[i] == source;
    }
  }

  /**
   Over projections computed from evidence, and whatever the caller adds: a handoff is made exactly for a healthy Draft whose
   repository and topology, where given, are its own. It carries the pair and passes its validator unchanged.
   */
  lemma HandoffIff(input: Input, o: Options)
    ensures var p := Project(input);
      ProjectHandoff(p, o).Some? <==>
        && p.status == Healthy && p.change.Some? && p.change.value.state == Draft
        && NamesRepository(input.identity, o.name, o.identity) && RootedIn(o.native, input.identity)
    ensures ProjectHandoff(Project(input), o).Some? ==>
      var p, h := Project(input), ProjectHandoff(Project(input), o).value;
      && p.canonicalBranch.Some? && p.change.value.artifacts.pullRequest.Some?
      && h == Handoff(input.identity, if o.identity.Some? then Some(o.identity.value.name) else None, Draft, p.canonicalBranch.value,
                      input.baseBranch, p.change.value.artifacts.pullRequest.value, o.native)
      && ValidateHandoff(h, o.identity) == Some(h)
  {
    hide Project, ValidResult, PairShown, ValidHandoff, NativeFits, RepositoryFits, NamesRepository, RootedIn, ValidIdentity;
    var p := Project(input);
    DiagnosticsExplainRejection(input);
    RootedInIff(o.native, input.identity);
    if p.status == Healthy && p.change.Some? && p.change.value.state == Draft {
      ValidProjectionShape(input);
      IdentityIsValid(p.change.value);
      NamesRepositoryIff(input.identity, o.name, o.identity);
      ValidMatches(input);
      ComputedResultIsValid(input);
      DraftPair(input);
      BaseIsKept(input);
      if ProjectHandoff(p, o).Some? { HandoffValidates(p, o); }
    }
  }

  /** Nothing is said; or the Implementation with the root's number authorizes itself; or the root is among the sources. */
  ghost predicate Numbers(n: Native, rootIssue: nat) {
    || n == Native(None, None, None, None)
    || (n.implementation.Some? && n.implementation.value.number == rootIssue
        && n == Native(Some(ImplementationNative), n.implementation, n.implementation, n.sources))
    || (n.sources.Some? && n == Native(Some(HistoricalIssueRoot), None, None, n.sources)
        && exists source :: source in n.sources.value && source.number == rootIssue)
  }

  lemma NumbersIff(n: Native, id: Identity)
    ensures Numbers(n, id.rootIssue) <==> TransportedNativeFits(n, id)
  {
    if n.sources.Some? && exists source :: source in n.sources.value && source.number == id.rootIssue {
      var source :| source in n.sources.value && source.number == id.rootIssue;
      var i :| 0 <= i < |n.sources.value| && n.sources.value[i] == source;
    }
  }

  /** Which transported handoffs validate, and to what: a locator that no evidence names is dropped. */
  lemma ValidatesIff(h: Handoff, evidence: Option<RepositoryIdentity>)
    ensures ValidateHandoff(h, evidence).Some? <==>
      && h.state == Draft && ValidIdentity(h.identity) && ValidArtifacts(Artifacts(Some(h.branch), Some(h.pullRequest)))
      && ValidText(h.baseBranch, 255) && NamesRepository(h.identity, h.name, evidence) && Numbers(h.native, h.identity.rootIssue)
    ensures ValidateHandoff(h, evidence).Some? ==>
      ValidateHandoff(h, evidence).value == h.(name := if evidence.Some? then Some(evidence.value.name) else None)
  {
    hide NamesRepository, Numbers, RepositoryFits, TransportedNativeFits, ValidIdentity, ValidText;
    NumbersIff(h.native, h.identity);
    if ValidIdentity(h.identity) { NamesRepositoryIff(h.identity, h.name, evidence); }
  }

  lemma IdentityIsValid(change: Change)
    requires ValidChange(change)
    ensures ValidIdentity(change.identity)
  {
  }

  /** Without options nothing but the healthy Draft is asked for. */
  lemma HandoffIffHealthyDraft(input: Input)
    ensures var p := Project(input);
      ProjectHandoff(p, NO_OPTIONS).Some? <==> p.status == Healthy && p.change.Some? && p.change.value.state == Draft
    ensures ProjectHandoff(Project(input), NO_OPTIONS).Some? ==>
      var p, h := Project(input), ProjectHandoff(Project(input), NO_OPTIONS).value;
      && h.identity == input.identity && Some(h.branch) == p.canonicalBranch && h.baseBranch == input.baseBranch
      && Some(h.pullRequest) == p.change.value.artifacts.pullRequest && ValidateHandoff(h, None) == Some(h)
  {
    hide Project, ProjectHandoff, ValidateHandoff;
    HandoffIff(input, NO_OPTIONS);
  }

  lemma BaseIsKept(input: Input)
    requires Project(input).valid
    ensures Project(input).canonicalBaseBranch == Some(input.baseBranch)
  {
    hide StatusOf, CanonicalBranch, AnyConflict, ProjectedChange;
  }

  /** A Change that was just issued can be handed off at once, with the branch and pull request the run created. */
  lemma IssuedChangeIsHandedOff(c: GitHubWorld.Setting, w: GitHubWorld.World, choice: GitHubWorld.Choice, listing: GitHubWorld.Listing)
    requires IssuanceRuns.AbsentWorld(c, w) && IssuanceRuns.RoomLeft(w) && IssuanceRuns.ValidChoice(c, w, choice)
    ensures var p := Project(GitHubWorld.Observe(c, IssuanceRuns.Issued(c, w, choice), listing));
      ProjectHandoff(p, NO_OPTIONS) ==
        Some(Handoff(c.identity, None, Draft, c.authority.branch, c.baseBranch, choice.number, NOT_NATIVE))
  {
    hide Project, PairShown, ValidResult;
    IssuanceRuns.IssuedProjection(c, w, choice, listing);
    HandoffIffHealthyDraft(GitHubWorld.Observe(c, IssuanceRuns.Issued(c, w, choice), listing));
  }
}
