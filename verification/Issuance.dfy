/** Idempotent issuance: create the canonical pair once, otherwise return the Change that exists. */
module Issuance {
  import opened Wrappers
  import opened Ordering
  import opened Change
  import opened Projection
  import opened ProjectionTheorems
  import opened Transition

  datatype Mode = Create | ReturnExisting

  /** What the post-effect projection must show; a create plan cannot know the pull-request number. */
  datatype Verification = Verification(branch: string, baseBranch: string, state: State, pullRequest: Option<nat>)

  datatype IssuancePlan = IssuancePlan(
    mode: Mode, source: Status, identity: Identity, key: string, result: Change, effects: seq<Effect>,
    verification: Verification)

  predicate HealthyState(s: State) { s in {Draft, Review, Accepted, Merged, Aborted} }

  function Verify(result: Change, branch: string, base: string): Verification {
    Verification(branch, base, result.state, result.artifacts.pullRequest)
  }

  function IssueRequest(change: Change, branch: string, base: string, plan: Option<PullRequestPlan>): Request {
    Request(Issue, change, Some(Target(Some(branch), Some(base), None, None, plan, None)))
  }

  // ---- the issuance validator -------------------------------------------------------------

  function FindPlan(effects: seq<Effect>): Option<PullRequestPlan> {
    if effects == [] then None
    else if effects[0].CreatePullRequest? then effects[0].plan
    else FindPlan(effects[1..])
  }

  predicate ValidVerification(v: Verification) {
    && ValidText(v.branch, MAX_TEXT) && ValidText(v.baseBranch, MAX_TEXT) && HealthyState(v.state)
    && (v.pullRequest.Some? ==> ValidNumber(v.pullRequest.value))
  }

  predicate CreateMatches(p: IssuancePlan) {
    && p.result.state == Draft && p.result.artifacts.pullRequest.None? && p.verification.pullRequest.None?
    && var defined := Change(p.result.identity, Defined, p.result.provenance, NO_ARTIFACTS);
       var expected := PlanTransition(IssueRequest(defined, p.verification.branch, p.verification.baseBranch, FindPlan(p.effects)));
       && expected.Success? && p.result == expected.value.result
       && Map(p.effects, NormalizeEffect) == expected.value.effects
  }

  predicate ReturnMatches(p: IssuancePlan) {
    && HealthyState(p.result.state) && p.result.artifacts.pullRequest.Some?
    && p.verification.pullRequest == p.result.artifacts.pullRequest && p.effects == []
  }

  predicate IssuanceAccepted(p: IssuancePlan) {
    && ValidIdentity(p.identity) && ValidText(p.key, MAX_KEY) && ValidChange(p.result) && ValidEffects(p.effects)
    && ValidVerification(p.verification)
    && p.identity == p.result.identity && p.key == IdentityKey(p.result.identity)
    && p.source == (if p.mode == Create then Absent else Healthy)
    && p.verification.state == p.result.state && Some(p.verification.branch) == p.result.artifacts.branch
    && if p.mode == Create then CreateMatches(p) else ReturnMatches(p)
  }

  function ValidateIssuance(p: IssuancePlan): Option<IssuancePlan> {
    if IssuanceAccepted(p) then Some(p.(effects := Map(p.effects, NormalizeEffect))) else None
  }

  // ---- the issuance planner ------------------------------------------------------------------

  function BuildIssuance(p: Projection, plan: Option<PullRequestPlan>): Option<IssuancePlan>
    requires p.change.Some? && p.canonicalBranch.Some? && p.canonicalBaseBranch.Some?
  {
    var change, branch, base := p.change.value, p.canonicalBranch.value, p.canonicalBaseBranch.value;
    if p.status == Absent then
      match PlanTransition(IssueRequest(change, branch, base, plan))
      case Failure(_) => None
      case Success(t) => Some(IssuancePlan(Create, Absent, change.identity, IdentityKey(change.identity), t.result, t.effects,
                                           Verify(t.result, branch, base)))
    else Some(IssuancePlan(ReturnExisting, Healthy, change.identity, IdentityKey(change.identity), change, [],
                           Verify(change, branch, base)))
  }

  function PlanIssuance(input: Input, plan: Option<PullRequestPlan>): Option<IssuancePlan> {
    var p := Project(input);
    if !p.valid || p.status !in {Absent, Healthy} || p.change.None? || p.canonicalBranch.None? || p.canonicalBaseBranch.None?
    then None
    else
      match BuildIssuance(p, plan)
      case None => None
      case Some(built) => ValidateIssuance(built)
  }

  // ---- the idempotency key ----------------------------------------------------------------------

  /** The only identities whose key the validator refuses: a host with a control character in it. */
  predicate KeyIsText(id: Identity) { forall i :: 0 <= i < |id.host| ==> !IsControl(id.host[i]) }

  lemma KeyBounded(id: Identity)
    requires ValidIdentity(id)
    ensures ValidText(IdentityKey(id), MAX_KEY) <==> KeyIsText(id)
  {
    SafeIntegerLength(id.rootIssue);
    var rest := "#" + id.repositoryId + "#" + Decimal(id.rootIssue);
    assert IdentityKey(id) == id.host + rest;
    assert forall i :: 0 <= i < |rest| ==> !IsControl(rest[i]);
    assert forall i :: 0 <= i < |id.host| ==> IdentityKey(id)[i] == id.host[i];
  }

  lemma {:induction false} DecimalInjective(m: nat, n: nat)
    requires Decimal(m) == Decimal(n)
    ensures m == n
  {
    var x, y := Decimal(m), Decimal(n);
    assert x[|x| - 1] == ('0' as int + m % 10) as char && y[|y| - 1] == ('0' as int + n % 10) as char;
    if m >= 10 && n >= 10 {
      assert x[..|x| - 1] == Decimal(m / 10) && y[..|y| - 1] == Decimal(n / 10);
      DecimalInjective(m / 10, n / 10);
    }
  }

  /** A text followed by `#` and characters that are never `#` splits in one way only. */
  lemma {:induction false} SplitLast(a: string, b: string, c: string, d: string)
    requires a + "#" + b == c + "#" + d
    requires (forall i :: 0 <= i < |b| ==> b[i] != '#') && (forall i :: 0 <= i < |d| ==> d[i] != '#')
    ensures a == c && b == d
    decreases |b|
  {
    var x, y := a + "#" + b, c + "#" + d;
    assert x[|x| - 1] == if b == [] then '#' else b[|b| - 1];
    assert y[|y| - 1] == if d == [] then '#' else d[|d| - 1];
    if b != [] && d != [] {
      assert x[..|x| - 1] == a + "#" + b[..|b| - 1] && y[..|y| - 1] == c + "#" + d[..|d| - 1];
      SplitLast(a, b[..|b| - 1], c, d[..|d| - 1]);
    } else {
      assert x[..|x| - 1] == a && y[..|y| - 1] == c;
    }
  }

  /** Two Changes share an idempotency key only when they are the same Change. */
  lemma KeyInjective(a: Identity, b: Identity)
    requires ValidIdentity(a) && ValidIdentity(b) && IdentityKey(a) == IdentityKey(b)
    ensures a == b
  {
    SplitLast(a.host + "#" + a.repositoryId, Decimal(a.rootIssue), b.host + "#" + b.repositoryId, Decimal(b.rootIssue));
    DecimalInjective(a.rootIssue, b.rootIssue);
    SplitLast(a.host, a.repositoryId, b.host, b.repositoryId);
  }

  // ---- evidence yields valid changes ---------------------------------------------------------------

  predicate ValidPullRequest(p: PullRequestEvidence) {
    && ValidNumber(p.number) && ValidText(p.head, MAX_TEXT) && ValidText(p.base, MAX_TEXT)
    && (p.provenance.Some? ==> ValidProvenance(p.provenance.value))
    && (p.open ==> !p.merged) && (p.draft ==> p.accepted != Some(true))
  }

  predicate ValidBranch(b: BranchEvidence) {
    ValidText(b.name, MAX_TEXT) && (b.sha.Some? ==> IsCommitSha(b.sha.value) && Lower(b.sha.value) == b.sha.value)
  }

  lemma ReadableBranches(input: Input)
    requires Readable(input)
    ensures forall b :: b in FactsOf(input).branches ==> ValidBranch(b)
  {
    var raw := ReadList(input.evidence.branches);
    var sorted := FactsOf(input).branches;
    if input.evidence.branches.Available? { CollectNothing(raw, BranchDiagnostics); }
    forall i | 0 <= i < |sorted| ensures ValidBranch(sorted[i]) {
      var j := Origin(sorted, Map(raw, NormalizeBranch), i);
      assert BranchDiagnostics(raw[j]) == [] && sorted[i] == NormalizeBranch(raw[j]);
      if raw[j].sha.Some? { LowerIdempotent(raw[j].sha.value); }
    }
  }

  lemma QuietReportIsValid(raw: PullRequestReport)
    requires PullRequestDiagnostics(raw) == []
    ensures ValidPullRequest(NormalizePullRequest(raw))
  {
  }

  lemma ReadablePullRequests(input: Input)
    requires Readable(input)
    ensures forall p :: p in FactsOf(input).pullRequests ==> ValidPullRequest(p)
  {
    hide PullRequestDiagnostics, NormalizePullRequest, ValidPullRequest;
    var raw := ReadList(input.evidence.pullRequests);
    var sorted := FactsOf(input).pullRequests;
    if input.evidence.pullRequests.Available? { CollectNothing(raw, PullRequestDiagnostics); }
    forall i | 0 <= i < |sorted| ensures ValidPullRequest(sorted[i]) {
      var j := Origin(sorted, Map(raw, NormalizePullRequest), i);
      assert PullRequestDiagnostics(raw[j]) == [];
      QuietReportIsValid(raw[j]);
    }
  }

  /** Readable evidence normalizes to well-formed candidates. */
  lemma ReadableFacts(input: Input)
    requires Readable(input)
    ensures forall b :: b in FactsOf(input).branches ==> ValidBranch(b)
    ensures forall p :: p in FactsOf(input).pullRequests ==> ValidPullRequest(p)
  {
    ReadableBranches(input);
    ReadablePullRequests(input);
  }

  lemma CanonicalBranchValid(input: Input)
    requires Readable(input)
    ensures ValidText(CanonicalBranch(FactsOf(input)), MAX_TEXT)
  {
    ReadableFacts(input);
    var f := FactsOf(input);
    if f.authority.Derived? && |AnchoredNames(f)| == 1 {
      assert CanonicalBranch(f) in AnchoredNames(f);
    }
  }

  lemma ValidFactsGiveValidChange(f: Facts)
    requires ValidIdentity(f.identity) && ValidProvenance(f.provenance) && ValidText(CanonicalBranch(f), MAX_TEXT)
    requires forall p :: p in f.pullRequests ==> ValidPullRequest(p)
    ensures ValidChange(ProjectedChange(f))
  {
    hide CanonicalBranch, BranchKnown, ValidText, ValidIdentity, ValidRole, TallyOf, CanonicalPullRequests;
    if OnlyPullRequest(f).Some? {
      OnlyPullRequestReported(f);
      MergedProvenanceValid(f.provenance, OnlyPullRequest(f).value.provenance);
    }
  }

  lemma OnlyPullRequestReported(f: Facts)
    requires OnlyPullRequest(f).Some?
    ensures OnlyPullRequest(f).value in f.pullRequests
  {
  }

  lemma MergedProvenanceValid(base: Provenance, over: Option<Provenance>)
    requires ValidProvenance(base) && (over.Some? ==> ValidProvenance(over.value))
    ensures ValidProvenance(MergeProvenance(base, over))
  {
    hide ValidRole;
  }

  lemma ProjectedChangeValid(input: Input)
    requires Readable(input) && IssueMatches(FactsOf(input))
    ensures Project(input).change.Some? ==> ValidChange(Project(input).change.value)
  {
    ReadableFacts(input);
    CanonicalBranchValid(input);
    ValidFactsGiveValidChange(FactsOf(input));
  }

  // ---- theorems ----------------------------------------------------------------------------------

  /** The pull-request plan, if any, names the canonical pair and stays within the effect bounds. */
  predicate PlanAdmissible(plan: Option<PullRequestPlan>, p: Projection) {
    plan.Some? && p.change.Some? ==>
      PlanFits(plan.value, p.canonicalBranch, p.canonicalBaseBranch, p.change.value.identity) && TextsWithinBounds(plan)
  }

  lemma FindsItsPlan(branch: string, base: string, root: nat, plan: Option<PullRequestPlan>)
    ensures FindPlan(IssueEffects(branch, base, root, plan)) == plan
  {
    var e := IssueEffects(branch, base, root, plan);
    assert FindPlan(e[1..][1..]) == plan && FindPlan(e[1..]) == FindPlan(e[1..][1..]);
  }

  lemma IssueRequestPlans(c: Change, branch: string, base: string, plan: Option<PullRequestPlan>)
    requires ValidChange(c) && c.state == Defined && c.artifacts == NO_ARTIFACTS
    requires ValidText(branch, MAX_TEXT) && ValidText(base, MAX_TEXT)
    ensures var r := PlanTransition(IssueRequest(c, branch, base, plan));
      && (r.Success? <==> plan.Some? ==> PlanFits(plan.value, Some(branch), Some(base), c.identity))
      && (r.Success? ==> r.value.result == Change(c.identity, Draft, c.provenance, Artifacts(Some(branch), None))
                         && r.value.effects == IssueEffects(branch, base, c.identity.rootIssue, plan))
  {
  }

  /** The create plan of an absent projection passes the issuance validator unless its key or texts do not fit. */
  lemma CreateValidates(p: Projection, plan: Option<PullRequestPlan>)
    requires p.status == Absent && p.change.Some? && p.canonicalBranch.Some? && p.canonicalBaseBranch.Some?
    requires ValidChange(p.change.value) && p.change.value.state == Defined && p.change.value.artifacts == NO_ARTIFACTS
    requires ValidText(p.canonicalBranch.value, MAX_TEXT) && ValidText(p.canonicalBaseBranch.value, MAX_TEXT)
    requires BuildIssuance(p, plan).Some?
    ensures var built := BuildIssuance(p, plan).value;
      && (ValidateIssuance(built) == Some(built) <==> KeyIsText(p.change.value.identity) && PlanAdmissible(plan, p))
      && (ValidateIssuance(built).Some? ==> ValidateIssuance(built) == Some(built))
  {
    var c, branch, base := p.change.value, p.canonicalBranch.value, p.canonicalBaseBranch.value;
    var built := BuildIssuance(p, plan).value;
    IssueRequestPlans(c, branch, base, plan);
    FindsItsPlan(branch, base, c.identity.rootIssue, plan);
    KeyBounded(c.identity);
    if TextsWithinBounds(plan) {
      IssueEffectsValid(branch, base, c.identity, plan);
    } else {
      assert built.effects[2].CreatePullRequest? && !ValidEffect(built.effects[2]);
    }
  }

  /** A valid projection names its canonical pair and carries a well-formed Change of the requested identity. */
  lemma ValidProjectionShape(input: Input)
    requires Project(input).valid
    ensures var p := Project(input);
      && Readable(input) && p.status in {Healthy, Absent} && (p.status == Healthy ==> p.change.Some?)
      && p.canonicalBranch.Some? && p.canonicalBaseBranch.Some?
      && ValidText(p.canonicalBranch.value, MAX_TEXT) && ValidText(p.canonicalBaseBranch.value, MAX_TEXT)
      && (p.change.Some? ==> ValidChange(p.change.value) && p.change.value.identity == input.identity)
      && (p.status == Absent && p.change.Some? ==> p.change.value.state == Defined && p.change.value.artifacts == NO_ARTIFACTS)
      && (p.status == Healthy ==> HealthyState(p.change.value.state) && p.change.value.artifacts.branch == p.canonicalBranch
                                  && p.change.value.artifacts.pullRequest.Some?)
  {
    hide CanonicalBranch, ValidChange, ValidText, ValidIdentity, TallyOf, BranchCandidates, PullRequestCandidates, ProjectedChange;
    var f := FactsOf(input);
    CanonicalBranchValid(input);
    ProjectedChangeValid(input);
    if StatusOf(f) == Healthy { HealthyChange(f); }
  }

  /** Issuance is planned exactly for healthy Changes and for absent ones whose root Issue is confirmed. */
  lemma IssuancePlannedIff(input: Input, plan: Option<PullRequestPlan>)
    ensures PlanIssuance(input, plan).Some? <==>
      && KeyIsText(input.identity)
      && (var p := Project(input);
          || p.status == Healthy
          || (p.status == Absent && p.change.Some? && PlanAdmissible(plan, p)))
  {
    hide Project, KeyIsText, ValidText, ValidIdentity, PlanTransition, IssueRequest;
    var p := Project(input);
    DiagnosticsExplainRejection(input);
    if p.valid {
      ValidProjectionShape(input);
      if p.change.Some? {
        var c := p.change.value;
        KeyIsTextIff(c);
        if p.status == Absent {
          IssueRequestPlans(c, p.canonicalBranch.value, p.canonicalBaseBranch.value, plan);
          if BuildIssuance(p, plan).Some? { CreateValidates(p, plan); }
        }
      }
    }
  }

  lemma KeyIsTextIff(c: Change)
    requires ValidChange(c)
    ensures ValidText(IdentityKey(c.identity), MAX_KEY) <==> KeyIsText(c.identity)
  {
    KeyBounded(c.identity);
  }

  /** Every issued plan validates to itself, is keyed by its identity, and never mixes the two modes. */
  lemma IssuancePlanShape(input: Input, plan: Option<PullRequestPlan>)
    requires PlanIssuance(input, plan).Some?
    ensures var p, i := Project(input), PlanIssuance(input, plan).value;
      && ValidateIssuance(i) == Some(i) && i.key == IdentityKey(input.identity) && i.identity == input.identity
      && p.change.Some? && p.canonicalBranch == Some(i.verification.branch)
      && p.canonicalBaseBranch == Some(i.verification.baseBranch)
      && (i.mode == ReturnExisting <==> p.status == Healthy) && (i.mode == Create <==> p.status == Absent)
      && (i.mode == ReturnExisting ==> i.result == p.change.value && i.effects == [])
      && (i.mode == Create ==>
            && i.result == Change(input.identity, Draft, p.change.value.provenance, Artifacts(Some(i.verification.branch), None))
            && i.effects == IssueEffects(i.verification.branch, i.verification.baseBranch, input.identity.rootIssue, plan)
            && i.verification == Verification(i.verification.branch, i.verification.baseBranch, Draft, None))
  {
    hide Project, KeyIsText, ValidText, ValidIdentity, PlanTransition, IssueRequest;
    var p := Project(input);
    ValidProjectionShape(input);
    var c := p.change.value;
    if p.status == Absent {
      IssueRequestPlans(c, p.canonicalBranch.value, p.canonicalBaseBranch.value, plan);
      CreateValidates(p, plan);
    }
  }
}
