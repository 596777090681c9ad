/**
 Issuing a Change in the world: a completed run is recognised as the Change it was meant to create
 and is never repeated; an interrupted one is never continued blindly, and a failed one is undone
 exactly while the branch is still the one the run itself created.
 */
module IssuanceRuns {
  import opened Wrappers
  import opened Ordering
  import opened Change
  import opened Projection
  import opened ProjectionTheorems
  import opened Permutation
  import opened AbortRecovery
  import opened Transition
  import opened Issuance
  import opened Compensation
  import opened AbortPlanning
  import opened GitHubWorld
  import AbortRuns

  // ---- adding the canonical pair to facts that claim nothing ---------------------------------

  ghost predicate Unclaimed(f: Facts) { Consistent(f) && NothingClaims(f) }

  lemma UnclaimedIsUnanchored(f: Facts)
    requires NothingClaims(f)
    ensures AnchoredNames(f) == {} && CanonicalBranch(f) == f.authority.branch
  {
    assert AnchoredNames(f) == {};
  }

  predicate FitsBranch(f: Facts, b: BranchEvidence) {
    b.name == f.authority.branch && b.rootIssue in {None, Some(f.identity.rootIssue)}
  }

  predicate FitsPullRequest(f: Facts, p: PullRequestEvidence) {
    && p.head == f.authority.branch && p.base == f.baseBranch && p.number != f.identity.rootIssue
    && p.rootIssue in {None, Some(f.identity.rootIssue)}
    && forall i :: 0 <= i < |f.pullRequests| ==> f.pullRequests[i].number != p.number
  }

  function WithBranch(f: Facts, b: BranchEvidence): Facts { f.(branches := f.branches + [b]) }

  function WithPair(f: Facts, b: BranchEvidence, p: PullRequestEvidence): Facts {
    f.(branches := f.branches + [b], pullRequests := f.pullRequests + [p])
  }

  lemma AnchoredBySelf(f: Facts, g: Facts)
    requires NothingClaims(f) && f.authority == g.authority && f.identity == g.identity
    requires forall b :: b in g.branches ==> b in f.branches || b.name == f.authority.branch
    requires forall p :: p in g.pullRequests ==> p in f.pullRequests || p.head == f.authority.branch
    ensures CanonicalBranch(g) == f.authority.branch
  {
    UnclaimedIsUnanchored(f);
    assert forall n :: n in AnchoredNames(g) ==> n == f.authority.branch;
    if |AnchoredNames(g)| == 1 { assert TheOnly(AnchoredNames(g)) in AnchoredNames(g); }
  }

  lemma BranchAdded(f: Facts, b: BranchEvidence)
    requires Unclaimed(f) && FitsBranch(f, b)
    ensures var g := WithBranch(f, b);
      && CanonicalBranch(g) == f.authority.branch && CanonicalBranches(g) == [b] && CanonicalPullRequests(g) == []
      && !OffBase(g) && RootClaimsAgree(g) && Consistent(g)
  {
    hide CanonicalBranch, Filter;
    var g := WithBranch(f, b);
    UnclaimedIsUnanchored(f);
    AnchoredBySelf(f, g);
    NothingOn(f);
    FilterCongruence(f.branches, OnCanonicalBranch(f), OnCanonicalBranch(g));
    FilterSnoc(f.branches, b, OnCanonicalBranch(g));
    FilterCongruence(f.pullRequests, MatchesIdentity(f), MatchesIdentity(g));
    FilterCongruence(f.pullRequests, MissesBase(f), MissesBase(g));
  }

  lemma NothingOn(f: Facts)
    requires NothingClaims(f)
    ensures CanonicalBranches(f) == [] && CanonicalPullRequests(f) == [] && !OffBase(f)
  {
    NothingClaimedMeansNothingSelected(f);
  }

  lemma PairAdded(f: Facts, b: BranchEvidence, p: PullRequestEvidence)
    requires Unclaimed(f) && FitsBranch(f, b) && FitsPullRequest(f, p)
    ensures var g := WithPair(f, b, p);
      && CanonicalBranch(g) == f.authority.branch && CanonicalBranches(g) == [b] && CanonicalPullRequests(g) == [p]
      && !OffBase(g) && RootClaimsAgree(g) && Consistent(g)
  {
    hide CanonicalBranch, Filter;
    var g := WithPair(f, b, p);
    UnclaimedIsUnanchored(f);
    AnchoredBySelf(f, g);
    NothingOn(f);
    FilterCongruence(f.branches, OnCanonicalBranch(f), OnCanonicalBranch(g));
    FilterSnoc(f.branches, b, OnCanonicalBranch(g));
    FilterCongruence(f.pullRequests, MatchesIdentity(f), MatchesIdentity(g));
    FilterSnoc(f.pullRequests, p, MatchesIdentity(g));
    FilterCongruence(f.pullRequests, MissesBase(f), MissesBase(g));
    FilterSnoc(f.pullRequests, p, MissesBase(g));
  }

  // ---- the world after each effect of an issuance ------------------------------------------------

  predicate ValidClaim(c: Setting, claim: Option<nat>) { claim in {None, Some(c.identity.rootIssue)} }

  /** What a provider may choose for a new branch and pull request; numbers are shared with Issues and never reused. */
  predicate ValidChoice(c: Setting, w: World, choice: Choice) {
    && IsCommitSha(choice.baseSha) && Lower(choice.baseSha) == choice.baseSha
    && IsCommitSha(choice.commitSha) && Lower(choice.commitSha) == choice.commitSha
    && ValidNumber(choice.number) && choice.number != c.identity.rootIssue && ValidClaim(c, choice.claim)
    && forall i :: 0 <= i < |w.pullRequests| ==> w.pullRequests[i].number != choice.number
  }

  predicate RoomLeft(w: World) { |w.branches| < MAX_CANDIDATES && |w.pullRequests| < MAX_CANDIDATES }

  /** A world in which nothing claims the root Issue or the configured branch. */
  ghost predicate AbsentWorld(c: Setting, w: World) { WellFormed(c, w) && Unclaimed(RawFacts(c, w)) }

  lemma AbsentWorldIff(c: Setting, w: World, listing: Listing)
    requires WellFormed(c, w)
    ensures Project(Observe(c, w, listing)).status == Absent <==> AbsentWorld(c, w)
    ensures AbsentWorld(c, w) ==>
      var p := Project(Observe(c, w, listing));
      && p.valid && p.change == Some(Change(c.identity, Defined, c.provenance, NO_ARTIFACTS))
      && p.canonicalBranch == Some(c.authority.branch) && p.canonicalBaseBranch == Some(c.baseBranch)
  {
    hide WellFormed, TallyOf, CanonicalBranch, BranchCandidates, PullRequestCandidates, Project, AnyConflict, Consistent,
         NothingClaims, ProjectedChange;
    ObservedProjection(c, w, listing);
    AbsentIff(RawFacts(c, w));
    if NothingClaims(RawFacts(c, w)) { UnclaimedIsUnanchored(RawFacts(c, w)); }
  }

  function Branched(c: Setting, w: World, sha: string, claim: Option<nat>): World {
    w.(branches := w.branches + [BranchEvidence(c.authority.branch, Some(sha), claim)])
  }

  function NewPullRequest(c: Setting, choice: Choice): PullRequestEvidence {
    PullRequestEvidence(choice.number, c.authority.branch, Some(choice.commitSha), c.baseBranch, true, true, false, None,
                        choice.claim, None)
  }

  function Issued(c: Setting, w: World, choice: Choice): World {
    Branched(c, w, choice.commitSha, choice.claim).(pullRequests := w.pullRequests + [NewPullRequest(c, choice)])
  }

  lemma NoSuchBranch(c: Setting, w: World)
    requires AbsentWorld(c, w)
    ensures !HasBranch(w, c.authority.branch)
    ensures forall i :: 0 <= i < |w.branches| ==> w.branches[i].name != c.authority.branch
    ensures Filter(w.branches, BranchIsNot(c.authority.branch)) == w.branches
  {
    UnclaimedIsUnanchored(RawFacts(c, w));
    assert forall i :: 0 <= i < |w.branches| ==> w.branches[i] in w.branches;
    KeepAll(w.branches, BranchIsNot(c.authority.branch));
  }

  lemma {:induction false} KeepAll<T>(s: seq<T>, p: T -> bool)
    requires forall x :: x in s ==> p(x)
    ensures Filter(s, p) == s
  {
    if s != [] {
      KeepAll(s[..|s| - 1], p);
      assert s == s[..|s| - 1] + [s[|s| - 1]];
    }
  }

  lemma BranchedNames(c: Setting, w: World, sha: string, claim: Option<nat>)
    requires AbsentWorld(c, w)
    ensures var v := Branched(c, w, sha, claim);
      && HasBranch(v, c.authority.branch) && ShaOf(v, c.authority.branch) == Some(sha)
      && Filter(v.branches, BranchIsNot(c.authority.branch)) == w.branches
  {
    hide AbsentWorld;
    NoSuchBranch(c, w);
    var b := BranchEvidence(c.authority.branch, Some(sha), claim);
    FilterSnoc(w.branches, b, BranchIs(c.authority.branch));
    FilterSnoc(w.branches, b, BranchIsNot(c.authority.branch));
  }

  /** Each effect of an issuance lands on an absent world and adds exactly one thing. */
  lemma EffectsLand(c: Setting, w: World, plan: Option<PullRequestPlan>, choice: Choice)
    requires AbsentWorld(c, w)
    ensures var e, name := IssueEffects(c.authority.branch, c.baseBranch, c.identity.rootIssue, plan), c.authority.branch;
      && Apply(w, e[0], choice) == Some(Branched(c, w, choice.baseSha, choice.claim))
      && Apply(Branched(c, w, choice.baseSha, choice.claim), e[1], choice) == Some(Branched(c, w, choice.commitSha, choice.claim))
      && Apply(Branched(c, w, choice.commitSha, choice.claim), e[2], choice) == Some(Issued(c, w, choice))
  {
    hide AbsentWorld, Filter;
    NoSuchBranch(c, w);
    BranchedNames(c, w, choice.baseSha, choice.claim);
    BranchedNames(c, w, choice.commitSha, choice.claim);
    assert Map(Branched(c, w, choice.baseSha, choice.claim).branches, Advance(c.authority.branch, choice.commitSha))
           == Branched(c, w, choice.commitSha, choice.claim).branches;
  }

  function Sha(choice: Choice, k: nat): string { if k == 1 then choice.baseSha else choice.commitSha }

  /** Where an issuance stands after `k` of its effects. */
  function AfterEffects(c: Setting, w: World, choice: Choice, k: nat): World {
    if k == 0 then w else if k < 3 then Branched(c, w, Sha(choice, k), choice.claim) else Issued(c, w, choice)
  }

  lemma PrefixLands(c: Setting, w: World, plan: Option<PullRequestPlan>, choice: Choice, k: nat)
    requires AbsentWorld(c, w) && k <= 3
    ensures ApplyAll(w, IssueEffects(c.authority.branch, c.baseBranch, c.identity.rootIssue, plan)[..k], choice)
            == Some(AfterEffects(c, w, choice, k))
  {
    hide Apply, AbsentWorld, Branched, Issued;
    EffectsLand(c, w, plan, choice);
    var e := IssueEffects(c.authority.branch, c.baseBranch, c.identity.rootIssue, plan);
    var base, bare := Branched(c, w, choice.baseSha, choice.claim), Branched(c, w, choice.commitSha, choice.claim);
    assert e[..3] == e;
    if k == 3 { StepsOut(bare, [e[2]], choice); }
    if k >= 2 { StepsOut(base, e[1..k], choice); }
    if k >= 1 { StepsOut(w, e[..k], choice); }
    assert k >= 1 ==> e[..k][1..] == e[1..k];
    assert k >= 2 ==> e[1..k][1..] == e[2..k];
    assert k == 3 ==> e[2..k] == [e[2]];
  }

  lemma StepsOut(w: World, effects: seq<Effect>, choice: Choice)
    requires effects != [] && Apply(w, effects[0], choice).Some?
    ensures ApplyAll(w, effects, choice) == ApplyAll(Apply(w, effects[0], choice).value, effects[1..], choice)
    ensures ApplyAll(Apply(w, effects[0], choice).value, [], choice) == Apply(w, effects[0], choice)
  {
  }

  lemma BranchedWellFormed(c: Setting, w: World, sha: string, claim: Option<nat>)
    requires AbsentWorld(c, w) && |w.branches| < MAX_CANDIDATES
    requires IsCommitSha(sha) && Lower(sha) == sha && ValidClaim(c, claim)
    ensures WellFormed(c, Branched(c, w, sha, claim))
  {
    NoSuchBranch(c, w);
  }

  lemma IssuedWellFormed(c: Setting, w: World, choice: Choice)
    requires AbsentWorld(c, w) && RoomLeft(w) && ValidChoice(c, w, choice)
    ensures WellFormed(c, Issued(c, w, choice))
  {
    BranchedWellFormed(c, w, choice.commitSha, choice.claim);
    assert WellFormedPullRequest(NewPullRequest(c, choice));
  }

  // ---- the completed run ------------------------------------------------------------------------

  /** What the post-effect read must show. */
  predicate Shows(p: Projection, v: Verification) {
    && p.valid && p.status == Healthy && p.change.Some? && p.change.value.state == v.state
    && p.change.value.artifacts.branch == Some(v.branch) && p.canonicalBranch == Some(v.branch)
    && p.canonicalBaseBranch == Some(v.baseBranch)
    && (v.pullRequest.Some? ==> p.change.value.artifacts.pullRequest == v.pullRequest)
  }

  lemma IssuedProjection(c: Setting, w: World, choice: Choice, listing: Listing)
    requires AbsentWorld(c, w) && RoomLeft(w) && ValidChoice(c, w, choice)
    ensures var p := Project(Observe(c, Issued(c, w, choice), listing));
      && Shows(p, Verification(c.authority.branch, c.baseBranch, Draft, Some(choice.number)))
      && p.change.value.identity == c.identity && p.change.value.provenance == c.provenance
  {
    hide WellFormed, TallyOf, CanonicalBranch, BranchCandidates, PullRequestCandidates, Project, OffBase, Filter,
         Consistent, RootClaimsAgree, CanonicalBranches, CanonicalPullRequests, AnyConflict, ProjectedChange;
    var f, v := RawFacts(c, w), Issued(c, w, choice);
    var g, p := RawFacts(c, v), NewPullRequest(c, choice);
    var b := BranchEvidence(c.authority.branch, Some(choice.commitSha), choice.claim);
    assert g == WithPair(f, b, p);
    IssuedWellFormed(c, w, choice);
    ObservedProjection(c, v, listing);
    PairAdded(f, b, p);
    PairChange(g);
  }

  /**
   A completed issuance run: from an absent world all effects land, the result shows what the plan said
   to verify, and planning again, with whatever pull-request plan, returns it without effects.
   */
  lemma IssuanceCreatesOnce(c: Setting, w: World, listing: Listing, plan: Option<PullRequestPlan>, choice: Choice,
                            again: Listing, other: Option<PullRequestPlan>)
    requires WellFormed(c, w) && RoomLeft(w) && ValidChoice(c, w, choice)
    requires PlanIssuance(Observe(c, w, listing), plan).Some? && PlanIssuance(Observe(c, w, listing), plan).value.mode == Create
    ensures var i := PlanIssuance(Observe(c, w, listing), plan).value;
      var done := ApplyAll(w, i.effects, choice);
      && done.Some? && WellFormed(c, done.value)
      && var p := Project(Observe(c, done.value, again));
         && Shows(p, i.verification) && p.change.value.artifacts.pullRequest == Some(choice.number)
         && p.change.value == i.result.(artifacts := p.change.value.artifacts)
         && var j := PlanIssuance(Observe(c, done.value, again), other);
            j.Some? && j.value.mode == ReturnExisting && j.value.effects == [] && j.value.result == p.change.value
  {
    hide WellFormed, Project, PlanIssuance, AbsentWorld, ValidateIssuance, ApplyAll, Shows, ValidChoice, RoomLeft, KeyIsText,
         PlanAdmissible;
    IssuancePlanShape(Observe(c, w, listing), plan);
    IssuancePlannedIff(Observe(c, w, listing), plan);
    AbsentWorldIff(c, w, listing);
    PrefixLands(c, w, plan, choice, 3);
    var i := PlanIssuance(Observe(c, w, listing), plan).value;
    assert i.effects[..3] == i.effects;
    IssuedWellFormed(c, w, choice);
    IssuedProjection(c, w, choice, again);
    ShownIsHealthy(Project(Observe(c, Issued(c, w, choice), again)), c, choice, i.verification);
    IssuancePlannedIff(Observe(c, Issued(c, w, choice), again), other);
    IssuancePlanShape(Observe(c, Issued(c, w, choice), again), other);
  }

  lemma ShownIsHealthy(p: Projection, c: Setting, choice: Choice, v: Verification)
    requires Shows(p, Verification(c.authority.branch, c.baseBranch, Draft, Some(choice.number)))
    requires v == Verification(c.authority.branch, c.baseBranch, Draft, None)
    ensures Shows(p, v) && p.status == Healthy && p.change.Some? && p.change.value.state == Draft
    ensures p.change.value.artifacts == Artifacts(Some(c.authority.branch), Some(choice.number))
  {
  }

  // ---- the interrupted run ------------------------------------------------------------------------

  lemma BranchedProjection(c: Setting, w: World, sha: string, claim: Option<nat>, listing: Listing)
    requires AbsentWorld(c, w) && |w.branches| < MAX_CANDIDATES
    requires IsCommitSha(sha) && Lower(sha) == sha && ValidClaim(c, claim)
    ensures WellFormed(c, Branched(c, w, sha, claim))
    ensures var p := Project(Observe(c, Branched(c, w, sha, claim), listing));
      && p.status == Partial && !p.valid
      && p.canonicalBranch == Some(c.authority.branch) && p.canonicalBaseBranch == Some(c.baseBranch)
      && p.change == Some(Change(c.identity, RecoveryRequired, c.provenance, Artifacts(Some(c.authority.branch), None)))
  {
    hide WellFormed, TallyOf, CanonicalBranch, BranchCandidates, PullRequestCandidates, Project, OffBase, Filter,
         Consistent, RootClaimsAgree, CanonicalBranches, CanonicalPullRequests, AnyConflict;
    var f, v := RawFacts(c, w), Branched(c, w, sha, claim);
    var b := BranchEvidence(c.authority.branch, Some(sha), claim);
    var g := RawFacts(c, v);
    assert g == WithBranch(f, b);
    BranchedWellFormed(c, w, sha, claim);
    ObservedProjection(c, v, listing);
    BranchAdded(f, b);
    PartialIff(g);
  }

  /**
   An issuance interrupted after its first or second effect is never continued: issuance is refused,
   and where nothing else is reported an abort may clean the lone branch up.
   */
  lemma InterruptedIssuanceIsNotRepeated(c: Setting, w: World, listing: Listing, plan: Option<PullRequestPlan>, choice: Choice,
                                         k: nat, other: Option<PullRequestPlan>)
    requires AbsentWorld(c, w) && RoomLeft(w) && ValidChoice(c, w, choice) && 1 <= k <= 2
    ensures var stopped := ApplyAll(w, IssueEffects(c.authority.branch, c.baseBranch, c.identity.rootIssue, plan)[..k], choice);
      && stopped.Some? && WellFormed(c, stopped.value)
      && Project(Observe(c, stopped.value, listing)).status == Partial
      && PlanIssuance(Observe(c, stopped.value, listing), other).None?
      && (ClassifyAbortRecovery(Project(Observe(c, stopped.value, listing))) == Some(BranchOnly)
          <==> w.branches == [] && w.pullRequests == [])
  {
    hide WellFormed, Project, AbsentWorld, ApplyAll;
    PrefixLands(c, w, plan, choice, k);
    BranchedProjection(c, w, Sha(choice, k), choice.claim, listing);
    BranchedRecovery(c, w, Sha(choice, k), choice.claim, listing);
  }

  lemma BranchedRecovery(c: Setting, w: World, sha: string, claim: Option<nat>, listing: Listing)
    requires AbsentWorld(c, w) && WellFormed(c, Branched(c, w, sha, claim)) && ValidClaim(c, claim)
    ensures ClassifyAbortRecovery(Project(Observe(c, Branched(c, w, sha, claim), listing))) == Some(BranchOnly)
            <==> w.branches == [] && w.pullRequests == []
  {
    hide WellFormed, TallyOf, BranchCandidates, PullRequestCandidates, Project, OffBase, Filter, ProjectFacts,
         CanonicalBranches, CanonicalPullRequests, AnyConflict, ClassifyAbortRecovery, CanonicalBranch;
    var f, v := RawFacts(c, w), Branched(c, w, sha, claim);
    var b := BranchEvidence(c.authority.branch, Some(sha), claim);
    assert RawFacts(c, v) == WithBranch(f, b);
    BranchAdded(f, b);
    AbortRuns.PlanFromWorld(c, v, listing, None);
    BranchOnlyIff(RawFacts(c, v));
    assert |v.branches| == 1 ==> v.branches == [b];
  }
}
