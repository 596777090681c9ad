/** From one projection to the effects an abort still has to carry out. */
module AbortPlanning {
  import opened Wrappers
  import opened Ordering
  import opened Change
  import opened Projection
  import opened ProjectionTheorems
  import opened AbortRecovery
  import opened Transition
  import opened Issuance

  const TRUSTED_ISSUER := "app:inari-issuer"

  datatype Phase = Clean | Recovery | Normal

  /** An abort is admitted on a valid projection or on a bounded recovery shape, and only under the trusted issuer. */
  function Admit(p: Projection): Option<Phase> {
    var retry := ClassifyAbortRecovery(p).Some?;
    if (!p.valid && !retry) || p.change.None? || p.change.value.provenance.issuer != Some(TRUSTED_ISSUER) then None
    else Some(if CleanupComplete(p) then Clean else if retry then Recovery else Normal)
  }

  /** The generation of the first canonical candidate of that name, as read. */
  function CanonicalSha(p: Projection, branch: string): Option<string> {
    var found := Filter(p.branches, CanonicalBranchCandidate(branch));
    if found == [] then None else found[0].evidence.sha
  }

  function AbortRequest(change: Change, requester: Option<string>, sha: Option<string>): Request {
    var roles := change.provenance;
    Request(Abort, change.(provenance := roles.(requester := Override(roles.requester, requester))),
            Some(Target(change.artifacts.branch, None, change.artifacts.pullRequest, sha, None, None)))
  }

  function ProjectedSha(p: Projection, change: Change): Option<string> {
    if change.artifacts.branch.None? then None else CanonicalSha(p, change.artifacts.branch.value)
  }

  /** The effects of an admitted abort; `None` when it is refused. */
  function PlanAbort(p: Projection, requester: Option<string>): Option<seq<Effect>> {
    match Admit(p)
    case None => None
    case Some(Clean) => Some([])
    case Some(_) =>
      match PlanTransition(AbortRequest(p.change.value, requester, ProjectedSha(p, p.change.value)))
      case Failure(_) => None
      case Success(plan) => Some(plan.effects)
  }

  // ---- the shapes an abort runs through ------------------------------------------------

  /** One canonical branch with one canonical pull request and nothing that contradicts them. */
  ghost predicate Pair(f: Facts) {
    && f.issue.Some? && RootClaimsAgree(f) && Consistent(f) && !OffBase(f)
    && |CanonicalBranches(f)| == 1 && |CanonicalPullRequests(f)| == 1
  }

  predicate Abortable(p: PullRequestEvidence) { StateFromPullRequest(p) in {Draft, Review} }

  /** The facts are well-formed and the candidate's issuer is the trusted one. */
  ghost predicate Trusted(f: Facts, over: Option<Provenance>) {
    && ValidIdentity(f.identity) && ValidProvenance(f.provenance) && ValidText(CanonicalBranch(f), MAX_TEXT)
    && (forall p :: p in f.pullRequests ==> ValidPullRequest(p))
    && (forall b :: b in f.branches ==> ValidBranch(b) && b.sha.Some?)
    && MergeProvenance(f.provenance, over).issuer == Some(TRUSTED_ISSUER)
  }

  function Generation(f: Facts): Option<string> {
    if |CanonicalBranches(f)| == 1 then CanonicalBranches(f)[0].sha else None
  }

  lemma AbortPlans(change: Change, requester: Option<string>, sha: Option<string>)
    requires ValidChange(change) && ValidRole(requester) && change.artifacts.branch.Some?
    requires sha.Some? ==> IsCommitSha(sha.value) && Lower(sha.value) == sha.value
    requires change.state in {Draft, Review, RecoveryRequired} ==> sha.Some?
    requires change.state in {Draft, Review, Aborted} ==> change.artifacts.pullRequest.Some?
    requires change.state in {Draft, Review, RecoveryRequired, Aborted}
    ensures PlanTransition(AbortRequest(change, requester, sha)).Success?
    ensures PlanTransition(AbortRequest(change, requester, sha)).value.effects ==
      var branch := change.artifacts.branch.value;
      if change.state == Aborted then []
      else if change.state == RecoveryRequired then [DeleteBranch(branch, sha)]
      else [ClosePullRequest(change.artifacts.pullRequest.value), DeleteBranch(branch, sha)]
  {
    hide IssueProblems, MergeProblems, ValidIdentity, ValidText, Lower;
  }

  lemma GenerationIsProjected(f: Facts)
    requires Consistent(f) && |CanonicalBranches(f)| == 1
    ensures CanonicalSha(ProjectFacts(f), CanonicalBranch(f)) == Generation(f)
    ensures CanonicalBranches(f)[0] in f.branches && CanonicalBranches(f)[0].name == CanonicalBranch(f)
  {
    hide TallyOf, ProjectedChange;
    CanonicalBranchCandidates(f);
    var found := Filter(BranchCandidates(f), CanonicalBranchCandidate(CanonicalBranch(f)));
    assert found[0] in BranchCandidates(f);
    var i :| 0 <= i < |f.branches| && BranchCandidates(f)[i] == found[0];
    assert found[0].evidence == f.branches[i] && f.branches[i] in CanonicalBranches(f);
    assert CanonicalBranches(f) == [CanonicalBranches(f)[0]];
  }

  lemma PairChange(f: Facts)
    requires Pair(f)
    ensures CanonicalPullRequests(f)[0] in f.pullRequests
    ensures var p := CanonicalPullRequests(f)[0];
      ProjectFacts(f).change == Some(Change(
        f.identity, if ClosedUnmerged(p) then RecoveryRequired else StateFromPullRequest(p),
        MergeProvenance(f.provenance, p.provenance), Artifacts(Some(CanonicalBranch(f)), Some(p.number))))
    ensures ProjectFacts(f).status == if ClosedUnmerged(CanonicalPullRequests(f)[0]) then Partial else Healthy
  {
    hide TallyOf, BranchCandidates, PullRequestCandidates, OffBase, CanonicalBranch, Consistent, RootClaimsAgree,
         IdentityMatches, AnyConflict;
    HealthyIff(f);
    PartialIff(f);
    assert CanonicalPullRequests(f)[0] in CanonicalPullRequests(f);
    assert BranchKnown(f);
  }

  lemma ChangeIsValid(f: Facts, over: Option<Provenance>)
    requires Trusted(f, over)
    ensures ValidChange(ProjectedChange(f))
  {
    ValidFactsGiveValidChange(f);
  }

  /** A healthy open Change: close its pull request, then delete its branch at the generation just read. */
  lemma OpenPlan(f: Facts, requester: Option<string>)
    requires Pair(f) && Trusted(f, CanonicalPullRequests(f)[0].provenance) && ValidRole(requester)
    requires Abortable(CanonicalPullRequests(f)[0])
    ensures PlanAbort(ProjectFacts(f), requester) ==
      Some([ClosePullRequest(CanonicalPullRequests(f)[0].number), DeleteBranch(CanonicalBranch(f), Generation(f))])
  {
    hide TallyOf, BranchCandidates, PullRequestCandidates, ProjectFacts, ClassifyAbortRecovery, AnyConflict, PlanTransition,
         OffBase, CanonicalBranch, Consistent, RootClaimsAgree, CanonicalBranches, CanonicalPullRequests, MergeProvenance,
         ProjectedChange, ValidText;
    PairChange(f);
    GenerationIsProjected(f);
    FactsExplainRejection(f);
    ChangeIsValid(f, CanonicalPullRequests(f)[0].provenance);
    ChangeOfFacts(f);
    AbortPlans(ProjectFacts(f).change.value, requester, Generation(f));
  }

  lemma ChangeOfFacts(f: Facts)
    requires ProjectFacts(f).status != Absent
    ensures ProjectFacts(f).change == Some(ProjectedChange(f))
  {
  }

  /** A closed pull request whose branch is still there: only the delete is left. */
  lemma ClosedPlan(f: Facts, requester: Option<string>)
    requires Pair(f) && Trusted(f, CanonicalPullRequests(f)[0].provenance) && ValidRole(requester)
    requires ClosedUnmerged(CanonicalPullRequests(f)[0])
    ensures ClassifyAbortRecovery(ProjectFacts(f)) == Some(ClosedPullRequest)
    ensures PlanAbort(ProjectFacts(f), requester) == Some([DeleteBranch(CanonicalBranch(f), Generation(f))])
  {
    hide TallyOf, BranchCandidates, PullRequestCandidates, ProjectFacts, ClassifyAbortRecovery, AnyConflict, PlanTransition,
         OffBase, CanonicalBranch, Consistent, RootClaimsAgree, CanonicalBranches, CanonicalPullRequests, MergeProvenance,
         ProjectedChange, ValidText;
    PairChange(f);
    ClosedPullRequestIff(f);
    GenerationIsProjected(f);
    FactsExplainRejection(f);
    ChangeIsValid(f, CanonicalPullRequests(f)[0].provenance);
    ChangeOfFacts(f);
    AbortPlans(ProjectFacts(f).change.value, requester, Generation(f));
  }

  /** The record of a finished abort: no branch, and one pull request closed unmerged. */
  ghost predicate Finished(f: Facts) {
    Sound(f) && |CanonicalBranches(f)| == 0
  }

  lemma FinishedPlan(f: Facts, requester: Option<string>)
    requires Finished(f) && Trusted(f, CanonicalPullRequests(f)[0].provenance) && ValidRole(requester)
    ensures ProjectFacts(f).status == Healthy && ProjectFacts(f).change.Some? && ProjectFacts(f).change.value.state == Aborted
    ensures PlanAbort(ProjectFacts(f), requester) == Some([])
  {
    hide TallyOf, BranchCandidates, PullRequestCandidates, ProjectFacts, ClassifyAbortRecovery, AnyConflict, PlanTransition,
         OffBase, CanonicalBranch, Consistent, RootClaimsAgree, CanonicalBranches, CanonicalPullRequests, MergeProvenance,
         ProjectedChange, ValidText;
    HealthyIff(f);
    FinishedChange(f);
    FactsExplainRejection(f);
    ChangeIsValid(f, CanonicalPullRequests(f)[0].provenance);
    NoGeneration(f);
    AbortPlans(ProjectFacts(f).change.value, requester, None);
  }

  lemma FinishedChange(f: Facts)
    requires StatusOf(f) == Healthy && Finished(f)
    ensures |CanonicalPullRequests(f)| == 1
    ensures var p := CanonicalPullRequests(f)[0];
      ProjectFacts(f).status == Healthy && ProjectFacts(f).change == Some(ProjectedChange(f)) &&
      ProjectedChange(f) == Change(f.identity, Aborted, MergeProvenance(f.provenance, p.provenance),
                                   Artifacts(Some(CanonicalBranch(f)), Some(p.number)))
  {
    hide TallyOf, BranchCandidates, PullRequestCandidates, OffBase, CanonicalBranch, Consistent, RootClaimsAgree,
         AnyConflict;
    HealthyChange(f);
  }

  lemma NoGeneration(f: Facts)
    requires CanonicalBranches(f) == [] && Consistent(f)
    ensures CanonicalSha(ProjectFacts(f), CanonicalBranch(f)) == None
  {
    hide TallyOf, ProjectedChange;
    CanonicalBranchCandidates(f);
  }

  /** A branch without any pull request: the delete is all there is. */
  lemma LonePlan(f: Facts, requester: Option<string>)
    requires ClassifyAbortRecovery(ProjectFacts(f)) == Some(BranchOnly)
    requires Trusted(f, None) && ValidRole(requester)
    ensures PlanAbort(ProjectFacts(f), requester) == Some([DeleteBranch(CanonicalBranch(f), f.branches[0].sha)])
  {
    hide TallyOf, BranchCandidates, PullRequestCandidates, ProjectFacts, AnyConflict, PlanTransition,
         OffBase, CanonicalBranch, Consistent, RootClaimsAgree, CanonicalBranches, CanonicalPullRequests,
         ProjectedChange, ValidText;
    BranchOnlyIff(f);
    LoneBranchShape(f);
    OneBranchShape(f);
    LoneChange(f);
    GenerationIsProjected(f);
    FactsExplainRejection(f);
    ChangeIsValid(f, None);
    AbortPlans(ProjectFacts(f).change.value, requester, Generation(f));
  }

  lemma LoneChange(f: Facts)
    requires |f.branches| == 1 && f.pullRequests == [] && f.branches[0].name == CanonicalBranch(f)
    requires f.branches[0].rootIssue in {None, Some(f.identity.rootIssue)}
    ensures ProjectFacts(f).change == Some(ProjectedChange(f))
    ensures ProjectedChange(f) ==
      Change(f.identity, RecoveryRequired, f.provenance, Artifacts(Some(CanonicalBranch(f)), None))
  {
    hide TallyOf, BranchCandidates, PullRequestCandidates, OffBase, CanonicalBranch, Consistent, RootClaimsAgree,
         AnyConflict, OnlyPullRequest, BranchKnown;
    LoneBranchIsPartial(f);
    LoneBranchShape(f);
  }

  // ---- the order of the candidates does not matter --------------------------------------

  lemma PlanAbortForgetsOrder(p: Projection, q: Projection, requester: Option<string>)
    requires p == q.(branches := p.branches, pullRequests := p.pullRequests)
    requires multiset(p.branches) == multiset(q.branches) && multiset(p.pullRequests) == multiset(q.pullRequests)
    requires q.canonicalBranch.Some? && |Filter(q.branches, CanonicalBranchCandidate(q.canonicalBranch.value))| <= 1
    requires q.change.Some? ==> q.change.value.artifacts.branch in {None, q.canonicalBranch}
    ensures ClassifyAbortRecovery(p) == ClassifyAbortRecovery(q) && PlanAbort(p, requester) == PlanAbort(q, requester)
  {
    hide Filter, PlanTransition;
    var branch := q.canonicalBranch.value;
    FilterPermutation(p.branches, q.branches, CanonicalBranchCandidate(branch));
    FilterPermutation(p.pullRequests, q.pullRequests, ClosedCanonicalCandidate(branch, q.canonicalBaseBranch));
    SameSize(p.branches, q.branches);
    SameSize(p.pullRequests, q.pullRequests);
    assert CanonicalSha(p, branch) == CanonicalSha(q, branch);
    assert Admit(p) == Admit(q);
  }
}
