/** Which transition requests are admitted, and what is planned for them, operation by operation. */
module Admission {
  import opened Wrappers
  import opened Ordering
  import opened Change
  import opened Transition
  import opened Issuance
  import opened Projection
  import opened ProjectionTheorems
  import opened AbortRecovery
  import opened AbortPlanning

  /** One of the two is silent, or both name the same. */
  predicate Agree<T(==)>(a: Option<T>, b: Option<T>) { a.None? || b.None? || a == b }

  /** A plan for an initial Draft of this branch onto this base in the repository of the Change. */
  predicate InitialDraftOf(p: PullRequestPlan, branch: string, base: string, id: Identity) {
    p == PullRequestPlan(branch, base, p.title, p.body, true, false, false, p.host, id.repositoryId) && Lower(p.host) == id.host
  }

  predicate OptionalSha(sha: Option<string>) { sha.Some? ==> IsCommitSha(sha.value) }

  /** Issue starts from a Change that is defined and owns nothing, and names branch and base but no pull request. */
  lemma IssueAdmitted(r: Request)
    requires r.operation == Issue
    ensures RequestProblems(r) == [] <==>
      && ValidChange(r.change) && r.change.state == Defined && r.change.artifacts == Artifacts(None, None)
      && r.target.Some? && r.target.value.branch.Some? && r.target.value.baseBranch.Some?
      && var t, branch, base := r.target.value, r.target.value.branch.value, r.target.value.baseBranch.value;
         && t.pullRequest == None && ValidText(branch, 255) && ValidText(base, 255) && OptionalSha(t.branchCommitSha)
         && (t.plan.Some? ==> InitialDraftOf(t.plan.value, branch, base, r.change.identity))
  {
    hide ArtifactProblems, MergeProblems, ValidChange, ValidText;
  }

  /** Merge needs a merge plan for exactly the pull request of the Change, its base and its repository. */
  lemma MergeAdmitted(r: Request)
    requires r.operation == Merge
    ensures RequestProblems(r) == [] <==>
      && ValidChange(r.change) && r.change.state in {Review, Accepted} && r.target.Some? && r.target.value.mergePlan.Some?
      && var t, m, a := r.target.value, r.target.value.mergePlan.value, r.change.artifacts;
         && m.isMerge && a.pullRequest == t.pullRequest == Some(m.pullRequest) && t.baseBranch == Some(m.expectedBase)
         && Lower(m.host) == r.change.identity.host && m.repositoryId == r.change.identity.repositoryId
         && ValidText(m.expectedBase, 255) && OptionalSha(t.branchCommitSha)
         && a.branch.Some? && Agree(t.branch, a.branch)
  {
    hide ArtifactProblems, IssueProblems, ValidText;
  }

  /** Ready and abort name no plan and no base, and nothing but the pair of the Change; only a recovering abort may lack the pull request. */
  lemma ArtifactsAdmitted(r: Request)
    requires r.operation in {Ready, Abort}
    ensures RequestProblems(r) == [] <==>
      var t, a := r.target.GetOr(NO_TARGET), r.change.artifacts;
      && ValidChange(r.change)
      && r.change.state in (if r.operation == Ready then {Draft, Review} else {Draft, Review, Aborted, RecoveryRequired})
      && t.plan == None && t.mergePlan == None && t.baseBranch == None && OptionalSha(t.branchCommitSha)
      && Agree(t.branch, a.branch) && Agree(t.pullRequest, a.pullRequest) && ValidArtifacts(Artifacts(t.branch, t.pullRequest))
      && (t.branch.Some? || a.branch.Some?)
      && (t.pullRequest.Some? || a.pullRequest.Some? || (r.operation == Abort && r.change.state == RecoveryRequired))
  {
    hide MergeProblems, IssueProblems, ValidText, ValidChange;
  }

  // ---- what is planned --------------------------------------------------------------------------

  /** Branch, provenance commit and Draft, in that order and all about the same branch; the texts are those of the plan, if there is one. */
  lemma IssuePlanned(r: Request)
    requires r.operation == Issue && PlanTransition(r).Success?
    ensures var plan, number := PlanTransition(r).value, r.change.identity.rootIssue;
      && r.target.Some? && r.target.value.branch.Some? && r.target.value.baseBranch.Some?
      && var branch, base, text := r.target.value.branch.value, r.target.value.baseBranch.value, r.target.value.plan;
         && plan.to == Draft && plan.result.artifacts == Artifacts(Some(branch), None)
         && plan.effects == [
              CreateBranch(branch, base),
              CreateProvenanceCommit(branch, number, ".inari/provenance/" + Decimal(number) + ".json"),
              CreatePullRequest(branch, base, number,
                                if text.None? then "Change #" + Decimal(number) else text.value.title,
                                if text.None? then "Closes #" + Decimal(number) else text.value.body, text)]
  {
    hide ValidChange, ValidTarget, MergeProblems, ArtifactProblems, Decimal;
  }

  /** An open Change is closed and its branch deleted; a recovering one loses its branch; an aborted one nothing. */
  lemma AbortPlanned(r: Request)
    requires r.operation == Abort && PlanTransition(r).Success?
    ensures var plan, t, a := PlanTransition(r).value, r.target.GetOr(NO_TARGET), r.change.artifacts;
      var branch, number := OrElse(t.branch, a.branch), OrElse(t.pullRequest, a.pullRequest);
      && plan.to == Aborted && plan.result.artifacts == Artifacts(branch, number)
      && (r.change.state == Aborted ==> plan.effects == [])
      && (r.change.state != Aborted ==>
            && branch.Some? && t.branchCommitSha.Some?
            && var delete := DeleteBranch(branch.value, Some(Lower(t.branchCommitSha.value)));
               if r.change.state == RecoveryRequired then plan.effects == [delete]
               else number.Some? && plan.effects == [ClosePullRequest(number.value), delete])
  {
    hide ValidChange, ValidTarget, MergeProblems, IssueProblems;
  }

  /** Merging has no remote effect of its own. */
  lemma MergePlanned(r: Request)
    requires r.operation == Merge
    ensures PlanTransition(r).Success? <==> RequestProblems(r) == []
    ensures PlanTransition(r).Success? ==>
      var plan := PlanTransition(r).value;
      plan.effects == [] && plan.to == Merged && plan.result == r.change.(state := Merged)
  {
    hide ValidChange, IssueProblems, ArtifactProblems;
  }

  // ---- issuance plans ---------------------------------------------------------------------------

  /** A validated create plan holds the three issue effects. */
  lemma CreateEffects(i: IssuancePlan)
    requires ValidateIssuance(i).Some? && i.mode == Create
    ensures ValidEffects(i.effects) && i.identity == i.result.identity
    ensures i.effects == IssueEffects(i.verification.branch, i.verification.baseBranch, i.identity.rootIssue, FindPlan(i.effects))
  {
    hide ValidEffect, ValidText, ValidIdentity, PlanTransition, IssueRequest, NormalizeEffect, FindPlan;
    var defined := Change(i.identity, Defined, i.result.provenance, NO_ARTIFACTS);
    IssueRequestPlans(defined, i.verification.branch, i.verification.baseBranch, FindPlan(i.effects));
    UnchangedByNormalizing(i.effects, i.verification.branch, i.verification.baseBranch, i.identity.rootIssue, FindPlan(i.effects));
  }

  lemma UnchangedByNormalizing(effects: seq<Effect>, branch: string, base: string, root: nat, plan: Option<PullRequestPlan>)
    ensures Map(effects, NormalizeEffect) == IssueEffects(branch, base, root, plan) ==> effects == IssueEffects(branch, base, root, plan)
  {
    if Map(effects, NormalizeEffect) == IssueEffects(branch, base, root, plan) {
      forall k | 0 <= k < |effects| ensures effects[k] == IssueEffects(branch, base, root, plan)[k] {
        assert Map(effects, NormalizeEffect)[k] == NormalizeEffect(effects[k]);
      }
    }
  }

  /** Creating a Change that owns nothing yet: the three effects, with the texts of an initial Draft plan or the defaults. */
  ghost predicate Creates(p: IssuancePlan, branch: string, base: string) {
    && p.mode == Create && p.source == Status.Absent
    && p.result == Change(p.identity, Draft, p.result.provenance, Artifacts(Some(branch), None))
    && exists plan :: TextsWithinBounds(plan) && (plan.Some? ==> InitialDraftOf(plan.value, branch, base, p.identity))
         && p.effects == IssueEffects(branch, base, p.identity.rootIssue, plan)
  }

  /** Returning a healthy Change that has its pull request: no effect at all. */
  predicate Returns(p: IssuancePlan) {
    && p.mode == ReturnExisting && p.source == Status.Healthy && p.effects == []
    && p.result.state in {Draft, Review, Accepted, Merged, Aborted} && p.result.artifacts.pullRequest.Some?
  }

  /**
   Which issuance plans validate: keyed by the identity of a well-formed Change with a branch, verified by just that Change, and either
   creating it or returning it.
   */
  lemma IssuanceAdmitted(p: IssuancePlan)
    ensures ValidateIssuance(p).Some? <==>
      && ValidChange(p.result) && p.identity == p.result.identity && p.key == IdentityKey(p.identity) && KeyIsText(p.identity)
      && p.result.artifacts.branch.Some? && ValidText(p.verification.baseBranch, 255)
      && var branch, base := p.result.artifacts.branch.value, p.verification.baseBranch;
         && p.verification == Verification(branch, base, p.result.state, p.result.artifacts.pullRequest)
         && (Creates(p, branch, base) || Returns(p))
  {
    hide KeyIsText, ValidText, ValidIdentity, ValidEffect, PlanTransition, IssueRequest, NormalizeEffect, FindPlan, IssueEffects, IdentityKey,
         ValidProvenance;
    if ValidChange(p.result) {
      KeyIsTextIff(p.result);
      if p.mode == Create && p.result.artifacts.branch.Some? && ValidText(p.verification.baseBranch, 255) && p.identity == p.result.identity {
        var branch, base := p.result.artifacts.branch.value, p.verification.baseBranch;
        if p.verification == Verification(branch, base, p.result.state, p.result.artifacts.pullRequest) { CreateAdmitted(p, branch, base); }
      }
    }
  }

  lemma DraftPlanIff(plan: PullRequestPlan, branch: string, base: string, id: Identity)
    ensures PlanFits(plan, Some(branch), Some(base), id) <==> InitialDraftOf(plan, branch, base, id)
  {
  }

  lemma CreateAdmitted(p: IssuancePlan, branch: string, base: string)
    requires ValidChange(p.result) && ValidText(branch, 255) && ValidText(base, 255) && p.identity == p.result.identity
    requires p.mode == Create && p.verification == Verification(branch, base, p.result.state, p.result.artifacts.pullRequest)
    requires p.result.artifacts.branch == Some(branch)
    ensures CreateMatches(p) && ValidEffects(p.effects) && p.source == Status.Absent <==> Creates(p, branch, base)
  {
    hide ValidText, ValidEffect, PlanTransition, IssueRequest, NormalizeEffect, FindPlan, IssueEffects, ValidProvenance,
         PlanFits, InitialDraftOf, TextsWithinBounds;
    var root := p.identity.rootIssue;
    var defined := Change(p.identity, Defined, p.result.provenance, NO_ARTIFACTS);
    var own := FindPlan(p.effects);
    IssueRequestPlans(defined, branch, base, own);
    if own.Some? { DraftPlanIff(own.value, branch, base, p.identity); }
    UnchangedByNormalizing(p.effects, branch, base, root, own);
    BoundedTexts(branch, base, root, own);
    forall plan | p.effects == IssueEffects(branch, base, root, plan) ensures plan == own { FindsItsPlan(branch, base, root, plan); }
    if TextsWithinBounds(own) && (own.Some? ==> InitialDraftOf(own.value, branch, base, p.identity)) {
      IssueEffectsValid(branch, base, p.identity, own);
    }
  }

  lemma BoundedTexts(branch: string, base: string, root: nat, plan: Option<PullRequestPlan>)
    ensures ValidEffects(IssueEffects(branch, base, root, plan)) ==> TextsWithinBounds(plan)
  {
    hide ValidText, ValidBody;
    var effects := IssueEffects(branch, base, root, plan);
    assert effects[2] == CreatePullRequest(branch, base, root, Title(plan, root), Body(plan, root), plan);
    if ValidEffects(effects) { assert ValidEffect(effects[2]); }
  }

  // ---- which Changes may be aborted -----------------------------------------------------------------

  /** A generation read off a readable projection is a lower-case commit. */
  lemma ReadGeneration(input: Input, branch: string)
    requires Readable(input) && IssueMatches(FactsOf(input))
    ensures var sha := CanonicalSha(Project(input), branch); sha.Some? ==> IsCommitSha(sha.value) && Lower(sha.value) == sha.value
  {
    hide FactsOf, CanonicalBranch, StatusOf, AnyConflict, ProjectedChange, Filter, ClassifyBranch, ClassifyPullRequest;
    ReadableFacts(input);
    var f, p := FactsOf(input), Project(input);
    var found := Filter(p.branches, CanonicalBranchCandidate(branch));
    if found != [] {
      assert found[0] in p.branches;
      var i :| 0 <= i < |p.branches| && p.branches[i] == found[0];
      assert found[0].evidence == f.branches[i] && f.branches[i] in f.branches;
    }
  }

  /** A well-formed Change with a branch is planned exactly in these states, unless a generation or the pull request is missing. */
  lemma AbortOfChange(change: Change, requester: Option<string>, sha: Option<string>)
    requires ValidChange(change) && ValidRole(requester) && change.artifacts.branch.Some?
    requires sha.Some? ==> IsCommitSha(sha.value) && Lower(sha.value) == sha.value
    ensures PlanTransition(AbortRequest(change, requester, sha)).Success? <==>
      || (change.state == Aborted && change.artifacts.pullRequest.Some?)
      || (change.state == RecoveryRequired && sha.Some?)
      || (change.state in {Draft, Review} && change.artifacts.pullRequest.Some? && sha.Some?)
  {
    hide ValidText, ValidIdentity, Lower, IsCommitSha;
    var r := AbortRequest(change, requester, sha);
    ArtifactsAdmitted(r);
    PlannerTotality(r);
    hide RequestProblems, PlanTransition;
  }

  /** Who asked for the abort is recorded as requester; all other roles, identity and artifacts are kept. */
  lemma AbortKeepsRoles(change: Change, requester: Option<string>, sha: Option<string>)
    requires PlanTransition(AbortRequest(change, requester, sha)).Success?
    ensures var roles, kept := PlanTransition(AbortRequest(change, requester, sha)).value.result.provenance, change.provenance;
      roles == Provenance(if requester.Some? then requester else kept.requester, kept.issuer, kept.implementer, kept.reviewer, kept.merger)
    ensures PlanTransition(AbortRequest(change, requester, sha)).value.result
      == Change(change.identity, Aborted, PlanTransition(AbortRequest(change, requester, sha)).value.result.provenance, change.artifacts)
  {
    hide RequestProblems;
    PlanFollowsLifecycle(AbortRequest(change, requester, sha));
    AbortPlanned(AbortRequest(change, requester, sha));
  }

  /** The shape of what may be aborted, read off a projection computed from evidence. */
  ghost predicate MayBeAborted(p: Projection) {
    && p.change.Some? && p.change.value.provenance.issuer == Some("app:inari-issuer")
    && var state, sha := p.change.value.state, ProjectedSha(p, p.change.value);
       || CleanupComplete(p)
       || (p.status == Status.Healthy && (state == Aborted || (state in {Draft, Review} && sha.Some?)))
       || (ClassifyAbortRecovery(p).Some? && sha.Some?)
  }

  /**
   Over projections computed from evidence an abort is planned exactly for Changes of the trusted issuer: when nothing is left of
   them, when they are aborted already, when they are a healthy Draft or Review or one of the two recovery shapes, and then only
   if the generation of the branch was read. Nothing healthy and ACCEPTED or MERGED is ever aborted.
   */
  lemma AbortPlannedIff(input: Input, requester: Option<string>)
    requires ValidRole(requester)
    ensures PlanAbort(Project(input), requester).Some? <==> MayBeAborted(Project(input))
  {
    hide Project, FactsOf, ValidChange, ValidText, ValidIdentity, PlanTransition, AbortRequest, CanonicalSha, IsCommitSha, Filter;
    var p := Project(input);
    DiagnosticsExplainRejection(input);
    if p.change.Some? && (p.valid || p.status == Status.Partial) {
      DecidedChange(input);
      var change := p.change.value;
      if p.valid { ValidProjectionShape(input); }
      if p.valid && p.status == Status.Absent {
        DefinedIsNotAborted(change, requester);
      } else if change.artifacts.branch.Some? {
        ReadGeneration(input, change.artifacts.branch.value);
        AbortOfChange(change, requester, ProjectedSha(p, change));
      }
    }
  }

  lemma DecidedChange(input: Input)
    requires Project(input).change.Some? && (Project(input).valid || Project(input).status == Status.Partial)
    ensures Readable(input) && IssueMatches(FactsOf(input)) && ValidChange(Project(input).change.value)
  {
    hide ProjectFacts, FactsOf, ValidChange;
    assert Readable(input) && IssueMatches(FactsOf(input));
    ProjectedChangeValid(input);
  }

  lemma DefinedIsNotAborted(change: Change, requester: Option<string>)
    requires change.state == Defined
    ensures forall sha :: PlanTransition(AbortRequest(change, requester, sha)).Failure?
  {
    hide ValidChange, ValidTarget;
  }
}
