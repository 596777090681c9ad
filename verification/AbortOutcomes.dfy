/** What an abort looks like from outside at each of its stages, and exactly when its end is recognised. */
module AbortOutcomes {
  import opened Wrappers
  import opened Ordering
  import opened Change
  import opened Projection
  import opened ProjectionTheorems
  import opened AbortRecovery
  import opened Transition
  import opened Issuance
  import opened AbortPlanning
  import opened GitHubWorld
  import opened AbortRuns

  /** A healthy Draft or Review Change of the trusted issuer is the start of the way. */
  lemma HealthyChangeStarts(c: Setting, w: World, listing: Listing)
    requires WellFormed(c, w) && AnchorSurvives(RawFacts(c, w))
    requires var p := Project(Observe(c, w, listing));
      && p.status == Healthy && p.change.Some? && p.change.value.state in {Draft, Review}
      && p.change.value.provenance.issuer == Some(TRUSTED_ISSUER)
    ensures OnTheWay(c, w) && Rank(RawFacts(c, w)) == 2
  {
    hide WellFormed, AnchorSurvives, TallyOf, CanonicalBranch, BranchCandidates, PullRequestCandidates, Project, OffBase,
         Consistent, RootClaimsAgree, CanonicalBranches, CanonicalPullRequests, MergeProvenance, AnyConflict;
    var f := RawFacts(c, w);
    ObservedProjection(c, w, listing);
    HealthyIff(f);
    HealthyChange(f);
  }

  /** The projection at every stage, as any reader sees it. */
  lemma StageSeen(c: Setting, w: World, listing: Listing)
    requires OnTheWay(c, w)
    ensures var p, f := Project(Observe(c, w, listing)), RawFacts(c, w);
      var only := CanonicalPullRequests(f)[0];
      && p.change.Some? && p.change.value.artifacts == Artifacts(Some(CanonicalBranch(f)), Some(only.number))
      && p.change.value.identity == c.identity
      && p.change.value.provenance == MergeProvenance(c.provenance, only.provenance)
      && (Rank(f) == 2 ==> p.status == Healthy && p.change.value.state in {Draft, Review})
      && (Rank(f) == 1 ==> p.status == Partial && p.change.value.state == RecoveryRequired
                           && ClassifyAbortRecovery(p) == Some(ClosedPullRequest))
      && (Rank(f) == 0 ==> p.status == Healthy && p.change.value.state == Aborted)
  {
    hide WellFormed, AnchorSurvives, TallyOf, CanonicalBranch, BranchCandidates, PullRequestCandidates, Project, OffBase,
         Consistent, RootClaimsAgree, CanonicalBranches, CanonicalPullRequests, MergeProvenance, AnyConflict,
         ClassifyAbortRecovery, ProjectFacts, ProjectedChange;
    var f := RawFacts(c, w);
    ObservedProjection(c, w, listing);
    PlanFromWorld(c, w, listing, None);
    if Finished(f) {
      HealthyIff(f);
      FinishedChange(f);
    } else {
      PairChange(f);
      ClosedPullRequestIff(f);
    }
  }

  /** A closed pair, with or without a surviving anchor. */
  ghost predicate ClosedPair(c: Setting, w: World) {
    WellFormed(c, w) && Pair(RawFacts(c, w)) && ClosedUnmerged(CanonicalPullRequests(RawFacts(c, w))[0])
  }

  function LastDelete(c: Setting, w: World): World {
    w.(branches := Filter(w.branches, BranchIsNot(CanonicalBranch(RawFacts(c, w)))))
  }

  function AbortedChange(c: Setting, w: World): Change
    requires |CanonicalPullRequests(RawFacts(c, w))| == 1
  {
    var f := RawFacts(c, w);
    var only := CanonicalPullRequests(f)[0];
    Change(c.identity, Aborted, MergeProvenance(c.provenance, only.provenance),
           Artifacts(Some(CanonicalBranch(f)), Some(only.number)))
  }

  /**
   The finished abort is recognised as such exactly when the anchor of the canonical branch survives its deletion.
   A legacy branch name that only the deleted branch itself tied to the Issue is lost with it.
   */
  lemma FinishedAbortIsRecognisedIff(c: Setting, w: World, listing: Listing)
    requires ClosedPair(c, w)
    ensures var p := Project(Observe(c, LastDelete(c, w), listing));
      p.status == Healthy && p.change == Some(AbortedChange(c, w)) <==> AnchorSurvives(RawFacts(c, w))
  {
    hide WellFormed, AnchorSurvives, TallyOf, CanonicalBranch, BranchCandidates, PullRequestCandidates, Project, OffBase,
         Consistent, RootClaimsAgree, CanonicalBranches, CanonicalPullRequests, MergeProvenance, AnyConflict;
    var f, v := RawFacts(c, w), LastDelete(c, w);
    var g := RawFacts(c, v);
    assert g == Deleted(f, CanonicalBranch(f));
    DeletedWorld(c, w, CanonicalBranch(f));
    DeletedAnchor(f);
    ObservedProjection(c, v, listing);
    if AnchorSurvives(f) {
      DeletedFacts(f);
      HealthyIff(g);
      FinishedChange(g);
    } else if StatusOf(g) == Healthy {
      HealthyChange(g);
    }
  }

  function LoneClaim(c: Setting, name: string, sha: string, number: nat, open: bool): World {
    World(IssueEvidence(c.identity.rootIssue, open),
          [BranchEvidence(name, Some(sha), Some(c.identity.rootIssue))],
          [PullRequestEvidence(number, name, None, c.baseBranch, false, false, false, None, None, None)])
  }

  lemma LoneClaimFacts(c: Setting, name: string, sha: string, number: nat, open: bool)
    requires c.authority.Derived? && name != c.authority.branch && number != c.identity.rootIssue
    ensures var f := RawFacts(c, LoneClaim(c, name, sha, number, open));
      && CanonicalBranch(f) == name && CanonicalBranches(f) == f.branches && CanonicalPullRequests(f) == f.pullRequests
      && !OffBase(f) && RootClaimsAgree(f) && Consistent(f) && !AnchorSurvives(f)
  {
    var f := RawFacts(c, LoneClaim(c, name, sha, number, open));
    var b, p := f.branches[0], f.pullRequests[0];
    assert b in f.branches;
    assert AnchoredNames(f) == {name};
    assert f.branches == [] + [b] && f.pullRequests == [] + [p];
    FilterSnoc([], b, OnCanonicalBranch(f));
    FilterSnoc([], p, MatchesIdentity(f));
    FilterSnoc([], p, MissesBase(f));
  }

  /**
   The lost anchor exists: a legacy branch that alone claims the Issue, under another name than the derived one, with its
   pull request closed unmerged and without a claim. After the last delete that abort is not recognised.
   */
  lemma LostAnchor(c: Setting, name: string, sha: string, number: nat, open: bool, listing: Listing)
    requires ValidIdentity(c.identity) && ValidProvenance(c.provenance) && ValidText(c.baseBranch, MAX_TEXT)
    requires ValidText(c.authority.branch, MAX_TEXT) && ValidText(name, MAX_TEXT) && ValidNumber(number)
    requires c.authority.Derived? && name != c.authority.branch && number != c.identity.rootIssue
    requires IsCommitSha(sha) && Lower(sha) == sha
    ensures var w := LoneClaim(c, name, sha, number, open);
      && ClosedPair(c, w)
      && var p := Project(Observe(c, LastDelete(c, w), listing));
         !(p.status == Healthy && p.change == Some(AbortedChange(c, w)))
  {
    hide RootClaimsAgree, Consistent, OffBase, AnchorSurvives, CanonicalBranch, CanonicalBranches, CanonicalPullRequests, Project,
         LastDelete, AbortedChange;
    var w := LoneClaim(c, name, sha, number, open);
    LoneClaimFacts(c, name, sha, number, open);
    assert WellFormedBranch(w.branches[0]) && WellFormedPullRequest(w.pullRequests[0]);
    FinishedAbortIsRecognisedIff(c, w, listing);
  }

  // ---- branch-only recovery ---------------------------------------------------------------

  /**
   A lone canonical branch is cleaned up by one conditional delete of the generation just read;
   afterwards cleanup is complete and a further abort has nothing left to do.
   */
  lemma BranchOnlyRecovery(c: Setting, w: World, listing: Listing, requester: Option<string>, choice: Choice)
    requires WellFormed(c, w) && ValidRole(requester) && c.provenance.issuer == Some(TRUSTED_ISSUER)
    requires ClassifyAbortRecovery(Project(Observe(c, w, listing))) == Some(BranchOnly)
    ensures |w.branches| == 1 && w.pullRequests == []
    ensures var effects := PlanAbort(Project(Observe(c, w, listing)), requester);
      && effects == Some([DeleteBranch(w.branches[0].name, w.branches[0].sha)])
      && var after := Apply(w, effects.value[0], choice);
         && after.Some? && after.value.branches == []
         && CleanupComplete(Project(Observe(c, after.value, listing)))
         && PlanAbort(Project(Observe(c, after.value, listing)), requester) == Some([])
  {
    hide WellFormed, AnchorSurvives, TallyOf, CanonicalBranch, BranchCandidates, PullRequestCandidates, Project, OffBase,
         CanonicalBranches, CanonicalPullRequests, MergeProvenance, AnyConflict, PlanAbort, ClassifyAbortRecovery,
         CleanupComplete, ProjectFacts, Apply, ValidRole, Trusted;
    var f := RawFacts(c, w);
    LoneWorld(c, w, listing);
    LoneWorldTrusted(c, w);
    LoneBranchShape(f);
    PlanFromWorld(c, w, listing, requester);
    LonePlan(f, requester);
    LoneDelete(w, choice);
    EmptyWorld(c, w, listing, requester);
  }

  lemma LoneWorld(c: Setting, w: World, listing: Listing)
    requires WellFormed(c, w) && ClassifyAbortRecovery(Project(Observe(c, w, listing))) == Some(BranchOnly)
    ensures ClassifyAbortRecovery(ProjectFacts(RawFacts(c, w))) == Some(BranchOnly)
    ensures |w.branches| == 1 && w.pullRequests == [] && w.branches[0].name == CanonicalBranch(RawFacts(c, w))
    ensures w.branches[0].rootIssue in {None, Some(c.identity.rootIssue)}
  {
    hide WellFormed, TallyOf, CanonicalBranch, BranchCandidates, PullRequestCandidates, Project, OffBase, ProjectFacts,
         CanonicalBranches, CanonicalPullRequests, AnyConflict, ClassifyAbortRecovery;
    var f, g := RawFacts(c, w), FactsOf(Observe(c, w, listing));
    ObservedFacts(c, w, listing);
    ReadableProjects(c, w, listing);
    BranchOnlyIff(g);
    Permutation.PermutedCanonical(g, f);
    SameSize(g.branches, f.branches);
    SameSize(g.pullRequests, f.pullRequests);
    var j := Origin(g.branches, f.branches, 0);
    BranchOnlyIff(f);
  }

  lemma ReadableProjects(c: Setting, w: World, listing: Listing)
    requires Readable(Observe(c, w, listing)) && IssueMatches(FactsOf(Observe(c, w, listing)))
    ensures Project(Observe(c, w, listing)) == ProjectFacts(FactsOf(Observe(c, w, listing)))
  {
  }

  lemma LoneWorldTrusted(c: Setting, w: World)
    requires WellFormed(c, w) && w.pullRequests == [] && c.provenance.issuer == Some(TRUSTED_ISSUER)
    ensures Trusted(RawFacts(c, w), None) && (w.branches != [] ==> WellFormedBranch(w.branches[0]))
  {
    CanonicalNameValid(c, w);
    assert w.branches != [] ==> w.branches[0] in w.branches;
  }

  lemma LoneDelete(w: World, choice: Choice)
    requires |w.branches| == 1 && w.branches[0].sha.Some? && Lower(w.branches[0].sha.value) == w.branches[0].sha.value
    ensures Apply(w, DeleteBranch(w.branches[0].name, w.branches[0].sha), choice) == Some(w.(branches := []))
  {
    assert w.branches == [] + [w.branches[0]];
    FilterSnoc([], w.branches[0], BranchIs(w.branches[0].name));
    FilterSnoc([], w.branches[0], BranchIsNot(w.branches[0].name));
  }

  lemma EmptyWorld(c: Setting, w: World, listing: Listing, requester: Option<string>)
    requires WellFormed(c, w) && w.pullRequests == [] && c.provenance.issuer == Some(TRUSTED_ISSUER)
    ensures var p := Project(Observe(c, w.(branches := []), listing));
      CleanupComplete(p) && PlanAbort(p, requester) == Some([])
  {
    hide TallyOf, CanonicalBranch, BranchCandidates, PullRequestCandidates, OffBase, Project, ProjectFacts,
         CanonicalBranches, CanonicalPullRequests, AnyConflict, CleanupComplete, PlanTransition;
    var v := w.(branches := []);
    ObservedFacts(c, v, listing);
    ReadableProjects(c, v, listing);
    var g := FactsOf(Observe(c, v, listing));
    SameSize(g.branches, v.branches);
    SameSize(g.pullRequests, v.pullRequests);
    CleanupCompleteIff(g);
    EmptyProvenance(g);
  }

  lemma EmptyProvenance(f: Facts)
    requires CleanupComplete(ProjectFacts(f))
    ensures ProjectFacts(f).valid && ProjectFacts(f).change.Some? && ProjectFacts(f).change.value.provenance == f.provenance
  {
  }
}
