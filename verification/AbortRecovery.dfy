/** The two bounded shapes of drift from which an abort may still clean up. */
module AbortRecovery {
  import opened Wrappers
  import opened Ordering
  import opened Change
  import opened Projection
  import opened ProjectionTheorems

  datatype Kind = BranchOnly | ClosedPullRequest

  function CanonicalBranchCandidate(name: string): Candidate<BranchEvidence> -> bool {
    (c: Candidate<BranchEvidence>) => c.class_ == Canonical && c.evidence.name == name
  }

  function ClosedCanonicalCandidate(branch: string, base: Option<string>): Candidate<PullRequestEvidence> -> bool {
    (c: Candidate<PullRequestEvidence>) =>
      c.class_ == Canonical && c.evidence.head == branch && Some(c.evidence.base) == base && ClosedUnmerged(c.evidence)
  }

  function ClassifyAbortRecovery(p: Projection): Option<Kind> {
    if p.valid || p.status != Partial || p.change.None? || p.change.value.state != RecoveryRequired
       || p.canonicalBranch.None?
    then None
    else
      var branch, artifacts := p.canonicalBranch.value, p.change.value.artifacts;
      var closed := Filter(p.pullRequests, ClosedCanonicalCandidate(branch, p.canonicalBaseBranch));
      if |Filter(p.branches, CanonicalBranchCandidate(branch))| != 1 || artifacts.branch != Some(branch) then None
      else if |closed| == 1 && artifacts.pullRequest == Some(closed[0].evidence.number) then Some(ClosedPullRequest)
      else if artifacts.pullRequest.None? && |p.branches| == 1 && |p.pullRequests| == 0 then Some(BranchOnly)
      else None
  }

  predicate CleanupComplete(p: Projection) {
    && p.valid && p.status == Absent && p.diagnostics == []
    && p.change.Some? && p.change.value.state == Defined && p.change.value.artifacts == NO_ARTIFACTS
    && p.branches == [] && p.pullRequests == []
  }

  lemma CanonicalBranchCandidates(f: Facts)
    requires Consistent(f)
    ensures |Filter(BranchCandidates(f), CanonicalBranchCandidate(CanonicalBranch(f)))| == |CanonicalBranches(f)|
  {
    var make := (b: BranchEvidence) => Candidate(b, ClassifyBranch(f, b));
    forall b | b in f.branches ensures ClassifyBranch(f, b) != Conflicting {
      if ClassifyBranch(f, b) == Conflicting { ConflictingBranchIsInconsistent(f, b); }
    }
    FilterImage(f.branches, make, CanonicalBranchCandidate(CanonicalBranch(f)), OnCanonicalBranch(f));
    assert BranchCandidates(f) == Map(f.branches, make);
  }

  lemma NoConflictingPullRequest(f: Facts)
    requires Consistent(f) && !OffBase(f)
    ensures forall p :: p in f.pullRequests ==> ClassifyPullRequest(f, p) != Conflicting
  {
    forall p | p in f.pullRequests ensures ClassifyPullRequest(f, p) != Conflicting {
      if ClassifyPullRequest(f, p) == Conflicting { ConflictingPullRequestIsInconsistent(f, p); }
    }
  }

  function ClosedMatch(f: Facts): PullRequestEvidence -> bool {
    (p: PullRequestEvidence) => IdentityMatches(f, p) && ClosedUnmerged(p)
  }

  function Classified(f: Facts): PullRequestEvidence -> Candidate<PullRequestEvidence> {
    (p: PullRequestEvidence) => Candidate(p, ClassifyPullRequest(f, p))
  }

  lemma ClosedCandidatesAreClosedMatches(f: Facts)
    requires Consistent(f) && !OffBase(f)
    ensures Filter(PullRequestCandidates(f), ClosedCanonicalCandidate(CanonicalBranch(f), Some(f.baseBranch)))
            == Map(Filter(CanonicalPullRequests(f), ClosedUnmerged), Classified(f))
  {
    NoConflictingPullRequest(f);
    assert PullRequestCandidates(f) == Map(f.pullRequests, Classified(f));
    FilterImage(f.pullRequests, Classified(f), ClosedCanonicalCandidate(CanonicalBranch(f), Some(f.baseBranch)), ClosedMatch(f));
    FilterTwice(f.pullRequests, MatchesIdentity(f), ClosedUnmerged, ClosedMatch(f));
  }

  /** Among consistent, on-base candidates the closed canonical ones are the closed members of the canonical list. */
  lemma ClosedCanonicalCandidates(f: Facts)
    requires Consistent(f) && !OffBase(f) && |CanonicalPullRequests(f)| <= 1
    ensures var closed := Filter(PullRequestCandidates(f), ClosedCanonicalCandidate(CanonicalBranch(f), Some(f.baseBranch)));
      if |CanonicalPullRequests(f)| == 1 && ClosedUnmerged(CanonicalPullRequests(f)[0])
      then |closed| == 1 && closed[0].evidence == CanonicalPullRequests(f)[0]
      else closed == []
  {
    ClosedCandidatesAreClosedMatches(f);
    var matches := CanonicalPullRequests(f);
    if matches != [] {
      assert matches == [] + [matches[0]];
      FilterSnoc([], matches[0], ClosedUnmerged);
    }
  }

  /** Cleanup after a closed pull request needs one canonical pair whose pull request was closed unmerged. */
  lemma ClosedPullRequestIff(f: Facts)
    ensures ClassifyAbortRecovery(ProjectFacts(f)) == Some(ClosedPullRequest) <==>
      && RootClaimsAgree(f) && Consistent(f) && !OffBase(f)
      && |CanonicalBranches(f)| == 1 && |CanonicalPullRequests(f)| == 1 && ClosedUnmerged(CanonicalPullRequests(f)[0])
  {
    hide CanonicalBranch, BranchCandidates, PullRequestCandidates, OffBase, CanonicalBranches, CanonicalPullRequests;
    PartialIff(f);
    if Consistent(f) && !OffBase(f) && |CanonicalPullRequests(f)| <= 1 {
      CanonicalBranchCandidates(f);
      ClosedCanonicalCandidates(f);
    }
  }

  lemma NoPullRequestShape(f: Facts)
    requires f.pullRequests == []
    ensures CanonicalPullRequests(f) == [] && !OffBase(f) && OnlyPullRequest(f).None?
  {
  }

  lemma LoneBranchClaims(f: Facts)
    requires |f.branches| == 1 && f.pullRequests == []
    ensures Consistent(f) <==> f.branches[0].rootIssue in {None, Some(f.identity.rootIssue)}
    ensures f.branches[0].name == CanonicalBranch(f) ==> RootClaimsAgree(f)
  {
    hide CanonicalBranch;
    assert f.branches[0] in f.branches && forall b :: b in f.branches <==> b == f.branches[0];
    assert forall p :: p !in f.pullRequests;
  }

  lemma LoneBranchShape(f: Facts)
    requires |f.branches| == 1 && f.pullRequests == []
    ensures CanonicalPullRequests(f) == [] && !OffBase(f) && OnlyPullRequest(f).None?
    ensures |CanonicalBranches(f)| == 1 <==> f.branches[0].name == CanonicalBranch(f)
    ensures BranchKnown(f) <==> f.branches[0].name == CanonicalBranch(f)
    ensures Consistent(f) <==> f.branches[0].rootIssue in {None, Some(f.identity.rootIssue)}
    ensures f.branches[0].name == CanonicalBranch(f) ==> RootClaimsAgree(f)
  {
    hide CanonicalBranch, CanonicalBranches, Consistent, RootClaimsAgree, CanonicalPullRequests, OffBase, OnlyPullRequest;
    NoPullRequestShape(f);
    LoneBranchClaims(f);
    OneBranchShape(f);
  }

  lemma LoneBranchIsPartial(f: Facts)
    requires |f.branches| == 1 && f.pullRequests == []
    ensures StatusOf(f) == Partial && |CanonicalBranches(f)| == 1 <==>
      f.branches[0].name == CanonicalBranch(f) && f.branches[0].rootIssue in {None, Some(f.identity.rootIssue)}
  {
    hide CanonicalBranch, OffBase, CanonicalBranches, CanonicalPullRequests, OnlyPullRequest, BranchKnown, TallyOf,
         Consistent, RootClaimsAgree;
    LoneBranchShape(f);
    PartialIff(f);
  }

  /** Branch-only cleanup is admitted for a lone canonical branch and nothing else at all. */
  lemma BranchOnlyIff(f: Facts)
    ensures ClassifyAbortRecovery(ProjectFacts(f)) == Some(BranchOnly) <==>
      && |f.branches| == 1 && f.branches[0].name == CanonicalBranch(f) && f.pullRequests == []
      && f.branches[0].rootIssue in {None, Some(f.identity.rootIssue)}
  {
    hide CanonicalBranch, OffBase, CanonicalBranches, CanonicalPullRequests, OnlyPullRequest, BranchKnown, TallyOf;
    assert |BranchCandidates(f)| == |f.branches| && |PullRequestCandidates(f)| == |f.pullRequests|;
    if f.pullRequests == [] && |f.branches| == 1 {
      LoneBranchShape(f);
      LoneBranchIsPartial(f);
      if Consistent(f) { CanonicalBranchCandidates(f); }
    }
  }

  lemma OneBranchShape(f: Facts)
    requires |f.branches| == 1
    ensures CanonicalBranches(f) == if f.branches[0].name == CanonicalBranch(f) then f.branches else []
  {
    assert f.branches == [f.branches[0]];
  }

  /** A finished branch-only cleanup is exactly an open or closed Issue with no candidate left. */
  lemma CleanupCompleteIff(f: Facts)
    ensures CleanupComplete(ProjectFacts(f)) <==> f.issue.Some? && f.branches == [] && f.pullRequests == []
  {
    AbsentIff(f);
    FactsExplainRejection(f);
    assert |BranchCandidates(f)| == |f.branches| && |PullRequestCandidates(f)| == |f.pullRequests|;
  }
}
