/** The contract every transported projection is checked against, and why computed projections meet it. */
module ProjectionContract {
  import opened Wrappers
  import opened Ordering
  import opened Change
  import opened Projection
  import opened ProjectionTheorems
  import opened Issuance

  predicate ValidCandidates(p: Projection) {
    && |p.branches| <= MAX_CANDIDATES && |p.pullRequests| <= MAX_CANDIDATES
    && (forall i :: 0 <= i < |p.branches| ==> ValidBranch(p.branches[i].evidence))
    && (forall i :: 0 <= i < |p.pullRequests| ==> ValidPullRequest(p.pullRequests[i].evidence))
  }

  /** What a transported projection must satisfy before anything is read off it. */
  predicate ValidResult(p: Projection) {
    && (p.canonicalBranch.Some? ==> ValidText(p.canonicalBranch.value, MAX_TEXT))
    && (p.canonicalBaseBranch.Some? ==> ValidText(p.canonicalBaseBranch.value, MAX_TEXT))
    && ValidCandidates(p) && |p.diagnostics| <= MAX_DIAGNOSTICS
    && (p.change.Some? ==> ValidChange(p.change.value))
    && (p.valid <==> p.status in {Healthy, Absent})
  }

  lemma ReadableSizes(input: Input)
    requires Readable(input)
    ensures |FactsOf(input).branches| <= MAX_CANDIDATES && |FactsOf(input).pullRequests| <= MAX_CANDIDATES
  {
    SameSize(FactsOf(input).branches, Map(ReadList(input.evidence.branches), NormalizeBranch));
    SameSize(FactsOf(input).pullRequests, Map(ReadList(input.evidence.pullRequests), NormalizePullRequest));
  }

  lemma CandidatesAreFacts(input: Input)
    requires Readable(input) && IssueMatches(FactsOf(input))
    ensures var p, f := Project(input), FactsOf(input);
      && |p.branches| == |f.branches| && |p.pullRequests| == |f.pullRequests|
      && (forall i :: 0 <= i < |f.branches| ==> p.branches[i].evidence == f.branches[i])
      && (forall i :: 0 <= i < |f.pullRequests| ==> p.pullRequests[i].evidence == f.pullRequests[i])
  {
    hide StatusOf, CanonicalBranch, AnyConflict, ProjectedChange, ClassifyBranch, ClassifyPullRequest;
  }

  /** Projections computed from evidence satisfy the result contract. */
  lemma ComputedResultIsValid(input: Input)
    requires Readable(input) && IssueMatches(FactsOf(input))
    ensures ValidResult(Project(input))
  {
    ProjectedChangeValid(input);
    CanonicalBranchValid(input);
    ComputedNames(input);
    hide Project, ValidChange, ValidText, Readable, FactsOf, ValidCandidates;
    DiagnosticsExplainRejection(input);
    ComputedCandidatesAreValid(input);
  }

  lemma ComputedCandidatesAreValid(input: Input)
    requires Readable(input) && IssueMatches(FactsOf(input))
    ensures ValidCandidates(Project(input))
  {
    hide Project, ValidBranch, ValidPullRequest, FactsOf;
    ReadableSizes(input);
    ReadableFacts(input);
    CandidatesAreFacts(input);
    var p, f := Project(input), FactsOf(input);
    forall i | 0 <= i < |p.branches| ensures ValidBranch(p.branches[i].evidence) { assert f.branches[i] in f.branches; }
    forall i | 0 <= i < |p.pullRequests| ensures ValidPullRequest(p.pullRequests[i].evidence) {
      assert f.pullRequests[i] in f.pullRequests;
    }
  }

  lemma ComputedNames(input: Input)
    requires Readable(input) && IssueMatches(FactsOf(input))
    ensures Project(input).canonicalBranch == Some(CanonicalBranch(FactsOf(input)))
    ensures Project(input).canonicalBaseBranch == Some(input.baseBranch) && ValidText(input.baseBranch, MAX_TEXT)
  {
    hide StatusOf, CanonicalBranch, AnyConflict, ProjectedChange, ValidText, ValidIdentity, ValidProvenance;
  }

  lemma ValidMatches(input: Input)
    requires Project(input).valid
    ensures Readable(input) && IssueMatches(FactsOf(input)) && Project(input) == ProjectFacts(FactsOf(input))
  {
    hide ProjectFacts;
  }
}
