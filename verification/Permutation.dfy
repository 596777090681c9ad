/** A projection of permuted facts: same status, same Change, the same candidates in another order. */
module Permutation {
  import opened Wrappers
  import opened Ordering
  import opened Change
  import opened Projection
  import opened ProjectionTheorems

  ghost predicate Permuted(f: Facts, g: Facts) {
    && f == g.(branches := f.branches, pullRequests := f.pullRequests)
    && multiset(f.branches) == multiset(g.branches) && multiset(f.pullRequests) == multiset(g.pullRequests)
  }

  lemma PermutedCanonical(f: Facts, g: Facts)
    requires Permuted(f, g)
    ensures AnchoredNames(f) == AnchoredNames(g) && CanonicalBranch(f) == CanonicalBranch(g)
    ensures NameCounts(f) == NameCounts(g) && NumberCounts(f) == NumberCounts(g)
  {
    SameMembers(f.branches, g.branches);
    SameMembers(f.pullRequests, g.pullRequests);
    assert AnchoredNames(f) == AnchoredNames(g);
    MapMultiset(f.branches, g.branches, BranchName);
    MapMultiset(f.pullRequests, g.pullRequests, Number);
  }

  /** Selecting with tests that agree from permuted sequences gives permuted selections. */
  lemma PermutedSelection<T(!new)>(s: seq<T>, t: seq<T>, p: T -> bool, q: T -> bool)
    requires multiset(s) == multiset(t) && forall x :: x in t ==> p(x) == q(x)
    ensures multiset(Filter(s, p)) == multiset(Filter(t, q)) && |Filter(s, p)| == |Filter(t, q)|
    ensures |Filter(s, p)| == 1 ==> Filter(s, p) == Filter(t, q)
  {
    FilterPermutation(s, t, p);
    FilterCongruence(t, p, q);
  }

  lemma PermutedBranchSelections(f: Facts, g: Facts)
    requires Permuted(f, g)
    ensures |CanonicalBranches(f)| == |CanonicalBranches(g)|
    ensures |CanonicalBranches(f)| == 1 ==> CanonicalBranches(f) == CanonicalBranches(g)
    ensures |Filter(f.branches, ConflictingBranch(f))| == |Filter(g.branches, ConflictingBranch(g))|
  {
    hide Filter;
    PermutedCanonical(f, g);
    PermutedSelection(f.branches, g.branches, OnCanonicalBranch(f), OnCanonicalBranch(g));
    PermutedSelection(f.branches, g.branches, ConflictingBranch(f), ConflictingBranch(g));
  }

  lemma PermutedSelections(f: Facts, g: Facts)
    requires Permuted(f, g)
    ensures |CanonicalPullRequests(f)| == |CanonicalPullRequests(g)|
    ensures |CanonicalPullRequests(f)| == 1 ==> CanonicalPullRequests(f) == CanonicalPullRequests(g)
    ensures |Filter(f.pullRequests, ConflictingPullRequest(f))| == |Filter(g.pullRequests, ConflictingPullRequest(g))|
    ensures RepeatedCanonicalNumber(f) == RepeatedCanonicalNumber(g) && OffBase(f) == OffBase(g)
    ensures |PlausibleNoncanonical(f)| == |PlausibleNoncanonical(g)|
    ensures |Filter(f.pullRequests, HeadsCanonicalBranch(f))| == |Filter(g.pullRequests, HeadsCanonicalBranch(g))|
  {
    hide Filter;
    PermutedCanonical(f, g);
    PermutedSelection(f.pullRequests, g.pullRequests, MatchesIdentity(f), MatchesIdentity(g));
    PermutedSelection(f.pullRequests, g.pullRequests, ConflictingPullRequest(f), ConflictingPullRequest(g));
    PermutedSelection(f.pullRequests, g.pullRequests, RepeatsCanonicalNumber(f), RepeatsCanonicalNumber(g));
    PermutedSelection(f.pullRequests, g.pullRequests, MissesBase(f), MissesBase(g));
    PermutedSelection(f.pullRequests, g.pullRequests, ClaimsElsewhere(f), ClaimsElsewhere(g));
    PermutedSelection(f.pullRequests, g.pullRequests, HeadsCanonicalBranch(f), HeadsCanonicalBranch(g));
  }

  lemma PermutedTally(f: Facts, g: Facts)
    requires Permuted(f, g)
    ensures TallyOf(f) == TallyOf(g) && OnlyPullRequest(f) == OnlyPullRequest(g) && BranchKnown(f) == BranchKnown(g)
  {
    hide Filter, CanonicalBranch;
    PermutedCanonical(f, g);
    PermutedBranchSelections(f, g);
    PermutedSelections(f, g);
  }

  /** Status, validity, canonical names, Change and diagnostics do not see the order of the facts. */
  lemma PermutedProjection(f: Facts, g: Facts)
    requires Permuted(f, g)
    ensures var p, q := ProjectFacts(f), ProjectFacts(g);
      && p == q.(branches := p.branches, pullRequests := p.pullRequests)
      && multiset(p.branches) == multiset(q.branches) && multiset(p.pullRequests) == multiset(q.pullRequests)
  {
    hide Filter, CanonicalBranch, TallyOf, OnlyPullRequest, BranchKnown, ClassifyBranch, ClassifyPullRequest;
    PermutedCanonical(f, g);
    PermutedTally(f, g);
    PermutedBranchSelections(f, g);
    PermutedSelections(f, g);
    PermutedCandidates(f, g);
  }

  lemma PermutedCandidates(f: Facts, g: Facts)
    requires Permuted(f, g)
    ensures multiset(BranchCandidates(f)) == multiset(BranchCandidates(g))
    ensures multiset(PullRequestCandidates(f)) == multiset(PullRequestCandidates(g))
  {
    PermutedCanonical(f, g);
    var branch := (b: BranchEvidence) => Candidate(b, ClassifyBranch(f, b));
    var pullRequest := (p: PullRequestEvidence) => Candidate(p, ClassifyPullRequest(f, p));
    MapMultiset(f.branches, g.branches, branch);
    MapMultiset(f.pullRequests, g.pullRequests, pullRequest);
    assert Map(f.branches, branch) == BranchCandidates(f) && Map(g.branches, branch) == BranchCandidates(g);
    assert Map(f.pullRequests, pullRequest) == PullRequestCandidates(f);
    assert Map(g.pullRequests, pullRequest) == PullRequestCandidates(g);
  }
}
