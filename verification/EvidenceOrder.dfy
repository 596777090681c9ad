/**
 The projection does not depend on the order in which branches and pull
 requests were reported. Two pull requests that differ only in carrying an
 empty provenance instead of none compare equal, so the sorted candidates agree
 once those two are identified; everything else agrees exactly.
 */
module EvidenceOrder {
  import opened Wrappers
  import opened Ordering
  import opened Change
  import opened Projection
  import opened ProjectionTheorems

  // ---- the comparators are total preorders -----------------------------------------

  lemma OptionalTextOrder(a: Option<string>, b: Option<string>, d: Option<string>)
    ensures Mirror(CompareOptionalText(a, b), CompareOptionalText(b, a))
    ensures Triple(CompareOptionalText(a, b), CompareOptionalText(b, d), CompareOptionalText(a, d))
  {
    CompareTextOrder(a.GetOr(""), b.GetOr(""));
    CompareTextTransitive(a.GetOr(""), b.GetOr(""), d.GetOr(""));
  }

  lemma BranchesLawful()
    ensures Lawful(CompareBranches)
  {
    forall a, b, d
      ensures Mirror(CompareBranches(a, b), CompareBranches(b, a))
      ensures Triple(CompareBranches(a, b), CompareBranches(b, d), CompareBranches(a, d))
    {
      CompareTextOrder(a.name, b.name);
      CompareTextTransitive(a.name, b.name, d.name);
      OptionalTextOrder(a.sha, b.sha, d.sha);
    }
  }

  lemma RolesLawful(a: Provenance, b: Provenance, d: Provenance)
    ensures Mirror(CompareRoles(a, b), CompareRoles(b, a))
    ensures Triple(CompareRoles(a, b), CompareRoles(b, d), CompareRoles(a, d))
  {
    hide CompareOptionalText;
    OptionalTextOrder(a.issuer, b.issuer, d.issuer);
    OptionalTextOrder(a.implementer, b.implementer, d.implementer);
    OptionalTextOrder(a.reviewer, b.reviewer, d.reviewer);
    OptionalTextOrder(a.merger, b.merger, d.merger);
    OptionalTextOrder(a.requester, b.requester, d.requester);
  }

  lemma StatesLawful(a: PullRequestEvidence, b: PullRequestEvidence, d: PullRequestEvidence)
    ensures Mirror(CompareStates(a, b), CompareStates(b, a))
    ensures Triple(CompareStates(a, b), CompareStates(b, d), CompareStates(a, d))
  {
    hide CompareText;
    CompareTextOrder(StateText(a), StateText(b));
    CompareTextTransitive(StateText(a), StateText(b), StateText(d));
  }

  lemma PullRequestsLawful()
    ensures Lawful(ComparePullRequests)
  {
    forall a, b, d
      ensures Mirror(ComparePullRequests(a, b), ComparePullRequests(b, a))
      ensures Triple(ComparePullRequests(a, b), ComparePullRequests(b, d), ComparePullRequests(a, d))
    {
      hide CompareText, CompareOptionalText, CompareStates, CompareRoles;
      CompareTextOrder(a.head, b.head);
      CompareTextTransitive(a.head, b.head, d.head);
      OptionalTextOrder(a.headSha, b.headSha, d.headSha);
      CompareTextOrder(a.base, b.base);
      CompareTextTransitive(a.base, b.base, d.base);
      StatesLawful(a, b, d);
      RolesLawful(Roles(a), Roles(b), Roles(d));
    }
  }

  // ---- what the comparators cannot tell apart ------------------------------------------

  function Blank(o: Option<string>): Option<string> { if o == Some("") then None else o }

  function BranchKey(b: BranchEvidence): BranchEvidence { b.(sha := Blank(b.sha)) }

  function RoleKey(p: Provenance): Provenance {
    Provenance(Blank(p.requester), Blank(p.issuer), Blank(p.implementer), Blank(p.reviewer), Blank(p.merger))
  }

  function PullRequestKey(p: PullRequestEvidence): PullRequestEvidence {
    p.(headSha := Blank(p.headSha), provenance := Some(RoleKey(Roles(p))))
  }

  /** A missing provenance read as the empty one. */
  function Erase(p: PullRequestEvidence): PullRequestEvidence { p.(provenance := Some(Roles(p))) }

  function EraseCandidate(c: Candidate<PullRequestEvidence>): Candidate<PullRequestEvidence> {
    c.(evidence := Erase(c.evidence))
  }

  lemma OptionalTextTies(a: Option<string>, b: Option<string>)
    ensures CompareOptionalText(a, b) == 0 <==> Blank(a) == Blank(b)
  {
    CompareTextOrder(a.GetOr(""), b.GetOr(""));
  }

  lemma BranchTies(a: BranchEvidence, b: BranchEvidence)
    ensures CompareBranches(a, b) == 0 <==> BranchKey(a) == BranchKey(b)
  {
    CompareTextOrder(a.name, b.name);
    OptionalTextTies(a.sha, b.sha);
  }

  lemma RoleTies(a: Provenance, b: Provenance)
    ensures CompareRoles(a, b) == 0 <==> RoleKey(a) == RoleKey(b)
  {
    OptionalTextTies(a.issuer, b.issuer);
    OptionalTextTies(a.implementer, b.implementer);
    OptionalTextTies(a.reviewer, b.reviewer);
    OptionalTextTies(a.merger, b.merger);
    OptionalTextTies(a.requester, b.requester);
  }

  lemma PullRequestTies(a: PullRequestEvidence, b: PullRequestEvidence)
    ensures ComparePullRequests(a, b) == 0 <==> PullRequestKey(a) == PullRequestKey(b)
  {
    CompareTextOrder(a.head, b.head);
    CompareTextOrder(a.base, b.base);
    OptionalTextTies(a.headSha, b.headSha);
    CompareTextOrder(StateText(a), StateText(b));
    assert |"open"| == 4 && |"closed"| == 6;
    RoleTies(Roles(a), Roles(b));
  }

  // ---- sorted candidates forget the arrival order ---------------------------------------

  /** The same reports in another order. */
  ghost predicate Reordered<T>(a: Read<seq<T>>, b: Read<seq<T>>) {
    if a.Available? && b.Available? then multiset(a.value) == multiset(b.value) else a == b
  }

  ghost predicate SameEvidence(a: Input, b: Input) {
    && a == b.(evidence := a.evidence) && a.evidence.issue == b.evidence.issue
    && Reordered(a.evidence.branches, b.evidence.branches)
    && Reordered(a.evidence.pullRequests, b.evidence.pullRequests)
  }

  lemma ReorderedQuiet<T>(a: seq<T>, b: seq<T>, f: T -> seq<Code>)
    requires multiset(a) == multiset(b) && Collect(a, f) == []
    ensures Collect(b, f) == []
  {
    CollectNothing(a, f);
    forall i | 0 <= i < |b| ensures f(b[i]) == [] {
      var j := Origin(b, a, i);
    }
    CollectNothing(b, f);
  }

  lemma ReorderedDiagnostics<T>(a: Read<seq<T>>, b: Read<seq<T>>, f: T -> seq<Code>)
    requires Reordered(a, b)
    ensures ListDiagnostics(a, f) == [] <==> ListDiagnostics(b, f) == []
  {
    if a.Available? && b.Available? {
      SameSize(a.value, b.value);
      if Collect(a.value, f) == [] { ReorderedQuiet(a.value, b.value, f); }
      if Collect(b.value, f) == [] { ReorderedQuiet(b.value, a.value, f); }
    }
  }

  lemma ReadableReordered(a: Input, b: Input)
    requires SameEvidence(a, b)
    ensures Readable(a) <==> Readable(b)
  {
    ReorderedDiagnostics(a.evidence.branches, b.evidence.branches, BranchDiagnostics);
    ReorderedDiagnostics(a.evidence.pullRequests, b.evidence.pullRequests, PullRequestDiagnostics);
  }

  lemma ValidBranchKey(b: BranchEvidence)
    requires ValidBranchReport(b)
    ensures BranchKey(NormalizeBranch(b)) == NormalizeBranch(b)
  {
  }

  lemma ValidPullRequestKey(p: PullRequestReport)
    requires ValidPullRequestReport(p)
    ensures PullRequestKey(NormalizePullRequest(p)) == Erase(NormalizePullRequest(p))
  {
  }

  lemma SortedBranchesAgree(a: Input, b: Input)
    requires Readable(a) && Readable(b) && SameEvidence(a, b)
    ensures FactsOf(a).branches == FactsOf(b).branches
  {
    var s, t := Map(ReadList(a.evidence.branches), NormalizeBranch), Map(ReadList(b.evidence.branches), NormalizeBranch);
    MapMultiset(ReadList(a.evidence.branches), ReadList(b.evidence.branches), NormalizeBranch);
    BranchesLawful();
    forall x, y { BranchTies(x, y); }
    SortForgetsArrival(s, t, CompareBranches, BranchKey);
    BranchesKeepKey(a.evidence.branches, StableSort(s, CompareBranches));
    BranchesKeepKey(b.evidence.branches, StableSort(t, CompareBranches));
  }

  lemma BranchesKeepKey(read: Read<seq<BranchEvidence>>, sorted: seq<BranchEvidence>)
    requires ListDiagnostics(read, BranchDiagnostics) == []
    requires multiset(sorted) == multiset(Map(ReadList(read), NormalizeBranch))
    ensures Map(sorted, BranchKey) == sorted
  {
    if read.Available? { CollectNothing(read.value, BranchDiagnostics); }
    forall i | 0 <= i < |sorted| ensures BranchKey(sorted[i]) == sorted[i] {
      var j := Origin(sorted, Map(ReadList(read), NormalizeBranch), i);
      ValidBranchKey(ReadList(read)[j]);
    }
  }

  lemma PullRequestsKeepKey(read: Read<seq<PullRequestReport>>, sorted: seq<PullRequestEvidence>)
    requires ListDiagnostics(read, PullRequestDiagnostics) == []
    requires multiset(sorted) == multiset(Map(ReadList(read), NormalizePullRequest))
    ensures Map(sorted, PullRequestKey) == Map(sorted, Erase)
  {
    if read.Available? { CollectNothing(read.value, PullRequestDiagnostics); }
    forall i | 0 <= i < |sorted| ensures PullRequestKey(sorted[i]) == Erase(sorted[i]) {
      var j := Origin(sorted, Map(ReadList(read), NormalizePullRequest), i);
      ValidPullRequestKey(ReadList(read)[j]);
    }
  }

  lemma SortedPullRequestsAgree(a: Input, b: Input)
    requires Readable(a) && Readable(b) && SameEvidence(a, b)
    ensures Map(FactsOf(a).pullRequests, Erase) == Map(FactsOf(b).pullRequests, Erase)
  {
    var s := Map(ReadList(a.evidence.pullRequests), NormalizePullRequest);
    var t := Map(ReadList(b.evidence.pullRequests), NormalizePullRequest);
    MapMultiset(ReadList(a.evidence.pullRequests), ReadList(b.evidence.pullRequests), NormalizePullRequest);
    PullRequestsLawful();
    forall x, y { PullRequestTies(x, y); }
    SortForgetsArrival(s, t, ComparePullRequests, PullRequestKey);
    PullRequestsKeepKey(a.evidence.pullRequests, StableSort(s, ComparePullRequests));
    PullRequestsKeepKey(b.evidence.pullRequests, StableSort(t, ComparePullRequests));
  }

  // ---- the classification cannot see an empty provenance -----------------------------------

  function Erased(f: Facts): Facts { f.(pullRequests := Map(f.pullRequests, Erase)) }

  lemma ErasedMember(f: Facts, i: nat)
    requires i < |f.pullRequests|
    ensures Erased(f).pullRequests[i] == Erase(f.pullRequests[i]) && Erase(f.pullRequests[i]) in Erased(f).pullRequests
  {
    assert Erased(f).pullRequests[i] in Erased(f).pullRequests;
  }

  lemma ErasedCanonical(f: Facts)
    ensures AnchoredNames(Erased(f)) == AnchoredNames(f)
    ensures CanonicalBranch(Erased(f)) == CanonicalBranch(f)
    ensures NumberCounts(Erased(f)) == NumberCounts(f)
  {
    var g := Erased(f);
    forall i | 0 <= i < |f.pullRequests|
      ensures Erase(f.pullRequests[i]) in g.pullRequests && g.pullRequests[i] == Erase(f.pullRequests[i])
    {
      ErasedMember(f, i);
    }
    forall p | p in f.pullRequests ensures Erase(p) in g.pullRequests {
      var i :| 0 <= i < |f.pullRequests| && f.pullRequests[i] == p;
    }
    assert AnchoredNames(g) == AnchoredNames(f);
    assert Map(g.pullRequests, Number) == Map(f.pullRequests, Number);
  }

  lemma ErasedBranches(f: Facts)
    ensures BranchCandidates(Erased(f)) == BranchCandidates(f)
    ensures CanonicalBranches(Erased(f)) == CanonicalBranches(f)
    ensures Filter(Erased(f).branches, ConflictingBranch(Erased(f))) == Filter(f.branches, ConflictingBranch(f))
  {
    ErasedCanonical(f);
    FilterCongruence(f.branches, OnCanonicalBranch(Erased(f)), OnCanonicalBranch(f));
    FilterCongruence(f.branches, ConflictingBranch(Erased(f)), ConflictingBranch(f));
  }

  lemma ErasedCandidates(f: Facts)
    ensures PullRequestCandidates(Erased(f)) == Map(PullRequestCandidates(f), EraseCandidate)
  {
    ErasedCanonical(f);
  }

  lemma ErasedSelections(f: Facts)
    ensures CanonicalPullRequests(Erased(f)) == Map(CanonicalPullRequests(f), Erase)
    ensures AnyConflict(Erased(f)) == AnyConflict(f)
    ensures OffBase(Erased(f)) == OffBase(f) && RepeatedCanonicalNumber(Erased(f)) == RepeatedCanonicalNumber(f)
    ensures |PlausibleNoncanonical(Erased(f))| == |PlausibleNoncanonical(f)|
    ensures Filter(Erased(f).pullRequests, HeadsCanonicalBranch(Erased(f))) != [] <==>
            Filter(f.pullRequests, HeadsCanonicalBranch(f)) != []
  {
    ErasedCanonical(f);
    ErasedBranches(f);
    var g := Erased(f);
    FilterImage(f.pullRequests, Erase, MatchesIdentity(g), MatchesIdentity(f));
    FilterImage(f.pullRequests, Erase, ConflictingPullRequest(g), ConflictingPullRequest(f));
    FilterImage(f.pullRequests, Erase, MissesBase(g), MissesBase(f));
    FilterImage(f.pullRequests, Erase, RepeatsCanonicalNumber(g), RepeatsCanonicalNumber(f));
    FilterImage(f.pullRequests, Erase, ClaimsElsewhere(g), ClaimsElsewhere(f));
    FilterImage(f.pullRequests, Erase, HeadsCanonicalBranch(g), HeadsCanonicalBranch(f));
  }

  lemma ErasedAnchor(f: Facts)
    ensures AmbiguouslyAnchored(Erased(f)) == AmbiguouslyAnchored(f)
  {
    ErasedCanonical(f);
  }

  lemma ErasedStatus(f: Facts)
    ensures TallyOf(Erased(f)) == TallyOf(f)
  {
    ErasedAnchor(f);
    ErasedBranches(f);
    ErasedSelections(f);
  }

  lemma ErasedChange(f: Facts)
    ensures ProjectedChange(Erased(f)) == ProjectedChange(f)
  {
    hide OnlyPullRequest, BranchKnown, TallyOf, CanonicalBranch;
    ErasedCanonical(f);
    ErasedStatus(f);
    ErasedOnly(f);
  }

  lemma ErasedOnly(f: Facts)
    ensures OnlyPullRequest(Erased(f)) == if OnlyPullRequest(f).None? then None else Some(Erase(OnlyPullRequest(f).value))
    ensures BranchKnown(Erased(f)) == BranchKnown(f)
  {
    ErasedSelections(f);
    ErasedBranches(f);
  }

  /** One projection equals another up to the empty provenance of its candidates. */
  ghost predicate SameUpToEmptyProvenance(r: Projection, q: Projection) {
    && r == q.(pullRequests := r.pullRequests)
    && Map(r.pullRequests, EraseCandidate) == Map(q.pullRequests, EraseCandidate)
  }

  /** Projecting with every missing provenance read as empty only shows in the candidates. */
  lemma ErasedProjection(f: Facts)
    ensures SameUpToEmptyProvenance(ProjectFacts(f), ProjectFacts(Erased(f)))
    ensures SameUpToEmptyProvenance(MismatchedIssue(f), MismatchedIssue(Erased(f)))
    ensures IssueMatches(f) <==> IssueMatches(Erased(f))
  {
    hide TallyOf, CanonicalBranch, ProjectedChange, BranchCandidates, PullRequestCandidates, AnyConflict;
    ErasedCanonical(f);
    ErasedBranches(f);
    ErasedCandidates(f);
    ErasedSelections(f);
    ErasedStatus(f);
    ErasedChange(f);
    EraseTwice(PullRequestCandidates(f));
  }

  lemma EraseTwice(s: seq<Candidate<PullRequestEvidence>>)
    ensures Map(Map(s, EraseCandidate), EraseCandidate) == Map(s, EraseCandidate)
  {
  }

  /** Reordering the reports changes nothing the projection says. */
  lemma EvidenceOrderIrrelevant(a: Input, b: Input)
    requires SameEvidence(a, b)
    ensures Project(a).status == Project(b).status && Project(a).valid == Project(b).valid
    ensures Project(a).canonicalBranch == Project(b).canonicalBranch && Project(a).change == Project(b).change
    ensures Readable(a) ==> SameUpToEmptyProvenance(Project(a), Project(b))
  {
    ReadableReordered(a, b);
    if Readable(a) {
      var f, g := FactsOf(a), FactsOf(b);
      SortedBranchesAgree(a, b);
      SortedPullRequestsAgree(a, b);
      assert Erased(f) == Erased(g);
      ErasedProjection(f);
      ErasedProjection(g);
    }
  }
}
