/** What a projection says of its evidence, candidate by candidate and code by code. */
module ProjectionMeaning {
  import opened Wrappers
  import opened Ordering
  import opened Change
  import opened Projection
  import opened ProjectionTheorems
  import EvidenceOrder

  // ---- which evidence is read ------------------------------------------------------------------

  /** A branch report in which every part that is there is well-formed. */
  predicate GoodBranch(b: BranchEvidence) {
    && ValidText(b.name, 255) && (b.sha == None || IsCommitSha(b.sha.value)) && (b.rootIssue == None || ValidNumber(b.rootIssue.value))
  }

  /**
   A pull-request report in which every part that is there is well-formed, and which does not contradict itself: closed it says
   whether it was merged, open it is not merged, and a draft is not accepted.
   */
  predicate GoodPullRequest(p: PullRequestReport) {
    && ValidNumber(p.number) && ValidText(p.head, 255) && ValidText(p.base, 255)
    && (p.headSha == None || IsCommitSha(p.headSha.value)) && (p.rootIssue == None || ValidNumber(p.rootIssue.value))
    && (p.provenance == None || ValidProvenance(p.provenance.value))
    && (if p.open then p.merged != Some(true) else p.merged != None) && !(p.draft && p.accepted == Some(true))
  }

  /** A list that was read or is known to be empty, and of at most 64 good reports. */
  ghost predicate GoodList<T(!new)>(r: Read<seq<T>>, good: T -> bool) {
    r == ConfirmedAbsent || (r.Available? && |r.value| <= 64 && forall i :: 0 <= i < |r.value| ==> good(r.value[i]))
  }

  /** The root Issue was read and has its own number, or is known to be absent. */
  predicate GoodIssue(r: Read<IssueEvidence>, rootIssue: nat) { r == ConfirmedAbsent || (r.Available? && r.value.number == rootIssue) }

  lemma GoodPullRequestIff(p: PullRequestReport)
    ensures GoodPullRequest(p) <==> PullRequestDiagnostics(p) == []
  {
    hide ValidText, ValidProvenance, IsCommitSha;
  }

  lemma GoodBranchIff(b: BranchEvidence)
    ensures GoodBranch(b) <==> BranchDiagnostics(b) == []
  {
    hide ValidText, IsCommitSha;
  }

  lemma GoodListIff<T(!new)>(r: Read<seq<T>>, good: T -> bool, check: T -> seq<Code>)
    requires forall x :: good(x) <==> check(x) == []
    ensures GoodList(r, good) <==> ListDiagnostics(r, check) == []
  {
    if r.Available? { CollectNothing(r.value, check); }
  }

  /** What a projection can be decided from: a well-formed input, the right Issue, and two good lists. */
  ghost predicate Decidable(input: Input) {
    && ValidInput(input) && GoodIssue(input.evidence.issue, input.identity.rootIssue)
    && GoodList(input.evidence.branches, GoodBranch) && GoodList(input.evidence.pullRequests, GoodPullRequest)
  }

  /** A projection is unavailable exactly when its evidence cannot be decided. */
  lemma UnavailableIff(input: Input)
    ensures Project(input).status == Unavailable <==> !Decidable(input)
  {
    hide FactsOf, ProjectFacts, BranchDiagnostics, PullRequestDiagnostics, GoodBranch, GoodPullRequest, GoodList, ListDiagnostics, ValidInput,
         CanonicalBranch, BranchCandidates, PullRequestCandidates;
    forall b: BranchEvidence ensures GoodBranch(b) <==> BranchDiagnostics(b) == [] { GoodBranchIff(b); }
    forall p: PullRequestReport ensures GoodPullRequest(p) <==> PullRequestDiagnostics(p) == [] { GoodPullRequestIff(p); }
    GoodListIff(input.evidence.branches, GoodBranch, BranchDiagnostics);
    GoodListIff(input.evidence.pullRequests, GoodPullRequest, PullRequestDiagnostics);
    if ValidInput(input) {
      RootIsNumber(input);
      FactsKeepIssue(input);
      DecidedStatus(FactsOf(input));
    }
  }

  lemma RootIsNumber(input: Input)
    requires ValidInput(input)
    ensures ValidNumber(input.identity.rootIssue)
  {
  }

  lemma FactsKeepIssue(input: Input)
    ensures FactsOf(input).identity == input.identity
    ensures FactsOf(input).issue == if input.evidence.issue.Available? then Some(input.evidence.issue.value) else None
  {
  }

  lemma DecidedStatus(f: Facts)
    ensures ProjectFacts(f).status == StatusOf(f) != Unavailable
  {
    hide TallyOf, BranchCandidates, PullRequestCandidates, CanonicalBranch, ProjectedChange;
  }

  lemma {:induction false} CollectHas<T>(s: seq<T>, f: T -> seq<Code>, code: Code)
    ensures code in Collect(s, f) <==> exists i :: 0 <= i < |s| && code in f(s[i])
  {
    if s != [] {
      var front, last := s[..|s| - 1], s[|s| - 1];
      CollectHas(front, f, code);
      assert forall i :: 0 <= i < |front| ==> s[i] == front[i];
    }
  }

  /** A list that is looked into: it was read and is not too long. */
  ghost predicate Holds<T>(r: Read<seq<T>>, p: T -> bool) {
    r.Available? && |r.value| <= 64 && exists i :: 0 <= i < |r.value| && p(r.value[i])
  }

  predicate TooLong<T>(r: Read<seq<T>>) { r.Available? && |r.value| > 64 }

  predicate MalformedBranch(b: BranchEvidence) { !GoodBranch(b) }

  predicate MalformedPullRequest(p: PullRequestReport) { !ValidPullRequestReport(p) }

  predicate SilentOnMerging(p: PullRequestReport) { !p.open && p.merged == None }

  predicate Contradictory(p: PullRequestReport) { (p.open && p.merged == Some(true)) || (p.draft && p.accepted == Some(true)) }

  lemma ListHas<T>(r: Read<seq<T>>, check: T -> seq<Code>, code: Code, cause: T -> bool)
    requires forall x :: code in check(x) <==> cause(x)
    ensures code in ListDiagnostics(r, check) <==>
      || (code == EvidenceUnavailable && r == Unreadable) || (code == InvalidEvidence && TooLong(r)) || Holds(r, cause)
  {
    if r.Available? { CollectHas(r.value, check, code); }
  }

  lemma Never<T>(r: Read<seq<T>>)
    ensures !Holds(r, (x: T) => false)
  {
  }

  /** Each code of evidence that cannot be read tells its cause. */
  lemma CodesTellEvidence(e: Evidence)
    ensures var codes := EvidenceDiagnostics(e);
      && (EvidenceUnavailable in codes <==> e.issue == Unreadable || e.branches == Unreadable || e.pullRequests == Unreadable)
      && (InvalidEvidence in codes <==>
            || (e.issue.Available? && !ValidNumber(e.issue.value.number)) || TooLong(e.branches) || TooLong(e.pullRequests)
            || Holds(e.branches, MalformedBranch) || Holds(e.pullRequests, MalformedPullRequest))
      && (EvidenceMissing in codes <==> Holds(e.pullRequests, SilentOnMerging))
      && (ConflictingEvidence in codes <==> Holds(e.pullRequests, Contradictory))
  {
    hide ListDiagnostics, ValidPullRequestReport, GoodBranch, ValidBranchReport, ValidNumber, Holds, TooLong;
    forall b: BranchEvidence ensures InvalidEvidence in BranchDiagnostics(b) <==> MalformedBranch(b) { GoodBranchIff(b); }
    ListHas(e.branches, BranchDiagnostics, InvalidEvidence, MalformedBranch);
    ListHas(e.pullRequests, PullRequestDiagnostics, InvalidEvidence, MalformedPullRequest);
    ListHas(e.pullRequests, PullRequestDiagnostics, EvidenceMissing, SilentOnMerging);
    ListHas(e.pullRequests, PullRequestDiagnostics, ConflictingEvidence, Contradictory);
    ListHas(e.branches, BranchDiagnostics, EvidenceUnavailable, (b: BranchEvidence) => false);
    ListHas(e.branches, BranchDiagnostics, EvidenceMissing, (b: BranchEvidence) => false);
    ListHas(e.branches, BranchDiagnostics, ConflictingEvidence, (b: BranchEvidence) => false);
    ListHas(e.pullRequests, PullRequestDiagnostics, EvidenceUnavailable, (p: PullRequestReport) => false);
    Never(e.branches);
    Never(e.pullRequests);
  }

  // ---- candidates --------------------------------------------------------------------------------------

  /** The class of each branch candidate. */
  lemma BranchClassMeans(f: Facts, i: nat)
    requires i < |f.branches|
    ensures var b, c := f.branches[i], BranchCandidates(f)[i];
      && c.evidence == b
      && (c.class_ == Conflicting <==>
            || (exists j :: 0 <= j < |f.branches| && j != i && f.branches[j].name == b.name)
            || (b.rootIssue != None && b.rootIssue != Some(f.identity.rootIssue)))
      && (c.class_ == Canonical <==> c.class_ != Conflicting && b.name == CanonicalBranch(f))
  {
    hide CanonicalBranch;
    RepeatedKey(Map(f.branches, BranchName), i);
    var names := Map(f.branches, BranchName);
    assert forall j :: 0 <= j < |names| ==> names[j] == f.branches[j].name;
  }

  /** The class of each pull-request candidate. */
  lemma PullRequestClassMeans(f: Facts, i: nat)
    requires i < |f.pullRequests|
    ensures var p, c := f.pullRequests[i], PullRequestCandidates(f)[i];
      && c.evidence == p
      && (c.class_ == Conflicting <==>
            || (exists j :: 0 <= j < |f.pullRequests| && j != i && f.pullRequests[j].number == p.number)
            || p.number == f.identity.rootIssue
            || (p.head == CanonicalBranch(f)
                && (p.base != f.baseBranch || (p.rootIssue != None && p.rootIssue != Some(f.identity.rootIssue)))))
      && (c.class_ == Canonical <==> c.class_ != Conflicting && p.head == CanonicalBranch(f))
  {
    hide CanonicalBranch;
    RepeatedKey(Map(f.pullRequests, Number), i);
    var numbers := Map(f.pullRequests, Number);
    assert forall j :: 0 <= j < |numbers| ==> numbers[j] == f.pullRequests[j].number;
  }

  /** Candidates are listed by name, and by number. */
  lemma CandidatesInOrder(input: Input, i: nat, j: nat)
    requires Decidable(input) && i < j
    ensures var p := Project(input);
      && (j < |p.branches| ==> p.branches[i].evidence.name == p.branches[j].evidence.name
                                || Before(p.branches[i].evidence.name, p.branches[j].evidence.name))
      && (j < |p.pullRequests| ==> p.pullRequests[i].evidence.number <= p.pullRequests[j].evidence.number)
  {
    hide StableSort, CanonicalBranch, ValidInput, ProjectedChange, StatusOf, AnyConflict, EvidenceDiagnostics, Decidable, ClassifyBranch,
         ClassifyPullRequest, CompareText, Before;
    UnavailableIff(input);
    var f := FactsOf(input);
    FactsInOrder(f, input);
    if j < |f.branches| { NamesInOrder(f.branches[i], f.branches[j]); }
  }

  lemma FactsInOrder(f: Facts, input: Input)
    requires f == FactsOf(input)
    ensures Sorted(f.branches, CompareBranches) && Sorted(f.pullRequests, ComparePullRequests)
  {
    hide StableSort;
    EvidenceOrder.BranchesLawful();
    EvidenceOrder.PullRequestsLawful();
    StableSortSorted(Map(ReadList(input.evidence.branches), NormalizeBranch), CompareBranches);
    StableSortSorted(Map(ReadList(input.evidence.pullRequests), NormalizePullRequest), ComparePullRequests);
  }

  lemma NamesInOrder(a: BranchEvidence, b: BranchEvidence)
    requires CompareBranches(a, b) <= 0
    ensures a.name == b.name || Before(a.name, b.name)
  {
    CompareTextOrder(a.name, b.name);
    TextOrder(a.name, b.name);
  }

  // ---- the remaining statuses -----------------------------------------------------------------------------

  /** A pull request from the canonical branch onto the base, under a number of its own and claiming no other Issue. */
  predicate IsCanonical(f: Facts, p: PullRequestEvidence) {
    && p.head == CanonicalBranch(f) && p.base == f.baseBranch && p.number != f.identity.rootIssue
    && (p.rootIssue == None || p.rootIssue == Some(f.identity.rootIssue))
  }

  /** Two branches of the canonical name, two canonical pull requests, or a number reported twice for the canonical branch. */
  ghost predicate Duplicated(f: Facts) {
    || (exists i, j :: 0 <= i < j < |f.branches| && f.branches[i].name == CanonicalBranch(f) == f.branches[j].name)
    || (exists i, j :: 0 <= i < j < |f.pullRequests| && IsCanonical(f, f.pullRequests[i]) && IsCanonical(f, f.pullRequests[j]))
    || (exists i, j :: 0 <= i < |f.pullRequests| && 0 <= j < |f.pullRequests| && i != j
          && f.pullRequests[i].head == CanonicalBranch(f) && f.pullRequests[j].number == f.pullRequests[i].number)
  }

  /** Some pull request from the canonical branch targets another base. */
  ghost predicate TargetsElsewhere(f: Facts) {
    exists p :: p in f.pullRequests && p.head == CanonicalBranch(f) && p.base != f.baseBranch
  }

  lemma RepeatedNumberIff(f: Facts)
    ensures RepeatedCanonicalNumber(f) <==>
      exists i, j :: 0 <= i < |f.pullRequests| && 0 <= j < |f.pullRequests| && i != j
        && f.pullRequests[i].head == CanonicalBranch(f) && f.pullRequests[j].number == f.pullRequests[i].number
  {
    hide CanonicalBranch, Filter;
    var numbers := Map(f.pullRequests, Number);
    assert forall j :: 0 <= j < |numbers| ==> numbers[j] == f.pullRequests[j].number;
    var repeated := Filter(f.pullRequests, RepeatsCanonicalNumber(f));
    if repeated != [] {
      var i :| 0 <= i < |f.pullRequests| && f.pullRequests[i] == repeated[0];
      RepeatedKey(numbers, i);
    }
    forall i, j | 0 <= i < |f.pullRequests| && 0 <= j < |f.pullRequests| && i != j
                  && f.pullRequests[i].head == CanonicalBranch(f) && f.pullRequests[j].number == f.pullRequests[i].number
      ensures repeated != []
    {
      RepeatedKey(numbers, i);
      assert f.pullRequests[i] in repeated;
    }
  }

  lemma DuplicateIff(f: Facts)
    ensures StatusOf(f) == Duplicate <==> Duplicated(f)
  {
    hide CanonicalBranch, Filter, RepeatedCanonicalNumber, OffBase, AmbiguouslyAnchored, AnyConflict;
    TwoSelected(f.branches, OnCanonicalBranch(f));
    TwoSelected(f.pullRequests, MatchesIdentity(f));
    RepeatedNumberIff(f);
  }

  lemma WrongBaseIff(f: Facts)
    ensures StatusOf(f) == WrongBase <==> !Duplicated(f) && TargetsElsewhere(f)
  {
    hide CanonicalBranch, Filter, Duplicated, RepeatedCanonicalNumber, AmbiguouslyAnchored, AnyConflict, CanonicalBranches, CanonicalPullRequests;
    DuplicateIff(f);
    OffBaseIff(f);
    hide OffBase, TargetsElsewhere;
  }

  lemma OffBaseIff(f: Facts)
    ensures OffBase(f) <==> TargetsElsewhere(f)
  {
    hide CanonicalBranch, Filter;
    var off := Filter(f.pullRequests, MissesBase(f));
    if off != [] { assert off[0] in f.pullRequests && off[0].head == CanonicalBranch(f) && off[0].base != f.baseBranch; }
    if p :| p in f.pullRequests && p.head == CanonicalBranch(f) && p.base != f.baseBranch { assert p in off; }
  }

  // ---- diagnostics --------------------------------------------------------------------------------------------

  /** Each code of a decided projection tells its status, and a conflict is reported next to an ambiguity that it explains. */
  lemma CodesTellStatus(f: Facts)
    ensures var p := ProjectFacts(f);
      && (PartialEvidence in p.diagnostics <==> p.status == Partial)
      && (DuplicateEvidence in p.diagnostics <==> p.status == Duplicate)
      && (WrongBaseEvidence in p.diagnostics <==> p.status == WrongBase)
      && (AmbiguousEvidence in p.diagnostics <==> p.status == Ambiguous)
      && (ConflictingEvidence in p.diagnostics <==> p.status == Ambiguous && !Consistent(f))
      && |p.diagnostics| <= 2
  {
    hide CanonicalBranch, BranchCandidates, PullRequestCandidates, TallyOf, ProjectedChange, Consistent;
    FactsExplainRejection(f);
    ConflictsAmongStatuses(f);
  }

  lemma ConflictsAmongStatuses(f: Facts)
    ensures AnyConflict(f) && StatusOf(f) !in {Absent, Duplicate, WrongBase} <==> StatusOf(f) == Ambiguous && !Consistent(f)
  {
    hide CanonicalBranch, CanonicalBranches, CanonicalPullRequests, RepeatedCanonicalNumber, AmbiguouslyAnchored, OffBase, AnyConflict, Consistent;
    if !OffBase(f) { ConflictMeansInconsistent(f); }
  }
}
