/**
 A small GitHub: one Issue, the observable candidate branches with their commit
 generations, and the pull requests. Effects are single steps on this world; the
 evidence reader observes it.
 */
module GitHubWorld {
  import opened Wrappers
  import opened Ordering
  import opened Change
  import opened Projection
  import opened ProjectionTheorems
  import opened Permutation
  import opened Transition

  /** What stays fixed while the world moves. */
  datatype Setting = Setting(identity: Identity, provenance: Provenance, authority: Authority, baseBranch: string)

  datatype World = World(issue: IssueEvidence, branches: seq<BranchEvidence>, pullRequests: seq<PullRequestEvidence>)

  /** How a reader reports a list with nothing in it. */
  datatype Listing = EmptyListed | EmptyAsAbsent

  function Report(p: PullRequestEvidence): PullRequestReport {
    PullRequestReport(p.number, p.head, p.headSha, p.base, p.open, p.draft, Some(p.merged), p.accepted, p.rootIssue, p.provenance)
  }

  function ReportList<T>(s: seq<T>, listing: Listing): Read<seq<T>> {
    if s == [] && listing == EmptyAsAbsent then ConfirmedAbsent else Available(s)
  }

  function Observe(c: Setting, w: World, listing: Listing): Input {
    Input(c.identity, c.provenance, c.authority, c.baseBranch,
          Evidence(Available(w.issue), ReportList(w.branches, listing), ReportList(Map(w.pullRequests, Report), listing)))
  }

  predicate WellFormedBranch(b: BranchEvidence) {
    ValidBranchReport(b) && b.sha.Some? && Lower(b.sha.value) == b.sha.value
  }

  predicate WellFormedPullRequest(p: PullRequestEvidence) {
    && ValidPullRequestReport(Report(p)) && (p.open ==> !p.merged) && (p.draft ==> p.accepted != Some(true))
    && (p.headSha.Some? ==> Lower(p.headSha.value) == p.headSha.value)
  }

  predicate DistinctNames(s: seq<BranchEvidence>) {
    forall i, j :: 0 <= i < j < |s| ==> s[i].name != s[j].name
  }

  predicate DistinctNumbers(s: seq<PullRequestEvidence>) {
    forall i, j :: 0 <= i < j < |s| ==> s[i].number != s[j].number
  }

  ghost predicate WellFormed(c: Setting, w: World) {
    && ValidInput(Observe(c, w, EmptyListed)) && w.issue.number == c.identity.rootIssue
    && |w.branches| <= MAX_CANDIDATES && |w.pullRequests| <= MAX_CANDIDATES
    && DistinctNames(w.branches) && DistinctNumbers(w.pullRequests)
    && (forall b :: b in w.branches ==> WellFormedBranch(b))
    && (forall p :: p in w.pullRequests ==> WellFormedPullRequest(p))
  }

  /** The facts of a world, in the world's own order. */
  function RawFacts(c: Setting, w: World): Facts {
    Facts(c.identity, c.provenance, c.authority, c.baseBranch, Some(w.issue), w.branches, w.pullRequests)
  }

  /** Everything observed in a well-formed world is readable and is, up to order, what the world holds. */
  lemma ObservedFacts(c: Setting, w: World, listing: Listing)
    requires WellFormed(c, w)
    ensures Readable(Observe(c, w, listing)) && IssueMatches(FactsOf(Observe(c, w, listing)))
    ensures Permuted(FactsOf(Observe(c, w, listing)), RawFacts(c, w))
  {
    hide ListDiagnostics, BranchDiagnostics, PullRequestDiagnostics, NormalizePullRequest, Report, WellFormedPullRequest,
         WellFormedBranch, ValidInput, ReportList, StableSort, NormalizeBranch, CompareBranches, ComparePullRequests;
    ObservedBranches(c, w, listing);
    ObservedPullRequests(c, w, listing);
    ObservedShape(c, w, listing);
  }

  lemma ObservedShape(c: Setting, w: World, listing: Listing)
    requires WellFormed(c, w)
    ensures ValidInput(Observe(c, w, listing)) && IssueDiagnostics(Available(w.issue)) == []
  {
  }

  lemma ObservedBranches(c: Setting, w: World, listing: Listing)
    requires WellFormed(c, w)
    ensures ListDiagnostics(ReportList(w.branches, listing), BranchDiagnostics) == []
    ensures multiset(FactsOf(Observe(c, w, listing)).branches) == multiset(w.branches)
  {
    forall i | 0 <= i < |w.branches|
      ensures BranchDiagnostics(w.branches[i]) == [] && NormalizeBranch(w.branches[i]) == w.branches[i]
    {
      assert w.branches[i] in w.branches;
    }
    CollectNothing(w.branches, BranchDiagnostics);
    assert ReadList(ReportList(w.branches, listing)) == w.branches;
    assert Map(w.branches, NormalizeBranch) == w.branches;
  }

  lemma ReportRoundTrip(p: PullRequestEvidence)
    requires WellFormedPullRequest(p)
    ensures PullRequestDiagnostics(Report(p)) == [] && NormalizePullRequest(Report(p)) == p
  {
  }

  lemma ObservedPullRequests(c: Setting, w: World, listing: Listing)
    requires WellFormed(c, w)
    ensures ListDiagnostics(ReportList(Map(w.pullRequests, Report), listing), PullRequestDiagnostics) == []
    ensures multiset(FactsOf(Observe(c, w, listing)).pullRequests) == multiset(w.pullRequests)
  {
    hide PullRequestDiagnostics, NormalizePullRequest, Report, WellFormedPullRequest;
    var reports := Map(w.pullRequests, Report);
    forall i | 0 <= i < |reports|
      ensures PullRequestDiagnostics(reports[i]) == [] && NormalizePullRequest(reports[i]) == w.pullRequests[i]
    {
      assert w.pullRequests[i] in w.pullRequests;
      ReportRoundTrip(w.pullRequests[i]);
    }
    CollectNothing(reports, PullRequestDiagnostics);
    assert ReadList(ReportList(reports, listing)) == reports;
    assert Map(reports, NormalizePullRequest) == w.pullRequests;
  }

  /** The projection of a world, read off its raw facts; only the candidate order is left open. */
  lemma ObservedProjection(c: Setting, w: World, listing: Listing)
    requires WellFormed(c, w)
    ensures var p, q := Project(Observe(c, w, listing)), ProjectFacts(RawFacts(c, w));
      && p == q.(branches := p.branches, pullRequests := p.pullRequests)
      && multiset(p.branches) == multiset(q.branches) && multiset(p.pullRequests) == multiset(q.pullRequests)
  {
    ObservedFacts(c, w, listing);
    PermutedProjection(FactsOf(Observe(c, w, listing)), RawFacts(c, w));
  }

  /** Whether an empty list is reported as read or as absent makes no difference to the projection. */
  lemma ListingDoesNotShow(c: Setting, w: World, a: Listing, b: Listing)
    ensures Project(Observe(c, w, a)) == Project(Observe(c, w, b))
  {
    hide ProjectFacts, MismatchedIssue, StableSort, BranchDiagnostics, PullRequestDiagnostics, ValidText, ValidIdentity,
         ValidProvenance, NormalizeBranch, NormalizePullRequest, Report, IssueDiagnostics;
    SameReading(w.branches, a, b, BranchDiagnostics);
    SameReading(Map(w.pullRequests, Report), a, b, PullRequestDiagnostics);
  }

  lemma SameReading<T>(s: seq<T>, a: Listing, b: Listing, check: T -> seq<Code>)
    ensures ReadList(ReportList(s, a)) == ReadList(ReportList(s, b))
    ensures ListDiagnostics(ReportList(s, a), check) == ListDiagnostics(ReportList(s, b), check)
  {
  }

  /** The list is reported as one that was read. */
  predicate Listed<T(==)>(s: seq<T>, listing: Listing) { s != [] || listing == EmptyListed }

  // ---- effects ---------------------------------------------------------------------------

  /** What the provider chooses when an effect creates something. */
  datatype Choice = Choice(baseSha: string, commitSha: string, number: nat, claim: Option<nat>)

  function BranchIs(name: string): BranchEvidence -> bool { (b: BranchEvidence) => b.name == name }

  function BranchIsNot(name: string): BranchEvidence -> bool { (b: BranchEvidence) => b.name != name }

  function Advance(name: string, sha: string): BranchEvidence -> BranchEvidence {
    (b: BranchEvidence) => if b.name == name then b.(sha := Some(sha)) else b
  }

  function Closing(number: nat): PullRequestEvidence -> PullRequestEvidence {
    (p: PullRequestEvidence) => if p.number == number then p.(open := false) else p
  }

  function Readying(number: nat): PullRequestEvidence -> PullRequestEvidence {
    (p: PullRequestEvidence) => if p.number == number then p.(draft := false) else p
  }

  function WithNumber(number: nat): PullRequestEvidence -> bool { (p: PullRequestEvidence) => p.number == number }

  function ShaOf(w: World, name: string): Option<string> {
    var found := Filter(w.branches, BranchIs(name));
    if found == [] then None else found[0].sha
  }

  predicate HasBranch(w: World, name: string) { Filter(w.branches, BranchIs(name)) != [] }

  /** One effect; `None` means the provider refused it and the world is unchanged. */
  function Apply(w: World, e: Effect, choice: Choice): Option<World> {
    match e
    case CreateBranch(branch, _) =>
      if HasBranch(w, branch) then None
      else Some(w.(branches := w.branches + [BranchEvidence(branch, Some(choice.baseSha), choice.claim)]))
    case CreateProvenanceCommit(branch, _, _) =>
      if !HasBranch(w, branch) then None else Some(w.(branches := Map(w.branches, Advance(branch, choice.commitSha))))
    case CreatePullRequest(branch, base, _, _, _, _) =>
      if !HasBranch(w, branch) then None
      else Some(w.(pullRequests := w.pullRequests +
        [PullRequestEvidence(choice.number, branch, ShaOf(w, branch), base, true, true, false, None, choice.claim, None)]))
    case MarkPullRequestReady(number) =>
      var found := Filter(w.pullRequests, WithNumber(number));
      if found == [] || !found[0].open || !found[0].draft then None
      else Some(w.(pullRequests := Map(w.pullRequests, Readying(number))))
    case ClosePullRequest(number) =>
      if Filter(w.pullRequests, WithNumber(number)) == [] then None
      else Some(w.(pullRequests := Map(w.pullRequests, Closing(number))))
    case DeleteBranch(branch, expected) =>
      if expected.Some? && HasBranch(w, branch) && ShaOf(w, branch) != LowerSha(expected) then None
      else Some(w.(branches := Filter(w.branches, BranchIsNot(branch))))
  }

  /** Effects in order; `None` as soon as one is refused. */
  function ApplyAll(w: World, effects: seq<Effect>, choice: Choice): Option<World>
    decreases |effects|
  {
    if effects == [] then Some(w)
    else
      match Apply(w, effects[0], choice)
      case None => None
      case Some(next) => ApplyAll(next, effects[1..], choice)
  }

  /** A conditional delete leaves a branch that has moved exactly where it is. */
  lemma MovedBranchSurvives(w: World, branch: string, expected: string, choice: Choice)
    requires HasBranch(w, branch) && ShaOf(w, branch) != Some(Lower(expected))
    ensures Apply(w, DeleteBranch(branch, Some(expected)), choice).None?
  {
  }

  /** Every effect except the deletion of this very branch keeps it. */
  lemma OtherEffectsKeepBranch(w: World, e: Effect, choice: Choice, name: string)
    requires Apply(w, e, choice).Some? && HasBranch(w, name) && !(e.DeleteBranch? && e.branch == name)
    ensures HasBranch(Apply(w, e, choice).value, name)
  {
    var w' := Apply(w, e, choice).value;
    var b := Filter(w.branches, BranchIs(name))[0];
    var i :| 0 <= i < |w.branches| && w.branches[i] == b;
    match e
    case CreateProvenanceCommit(branch, _, _) =>
      assert w'.branches[i] in w'.branches && w'.branches[i].name == name;
      assert w'.branches[i] in Filter(w'.branches, BranchIs(name));
    case _ =>
      assert b in w'.branches && b in Filter(w'.branches, BranchIs(name));
  }

  /** Whatever branch an effect removes is the branch it names, at the generation it names. */
  lemma OnlyTheNamedGenerationIsRemoved(w: World, e: Effect, choice: Choice, name: string)
    requires Apply(w, e, choice).Some? && HasBranch(w, name) && !HasBranch(Apply(w, e, choice).value, name)
    ensures e.DeleteBranch? && e.branch == name
    ensures e.expectedCommitSha.Some? ==> ShaOf(w, name) == LowerSha(e.expectedCommitSha)
  {
    hide Apply;
    if !(e.DeleteBranch? && e.branch == name) {
      OtherEffectsKeepBranch(w, e, choice, name);
    } else {
      if e.expectedCommitSha.Some? { DeleteIsConditional(w, e, choice); }
    }
  }

  lemma DeleteIsConditional(w: World, e: Effect, choice: Choice)
    requires e.DeleteBranch? && e.expectedCommitSha.Some? && HasBranch(w, e.branch) && Apply(w, e, choice).Some?
    ensures ShaOf(w, e.branch) == LowerSha(e.expectedCommitSha)
  {
  }
}
