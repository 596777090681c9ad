/**
 Reported outcomes and the world they leave: when the reread is a projection of the world, success says what stands there,
 and an abort that was cut short is never reported as done.
 */
module AuthorizedWorlds {
  import opened Wrappers
  import opened Change
  import opened Projection
  import opened ProjectionTheorems
  import opened AbortRecovery
  import AbortPlanning
  import opened GitHubWorld
  import opened AuthorizedExecution
  import AbortRuns
  import AbortOutcomes
  import IssuanceRuns
  import Issuance

  /** The delegates' executor rereads this world. */
  predicate Rereads(d: Delegates, c: Setting, w: World, listing: Listing) {
    PortInUse(d).Some? && PortInUse(d).value.read == Returns(Project(Observe(c, w, listing)))
  }

  /** Nothing but the reread stands between this execution and success, and the executor reports what is there. */
  predicate Truthful(d: Delegates) {
    && PortInUse(d).Some? && AppInUse(d).Some? && ValidApp(AppInUse(d).value)
    && var port := PortInUse(d).value;
       && port.execute.Finished? && port.execute.result.evidence !in {EffectFailed, NeedsRecovery}
       && port.read == Returns(port.execute.result.projection)
  }

  /** An abort has cleaned everything up. */
  predicate CleanedUp(w: World) { w.branches == [] && w.pullRequests == [] }

  lemma SeenSoundness(c: Setting, w: World, listing: Listing)
    requires WellFormed(c, w)
    ensures var p, f := Project(Observe(c, w, listing)), RawFacts(c, w);
      && (p.valid && p.status == Healthy <==> Sound(f))
      && (Sound(f) ==>
            && p.change == Some(ProjectedChange(f)) && p.change.value.identity == c.identity
            && p.change.value.state == StateFromPullRequest(CanonicalPullRequests(f)[0])
            && p.change.value.artifacts == Artifacts(Some(CanonicalBranch(f)), Some(CanonicalPullRequests(f)[0].number)))
  {
    hide WellFormed, TallyOf, CanonicalBranch, BranchCandidates, PullRequestCandidates, Project, OffBase, Consistent,
         RootClaimsAgree, CanonicalBranches, CanonicalPullRequests, AnyConflict, ProjectedChange;
    var f := RawFacts(c, w);
    ObservedProjection(c, w, listing);
    HealthyIff(f);
    FactsExplainRejection(f);
    if Sound(f) { HealthyChange(f); AbortPlanning.ChangeOfFacts(f); }
  }

  lemma SeenCleanup(c: Setting, w: World, listing: Listing)
    requires WellFormed(c, w)
    ensures var p := Project(Observe(c, w, listing));
      && (CleanupComplete(p) <==> CleanedUp(w)) && (CleanedUp(w) ==> p.change.Some? && p.change.value.identity == c.identity)
  {
    hide WellFormed, TallyOf, CanonicalBranch, BranchCandidates, PullRequestCandidates, Project, OffBase, ProjectFacts,
         CanonicalBranches, CanonicalPullRequests, AnyConflict, CleanupComplete;
    ObservedFacts(c, w, listing);
    AbortOutcomes.ReadableProjects(c, w, listing);
    var g := FactsOf(Observe(c, w, listing));
    Ordering.SameSize(g.branches, w.branches);
    Ordering.SameSize(g.pullRequests, w.pullRequests);
    CleanupCompleteIff(g);
    CleanIdentity(g);
  }

  lemma CleanIdentity(f: Facts)
    ensures CleanupComplete(ProjectFacts(f)) ==> ProjectFacts(f).change.Some? && ProjectFacts(f).change.value.identity == f.identity
  {
  }

  lemma IdentityShown(c: Setting, w: World, listing: Listing)
    ensures var p := Project(Observe(c, w, listing)); p.change.Some? ==> p.change.value.identity == c.identity
  {
    hide StatusOf, CanonicalBranch, AnyConflict, BranchCandidates, PullRequestCandidates, EvidenceDiagnostics, ValidInput;
  }

  /**
   What a truthful execution of a mutation is worth: success is reported if and only if the world it leaves holds the
   one sound pair of this Issue, or, for an abort, no candidate at all.
   */
  lemma TruthfulSuccessIff(content: Content, d: Delegates, c: Setting, w: World, listing: Listing)
    requires IsMutation(content.action) && Truthful(d) && Rereads(d, c, w, listing) && WellFormed(c, w)
    ensures RunContent(content, d).result.Succeeded? <==>
      && c.identity.rootIssue == IssueOf(content)
      && (Sound(RawFacts(c, w)) || (content.action == ChangeAbort && CleanedUp(w)))
  {
    hide WellFormed, Sound, Project, RunContent, CleanupComplete, ProjectedChange;
    SucceedsIff(content, d);
    SeenSoundness(c, w, listing);
    SeenCleanup(c, w, listing);
    IdentityShown(c, w, listing);
  }

  /** What the executor says it left. */
  function Claimed(content: Content, d: Delegates): Change
    requires IsMutation(content.action) && RunContent(content, d).result.Succeeded?
  {
    SuccessAgreesWithReread(content, d);
    RunContent(content, d).result.execution.value.projection.change.value
  }

  /** What was reread is what is reported and what the executor claims. */
  lemma RereadIsReported(content: Content, d: Delegates)
    requires IsMutation(content.action) && RunContent(content, d).result.Succeeded?
    ensures PortInUse(d).Some? && PortInUse(d).value.read.Returns?
    ensures var p, claimed := PortInUse(d).value.read.value, Claimed(content, d);
      && RunContent(content, d).result.projection == Some(p)
      && p.change.Some? && p.change.value.state == claimed.state && p.change.value.artifacts == claimed.artifacts
      && ((p.valid && p.status == Healthy) || (content.action == ChangeAbort && CleanupComplete(p)))
  {
    hide CleanupComplete;
    SuccessAgreesWithReread(content, d);
    SucceedsIff(content, d);
  }

  /** Whatever the executor claims, success fixes the world: its claims are what stands there. */
  lemma SuccessFixesWorld(content: Content, d: Delegates, c: Setting, w: World, listing: Listing)
    requires IsMutation(content.action) && Rereads(d, c, w, listing) && WellFormed(c, w)
    requires RunContent(content, d).result.Succeeded?
    ensures var claimed, f := Claimed(content, d), RawFacts(c, w);
      if CleanedUp(w) then content.action == ChangeAbort && claimed.state == Defined && claimed.artifacts == NO_ARTIFACTS
      else
        && Sound(f) && claimed.state == StateFromPullRequest(CanonicalPullRequests(f)[0])
        && claimed.artifacts == Artifacts(Some(CanonicalBranch(f)), Some(CanonicalPullRequests(f)[0].number))
  {
    hide WellFormed, Project, CleanupComplete, ProjectedChange, CanonicalBranch, RunContent, Claimed, StateFromPullRequest,
         OffBase, Consistent, RootClaimsAgree, CanonicalBranches, CanonicalPullRequests, CleanedUp;
    RereadIsReported(content, d);
    SeenSoundness(c, w, listing);
    SeenCleanup(c, w, listing);
    EmptyIsUnsound(c, w);
    CleanShape(Project(Observe(c, w, listing)));
  }

  lemma CleanShape(p: Projection)
    ensures CleanupComplete(p) ==> p.change.Some? && p.change.value.state == Defined && p.change.value.artifacts == NO_ARTIFACTS
  {
  }

  lemma EmptyIsUnsound(c: Setting, w: World)
    ensures CleanedUp(w) ==> !Sound(RawFacts(c, w))
  {
  }

  /**
   Success of an abort alone does not mean ABORTED: any sound pair will do. The claimed state tells them apart. It is
   ABORTED exactly when the world is the record of a finished abort, DEFINED exactly when everything is cleaned up.
   */
  lemma AbortedIffFinished(content: Content, d: Delegates, c: Setting, w: World, listing: Listing)
    requires content.action == ChangeAbort && Rereads(d, c, w, listing) && WellFormed(c, w)
    requires RunContent(content, d).result.Succeeded?
    ensures Claimed(content, d).state == Aborted <==> AbortPlanning.Finished(RawFacts(c, w))
    ensures Claimed(content, d).state == Defined <==> CleanedUp(w)
  {
    hide WellFormed, Project, CanonicalBranch, RunContent, OffBase, Consistent, RootClaimsAgree, CanonicalBranches,
         CanonicalPullRequests, Claimed, CleanedUp;
    SuccessFixesWorld(content, d, c, w, listing);
    EmptyIsUnsound(c, w);
    if Sound(RawFacts(c, w)) {
      OneInWorld(c, w);
      SoundCounts(RawFacts(c, w));
    }
  }

  lemma OneInWorld(c: Setting, w: World)
    requires WellFormed(c, w) && |CanonicalPullRequests(RawFacts(c, w))| == 1
    ensures var p := CanonicalPullRequests(RawFacts(c, w))[0]; p.open ==> !p.merged
  {
    AbortRuns.InWorld(c, w);
  }

  lemma SoundCounts(f: Facts)
    requires Sound(f)
    ensures |CanonicalBranches(f)| == (if ClosedUnmerged(CanonicalPullRequests(f)[0]) then 0 else 1)
  {
    AtMostOneCanonicalBranch(f);
  }

  /** The witness: an abort that did nothing, over a freshly issued Draft, is reported as a success in state DRAFT. */
  lemma IdleAbortMaySucceed(content: Content, d: Delegates, c: Setting, w: World, choice: Choice, listing: Listing)
    requires content.action == ChangeAbort && Truthful(d) && c.identity.rootIssue == IssueOf(content)
    requires IssuanceRuns.AbsentWorld(c, w) && IssuanceRuns.RoomLeft(w) && IssuanceRuns.ValidChoice(c, w, choice)
    requires Rereads(d, c, IssuanceRuns.Issued(c, w, choice), listing)
    ensures RunContent(content, d).result.Succeeded? && Claimed(content, d).state == Draft
  {
    hide WellFormed, Project, RunContent, Sound, CleanupComplete, Claimed, IssuanceRuns.AbsentWorld, IssuanceRuns.Issued,
         Truthful, CleanedUp;
    var v := IssuanceRuns.Issued(c, w, choice);
    IssuanceRuns.IssuedWellFormed(c, w, choice);
    IssuanceRuns.IssuedProjection(c, w, choice, listing);
    SeenSoundness(c, v, listing);
    TruthfulSuccessIff(content, d, c, v, listing);
    RereadIsReported(content, d);
  }

  lemma ShownIsValid(c: Setting, w: World, listing: Listing)
    ensures Project(Observe(c, w, listing)).status == Healthy ==> Project(Observe(c, w, listing)).valid
  {
    DiagnosticsExplainRejection(Observe(c, w, listing));
  }

  // ---- aborts that were cut short ---------------------------------------------------------------------

  /**
   In every run of abort attempts, cut short anywhere and interleaved with pushes: while the pull request is closed and its
   branch still stands no reread lets any mutation succeed, and once an attempt has nothing left a truthful report of it succeeds as ABORTED.
   */
  lemma AbortIsReportedWhenDone(content: Content, d: Delegates, c: Setting, requester: Option<string>,
                                states: seq<AbortRuns.State>, steps: seq<AbortRuns.Step>, i: nat, listing: Listing)
    requires IsMutation(content.action) && AbortRuns.Run(c, requester, states, steps) && AbortRuns.Converging(c, states[0])
    requires ValidRole(requester) && i < |states| && Rereads(d, c, states[i].world, listing)
    ensures AbortRuns.Rank(RawFacts(c, states[i].world)) == 1 ==> !RunContent(content, d).result.Succeeded?
    ensures states[i].session == AbortRuns.Aborting([]) && Truthful(d) && c.identity.rootIssue == IssueOf(content) ==>
      RunContent(content, d).result.Succeeded? && Claimed(content, d).state == Aborted
  {
    hide Project, RunContent, AbortRuns.Run, AbortRuns.Rank, AbortRuns.OnTheWay, AbortRuns.Converging, AbortRuns.Outstanding,
         AbortPlanning.PlanAbort, ValidRole, Claimed, Truthful, Observe, AbortPlanning.Finished, AbortPlanning.Generation;
    var w := states[i].world;
    AbortRuns.AbortConverges(c, requester, states, steps, i, listing);
    MiddleIsRefused(content, d, c, w, listing);
    if states[i].session == AbortRuns.Aborting([]) && Truthful(d) && c.identity.rootIssue == IssueOf(content) {
      FinishedIsReported(content, d, c, w, listing);
    }
  }

  lemma MiddleIsRefused(content: Content, d: Delegates, c: Setting, w: World, listing: Listing)
    requires IsMutation(content.action) && AbortRuns.OnTheWay(c, w) && Rereads(d, c, w, listing)
    ensures AbortRuns.Rank(RawFacts(c, w)) == 1 ==> !RunContent(content, d).result.Succeeded?
  {
    hide Project, RunContent, AbortRuns.Rank, AbortRuns.OnTheWay, Observe, CleanupComplete;
    AbortOutcomes.StageSeen(c, w, listing);
    SucceedsIff(content, d);
    PartialIsNotClean(Project(Observe(c, w, listing)));
  }

  lemma FinishedIsReported(content: Content, d: Delegates, c: Setting, w: World, listing: Listing)
    requires IsMutation(content.action) && AbortRuns.OnTheWay(c, w) && Rereads(d, c, w, listing) && Truthful(d)
    requires AbortPlanning.Finished(RawFacts(c, w)) && c.identity.rootIssue == IssueOf(content)
    ensures RunContent(content, d).result.Succeeded? && Claimed(content, d).state == Aborted
  {
    hide WellFormed, Project, RunContent, CanonicalBranch, OffBase, Consistent, RootClaimsAgree, CanonicalBranches,
         CanonicalPullRequests, AbortRuns.AnchorSurvives, Truthful, CleanedUp, Claimed;
    TruthfulSuccessIff(content, d, c, w, listing);
    RereadIsReported(content, d);
    SeenSoundness(c, w, listing);
    EmptyIsUnsound(c, w);
    SuccessFixesWorld(content, d, c, w, listing);
    SoundCounts(RawFacts(c, w));
  }

  lemma PartialIsNotClean(p: Projection)
    ensures p.status == Partial ==> !CleanupComplete(p)
  {
  }

  // ---- shows --------------------------------------------------------------------------------------------

  /**
   A show compares what was admitted with what is there now. A push to any branch in between does not disturb it; closing
   the pull request does.
   */
  lemma ShowSeesClosingNotPushing(content: Content, d: Delegates, c: Setting, w: World, then_: World, first: Listing, now: Listing)
    requires content.action == ChangeShow && content.initial == Some(Project(Observe(c, w, first)))
    requires AbortRuns.OnTheWay(c, w) && AbortRuns.Rank(RawFacts(c, w)) == 2 && c.identity.rootIssue == IssueOf(content)
    requires d.readExecutor == Some(Returns(Project(Observe(c, then_, now))))
    ensures (exists name, sha :: AbortRuns.ValidGeneration(sha) && then_ == AbortRuns.Pushed(w, name, sha)) ==>
      RunContent(content, d).result.Succeeded?
    ensures then_ == AbortRuns.Closed(w, CanonicalPullRequests(RawFacts(c, w))[0].number) ==> !RunContent(content, d).result.Succeeded?
  {
    hide WellFormed, Project, RunContent, SameProjection, CanonicalPullRequests, AbortRuns.Pushed, AbortRuns.Closed,
         AbortRuns.Rank, OffBase, Consistent, RootClaimsAgree, CanonicalBranches, AbortRuns.AnchorSurvives;
    ShowSucceedsIff(content, d);
    if name, sha :| AbortRuns.ValidGeneration(sha) && then_ == AbortRuns.Pushed(w, name, sha) {
      PushedLooksTheSame(c, w, name, sha, first, now);
    }
    if then_ == AbortRuns.Closed(w, CanonicalPullRequests(RawFacts(c, w))[0].number) {
      ClosedLooksPartial(c, w, now);
    }
  }

  lemma ClosedLooksPartial(c: Setting, w: World, listing: Listing)
    requires AbortRuns.OnTheWay(c, w) && AbortRuns.Rank(RawFacts(c, w)) == 2
    ensures Project(Observe(c, AbortRuns.Closed(w, CanonicalPullRequests(RawFacts(c, w))[0].number), listing)).status == Partial
  {
    hide WellFormed, CanonicalBranches, CanonicalPullRequests, OffBase, Consistent, RootClaimsAgree, AbortRuns.AnchorSurvives,
         CanonicalBranch, AbortRuns.Closed, Apply, MergeProvenance, Project, AbortRuns.Outstanding;
    var f := RawFacts(c, w);
    OpenAtRankTwo(f);
    var choice := Choice("", "", 0, None);
    AbortRuns.CloseAdvances(c, w, choice);
    AbortRuns.CloseLands(c, w, choice);
    AbortOutcomes.StageSeen(c, AbortRuns.Closed(w, CanonicalPullRequests(f)[0].number), listing);
  }

  lemma OpenAtRankTwo(f: Facts)
    requires AbortRuns.Rank(f) == 2 && |CanonicalBranches(f)| <= 1
    ensures CanonicalPullRequests(f) != [] && CanonicalPullRequests(f)[0].open
  {
  }

  lemma PushedLooksTheSame(c: Setting, w: World, name: string, sha: string, first: Listing, now: Listing)
    requires AbortRuns.OnTheWay(c, w) && AbortRuns.Rank(RawFacts(c, w)) == 2 && AbortRuns.ValidGeneration(sha)
    ensures var p, q := Project(Observe(c, w, first)), Project(Observe(c, AbortRuns.Pushed(w, name, sha), now));
      SameProjection(p, q, c.identity.rootIssue) && q.valid && q.status == Healthy
  {
    hide WellFormed, CanonicalBranches, CanonicalPullRequests, OffBase, Consistent, RootClaimsAgree, AbortRuns.AnchorSurvives,
         CanonicalBranch, AbortRuns.Pushed, MergeProvenance, Project, AbortRuns.Outstanding, Sound, ProjectedChange;
    var v := AbortRuns.Pushed(w, name, sha);
    AbortRuns.PushKeepsRank(c, w, name, sha);
    PushedFacts(c, w, name, sha);
    AbortOutcomes.StageSeen(c, w, first);
    AbortOutcomes.StageSeen(c, v, now);
    SeenSoundness(c, w, first);
    SeenSoundness(c, v, now);
    ShownIsValid(c, w, first);
    ShownIsValid(c, v, now);
    SeenNames(c, w, first);
    SeenNames(c, v, now);
  }

  lemma SeenNames(c: Setting, w: World, listing: Listing)
    requires WellFormed(c, w)
    ensures Project(Observe(c, w, listing)).canonicalBranch == Some(CanonicalBranch(RawFacts(c, w)))
    ensures Project(Observe(c, w, listing)).canonicalBaseBranch == Some(c.baseBranch)
  {
    hide WellFormed, TallyOf, CanonicalBranch, BranchCandidates, PullRequestCandidates, Project, AnyConflict, ProjectedChange;
    ObservedProjection(c, w, listing);
  }

  lemma PushedFacts(c: Setting, w: World, name: string, sha: string)
    ensures var f, g := RawFacts(c, w), RawFacts(c, AbortRuns.Pushed(w, name, sha));
      CanonicalBranch(g) == CanonicalBranch(f) && CanonicalPullRequests(g) == CanonicalPullRequests(f)
  {
    hide CanonicalBranch, CanonicalPullRequests, CanonicalBranches, OffBase, Consistent, RootClaimsAgree;
    var f, gb, gp := RawFacts(c, w), Advance(name, sha), AbortRuns.Same<PullRequestEvidence>();
    AbortRuns.MovedFacts(f, gb, gp);
    assert Ordering.Map(w.pullRequests, gp) == w.pullRequests;
    assert Ordering.Map(CanonicalPullRequests(f), gp) == CanonicalPullRequests(f);
    assert RawFacts(c, AbortRuns.Pushed(w, name, sha)) == AbortRuns.Moved(f, gb, gp);
  }
}
