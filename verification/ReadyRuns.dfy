/** Marking a Change ready for review: what is planned in every state, and the run from Draft to Review in the world. */
module ReadyRuns {
  import opened Wrappers
  import opened Ordering
  import opened Change
  import opened Projection
  import opened ProjectionTheorems
  import opened Transition
  import opened Issuance
  import opened AbortPlanning
  import opened GitHubWorld
  import opened AbortRuns
  import opened IssuanceRuns

  // ---- the five healthy states --------------------------------------------------------------

  /** The state of a healthy projection, read off its one canonical pull request. */
  lemma HealthyStateMeans(f: Facts)
    requires StatusOf(f) == Healthy
    ensures |CanonicalPullRequests(f)| == 1 && ProjectFacts(f).change.Some?
    ensures var p, state := CanonicalPullRequests(f)[0], ProjectFacts(f).change.value.state;
      && (state == Draft <==> p.open && p.draft)
      && (state == Review <==> p.open && !p.draft && p.accepted != Some(true))
      && (state == Accepted <==> p.open && !p.draft && p.accepted == Some(true))
      && (state == Merged <==> !p.open && p.merged)
      && (state == Aborted <==> !p.open && !p.merged)
  {
    hide TallyOf, CanonicalBranch, BranchCandidates, PullRequestCandidates, CanonicalPullRequests, AnyConflict, MergeProvenance,
         ProjectedChange;
    HealthyChange(f);
    ChangeOfFacts(f);
  }

  /** The same as any reader sees it: a sound world shows exactly the state of its pull request. */
  lemma ObservedStateMeans(c: Setting, w: World, listing: Listing)
    requires WellFormed(c, w) && Sound(RawFacts(c, w))
    ensures var q, p := Project(Observe(c, w, listing)), CanonicalPullRequests(RawFacts(c, w))[0];
      && q.status == Healthy && q.valid && q.change.Some?
      && q.change.value == Change(c.identity, q.change.value.state, MergeProvenance(c.provenance, p.provenance),
                                  Artifacts(Some(CanonicalBranch(RawFacts(c, w))), Some(p.number)))
      && (q.change.value.state == Draft <==> p.open && p.draft)
      && (q.change.value.state == Review <==> p.open && !p.draft && p.accepted != Some(true))
      && (q.change.value.state == Accepted <==> p.open && !p.draft && p.accepted == Some(true))
      && (q.change.value.state == Merged <==> !p.open && p.merged)
      && (q.change.value.state == Aborted <==> !p.open && !p.merged)
  {
    hide WellFormed, TallyOf, CanonicalBranch, BranchCandidates, PullRequestCandidates, Project, OffBase, Consistent,
         RootClaimsAgree, CanonicalBranches, CanonicalPullRequests, AnyConflict, ProjectedChange, MergeProvenance;
    var f := RawFacts(c, w);
    ObservedProjection(c, w, listing);
    HealthyIff(f);
    FactsExplainRejection(f);
    HealthyStateMeans(f);
    HealthyChange(f);
    ChangeOfFacts(f);
  }

  // ---- ready plans --------------------------------------------------------------------------------

  /** The pull request a ready request is about. */
  function ReadyTarget(r: Request): Option<nat> {
    OrElse(r.target.GetOr(NO_TARGET).pullRequest, r.change.artifacts.pullRequest)
  }

  /** A valid ready request is planned always: one effect from DRAFT, none from REVIEW, and there is no third state. */
  lemma ReadyPlans(r: Request)
    requires r.operation == Ready
    ensures PlanTransition(r).Success? <==> RequestProblems(r) == []
    ensures RequestProblems(r) == [] ==> r.change.state in {Draft, Review} && ReadyTarget(r).Some?
    ensures PlanTransition(r).Success? ==>
      var plan := PlanTransition(r).value;
      && plan.to == Review && plan.result.state == Review && plan.result.artifacts.pullRequest == ReadyTarget(r)
      && (plan.effects == [MarkPullRequestReady(ReadyTarget(r).value)] <==> r.change.state == Draft)
      && (plan.effects == [] <==> r.change.state == Review)
  {
    hide IssueProblems, MergeProblems, ValidChange, ValidTarget;
  }

  function PlanReady(p: Projection): Option<seq<Effect>> {
    if !p.valid || p.change.None? then None
    else
      match PlanTransition(Request(Ready, p.change.value, None))
      case Failure(_) => None
      case Success(plan) => Some(plan.effects)
  }

  lemma ReadyFromChange(change: Change)
    requires ValidChange(change) && change.artifacts.branch.Some? && change.artifacts.pullRequest.Some?
    ensures RequestProblems(Request(Ready, change, None)) == [] <==> change.state in {Draft, Review}
  {
    hide IssueProblems, MergeProblems, ValidTarget;
  }

  /** From an observed sound world: the effects of ready, exactly by state. */
  lemma ReadyFromWorld(c: Setting, w: World, listing: Listing)
    requires WellFormed(c, w) && Sound(RawFacts(c, w))
    ensures var p := CanonicalPullRequests(RawFacts(c, w))[0];
      PlanReady(Project(Observe(c, w, listing))) ==
        if p.open && p.draft then Some([MarkPullRequestReady(p.number)])
        else if p.open && p.accepted != Some(true) then Some([])
        else None
  {
    hide WellFormed, CanonicalBranch, Project, OffBase, Consistent, RootClaimsAgree, CanonicalBranches, CanonicalPullRequests,
         RequestProblems, PlanTransition, ValidChange, Sound;
    ObservedStateMeans(c, w, listing);
    ValidProjectionShape(Observe(c, w, listing));
    var change := Project(Observe(c, w, listing)).change.value;
    ReadyFromChange(change);
    ReadyPlans(Request(Ready, change, None));
  }

  // ---- the run ----------------------------------------------------------------------------------------

  function Readied(w: World, number: nat): World { w.(pullRequests := Map(w.pullRequests, Readying(number))) }

  lemma ReadyLands(c: Setting, w: World, choice: Choice)
    requires WellFormed(c, w) && |CanonicalPullRequests(RawFacts(c, w))| == 1
    requires CanonicalPullRequests(RawFacts(c, w))[0].open && CanonicalPullRequests(RawFacts(c, w))[0].draft
    ensures var n := CanonicalPullRequests(RawFacts(c, w))[0].number; Apply(w, MarkPullRequestReady(n), choice) == Some(Readied(w, n))
  {
    var p := CanonicalPullRequests(RawFacts(c, w))[0];
    var found := Filter(w.pullRequests, WithNumber(p.number));
    assert p in w.pullRequests && p in found;
    assert found[0] in w.pullRequests && found[0].number == p.number;
    var i :| 0 <= i < |w.pullRequests| && w.pullRequests[i] == p;
    var j :| 0 <= j < |w.pullRequests| && w.pullRequests[j] == found[0];
    assert i < j || j < i || i == j;
  }

  lemma ReadiedFacts(c: Setting, w: World, number: nat)
    requires WellFormed(c, w) && Sound(RawFacts(c, w)) && CanonicalPullRequests(RawFacts(c, w))[0].open
    ensures WellFormed(c, Readied(w, number)) && Sound(RawFacts(c, Readied(w, number)))
    ensures var f, g := RawFacts(c, w), RawFacts(c, Readied(w, number));
      && CanonicalBranch(g) == CanonicalBranch(f) && CanonicalPullRequests(g) == Map(CanonicalPullRequests(f), Readying(number))
  {
    hide WellFormed, CanonicalBranches, CanonicalPullRequests, OffBase, Consistent, RootClaimsAgree, CanonicalBranch;
    var f, gb, gp := RawFacts(c, w), Same<BranchEvidence>(), Readying(number);
    MovedWorld(c, w, gb, gp);
    MovedFacts(f, gb, gp);
    assert Map(w.branches, gb) == w.branches && Map(CanonicalBranches(f), gb) == CanonicalBranches(f);
    assert Readied(w, number) == w.(branches := Map(w.branches, gb), pullRequests := Map(w.pullRequests, gp));
    assert RawFacts(c, Readied(w, number)) == Moved(f, gb, gp);
  }

  /**
   Ready in the world: over a sound Draft exactly one effect is planned, it lands, the Change is then seen as REVIEW with
   the same pair, and ready once more has nothing to do.
   */
  lemma ReadyRun(c: Setting, w: World, listing: Listing, again: Listing, choice: Choice)
    requires WellFormed(c, w) && Sound(RawFacts(c, w))
    requires Project(Observe(c, w, listing)).change.Some? && Project(Observe(c, w, listing)).change.value.state == Draft
    ensures var p, before := CanonicalPullRequests(RawFacts(c, w))[0], Project(Observe(c, w, listing)).change.value;
      && PlanReady(Project(Observe(c, w, listing))) == Some([MarkPullRequestReady(p.number)])
      && var landed := Apply(w, MarkPullRequestReady(p.number), choice);
         && landed.Some? && WellFormed(c, landed.value)
         && var q := Project(Observe(c, landed.value, again));
            && q.status == Healthy && q.change == Some(before.(state := Review)) && PlanReady(q) == Some([])
  {
    hide WellFormed, CanonicalBranch, Project, OffBase, Consistent, RootClaimsAgree, CanonicalBranches, CanonicalPullRequests,
         PlanReady, Apply, Readied, MergeProvenance;
    var p := CanonicalPullRequests(RawFacts(c, w))[0];
    ObservedStateMeans(c, w, listing);
    ReadyFromWorld(c, w, listing);
    ReadyLands(c, w, choice);
    ReadiedFacts(c, w, p.number);
    DraftIsUnaccepted(c, w);
    assert Map(CanonicalPullRequests(RawFacts(c, w)), Readying(p.number))[0] == p.(draft := false);
    ObservedStateMeans(c, Readied(w, p.number), again);
    ReadyFromWorld(c, Readied(w, p.number), again);
  }

  lemma DraftIsUnaccepted(c: Setting, w: World)
    requires WellFormed(c, w) && |CanonicalPullRequests(RawFacts(c, w))| == 1
    ensures var p := CanonicalPullRequests(RawFacts(c, w))[0]; p.draft ==> p.accepted != Some(true)
  {
    var p := CanonicalPullRequests(RawFacts(c, w))[0];
    assert p in w.pullRequests && WellFormedPullRequest(p);
  }

  /** A freshly issued Change is made ready by exactly one effect, on the pull request the issuance opened. */
  lemma IssueThenReady(c: Setting, w: World, choice: Choice, listing: Listing)
    requires AbsentWorld(c, w) && RoomLeft(w) && ValidChoice(c, w, choice)
    ensures PlanReady(Project(Observe(c, Issued(c, w, choice), listing))) == Some([MarkPullRequestReady(choice.number)])
    ensures var landed := Apply(Issued(c, w, choice), MarkPullRequestReady(choice.number), choice);
      && landed.Some?
      && var q := Project(Observe(c, landed.value, listing));
         q.status == Healthy && q.change.Some? && q.change.value.state == Review && PlanReady(q) == Some([])
         && q.change.value.artifacts == Artifacts(Some(c.authority.branch), Some(choice.number))
  {
    hide WellFormed, CanonicalBranch, Project, OffBase, Consistent, RootClaimsAgree, CanonicalBranches, CanonicalPullRequests,
         PlanReady, Apply, NothingClaims, MergeProvenance;
    var f, v := RawFacts(c, w), Issued(c, w, choice);
    var p, b := NewPullRequest(c, choice), BranchEvidence(c.authority.branch, Some(choice.commitSha), choice.claim);
    assert RawFacts(c, v) == WithPair(f, b, p);
    PairAdded(f, b, p);
    IssuedWellFormed(c, w, choice);
    IssuedProjection(c, w, choice, listing);
    ReadyRun(c, v, listing, listing, choice);
  }
}
