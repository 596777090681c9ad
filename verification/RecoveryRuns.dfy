/** Recovering a failed transition: when a recovery exists, and what it says along an abort that failed in the world. */
module RecoveryRuns {
  import opened Wrappers
  import opened Ordering
  import opened Change
  import opened Projection
  import opened ProjectionTheorems
  import opened Transition
  import opened Issuance
  import opened Compensation
  import opened AbortPlanning
  import opened GitHubWorld
  import opened AbortRuns
  import opened AbortOutcomes
  import opened AttemptRecords

  /** A record of `n` succeeded effects of a plan and the one that failed after them. */
  function FailedAfter(effects: seq<Effect>, n: nat): seq<Attempt>
    requires n < |effects|
  {
    seq(n + 1, i requires 0 <= i <= n => Attempt(effects[i], i < n, None))
  }

  /**
   A recovery exists exactly for a plan that validates, a record of some succeeded effects of it and the failed next one, and a
   projection of the same Change that is not contradictory: healthy, absent or partial.
   */
  lemma RecoveryExistsIff(plan: Plan, n: nat, input: Input)
    requires ValidatePlan(plan) == Success(plan) && n < |plan.effects|
    ensures var r := PlanTransitionRecovery(plan, FailedAfter(plan.effects, n), plan.effects[n], input);
      var p := Project(input);
      && (r.Some? <==> p.status in {Healthy, Absent, Partial} && p.change.Some? && p.change.value.identity == plan.result.identity)
      && (r.Some? ==>
            && r.value.effects == plan.effects[n..] && r.value.change.state == RecoveryRequired
            && r.value.change.artifacts == (if p.change.value.artifacts == NO_ARTIFACTS then plan.result.artifacts else p.change.value.artifacts)
            && r.value.change.provenance == MergeProvenance(plan.result.provenance, Some(p.change.value.provenance)))
  {
    hide Project, RequestProblems, ValidEffect, Build, FindPlan;
    DiagnosticsExplainRejection(input);
    ValidatedEffects(plan);
    RecordIsAdmitted(plan, n);
  }

  lemma ValidatedEffects(plan: Plan)
    requires ValidatePlan(plan) == Success(plan)
    ensures ValidEffects(plan.effects) && Map(plan.effects, NormalizeEffect) == plan.effects
  {
    hide RequestProblems, Build, ValidEffect;
  }

  lemma RecordIsAdmitted(plan: Plan, n: nat)
    requires n < |plan.effects| && ValidEffects(plan.effects) && Map(plan.effects, NormalizeEffect) == plan.effects
    ensures var attempts := FailedAfter(plan.effects, n);
      ValidAttempts(attempts) && ValidEffect(plan.effects[n]) && FailedPrefix(plan, attempts, plan.effects[n])
  {
    hide ValidEffect, NormalizeEffect;
    assert forall i :: 0 <= i < |plan.effects| ==> Map(plan.effects, NormalizeEffect)[i] == plan.effects[i];
  }

  // ---- a failed abort -----------------------------------------------------------------------------

  /** The whole plan behind the effects of an abort. */
  function AbortPlanOf(p: Projection, requester: Option<string>): Result<Plan, Failure>
    requires p.change.Some?
  {
    PlanTransition(AbortRequest(p.change.value, requester, ProjectedSha(p, p.change.value)))
  }

  lemma AbortPlanValidates(p: Projection, requester: Option<string>)
    requires p.change.Some? && AbortPlanOf(p, requester).Success?
    ensures var plan := AbortPlanOf(p, requester).value;
      && ValidatePlan(plan) == Success(plan) && plan.result.identity == p.change.value.identity
      && plan.result.artifacts == p.change.value.artifacts
  {
    hide RequestProblems, CanonicalSha;
    var r := AbortRequest(p.change.value, requester, ProjectedSha(p, p.change.value));
    PlanFollowsLifecycle(r);
    PlansValidateToThemselves(r);
  }

  lemma OpenAbortPlan(c: Setting, w: World, listing: Listing, requester: Option<string>)
    requires OnTheWay(c, w) && Rank(RawFacts(c, w)) == 2 && ValidRole(requester)
    ensures var p, f := Project(Observe(c, w, listing)), RawFacts(c, w);
      && p.change.Some? && AbortPlanOf(p, requester).Success? && CanonicalPullRequests(f) != []
      && AbortPlanOf(p, requester).value.effects ==
           [ClosePullRequest(CanonicalPullRequests(f)[0].number), DeleteBranch(CanonicalBranch(f), Generation(f))]
  {
    hide WellFormed, Project, CanonicalBranch, OffBase, Consistent, RootClaimsAgree, CanonicalBranches, CanonicalPullRequests,
         AnchorSurvives, Generation, PlanTransition, MergeProvenance, ValidRole;
    var p, f := Project(Observe(c, w, listing)), RawFacts(c, w);
    StageSeen(c, w, listing);
    FreshPlan(c, w, listing, requester);
    RankTwo(f);
    assert Outstanding(f, Generation(f))
           == [ClosePullRequest(CanonicalPullRequests(f)[0].number), DeleteBranch(CanonicalBranch(f), Generation(f))];
  }

  lemma RankTwo(f: Facts)
    requires Rank(f) == 2 && |CanonicalBranches(f)| <= 1
    ensures CanonicalPullRequests(f) != [] && CanonicalPullRequests(f)[0].open && |CanonicalBranches(f)| == 1
  {
  }

  /**
   An abort whose close landed and whose delete failed: over the world after the close the recovery exists, asks
   for exactly the delete, and keeps the pair on record, while the reread Change needs recovery.
   */
  lemma DeleteFailed(c: Setting, w: World, listing: Listing, after: Listing, requester: Option<string>)
    requires OnTheWay(c, w) && Rank(RawFacts(c, w)) == 2 && ValidRole(requester)
    requires Project(Observe(c, w, listing)).change.Some? && AbortPlanOf(Project(Observe(c, w, listing)), requester).Success?
    ensures var plan, f := AbortPlanOf(Project(Observe(c, w, listing)), requester).value, RawFacts(c, w);
      && |plan.effects| == 2 && CanonicalPullRequests(f) != []
      && var number, name := CanonicalPullRequests(f)[0].number, CanonicalBranch(f);
         var input := Observe(c, Closed(w, number), after);
         var r := PlanTransitionRecovery(plan, FailedAfter(plan.effects, 1), plan.effects[1], input);
         && Project(input).status == Partial && r.Some? && r.value.effects == [DeleteBranch(name, Generation(f))]
         && r.value.change.artifacts == Artifacts(Some(name), Some(number)) && r.value.change.state == RecoveryRequired
         && r.value.change.identity == c.identity
  {
    hide WellFormed, Project, CanonicalBranch, OffBase, Consistent, RootClaimsAgree, CanonicalBranches, CanonicalPullRequests,
         AnchorSurvives, Generation, PlanTransition, MergeProvenance, ValidRole, Apply, Closed, Outstanding, AbortPlanOf,
         PlanTransitionRecovery, ValidatePlan, FailedAfter;
    var plan, f := AbortPlanOf(Project(Observe(c, w, listing)), requester).value, RawFacts(c, w);
    OpenAbortPlan(c, w, listing, requester);
    StageSeen(c, w, listing);
    AbortPlanValidates(Project(Observe(c, w, listing)), requester);
    RankTwo(f);
    var number := CanonicalPullRequests(f)[0].number;
    ClosedStage(c, w);
    StageSeen(c, Closed(w, number), after);
    RecoveryExistsIff(plan, 1, Observe(c, Closed(w, number), after));
    KeepsIdentity(plan, FailedAfter(plan.effects, 1), plan.effects[1], Observe(c, Closed(w, number), after));
    assert plan.effects[1..] == [DeleteBranch(CanonicalBranch(f), Generation(f))];
  }

  lemma ClosedStage(c: Setting, w: World)
    requires OnTheWay(c, w) && Rank(RawFacts(c, w)) == 2 && CanonicalPullRequests(RawFacts(c, w)) != []
    ensures var f, v := RawFacts(c, w), Closed(w, CanonicalPullRequests(RawFacts(c, w))[0].number);
      && OnTheWay(c, v) && Rank(RawFacts(c, v)) == 1 && CanonicalBranch(RawFacts(c, v)) == CanonicalBranch(f)
      && CanonicalPullRequests(RawFacts(c, v)) == Map(CanonicalPullRequests(f), Closing(CanonicalPullRequests(f)[0].number))
  {
    hide WellFormed, CanonicalBranches, CanonicalPullRequests, OffBase, Consistent, RootClaimsAgree, AnchorSurvives, CanonicalBranch,
         Closed, Apply, MergeProvenance, Outstanding, Generation;
    var choice := Choice("", "", 0, None);
    RankTwo(RawFacts(c, w));
    CloseAdvances(c, w, choice);
    CloseLands(c, w, choice);
    ClosedFacts(c, w, CanonicalPullRequests(RawFacts(c, w))[0].number);
  }

  lemma KeepsIdentity(plan: Plan, attempts: seq<Attempt>, failed: Effect, input: Input)
    requires ValidatePlan(plan) == Success(plan) && PlanTransitionRecovery(plan, attempts, failed, input).Some?
    ensures PlanTransitionRecovery(plan, attempts, failed, input).value.change.identity == plan.result.identity
  {
    hide Project, ValidatePlan, ValidEffect;
  }

  /** An abort whose very first effect failed: the whole plan is still to be done. */
  lemma CloseFailed(c: Setting, w: World, listing: Listing, after: Listing, requester: Option<string>)
    requires OnTheWay(c, w) && Rank(RawFacts(c, w)) == 2 && ValidRole(requester)
    requires Project(Observe(c, w, listing)).change.Some? && AbortPlanOf(Project(Observe(c, w, listing)), requester).Success?
    ensures var plan, f := AbortPlanOf(Project(Observe(c, w, listing)), requester).value, RawFacts(c, w);
      && |plan.effects| == 2 && CanonicalPullRequests(f) != []
      && var r := PlanTransitionRecovery(plan, FailedAfter(plan.effects, 0), plan.effects[0], Observe(c, w, after));
         && r.Some? && r.value.effects == plan.effects
         && r.value.change.artifacts == Artifacts(Some(CanonicalBranch(f)), Some(CanonicalPullRequests(f)[0].number))
  {
    hide WellFormed, Project, CanonicalBranch, OffBase, Consistent, RootClaimsAgree, CanonicalBranches, CanonicalPullRequests,
         AnchorSurvives, Generation, PlanTransition, MergeProvenance, ValidRole, Outstanding, AbortPlanOf,
         PlanTransitionRecovery, ValidatePlan, FailedAfter;
    var plan := AbortPlanOf(Project(Observe(c, w, listing)), requester).value;
    OpenAbortPlan(c, w, listing, requester);
    StageSeen(c, w, listing);
    StageSeen(c, w, after);
    AbortPlanValidates(Project(Observe(c, w, listing)), requester);
    RecoveryExistsIff(plan, 0, Observe(c, w, after));
    assert plan.effects[0..] == plan.effects;
  }
}
