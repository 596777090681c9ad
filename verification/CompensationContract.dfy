/** The transported compensation plan and the validator that stands between planner and executor. */
module CompensationContract {
  import opened Wrappers
  import opened Ordering
  import opened Change
  import opened Projection
  import opened ProjectionTheorems
  import opened Transition
  import opened Issuance
  import opened Compensation
  import opened ProjectionContract

  /** A plan as it travels: with its issuance, its failure record and the projection it was made from. */
  datatype Transported = Transported(
    issuance: IssuancePlan, attempts: seq<Attempt>, failed: Effect, projection: Projection, effects: seq<Effect>)

  predicate CompensationAccepted(t: Transported) {
    && ValidateIssuance(t.issuance).Some? && ValidAttempts(t.attempts) && ValidEffect(t.failed)
    && ValidResult(t.projection) && ValidEffects(t.effects)
    && OnlyPullRequestFailed(t.issuance, t.attempts, t.failed) && SameSubject(t.projection, t.issuance)
    && SafeShape(t.projection, t.issuance, CreatedSha(t.attempts).value)
    && Map(t.effects, NormalizeEffect) == [DeleteBranch(t.issuance.verification.branch, CreatedSha(t.attempts))]
  }

  function Transport(plan: CompensationPlan, attempts: seq<Attempt>, failed: Effect): Transported {
    Transported(plan.issuance, attempts, failed, plan.projection, [plan.effect])
  }

  lemma SafeProjectionIsReadable(input: Input)
    requires Project(input).status in {Absent, Partial}
    ensures Readable(input) && IssueMatches(FactsOf(input))
  {
    hide ProjectFacts;
  }

  /** Every planned compensation passes its own validator. */
  lemma PlannedCompensationIsAccepted(i: IssuancePlan, attempts: seq<Attempt>, failed: Effect, input: Input)
    requires PlanCompensation(i, attempts, failed, input).Some?
    ensures CompensationAccepted(Transport(PlanCompensation(i, attempts, failed, input).value, attempts, failed))
  {
    hide Project, ValidResult, ValidateIssuance, OnlyPullRequestFailed, ValidAttempts, SafeShape, SameSubject, ValidText, CreatedSha;
    CompensationNeverTouchesAnIssuedChange(i, attempts, failed, input);
    SafeProjectionIsReadable(input);
    ComputedResultIsValid(input);
    CompensationDeletesOnlyItsOwnGeneration(i, attempts, failed, input);
    var plan := PlanCompensation(i, attempts, failed, input).value;
    DeleteIsNormal(i, attempts, plan);
  }

  lemma DeleteIsNormal(i: IssuancePlan, attempts: seq<Attempt>, plan: CompensationPlan)
    requires plan.effect == DeleteBranch(i.verification.branch, CreatedSha(attempts)) && ValidEffect(plan.effect)
    ensures ValidEffects([plan.effect]) && Map([plan.effect], NormalizeEffect) == [plan.effect]
  {
    if CreatedSha(attempts).Some? { LowerIdempotent(attempts[1].evidence.value.commitSha); }
  }

  /**
   Whatever compensation reaches an executor is a single delete of the canonical branch at the generation the issuance
   recorded for its own provenance commit, made from a projection without any canonical pull request.
   */
  lemma AcceptedCompensationIsBounded(t: Transported)
    requires CompensationAccepted(t)
    ensures |t.effects| == 1 && t.effects[0].DeleteBranch? && t.effects[0].branch == t.issuance.verification.branch
    ensures t.projection.canonicalBranch == Some(t.effects[0].branch)
    ensures t.effects[0].expectedCommitSha.Some? && t.attempts[1].evidence.Some?
    ensures t.attempts[1].evidence.value.ProvenanceCommitted? && t.attempts[1].succeeded && !t.attempts[2].succeeded
    ensures Lower(t.effects[0].expectedCommitSha.value) == Lower(t.attempts[1].evidence.value.commitSha)
    ensures forall k :: 0 <= k < |t.projection.pullRequests| ==> t.projection.pullRequests[k].class_ == Noncanonical
    ensures forall k :: 0 <= k < |t.projection.branches| ==> t.projection.branches[k].class_ != Conflicting
    ensures forall j, k :: 0 <= j < k < |t.projection.pullRequests| ==>
      !(ClaimsFromElsewhere(t, t.projection.pullRequests[j]) && ClaimsFromElsewhere(t, t.projection.pullRequests[k]))
  {
    hide ValidateIssuance, ValidResult, ValidText, Filter;
    assert NormalizeEffect(t.effects[0]) == Map(t.effects, NormalizeEffect)[0];
    TwoSelected(t.projection.pullRequests, PlausibleElsewhere(t.issuance.identity.rootIssue, t.issuance.verification.branch));
    forall k | 0 <= k < |t.projection.pullRequests| ensures t.projection.pullRequests[k].class_ == Noncanonical {
      assert t.projection.pullRequests[k].class_ != Canonical && t.projection.pullRequests[k].class_ != Conflicting;
    }
  }

  /** A pull request from another branch that claims the Issue of the plan. */
  predicate ClaimsFromElsewhere(t: Transported, c: Candidate<PullRequestEvidence>) {
    c.evidence.rootIssue == Some(t.issuance.identity.rootIssue) && c.evidence.head != t.issuance.verification.branch
  }
}
