/**
 What may be undone after a failed issuance, and what is still to be done after
 a failed transition. Compensation deletes one branch and only at the generation
 the issuance itself created.
 */
module Compensation {
  import opened Wrappers
  import opened Ordering
  import opened Change
  import opened Projection
  import opened ProjectionTheorems
  import opened Transition
  import opened Issuance

  // ---- recorded attempts ----------------------------------------------------------------

  /** Bounded success evidence of one effect. */
  datatype Proof =
    | BranchCreated(branch: string, baseBranch: string, commitSha: string)
    | ProvenanceCommitted(branch: string, rootIssue: nat, path: string, commitSha: string)
    | PullRequestCreated(branch: string, baseBranch: string, rootIssue: nat, pullRequest: nat)
    | PullRequestReady(pullRequest: nat)
    | PullRequestClosed(pullRequest: nat)
    | BranchDeleted(branch: string, expectedCommitSha: Option<string>)

  datatype Attempt = Attempt(effect: Effect, succeeded: bool, evidence: Option<Proof>)

  predicate ValidProof(e: Proof) {
    match e
    case BranchCreated(b, base, sha) => ValidText(b, MAX_TEXT) && ValidText(base, MAX_TEXT) && IsCommitSha(sha)
    case ProvenanceCommitted(b, root, path, sha) =>
      ValidText(b, MAX_TEXT) && ValidNumber(root) && path == ProvenancePath(root) && IsCommitSha(sha)
    case PullRequestCreated(b, base, root, n) =>
      ValidText(b, MAX_TEXT) && ValidText(base, MAX_TEXT) && ValidNumber(root) && ValidNumber(n)
    case PullRequestReady(n) => ValidNumber(n)
    case PullRequestClosed(n) => ValidNumber(n)
    case BranchDeleted(b, sha) => ValidText(b, MAX_TEXT) && (sha.Some? ==> IsCommitSha(sha.value))
  }

  /** Evidence repeats every field of its effect that was known before the effect ran. */
  predicate ProofMatches(effect: Effect, e: Proof) {
    match (effect, e)
    case (CreateBranch(b, base), BranchCreated(b', base', _)) => b == b' && base == base'
    case (CreateProvenanceCommit(b, root, path), ProvenanceCommitted(b', root', path', _)) =>
      b == b' && root == root' && path == path'
    case (CreatePullRequest(b, base, root, _, _, _), PullRequestCreated(b', base', root', _)) =>
      b == b' && base == base' && root == root'
    case (MarkPullRequestReady(n), PullRequestReady(n')) => n == n'
    case (ClosePullRequest(n), PullRequestClosed(n')) => n == n'
    case (DeleteBranch(b, sha), BranchDeleted(b', sha')) => b == b' && LowerSha(sha) == LowerSha(sha')
    case _ => false
  }

  predicate ValidAttempt(a: Attempt) {
    && ValidEffect(a.effect)
    && (a.evidence.Some? ==> a.succeeded && ValidProof(a.evidence.value) && ProofMatches(a.effect, a.evidence.value))
  }

  predicate ValidAttempts(attempts: seq<Attempt>) {
    |attempts| <= MAX_EFFECTS && forall i :: 0 <= i < |attempts| ==> ValidAttempt(attempts[i])
  }

  // ---- a failed issuance ------------------------------------------------------------------

  /** The generation the signed provenance commit created, as recorded by its success evidence. */
  function CreatedSha(attempts: seq<Attempt>): Option<string> {
    if |attempts| > 1 && attempts[1].evidence.Some? && attempts[1].evidence.value.ProvenanceCommitted?
    then Some(Lower(attempts[1].evidence.value.commitSha))
    else None
  }

  /** Branch and provenance commit succeeded; the Draft pull request failed. */
  predicate OnlyPullRequestFailed(i: IssuancePlan, attempts: seq<Attempt>, failed: Effect) {
    && i.mode == Create && |i.effects| == 3 && |attempts| == 3
    && NormalizeEffect(attempts[0].effect) == i.effects[0] && attempts[0].succeeded
    && NormalizeEffect(attempts[1].effect) == i.effects[1] && attempts[1].succeeded
    && NormalizeEffect(attempts[2].effect) == i.effects[2] && !attempts[2].succeeded
    && NormalizeEffect(failed) == i.effects[2]
    && CreatedSha(attempts).Some?
  }

  function Named(name: string): Candidate<BranchEvidence> -> bool {
    (c: Candidate<BranchEvidence>) => c.evidence.name == name
  }

  predicate NoneOf<T(!new)>(candidates: seq<Candidate<T>>, class_: Class) {
    forall i :: 0 <= i < |candidates| ==> candidates[i].class_ != class_
  }

  predicate ConfirmedGone(p: Projection, branch: string) {
    && p.status == Absent && p.valid && p.change.Some? && p.change.value.state == Defined
    && Filter(p.branches, Named(branch)) == [] && NoneOf(p.pullRequests, Canonical)
  }

  /** The branch stands alone and still at the recorded generation. */
  predicate UntouchedBranch(p: Projection, branch: string, sha: string) {
    && p.status == Partial && p.change.Some? && p.change.value.state == RecoveryRequired
    && p.change.value.artifacts == Artifacts(Some(branch), None)
    && |Filter(p.branches, Named(branch))| == 1
    && Filter(p.branches, Named(branch))[0].evidence.sha == Some(sha)
  }

  function PlausibleElsewhere(root: nat, branch: string): Candidate<PullRequestEvidence> -> bool {
    (c: Candidate<PullRequestEvidence>) => c.evidence.rootIssue == Some(root) && c.evidence.head != branch
  }

  predicate SafeShape(p: Projection, i: IssuancePlan, sha: string) {
    && (ConfirmedGone(p, i.verification.branch) || UntouchedBranch(p, i.verification.branch, sha))
    && NoneOf(p.pullRequests, Canonical) && NoneOf(p.branches, Conflicting) && NoneOf(p.pullRequests, Conflicting)
    && |Filter(p.pullRequests, PlausibleElsewhere(i.identity.rootIssue, i.verification.branch))| <= 1
    && p.canonicalBranch == Some(i.verification.branch) && p.canonicalBaseBranch == Some(i.verification.baseBranch)
  }

  predicate SameSubject(p: Projection, i: IssuancePlan) {
    && p.canonicalBranch == Some(i.verification.branch) && p.canonicalBaseBranch == Some(i.verification.baseBranch)
    && (p.change.Some? ==> p.change.value.identity == i.identity)
  }

  predicate IssueOpen(e: Evidence) { e.issue.Available? && e.issue.value.open }

  datatype CompensationPlan = CompensationPlan(issuance: IssuancePlan, projection: Projection, effect: Effect)

  /** The single delete that undoes a failed issuance; `None` where planning throws. */
  function PlanCompensation(i: IssuancePlan, attempts: seq<Attempt>, failed: Effect, input: Input): Option<CompensationPlan> {
    var p := Project(input);
    if ValidateIssuance(i).Some? && ValidAttempts(attempts) && ValidEffect(failed) && SameSubject(p, i)
       && OnlyPullRequestFailed(i, attempts, failed) && SafeShape(p, i, CreatedSha(attempts).value)
       && IssueOpen(input.evidence) && input.evidence.branches.Available? && input.evidence.pullRequests.Available?
    then Some(CompensationPlan(i, p, DeleteBranch(i.verification.branch, CreatedSha(attempts))))
    else None
  }

  datatype Outcome =
    | Pending                                         // no outcome reported yet
    | Compensated(after: Input)                       // the delete effect reported success
    | CompensationFailed(after: Input, failed: Effect)

  datatype RecoveryStatus = CompensationRequired | FullyCompensated | RecoveryStillRequired

  datatype RecoveryResult = RecoveryResult(status: RecoveryStatus, change: Change)

  function RecoveryChange(i: IssuancePlan, p: Projection): Change {
    Change(i.identity, RecoveryRequired, if p.change.Some? then p.change.value.provenance else i.result.provenance,
           if p.change.Some? then p.change.value.artifacts else NO_ARTIFACTS)
  }

  predicate ConfirmedEmpty<T>(r: Read<seq<T>>) { r.ConfirmedAbsent? || (r.Available? && r.value == []) }

  /** Success must be shown by an absent projection over two confirmed-empty lists and an open Issue. */
  predicate SafeAbsence(after: Input, i: IssuancePlan) {
    var p := Project(after);
    && p.status == Absent && p.valid && p.change.Some? && p.change.value.state == Defined
    && p.change.value.artifacts == NO_ARTIFACTS && SameSubject(p, i) && IssueOpen(after.evidence)
    && ConfirmedEmpty(after.evidence.branches) && ConfirmedEmpty(after.evidence.pullRequests)
  }

  function PlanRecovery(i: IssuancePlan, attempts: seq<Attempt>, failed: Effect, input: Input, outcome: Outcome)
    : Option<RecoveryResult>
  {
    match PlanCompensation(i, attempts, failed, input)
    case None => None
    case Some(plan) =>
      match outcome
      case Pending => Some(RecoveryResult(CompensationRequired, RecoveryChange(i, plan.projection)))
      case Compensated(after) =>
        if SafeAbsence(after, i)
        then Some(RecoveryResult(FullyCompensated, Change(i.identity, Defined, i.result.provenance, NO_ARTIFACTS)))
        else None
      case CompensationFailed(after, undone) =>
        if ValidEffect(undone) && NormalizeEffect(undone) == plan.effect && SameSubject(Project(after), i)
        then Some(RecoveryResult(RecoveryStillRequired, RecoveryChange(i, Project(after))))
        else None
  }

  // ---- a failed transition --------------------------------------------------------------------

  datatype TransitionRecovery = TransitionRecovery(effects: seq<Effect>, change: Change)

  /** The attempts are a non-empty prefix of the plan whose last member, and only that, failed. */
  predicate FailedPrefix(plan: Plan, attempts: seq<Attempt>, failed: Effect) {
    && 0 < |attempts| <= |plan.effects|
    && (forall k :: 0 <= k < |attempts| ==>
          NormalizeEffect(attempts[k].effect) == plan.effects[k] && (attempts[k].succeeded <==> k < |attempts| - 1))
    && NormalizeEffect(failed) == plan.effects[|attempts| - 1]
  }

  function PlanTransitionRecovery(transported: Plan, attempts: seq<Attempt>, failed: Effect, input: Input)
    : Option<TransitionRecovery>
  {
    match ValidatePlan(transported)
    case Failure(_) => None
    case Success(plan) =>
      var p := Project(input);
      if ValidAttempts(attempts) && ValidEffect(failed) && FailedPrefix(plan, attempts, failed)
         && (p.valid || p.status == Partial) && p.change.Some? && p.change.value.identity == plan.result.identity
      then Some(TransitionRecovery(
        plan.effects[|attempts| - 1..],
        Change(plan.result.identity, RecoveryRequired, MergeProvenance(plan.result.provenance, Some(p.change.value.provenance)),
               if p.change.value.artifacts == NO_ARTIFACTS then plan.result.artifacts else p.change.value.artifacts)))
      else None
  }

  // ---- theorems ---------------------------------------------------------------------------------

  /** Compensation is one compare-and-delete of the canonical branch at the provenance commit. */
  lemma CompensationDeletesOnlyItsOwnGeneration(i: IssuancePlan, attempts: seq<Attempt>, failed: Effect, input: Input)
    requires PlanCompensation(i, attempts, failed, input).Some?
    ensures var plan := PlanCompensation(i, attempts, failed, input).value;
      && plan.effect == DeleteBranch(i.verification.branch, CreatedSha(attempts)) && ValidEffect(plan.effect)
      && attempts[1].evidence.Some? && attempts[1].evidence.value.ProvenanceCommitted?
      && plan.effect.expectedCommitSha == Some(Lower(attempts[1].evidence.value.commitSha))
      && Project(input).canonicalBranch == Some(plan.effect.branch)
  {
    assert ValidAttempt(attempts[1]);
    LowerIdempotent(attempts[1].evidence.value.commitSha);
  }

  /** No canonical pull request is ever compensated away. */
  lemma CompensationNeverTouchesAnIssuedChange(i: IssuancePlan, attempts: seq<Attempt>, failed: Effect, input: Input)
    requires PlanCompensation(i, attempts, failed, input).Some?
    ensures Project(input).status in {Absent, Partial}
    ensures Project(input).change.Some? && Project(input).change.value.artifacts.pullRequest.None?
  {
    var p := Project(input);
    if p.status == Absent { AbsentChange(input); }
  }

  lemma AbsentChange(input: Input)
    requires Project(input).status == Absent && Project(input).change.Some?
    ensures Project(input).change.value.artifacts == NO_ARTIFACTS
  {
  }

  /** Evidence that reports a list as confirmed absent is not good enough: compensation is then refused. */
  lemma CompensationNeedsListedEvidence(i: IssuancePlan, attempts: seq<Attempt>, failed: Effect, input: Input)
    requires input.evidence.branches.ConfirmedAbsent? || input.evidence.pullRequests.ConfirmedAbsent?
    ensures PlanCompensation(i, attempts, failed, input).None?
  {
  }

  /** A recovery result says DEFINED only after absence was shown again. */
  lemma RecoveryResultIsEarned(i: IssuancePlan, attempts: seq<Attempt>, failed: Effect, input: Input, outcome: Outcome)
    requires PlanRecovery(i, attempts, failed, input, outcome).Some?
    ensures var r := PlanRecovery(i, attempts, failed, input, outcome).value;
      && r.change.identity == i.identity
      && (r.change.state == Defined <==> r.status == FullyCompensated)
      && (r.status == FullyCompensated ==> outcome.Compensated? && SafeAbsence(outcome.after, i) && r.change.artifacts == NO_ARTIFACTS)
      && (r.change.state != Defined ==> r.change.state == RecoveryRequired)
  {
  }

  function EffectOf(a: Attempt): Effect { NormalizeEffect(a.effect) }

  /** What succeeded followed by what recovery still asks for is the effect list of the original plan. */
  lemma RecoveryCompletesThePlan(transported: Plan, attempts: seq<Attempt>, failed: Effect, input: Input)
    requires PlanTransitionRecovery(transported, attempts, failed, input).Some?
    ensures var r := PlanTransitionRecovery(transported, attempts, failed, input).value;
      && Map(attempts[..|attempts| - 1], EffectOf) + r.effects == Map(transported.effects, NormalizeEffect)
      && (forall k :: 0 <= k < |attempts| - 1 ==> attempts[k].succeeded)
      && r.effects != [] && r.effects[0] == NormalizeEffect(failed)
      && r.change.state == RecoveryRequired && r.change.identity == transported.request.change.identity
  {
    hide Project, ValidEffect, RequestProblems;
    var plan := ValidatePlan(transported).value;
    var done := Map(attempts[..|attempts| - 1], EffectOf);
    assert forall k :: 0 <= k < |done| ==> done[k] == plan.effects[k];
  }
}
