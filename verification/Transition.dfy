/**
 Lifecycle transitions: request semantics, the effect planner, and the validator
 that re-derives a transported plan from its own request.
 */
module Transition {
  import opened Wrappers
  import opened Ordering
  import opened Change

  // ---- requests ---------------------------------------------------------------------

  datatype MergePlan = MergePlan(isMerge: bool, pullRequest: nat, expectedBase: string, host: string, repositoryId: string)

  datatype Target = Target(
    branch: Option<string>, baseBranch: Option<string>, pullRequest: Option<nat>, branchCommitSha: Option<string>,
    plan: Option<PullRequestPlan>, mergePlan: Option<MergePlan>)

  const NO_TARGET := Target(None, None, None, None, None, None)

  datatype Request = Request(operation: Operation, change: Change, target: Option<Target>)

  datatype Problem =
    | InvalidSnapshot | InvalidTarget | NotAllowed | TargetProblem
    | BranchMismatch | BaseMismatch | PullRequestMismatch | IdentityMismatch | UnsupportedPlan

  predicate ValidOptionalText(s: Option<string>) { s.Some? ==> ValidText(s.value, MAX_TEXT) }

  predicate ValidTarget(t: Target) {
    && ValidOptionalText(t.branch) && ValidOptionalText(t.baseBranch)
    && (t.pullRequest.Some? ==> ValidNumber(t.pullRequest.value))
    && (t.branchCommitSha.Some? ==> IsCommitSha(t.branchCommitSha.value))
  }

  function LowerSha(sha: Option<string>): Option<string> {
    if sha.Some? then Some(Lower(sha.value)) else None
  }

  /** Commit generations are compared in lower case. */
  function NormalizeRequest(r: Request): Request {
    if r.target.None? then r else r.(target := Some(r.target.value.(branchCommitSha := LowerSha(r.target.value.branchCommitSha))))
  }

  function When(condition: bool, problem: Problem): seq<Problem> { if condition then [problem] else [] }

  /** The Change issuer applies initial Draft plans only. */
  predicate InitialDraftPlan(p: PullRequestPlan) {
    p.keepsDraft && !p.milestoneOrReviewers && !p.nativeImplements
  }

  predicate PlanFits(p: PullRequestPlan, branch: Option<string>, base: Option<string>, id: Identity) {
    && Some(p.head) == branch && Some(p.base) == base && InitialDraftPlan(p)
    && Lower(p.host) == id.host && p.repositoryId == id.repositoryId
  }

  function IssueProblems(c: Change, target: Option<Target>): seq<Problem> {
    When(c.artifacts != NO_ARTIFACTS, NotAllowed) +
    match target
    case None => [TargetProblem]
    case Some(t) =>
      When(t.branch.None?, TargetProblem) + When(t.baseBranch.None?, TargetProblem) + When(t.pullRequest.Some?, TargetProblem)
      + match t.plan
        case None => []
        case Some(p) =>
          When(Some(p.head) != t.branch, BranchMismatch) + When(Some(p.base) != t.baseBranch, BaseMismatch)
          + When(!InitialDraftPlan(p), UnsupportedPlan)
          + When(Lower(p.host) != c.identity.host || p.repositoryId != c.identity.repositoryId, IdentityMismatch)
  }

  function MergePlanProblems(c: Change, t: Target, m: MergePlan): seq<Problem> {
    if !m.isMerge then [TargetProblem]
    else
      When(t.pullRequest.None?, TargetProblem)
      + When(t.pullRequest.Some? && m.pullRequest != t.pullRequest.value, PullRequestMismatch)
      + When(t.baseBranch.None?, TargetProblem)
      + When(t.baseBranch.Some? && m.expectedBase != t.baseBranch.value, BaseMismatch)
      + When(Lower(m.host) != c.identity.host || m.repositoryId != c.identity.repositoryId, IdentityMismatch)
      + When(t.branch.Some? && t.branch != c.artifacts.branch, TargetProblem)
      + When(t.pullRequest.Some? && t.pullRequest != c.artifacts.pullRequest, TargetProblem)
  }

  function MergeProblems(c: Change, target: Option<Target>): seq<Problem> {
    var t := target.GetOr(NO_TARGET);
    (match t.mergePlan
     case None => [TargetProblem]
     case Some(m) => MergePlanProblems(c, t, m))
    + When(t.branch.None? && c.artifacts.branch.None?, TargetProblem)
    + When(t.pullRequest.None? && c.artifacts.pullRequest.None?, TargetProblem)
  }

  predicate Disagree<T(==)>(a: Option<T>, b: Option<T>) { a.Some? && b.Some? && a.value != b.value }

  /** Ready and abort work on the projected artifacts; a branch-only recovery may lack the pull request. */
  function ArtifactProblems(operation: Operation, c: Change, target: Option<Target>): seq<Problem> {
    var t := target.GetOr(NO_TARGET);
    When(t.plan.Some?, TargetProblem) + When(t.mergePlan.Some?, TargetProblem) + When(t.baseBranch.Some?, TargetProblem)
    + When(Disagree(c.artifacts.branch, t.branch), TargetProblem)
    + When(Disagree(c.artifacts.pullRequest, t.pullRequest), TargetProblem)
    + When(t.branch.None? && c.artifacts.branch.None?, TargetProblem)
    + When(t.pullRequest.None? && c.artifacts.pullRequest.None?
           && !(operation == Abort && c.state == RecoveryRequired), TargetProblem)
  }

  function SemanticProblems(r: Request): seq<Problem> {
    if LifecycleTarget(r.operation, r.change.state).None? then [NotAllowed]
    else match r.operation
      case Issue => IssueProblems(r.change, r.target)
      case Merge => MergeProblems(r.change, r.target)
      case _ => ArtifactProblems(r.operation, r.change, r.target)
  }

  function RequestProblems(r: Request): seq<Problem> {
    var shape := When(!ValidChange(r.change), InvalidSnapshot) + When(r.target.Some? && !ValidTarget(r.target.value), InvalidTarget);
    if shape != [] then shape else SemanticProblems(NormalizeRequest(r))
  }

  // ---- the plan -------------------------------------------------------------------------

  datatype Plan = Plan(request: Request, from: State, to: State, result: Change, effects: seq<Effect>)

  datatype Failure =
    | InvalidRequest(problems: seq<Problem>)
    | Unplannable      // a precondition only the planner checks; the source throws
    | InvalidPlan

  datatype Resolved = Resolved(
    branch: Option<string>, baseBranch: Option<string>, pullRequest: Option<nat>, branchCommitSha: Option<string>,
    plan: Option<PullRequestPlan>)

  function OrElse<T>(a: Option<T>, b: Option<T>): Option<T> { if a.Some? then a else b }

  function ResolveTarget(r: Request): Resolved {
    var t, a := r.target.GetOr(NO_TARGET), r.change.artifacts;
    match r.operation
    case Issue => Resolved(t.branch, t.baseBranch, None, None, t.plan)
    case Merge => Resolved(OrElse(t.branch, a.branch), t.baseBranch, OrElse(t.pullRequest, a.pullRequest), None, None)
    case _ => Resolved(OrElse(t.branch, a.branch), None, OrElse(t.pullRequest, a.pullRequest), t.branchCommitSha, None)
  }

  function TransitionResult(r: Request, to: State): Change {
    var resolved := ResolveTarget(r);
    Change(r.change.identity, to, r.change.provenance, Artifacts(resolved.branch, resolved.pullRequest))
  }

  function Title(plan: Option<PullRequestPlan>, rootIssue: nat): string {
    if plan.Some? then plan.value.title else "Change #" + Decimal(rootIssue)
  }

  function Body(plan: Option<PullRequestPlan>, rootIssue: nat): string {
    if plan.Some? then plan.value.body else "Closes #" + Decimal(rootIssue)
  }

  function IssueEffects(branch: string, base: string, root: nat, plan: Option<PullRequestPlan>): seq<Effect> {
    [CreateBranch(branch, base),
     CreateProvenanceCommit(branch, root, ProvenancePath(root)),
     CreatePullRequest(branch, base, root, Title(plan, root), Body(plan, root), plan)]
  }

  /** Effects in execution order; `None` where the source throws for a missing operand. */
  function EffectsOf(r: Request, from: State): Option<seq<Effect>> {
    var resolved := ResolveTarget(r);
    match r.operation
    case Issue =>
      if resolved.branch.None? || resolved.baseBranch.None? then None
      else Some(IssueEffects(resolved.branch.value, resolved.baseBranch.value, r.change.identity.rootIssue, resolved.plan))
    case Ready =>
      if resolved.pullRequest.None? then None
      else Some(if from == Draft then [MarkPullRequestReady(resolved.pullRequest.value)] else [])
    case Abort =>
      if from == Aborted then Some([])
      else if from == RecoveryRequired then
        if resolved.branch.None? || resolved.branchCommitSha.None? then None
        else Some([DeleteBranch(resolved.branch.value, resolved.branchCommitSha)])
      else if resolved.pullRequest.None? || resolved.branchCommitSha.None? || resolved.branch.None? then None
      else Some([ClosePullRequest(resolved.pullRequest.value), DeleteBranch(resolved.branch.value, resolved.branchCommitSha)])
    case Merge => Some([])
  }

  function Build(r: Request): Result<Plan, Failure> {
    match LifecycleTarget(r.operation, r.change.state)
    case None => Failure(Unplannable)
    case Some(to) =>
      match EffectsOf(r, r.change.state)
      case None => Failure(Unplannable)
      case Some(effects) => Success(Plan(r, r.change.state, to, TransitionResult(r, to), effects))
  }

  function PlanTransition(r: Request): Result<Plan, Failure> {
    if RequestProblems(r) != [] then Failure(InvalidRequest(RequestProblems(r))) else Build(NormalizeRequest(r))
  }

  /** The planner appends its effects one by one. */
  method BuildPlan(r: Request) returns (plan: Result<Plan, Failure>)
    ensures plan == Build(r)
  {
    var rule := LifecycleTarget(r.operation, r.change.state);
    if rule.None? { return Failure(Unplannable); }
    var from, resolved := r.change.state, ResolveTarget(r);
    var effects: seq<Effect> := [];
    match r.operation {
      case Issue =>
        if resolved.branch.None? || resolved.baseBranch.None? { return Failure(Unplannable); }
        var branch, base, root := resolved.branch.value, resolved.baseBranch.value, r.change.identity.rootIssue;
        effects := effects + [CreateBranch(branch, base)];
        effects := effects + [CreateProvenanceCommit(branch, root, ProvenancePath(root))];
        effects := effects + [CreatePullRequest(branch, base, root, Title(resolved.plan, root), Body(resolved.plan, root),
                                                resolved.plan)];
        assert effects == IssueEffects(branch, base, root, resolved.plan);
      case Ready =>
        if resolved.pullRequest.None? { return Failure(Unplannable); }
        if from == Draft { effects := effects + [MarkPullRequestReady(resolved.pullRequest.value)]; }
      case Abort =>
        if from == Aborted {
        } else if from == RecoveryRequired {
          if resolved.branch.None? || resolved.branchCommitSha.None? { return Failure(Unplannable); }
          effects := effects + [DeleteBranch(resolved.branch.value, resolved.branchCommitSha)];
        } else {
          if resolved.pullRequest.None? || resolved.branchCommitSha.None? || resolved.branch.None? {
            return Failure(Unplannable);
          }
          effects := effects + [ClosePullRequest(resolved.pullRequest.value)];
          effects := effects + [DeleteBranch(resolved.branch.value, resolved.branchCommitSha)];
          assert effects == [ClosePullRequest(resolved.pullRequest.value),
                             DeleteBranch(resolved.branch.value, resolved.branchCommitSha)];
        }
      case Merge =>
    }
    assert effects == EffectsOf(r, from).value;
    plan := Success(Plan(r, from, rule.value, TransitionResult(r, rule.value), effects));
  }

  // ---- the validator ------------------------------------------------------------------------

  predicate ValidEffect(e: Effect) {
    match e
    case CreateBranch(branch, base) => ValidText(branch, MAX_TEXT) && ValidText(base, MAX_TEXT)
    case CreateProvenanceCommit(branch, root, path) =>
      ValidText(branch, MAX_TEXT) && ValidNumber(root) && ValidText(path, MAX_TEXT) && path == ProvenancePath(root)
    case CreatePullRequest(branch, base, root, title, body, plan) =>
      && ValidText(branch, MAX_TEXT) && ValidText(base, MAX_TEXT) && ValidNumber(root)
      && ValidText(title, MAX_TITLE) && ValidBody(body)
      && (plan.Some? ==>
            && plan.value.head == branch && plan.value.base == base && plan.value.title == title
            && plan.value.body == body && InitialDraftPlan(plan.value))
    case MarkPullRequestReady(n) => ValidNumber(n)
    case ClosePullRequest(n) => ValidNumber(n)
    case DeleteBranch(branch, sha) => ValidText(branch, MAX_TEXT) && (sha.Some? ==> IsCommitSha(sha.value))
  }

  function NormalizeEffect(e: Effect): Effect {
    if e.DeleteBranch? then e.(expectedCommitSha := LowerSha(e.expectedCommitSha)) else e
  }

  predicate ValidEffects(effects: seq<Effect>) {
    |effects| <= MAX_EFFECTS && forall i :: 0 <= i < |effects| ==> ValidEffect(effects[i])
  }

  /** Accept a transported plan only when planning its own request yields it. */
  function ValidatePlan(p: Plan): Result<Plan, Failure> {
    if RequestProblems(p.request) != [] || !ValidChange(p.result) || !ValidEffects(p.effects) then Failure(InvalidPlan)
    else
      match Build(NormalizeRequest(p.request))
      case Failure(why) => Failure(why)
      case Success(expected) =>
        if p.from == expected.from && p.to == expected.to && p.result == expected.result
           && Map(p.effects, NormalizeEffect) == expected.effects
        then Success(expected)
        else Failure(InvalidPlan)
  }

  // ---- theorems ------------------------------------------------------------------------------

  lemma NormalizeIdempotent(r: Request)
    ensures NormalizeRequest(NormalizeRequest(r)) == NormalizeRequest(r)
    ensures RequestProblems(NormalizeRequest(r)) == [] <== RequestProblems(r) == []
  {
    if r.target.Some? && r.target.value.branchCommitSha.Some? {
      LowerIdempotent(r.target.value.branchCommitSha.value);
    }
  }

  /** An abort that still has work to do needs a proven branch generation, although the request is valid without it. */
  ghost predicate NeedsGeneration(r: Request) {
    r.operation == Abort && r.change.state != Aborted
  }

  /** Planning succeeds exactly on valid requests whose abort names the branch generation to delete. */
  lemma PlannerTotality(r: Request)
    ensures PlanTransition(r).Success? <==>
      RequestProblems(r) == [] && (NeedsGeneration(r) ==> r.target.Some? && r.target.value.branchCommitSha.Some?)
  {
  }

  /** The concrete request the planner rejects although validation admits it. */
  lemma ValidAbortWithoutGenerationIsUnplannable(id: Identity, branch: string, number: nat)
    requires ValidIdentity(id) && ValidText(branch, MAX_TEXT) && ValidNumber(number)
    ensures var r := Request(Abort, Change(id, Draft, NO_PROVENANCE, Artifacts(Some(branch), Some(number))), None);
      RequestProblems(r) == [] && PlanTransition(r) == Failure(Unplannable)
  {
  }

  /** A plan keeps the identity and provenance and follows one edge of the lifecycle graph. */
  lemma PlanFollowsLifecycle(r: Request)
    requires PlanTransition(r).Success?
    ensures var p := PlanTransition(r).value;
      && p.request == NormalizeRequest(r) && p.from == r.change.state && LifecycleTarget(r.operation, p.from) == Some(p.to)
      && p.result.identity == r.change.identity && p.result.provenance == r.change.provenance && p.result.state == p.to
  {
  }

  /** Every planned deletion names the projected branch and a commit generation taken from the request. */
  lemma DeletionsNameGeneration(r: Request, e: Effect)
    requires PlanTransition(r).Success? && e in PlanTransition(r).value.effects && e.DeleteBranch?
    ensures r.operation == Abort && r.target.Some? && r.target.value.branchCommitSha.Some?
    ensures e.expectedCommitSha == LowerSha(r.target.value.branchCommitSha)
    ensures Some(e.branch) == OrElse(r.target.value.branch, r.change.artifacts.branch)
    ensures r.change.artifacts.branch.Some? ==> e.branch == r.change.artifacts.branch.value
  {
    hide IssueProblems, MergeProblems, ValidChange, ValidTarget, Title, Body, ProvenancePath;
  }

  /** Creation is planned only for a Change that owns no artifact yet. */
  lemma CreationNeedsUnissuedChange(r: Request, e: Effect)
    requires PlanTransition(r).Success? && e in PlanTransition(r).value.effects
    requires e.CreateBranch? || e.CreateProvenanceCommit? || e.CreatePullRequest?
    ensures r.operation == Issue && r.change.state == Defined && r.change.artifacts == NO_ARTIFACTS
  {
    hide ArtifactProblems, MergeProblems, ValidChange, ValidTarget, Title, Body, ProvenancePath;
  }

  // ---- decimal bounds ---------------------------------------------------------------------------

  function Power10(k: nat): nat { if k == 0 then 1 else 10 * Power10(k - 1) }

  lemma {:induction false} DecimalLength(n: nat, k: nat)
    requires k >= 1 && n < Power10(k)
    ensures |Decimal(n)| <= k
  {
    assert Power10(1) == 10 * Power10(0);
    if n >= 10 { DecimalLength(n / 10, k - 1); }
  }

  lemma SafeIntegerLength(n: nat)
    requires n <= MAX_SAFE_INTEGER
    ensures |Decimal(n)| <= 16
  {
    assert Power10(4) == 10000;
    assert Power10(8) == 100000000;
    assert Power10(12) == 1000000000000;
    assert Power10(16) == 10000000000000000;
    DecimalLength(n, 16);
  }

  lemma DefaultTextsValid(root: nat)
    requires ValidNumber(root)
    ensures ValidText(Title(None, root), MAX_TITLE) && ValidBody(Body(None, root)) && ValidText(ProvenancePath(root), MAX_TEXT)
  {
    SafeIntegerLength(root);
  }

  /** The texts a pull-request plan contributes are within the bounds of an effect. */
  predicate TextsWithinBounds(plan: Option<PullRequestPlan>) {
    plan.Some? ==> ValidText(plan.value.title, MAX_TITLE) && ValidBody(plan.value.body)
  }

  lemma IssueEffectsValid(branch: string, base: string, id: Identity, plan: Option<PullRequestPlan>)
    requires ValidText(branch, MAX_TEXT) && ValidText(base, MAX_TEXT) && ValidNumber(id.rootIssue)
    requires TextsWithinBounds(plan) && (plan.Some? ==> PlanFits(plan.value, Some(branch), Some(base), id))
    ensures ValidEffects(IssueEffects(branch, base, id.rootIssue, plan))
    ensures Map(IssueEffects(branch, base, id.rootIssue, plan), NormalizeEffect)
            == IssueEffects(branch, base, id.rootIssue, plan)
  {
    DefaultTextsValid(id.rootIssue);
  }

  lemma PlannedEffectsValid(r: Request)
    requires PlanTransition(r).Success? && TextsWithinBounds(ResolveTarget(r).plan)
    ensures ValidEffects(PlanTransition(r).value.effects)
    ensures Map(PlanTransition(r).value.effects, NormalizeEffect) == PlanTransition(r).value.effects
  {
    if r.operation == Issue {
      var t := r.target.value;
      IssueEffectsValid(t.branch.value, t.baseBranch.value, r.change.identity, t.plan);
    } else {
      var t := r.target.GetOr(NO_TARGET);
      if t.branchCommitSha.Some? { LowerIdempotent(t.branchCommitSha.value); }
    }
  }

  /** The validator accepts the planner's image and nothing else. */
  lemma ValidatorAcceptsPlannerImage(p: Plan, q: Plan)
    ensures ValidatePlan(p) == Success(q) <==>
      && PlanTransition(p.request) == Success(q) && ValidEffects(p.effects)
      && p.from == q.from && p.to == q.to && p.result == q.result && Map(p.effects, NormalizeEffect) == q.effects
  {
    if PlanTransition(p.request).Success? { PlannedResultValid(p.request); }
  }

  lemma PlannedResultValid(r: Request)
    requires PlanTransition(r).Success?
    ensures ValidChange(PlanTransition(r).value.result)
  {
  }

  /** Every planned transition whose plan texts are within bounds validates to itself. */
  lemma PlansValidateToThemselves(r: Request)
    requires PlanTransition(r).Success?
    ensures var p := PlanTransition(r).value;
      ValidatePlan(p) == Success(p) <==> TextsWithinBounds(ResolveTarget(p.request).plan)
  {
    var p := PlanTransition(r).value;
    NormalizeIdempotent(r);
    assert ResolveTarget(p.request).plan == ResolveTarget(r).plan;
    if TextsWithinBounds(ResolveTarget(r).plan) {
      PlannedEffectsValid(r);
    } else {
      assert p.effects[2].CreatePullRequest? && !ValidEffect(p.effects[2]);
    }
  }
}
