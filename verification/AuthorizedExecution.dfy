/**
 Execution of semantic operations that Admission has already authorized. Only minted inputs reach a
 delegate, and success is reported for what an authoritative reread shows, not for what an executor says.
 */
module AuthorizedExecution {
  import opened Wrappers
  import opened Change
  import opened Projection
  import opened AbortRecovery

  datatype Action = ChangeIssue | ChangeShow | ChangeReady | ChangeAbort | ChangeMerge | BranchAdvance | Publish

  predicate IsChange(a: Action) { a in {ChangeIssue, ChangeShow, ChangeReady, ChangeAbort, ChangeMerge} }

  predicate IsMutation(a: Action) { IsChange(a) && a != ChangeShow }

  // ---- claims ---------------------------------------------------------------------------------

  datatype Capability =
    | Implement(issue: nat) | MayReady(issue: nat) | MayAbort(issue: nat) | MayMerge(issue: nat)
    | MayCreateBranch(branch: string, max: nat)
    | MayAdvance(branch: string, pathPolicy: Option<string>)
    | MayOpenPullRequest(head: string, base: string, max: nat)

  datatype Subject =
    | ChangeSubject(issue: nat)
    | BranchSubject(issue: nat, branch: string)
    | PullRequestSubject(issue: nat, head: string, base: string)

  datatype Repository = Repository(host: string, id: string, nameWithOwner: string)

  predicate SameRepository(a: Repository, b: Repository) {
    a.host == b.host && a.id == b.id && Lower(a.nameWithOwner) == Lower(b.nameWithOwner)
  }

  datatype App = App(appId: string, installationId: string)

  /** The identity is well-formed: both ids are decimal. */
  predicate ValidApp(a: App) { DecimalId(a.appId) && DecimalId(a.installationId) }

  predicate DecimalId(s: string) { s != [] && s[0] != '0' && forall i :: 0 <= i < |s| ==> '0' <= s[i] <= '9' }

  datatype Stage = Authenticated | Authorized | AppScoped | Verified

  datatype Provenance = Provenance(
    stage: Stage, action: Action, repository: Repository, subject: Subject, capability: Option<Capability>,
    requestId: string, sessionId: string, certificate: string, app: Option<App>)

  datatype Runtime = InariApp | LocalAdmission | OtherRuntime

  datatype Trusted = Trusted(
    runtime: Runtime, repository: Repository, requestId: string, sessionId: string, certificate: string, binding: string)

  datatype Request =
    | ShowRequest(issue: nat)
    | MutationRequest(action: Action, issue: nat)
    | AdvanceRequest(issue: nat, branch: string, covered: bool)   // whether the scope evidence covers it
    | PublishRequest(head: string, base: string, repository: Repository)

  /** What a caller asks to have minted; `wellShaped` says that every part passed its own validator. */
  datatype Content = Content(
    wellShaped: bool, action: Action, repository: Repository, task: Option<nat>, subject: Subject, capability: Capability,
    provenance: Provenance, request: Request, initial: Option<Projection>, trusted: Option<Trusted>)

  // ---- minting ------------------------------------------------------------------------------------

  function IssueOf(c: Content): nat {
    match c.request
    case ShowRequest(issue) => issue
    case MutationRequest(_, issue) => issue
    case AdvanceRequest(issue, _, _) => issue
    case PublishRequest(_, _, _) => c.subject.issue
  }

  /** A request of the kind its action calls for. */
  predicate RequestFits(c: Content) {
    match c.request
    case ShowRequest(_) => c.action == ChangeShow && c.initial.Some?
    case MutationRequest(action, _) => IsMutation(c.action) && action == c.action && c.trusted.Some?
    case AdvanceRequest(_, _, covered) => c.action == BranchAdvance && covered
    case PublishRequest(_, _, _) => c.action == Publish && c.subject.PullRequestSubject? && c.trusted.Some?
  }

  predicate SubjectFits(c: Content) {
    && c.subject == c.provenance.subject
    && match c.request
       case AdvanceRequest(issue, branch, _) => c.subject == BranchSubject(issue, branch)
       case PublishRequest(head, base, _) => c.subject.PullRequestSubject? && c.subject.head == head && c.subject.base == base
       case _ => c.subject == ChangeSubject(IssueOf(c))
  }

  predicate CapabilityFits(c: Content) {
    match c.action
    case ChangeIssue => c.capability == Implement(IssueOf(c))
    case ChangeShow => c.capability == Implement(IssueOf(c))
    case ChangeReady => c.capability == MayReady(IssueOf(c))
    case ChangeAbort => c.capability == MayAbort(IssueOf(c))
    case ChangeMerge => c.capability == MayMerge(IssueOf(c))
    case BranchAdvance => c.request.AdvanceRequest? && c.capability.MayAdvance? && c.capability.branch == c.request.branch
    case Publish =>
      || c.capability == Implement(IssueOf(c))
      || (c.request.PublishRequest? && c.capability.MayOpenPullRequest?
          && c.capability.head == c.request.head && c.capability.base == c.request.base)
  }

  /** The trusted context belongs to the same repository, request and session. */
  predicate TrustedFits(c: Content) {
    c.trusted.Some? ==>
      var t := c.trusted.value;
      && t.runtime != OtherRuntime && SameRepository(c.repository, t.repository)
      && t.requestId == c.provenance.requestId && t.sessionId == c.provenance.sessionId
      && (if t.runtime == InariApp then t.certificate else t.binding) == c.provenance.certificate
  }

  predicate Admissible(c: Content) {
    && c.wellShaped && c.provenance.stage == Authorized && c.provenance.action == c.action
    && SameRepository(c.repository, c.provenance.repository) && c.provenance.capability == Some(c.capability)
    && (c.task.Some? ==> c.task.value == IssueOf(c))
    && RequestFits(c) && SubjectFits(c) && CapabilityFits(c) && TrustedFits(c)
    && (c.request.PublishRequest? ==> SameRepository(c.request.repository, c.repository))
  }

  // ---- delegates ---------------------------------------------------------------------------------

  /** What a delegate does when it is called: it returns, or it throws (or returns something malformed). */
  datatype Answer<+T> = Returns(value: T) | Throws

  datatype Evidence = NoEvidence | Completed | EffectFailed | NeedsRecovery

  datatype ExecutionResult = ExecutionResult(projection: Projection, evidence: Evidence)

  datatype ExecutorError = Recovery | Precondition | VerificationError | OtherError

  datatype Executed = Finished(result: ExecutionResult) | Failed(error: ExecutorError)

  datatype Port = Port(execute: Executed, read: Answer<Projection>)

  datatype Advanced = Advanced(succeeded: bool, outcome: Phase, provenance: Option<Provenance>)

  datatype Published = Published(ok: bool, phase: Phase)

  datatype Delegates = Delegates(
    readExecutor: Option<Answer<Projection>>,
    changeExecutor: Option<Port>,
    createChangeExecutor: Option<Answer<(Port, Option<App>)>>,
    app: Option<App>,
    branchAdvance: Option<Answer<Advanced>>,
    publish: Option<Answer<(Option<Published>, Option<App>)>>)

  datatype Call = CallFactory | CallExecute(action: Action, issue: nat) | CallRead(issue: nat) | CallAdvance | CallPublish

  datatype Phase = AuthorizationPhase | EvidencePhase | ExecutionPhase | ConflictPhase | VerificationPhase | RecoveryPhase

  datatype Result =
    | Succeeded(action: Action, provenance: Provenance, projection: Option<Projection>, execution: Option<ExecutionResult>)
    | Refused(phase: Phase, scope: Option<Provenance>, evidence: Evidence)

  // ---- comparing projections ----------------------------------------------------------------------

  predicate SameProjection(a: Projection, b: Projection, issue: nat) {
    && a.status == b.status && a.valid == b.valid
    && a.canonicalBranch == b.canonicalBranch && a.canonicalBaseBranch == b.canonicalBaseBranch
    && if a.change.None? || b.change.None? then a.change == b.change
       else
         var x, y := a.change.value, b.change.value;
         && x.identity.host == y.identity.host && x.identity.repositoryId == y.identity.repositoryId
         && x.identity.rootIssue == issue && y.identity.rootIssue == issue
         && x.state == y.state && x.artifacts == y.artifacts
  }

  predicate OwnChange(p: Projection, issue: nat) { p.change.Some? && p.change.value.identity.rootIssue == issue }

  /** A healthy Change of this Issue, or, for an abort, a finished cleanup. */
  predicate ValidAfterwards(p: Projection, issue: nat, action: Action) {
    OwnChange(p, issue) && ((p.valid && p.status == Healthy) || (action == ChangeAbort && CleanupComplete(p)))
  }

  function WithApp(p: Provenance, stage: Stage, app: App): Option<Provenance> {
    if ValidApp(app) then Some(p.(stage := stage, app := Some(app))) else None
  }

  function PhaseOf(e: ExecutorError): Phase {
    match e
    case Recovery => RecoveryPhase
    case Precondition => ConflictPhase
    case VerificationError => VerificationPhase
    case OtherError => ExecutionPhase
  }

  // ---- one execution, and the calls it makes ---------------------------------------------------------

  datatype Run = Run(result: Result, calls: seq<Call>)

  function Fail(phase: Phase, p: Provenance, calls: seq<Call>): Run { Run(Refused(phase, Some(p), NoEvidence), calls) }

  function RunShow(c: Content, d: Delegates): Run {
    var reader := if d.readExecutor.Some? then d.readExecutor else if d.changeExecutor.Some? then Some(d.changeExecutor.value.read) else None;
    var issue := IssueOf(c);
    match reader
    case None => Fail(EvidencePhase, c.provenance, [])
    case Some(Throws) => Fail(VerificationPhase, c.provenance, [CallRead(issue)])
    case Some(Returns(reread)) =>
      if reread.valid && reread.status in {Absent, Healthy} && c.initial.Some? && SameProjection(c.initial.value, reread, issue)
      then Run(Succeeded(c.action, c.provenance, Some(reread), None), [CallRead(issue)])
      else Fail(VerificationPhase, c.provenance, [CallRead(issue)])
  }

  function RunAdvance(c: Content, d: Delegates): Run {
    match d.branchAdvance
    case None => Fail(ExecutionPhase, c.provenance, [])
    case Some(Throws) => Fail(ExecutionPhase, c.provenance, [CallAdvance])
    case Some(Returns(r)) =>
      if !r.succeeded then Fail(r.outcome, r.provenance.GetOr(c.provenance), [CallAdvance])
      else if r.provenance.Some? && r.provenance.value.stage == Verified
      then Run(Succeeded(c.action, r.provenance.value, None, None), [CallAdvance])
      else Fail(VerificationPhase, r.provenance.GetOr(c.provenance), [CallAdvance])
  }

  function RunPublish(c: Content, d: Delegates): Run {
    match d.publish
    case None => Fail(ExecutionPhase, c.provenance, [])
    case Some(Throws) => Fail(ExecutionPhase, c.provenance, [CallPublish])
    case Some(Returns(r)) =>
      var calls, app := [CallPublish], if r.1.Some? then r.1 else d.app;
      if r.0.None? then Fail(ExecutionPhase, c.provenance, calls)
      else if !r.0.value.ok then Fail(r.0.value.phase, c.provenance, calls)
      else if app.None? || WithApp(c.provenance, Verified, app.value).None? then Fail(VerificationPhase, c.provenance, calls)
      else Run(Succeeded(c.action, WithApp(c.provenance, Verified, app.value).value, None, None), calls)
  }

  function Judge(c: Content, result: ExecutionResult, read: Answer<Projection>, app: Option<App>, scoped: Provenance): Result {
    var issue := IssueOf(c);
    match read
    case Throws => Refused(VerificationPhase, Some(scoped), result.evidence)
    case Returns(reread) =>
      if !ValidAfterwards(reread, issue, c.action) || !SameProjection(result.projection, reread, issue)
      then Refused(VerificationPhase, Some(scoped), result.evidence)
      else if app.None? then Refused(VerificationPhase, Some(c.provenance), result.evidence)
      else
        match WithApp(c.provenance, Verified, app.value)
        case None => Refused(VerificationPhase, Some(scoped), result.evidence)
        case Some(verified) => Succeeded(c.action, verified, Some(reread), Some(result))
  }

  /** Execute, and only then reread; nothing is reported before both. */
  function RunPort(c: Content, port: Port, app: Option<App>, scoped: Provenance, before: seq<Call>): Run {
    var issue := IssueOf(c);
    var called := before + [CallExecute(c.action, issue)];
    match port.execute
    case Failed(error) => Fail(PhaseOf(error), scoped, called)
    case Finished(result) =>
      if result.evidence == NeedsRecovery then Run(Refused(RecoveryPhase, Some(scoped), result.evidence), called)
      else if result.evidence == EffectFailed then Run(Refused(ExecutionPhase, Some(scoped), result.evidence), called)
      else Run(Judge(c, result, port.read, app, scoped), called + [CallRead(issue)])
  }

  function RunMutation(c: Content, d: Delegates): Run {
    if d.createChangeExecutor == Some(Throws) then Fail(ExecutionPhase, c.provenance, [CallFactory])
    else
      var created := d.createChangeExecutor.Some?;
      var before := if created then [CallFactory] else [];
      var port := if created then Some(d.createChangeExecutor.value.value.0) else d.changeExecutor;
      var app := if created && d.createChangeExecutor.value.value.1.Some? then d.createChangeExecutor.value.value.1 else d.app;
      if port.None? then Fail(ExecutionPhase, c.provenance, before)
      else if app.Some? && WithApp(c.provenance, AppScoped, app.value).None? then Fail(ExecutionPhase, c.provenance, before)
      else
        RunPort(c, port.value, app,
                if app.Some? then WithApp(c.provenance, AppScoped, app.value).value else c.provenance, before)
  }

  function RunContent(c: Content, d: Delegates): Run {
    match c.action
    case ChangeShow => RunShow(c, d)
    case BranchAdvance => RunAdvance(c, d)
    case Publish => RunPublish(c, d)
    case _ => RunMutation(c, d)
  }

  // ---- the gate -----------------------------------------------------------------------------------------

  /** An immutable execution input; identity, not content, says whether it was minted. */
  class Envelope {
    const content: Content
    constructor (content: Content) ensures this.content == content { this.content := content; }
  }

  /** Keeps the calls that delegates received. */
  class Journal {
    var calls: seq<Call>
    constructor () ensures calls == [] { calls := []; }
  }

  /** What a gate and its journal hold. */
  datatype GateState = GateState(issued: set<Envelope>, calls: seq<Call>)

  /** What callers do with a gate; envelopes may come from anywhere. */
  datatype Event =
    | Minting(content: Content, minted: Option<Envelope>)
    | Attempt(input: Envelope, delegates: Delegates, result: Result)

  const NOT_MINTED := Refused(AuthorizationPhase, None, NoEvidence)

  /** One event at a gate. */
  ghost predicate Next(s: GateState, e: Event, t: GateState) {
    match e
    case Minting(content, minted) =>
      && t.calls == s.calls && (minted.Some? <==> Admissible(content))
      && (if minted.None? then t.issued == s.issued
          else minted.value !in s.issued && minted.value.content == content && t.issued == s.issued + {minted.value})
    case Attempt(input, d, result) =>
      && t.issued == s.issued
      && (if input !in s.issued then result == NOT_MINTED && t.calls == s.calls
          else result == RunContent(input.content, d).result && t.calls == s.calls + RunContent(input.content, d).calls)
  }

  class Gate {
    var issued: set<Envelope>

    ghost predicate Valid() reads this { forall e :: e in issued ==> Admissible(e.content) }

    constructor () ensures Valid() && issued == {} { issued := {}; }

    /** Mint an input once everything in it agrees; nothing else is ever added. */
    method Create(content: Content) returns (minted: Option<Envelope>)
      requires Valid()
      modifies this
      ensures Valid() && (minted.Some? ==> fresh(minted.value))
      ensures forall calls :: Next(GateState(old(issued), calls), Minting(content, minted), GateState(issued, calls))
    {
      if !Admissible(content) { return None; }
      var envelope := new Envelope(content);
      issued := issued + {envelope};
      minted := Some(envelope);
    }

    /** Execute an input; one that was never minted reaches no delegate, however well-formed it looks. */
    method Execute(input: Envelope, d: Delegates, journal: Journal) returns (r: Result)
      requires Valid()
      modifies journal
      ensures Next(GateState(issued, old(journal.calls)), Attempt(input, d, r), GateState(issued, journal.calls))
    {
      if input !in issued { return NOT_MINTED; }
      var c := input.content;
      if IsMutation(c.action) {
        r := Mutate(c, d, journal);
      } else {
        var run := RunContent(c, d);
        journal.calls := journal.calls + run.calls;
        r := run.result;
      }
    }

    /** Executor, application identity and provenance are settled first; then execute, then reread. */
    method Mutate(c: Content, d: Delegates, journal: Journal) returns (r: Result)
      modifies journal
      ensures var run := RunMutation(c, d); r == run.result && journal.calls == old(journal.calls) + run.calls
    {
      ghost var start := journal.calls;
      var issue := IssueOf(c);
      var executor, app := d.changeExecutor, d.app;
      ghost var before: seq<Call> := [];
      if d.createChangeExecutor.Some? {
        journal.calls := journal.calls + [CallFactory];
        before := [CallFactory];
        if d.createChangeExecutor.value.Throws? { return Refused(ExecutionPhase, Some(c.provenance), NoEvidence); }
        var created := d.createChangeExecutor.value.value;
        executor := Some(created.0);
        if created.1.Some? { app := created.1; }
      }
      assert journal.calls == start + before;
      if executor.None? { return Refused(ExecutionPhase, Some(c.provenance), NoEvidence); }
      var scoped := c.provenance;
      if app.Some? {
        var named := WithApp(c.provenance, AppScoped, app.value);
        if named.None? { return Refused(ExecutionPhase, Some(c.provenance), NoEvidence); }
        scoped := named.value;
      }
      journal.calls := journal.calls + [CallExecute(c.action, issue)];
      assert journal.calls == start + (before + [CallExecute(c.action, issue)]);
      if executor.value.execute.Failed? { return Refused(PhaseOf(executor.value.execute.error), Some(scoped), NoEvidence); }
      var result := executor.value.execute.result;
      if result.evidence == NeedsRecovery { return Refused(RecoveryPhase, Some(scoped), result.evidence); }
      if result.evidence == EffectFailed { return Refused(ExecutionPhase, Some(scoped), result.evidence); }
      journal.calls := journal.calls + [CallRead(issue)];
      assert journal.calls == start + (before + [CallExecute(c.action, issue)] + [CallRead(issue)]);
      if executor.value.read.Throws? { return Refused(VerificationPhase, Some(scoped), result.evidence); }
      var reread := executor.value.read.value;
      if !ValidAfterwards(reread, issue, c.action) || !SameProjection(result.projection, reread, issue) {
        return Refused(VerificationPhase, Some(scoped), result.evidence);
      }
      if app.None? { return Refused(VerificationPhase, Some(c.provenance), result.evidence); }
      var verified := WithApp(c.provenance, Verified, app.value);
      if verified.None? { return Refused(VerificationPhase, Some(scoped), result.evidence); }
      r := Succeeded(c.action, verified.value, Some(reread), Some(result));
    }
  }

  // ---- theorems ------------------------------------------------------------------------------------------

  function Executions(calls: seq<Call>): nat {
    if calls == [] then 0 else (if calls[0].CallExecute? then 1 else 0) + Executions(calls[1..])
  }

  /** A Change mutation executes at most once, any other action never; and a reread only ever follows the execution. */
  lemma ExecutesAtMostOnce(c: Content, d: Delegates)
    ensures var calls := RunContent(c, d).calls;
      && Executions(calls) <= (if IsMutation(c.action) then 1 else 0)
      && (forall i :: 0 <= i < |calls| && IsMutation(c.action) && calls[i].CallRead? ==>
            0 < i == |calls| - 1 && calls[i - 1] == CallExecute(c.action, IssueOf(c)))
  {
    Counted(RunContent(c, d).calls);
  }

  function One(calls: seq<Call>, i: nat): nat { if i < |calls| && calls[i].CallExecute? then 1 else 0 }

  lemma Counted(calls: seq<Call>)
    ensures |calls| <= 3 ==> Executions(calls) == One(calls, 0) + One(calls, 1) + One(calls, 2)
  {
    if 0 < |calls| <= 3 {
      var tail := calls[1..];
      assert |tail| > 0 ==> |tail[1..]| < 2;
      assert |tail| > 1 ==> tail[1..][1..] == [];
    }
  }

  ghost predicate Earned(c: Content, r: Result, calls: seq<Call>) {
    && r.Succeeded? && r.projection.Some? && r.execution.Some?
    && |calls| >= 2 && calls[|calls| - 2] == CallExecute(c.action, IssueOf(c)) && calls[|calls| - 1] == CallRead(IssueOf(c))
    && ValidAfterwards(r.projection.value, IssueOf(c), c.action)
    && SameProjection(r.execution.value.projection, r.projection.value, IssueOf(c))
    && r.execution.value.evidence !in {EffectFailed, NeedsRecovery}
    && r.provenance.stage == Verified && r.provenance.app.Some? && ValidApp(r.provenance.app.value)
    && r.provenance == c.provenance.(stage := Verified, app := r.provenance.app)
  }

  /** Success of a mutation is earned: executed, reread afterwards, healthy (or cleaned up), agreed upon and verified. */
  lemma SuccessIsEarned(c: Content, d: Delegates)
    requires IsMutation(c.action) && RunContent(c, d).result.Succeeded?
    ensures Earned(c, RunContent(c, d).result, RunContent(c, d).calls)
  {
  }

  /** The executor in use and the application identity in force. */
  function PortInUse(d: Delegates): Option<Port> {
    match d.createChangeExecutor
    case None => d.changeExecutor
    case Some(Throws) => None
    case Some(Returns(made)) => Some(made.0)
  }

  function AppInUse(d: Delegates): Option<App> {
    match d.createChangeExecutor
    case Some(Returns(made)) => if made.1.Some? then made.1 else d.app
    case _ => d.app
  }

  /** Exactly when a mutation is reported as succeeded. */
  lemma SucceedsIff(c: Content, d: Delegates)
    requires IsMutation(c.action)
    ensures RunContent(c, d).result.Succeeded? <==>
      && PortInUse(d).Some? && AppInUse(d).Some? && ValidApp(AppInUse(d).value)
      && var port := PortInUse(d).value;
         && port.execute.Finished? && port.execute.result.evidence !in {EffectFailed, NeedsRecovery} && port.read.Returns?
         && ValidAfterwards(port.read.value, IssueOf(c), c.action)
         && SameProjection(port.execute.result.projection, port.read.value, IssueOf(c))
  {
  }

  /** What the executor claimed about state and artifacts is what was reread. */
  lemma SuccessAgreesWithReread(c: Content, d: Delegates)
    requires IsMutation(c.action) && RunContent(c, d).result.Succeeded?
    ensures var r := RunContent(c, d).result;
      && r.projection.value.change.Some? && r.execution.value.projection.change.Some?
      && var x, y := r.execution.value.projection.change.value, r.projection.value.change.value;
         x.state == y.state && x.artifacts == y.artifacts && x.identity == y.identity
         && y.identity.rootIssue == IssueOf(c)
         && (y.state == Defined && c.action != ChangeAbort ==> r.projection.value.status == Healthy)
  {
    SuccessIsEarned(c, d);
  }

  /** A show succeeds only on an unchanged, valid reread. */
  lemma ShowSucceedsIff(c: Content, d: Delegates)
    requires c.action == ChangeShow && c.initial.Some?
    ensures RunContent(c, d).result.Succeeded? <==>
      var reader := if d.readExecutor.Some? then d.readExecutor
                    else if d.changeExecutor.Some? then Some(d.changeExecutor.value.read) else None;
      && reader.Some? && reader.value.Returns? && reader.value.value.valid && reader.value.value.status in {Absent, Healthy}
      && SameProjection(c.initial.value, reader.value.value, IssueOf(c))
    ensures RunContent(c, d).result.Succeeded? ==> RunContent(c, d).result.provenance == c.provenance
  {
  }

  /** A delegate of a publication said that it succeeded. */
  predicate PublicationAnswered(d: Delegates) {
    d.publish.Some? && d.publish.value.Returns? && d.publish.value.value.0.Some? && d.publish.value.value.0.value.ok
  }

  /** A publication succeeds exactly when its delegate said so and a well-formed application identity is in force. */
  lemma PublishSucceedsIff(c: Content, d: Delegates)
    requires c.action == Publish
    ensures RunContent(c, d).result.Succeeded? <==>
      PublicationAnswered(d) &&
      if d.publish.value.value.1.Some? then ValidApp(d.publish.value.value.1.value) else d.app.Some? && ValidApp(d.app.value)
    ensures RunContent(c, d).result.Succeeded? ==> RunContent(c, d).result.provenance.stage == Verified
    ensures RunContent(c, d).calls == if d.publish.Some? then [CallPublish] else []
  {
  }

  /** A delegate of a branch advance said that it succeeded, with verified provenance. */
  predicate AdvanceAnswered(d: Delegates) {
    && d.branchAdvance.Some? && d.branchAdvance.value.Returns? && d.branchAdvance.value.value.succeeded
    && d.branchAdvance.value.value.provenance.Some? && d.branchAdvance.value.value.provenance.value.stage == Verified
  }

  /** A branch advance succeeds exactly when its delegate did, and hands on the delegate's own provenance. */
  lemma AdvanceSucceedsIff(c: Content, d: Delegates)
    requires c.action == BranchAdvance
    ensures RunContent(c, d).result.Succeeded? <==> AdvanceAnswered(d)
    ensures RunContent(c, d).result.Succeeded? ==> Some(RunContent(c, d).result.provenance) == d.branchAdvance.value.value.provenance
    ensures RunContent(c, d).calls == if d.branchAdvance.Some? then [CallAdvance] else []
  {
  }

  /** The executor was reached and this is what it answered. */
  predicate Answered(c: Content, d: Delegates, executed: Executed) {
    Executions(RunContent(c, d).calls) == 1 && PortInUse(d).Some? && PortInUse(d).value.execute == executed
  }

  predicate AnsweredEvidence(c: Content, d: Delegates, evidence: Evidence) {
    && Executions(RunContent(c, d).calls) == 1 && PortInUse(d).Some?
    && PortInUse(d).value.execute.Finished? && PortInUse(d).value.execute.result.evidence == evidence
  }

  predicate WasReread(calls: seq<Call>) { calls != [] && calls[|calls| - 1].CallRead? }

  /** Why a mutation was refused, told by its phase. */
  lemma RefusalTellsWhy(c: Content, d: Delegates)
    requires IsMutation(c.action) && RunContent(c, d).result.Refused?
    ensures var phase, calls := RunContent(c, d).result.phase, RunContent(c, d).calls;
      && (phase == RecoveryPhase <==> Answered(c, d, Failed(Recovery)) || AnsweredEvidence(c, d, NeedsRecovery))
      && (phase == ConflictPhase <==> Answered(c, d, Failed(Precondition)))
      && (phase == VerificationPhase <==> Answered(c, d, Failed(VerificationError)) || WasReread(calls))
      && (phase == ExecutionPhase <==>
            Executions(calls) == 0 || Answered(c, d, Failed(OtherError)) || AnsweredEvidence(c, d, EffectFailed))
  {
    var calls := RunContent(c, d).calls;
    Counted(calls);
    RefusalCases(c, d);
    hide RunContent, Executions;
  }

  /** The delegate of a publication or an advance answered at all. */
  predicate DelegateAnswered(c: Content, d: Delegates) {
    || (c.action == BranchAdvance && d.branchAdvance.Some? && d.branchAdvance.value.Returns?)
    || (c.action == Publish && d.publish.Some? && d.publish.value.Returns? && d.publish.value.value.0.Some?)
  }

  /** The delegate answered that it failed, in this phase. */
  predicate DelegateFailed(c: Content, d: Delegates, phase: Phase) {
    && DelegateAnswered(c, d)
    && if c.action == BranchAdvance then !d.branchAdvance.value.value.succeeded && d.branchAdvance.value.value.outcome == phase
       else d.publish.value.value.0.value == Published(false, phase)
  }

  /**
   Why anything else was refused. A show: nobody to read with, or what was read does not do. A delegated action: no answer, the
   failure the delegate itself named, or a success that could not be verified.
   */
  lemma OtherRefusalsTellWhy(c: Content, d: Delegates)
    requires !IsMutation(c.action) && RunContent(c, d).result.Refused?
    ensures var phase, calls := RunContent(c, d).result.phase, RunContent(c, d).calls;
      && (c.action == ChangeShow ==> phase == (if calls == [] then EvidencePhase else VerificationPhase))
      && (c.action != ChangeShow && !DelegateAnswered(c, d) ==> phase == ExecutionPhase)
      && (DelegateAnswered(c, d) ==>
            DelegateFailed(c, d, phase) || (phase == VerificationPhase && forall other :: !DelegateFailed(c, d, other)))
  {
  }

  /** How an answer of the executor shows in a refusal. */
  predicate AnswerTells(executed: Executed, phase: Phase, reread: bool) {
    match executed
    case Failed(error) => phase == PhaseOf(error) && !reread
    case Finished(result) =>
      if result.evidence == NeedsRecovery then phase == RecoveryPhase && !reread
      else if result.evidence == EffectFailed then phase == ExecutionPhase && !reread
      else reread
  }

  lemma RefusalCases(c: Content, d: Delegates)
    requires IsMutation(c.action) && RunContent(c, d).result.Refused?
    ensures var run := RunContent(c, d);
      var reached := One(run.calls, 0) + One(run.calls, 1) + One(run.calls, 2) == 1;
      && |run.calls| <= 3 && (WasReread(run.calls) ==> reached && run.result.phase == VerificationPhase)
      && (!reached ==> One(run.calls, 0) + One(run.calls, 1) + One(run.calls, 2) == 0 && run.result.phase == ExecutionPhase)
      && (reached ==> PortInUse(d).Some? && AnswerTells(PortInUse(d).value.execute, run.result.phase, WasReread(run.calls)))
  {
    hide ValidAfterwards, SameProjection, ValidApp;
  }

  /** What each capability is good for. */
  predicate Admits(capability: Capability, action: Action, issue: nat) {
    match capability
    case Implement(n) => n == issue && action in {ChangeIssue, ChangeShow, Publish}
    case MayReady(n) => n == issue && action == ChangeReady
    case MayAbort(n) => n == issue && action == ChangeAbort
    case MayMerge(n) => n == issue && action == ChangeMerge
    case MayCreateBranch(_, _) => false
    case MayAdvance(_, _) => action == BranchAdvance
    case MayOpenPullRequest(_, _, _) => action == Publish
  }

  /** The same host and repository, whatever the case in which its name is written. */
  predicate Same(a: Repository, b: Repository) {
    a == Repository(b.host, b.id, a.nameWithOwner) && Lower(a.nameWithOwner) == Lower(b.nameWithOwner)
  }

  /** The context speaks for the session that was authorized: an App by its certificate, a local one by its binding. */
  predicate SpeaksFor(t: Trusted, p: Provenance) {
    && t.requestId == p.requestId && t.sessionId == p.sessionId
    && ((t.runtime == InariApp && t.certificate == p.certificate) || (t.runtime == LocalAdmission && t.binding == p.certificate))
  }

  /** What a capability grants, request by request. */
  predicate Grants(capability: Capability, request: Request, issue: nat) {
    match (capability, request)
    case (Implement(n), ShowRequest(_)) => n == issue
    case (Implement(n), MutationRequest(ChangeIssue, _)) => n == issue
    case (Implement(n), PublishRequest(_, _, _)) => n == issue
    case (MayReady(n), MutationRequest(ChangeReady, _)) => n == issue
    case (MayAbort(n), MutationRequest(ChangeAbort, _)) => n == issue
    case (MayMerge(n), MutationRequest(ChangeMerge, _)) => n == issue
    case (MayAdvance(granted, _), AdvanceRequest(_, branch, _)) => granted == branch
    case (MayOpenPullRequest(from, onto, _), PublishRequest(head, base, _)) => from == head && onto == base
    case _ => false
  }

  /** Action and subject are those of the request, and each request comes with the evidence it needs. */
  predicate SpeaksOf(c: Content, issue: nat) {
    match c.request
    case ShowRequest(n) => n == issue && c.action == ChangeShow && c.subject == ChangeSubject(issue) && c.initial.Some?
    case MutationRequest(action, n) =>
      && n == issue && c.action == action && action in {ChangeIssue, ChangeReady, ChangeAbort, ChangeMerge}
      && c.subject == ChangeSubject(issue) && c.trusted.Some?
    case AdvanceRequest(n, branch, covered) =>
      n == issue && c.action == BranchAdvance && c.subject == BranchSubject(issue, branch) && covered
    case PublishRequest(head, base, repository) =>
      && c.action == Publish && c.subject == PullRequestSubject(issue, head, base) && Same(repository, c.repository)
      && c.trusted.Some?
  }

  /**
   What can be minted: one Issue runs through request, subject, task and capability, the capability grants the request, the
   provenance is that of an authorized operation with exactly these claims, and a trusted context speaks for its session.
   */
  lemma MintedIff(c: Content)
    ensures Admissible(c) <==>
      && c.wellShaped && SpeaksOf(c, c.subject.issue) && Grants(c.capability, c.request, c.subject.issue)
      && (c.task == None || c.task == Some(c.subject.issue))
      && c.provenance == c.provenance.(stage := Authorized, action := c.action, subject := c.subject, capability := Some(c.capability))
      && Same(c.provenance.repository, c.repository)
      && (c.trusted == None || (SpeaksFor(c.trusted.value, c.provenance) && Same(c.trusted.value.repository, c.repository)))
  {
    hide Lower;
  }

  /** What was minted binds one Issue through request, subject, task and capability. */
  lemma MintedBindsOneIssue(c: Content)
    requires Admissible(c)
    ensures c.provenance.subject.issue == IssueOf(c) && (c.task.Some? ==> c.task.value == IssueOf(c))
    ensures IsChange(c.action) ==>
      c.capability in {Implement(IssueOf(c)), MayReady(IssueOf(c)), MayAbort(IssueOf(c)), MayMerge(IssueOf(c))}
    ensures Admits(c.capability, c.action, IssueOf(c))
    ensures IsMutation(c.action) ==> c.trusted.Some? && c.trusted.value.sessionId == c.provenance.sessionId
  {
  }
}
