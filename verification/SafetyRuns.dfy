/**
 Safety of whole runs. Issue, ready, abort and compensation attempts follow one another, each planned
 from a fresh projection and possibly stopped after any effect, while others do what they like
 to branches and pull requests. No assumption is made about the shape of the world.
 */
module SafetyRuns {
  import opened Wrappers
  import opened Ordering
  import opened Change
  import opened Projection
  import opened ProjectionTheorems
  import opened AbortRecovery
  import opened Transition
  import opened Issuance
  import opened Compensation
  import opened AbortPlanning
  import opened GitHubWorld
  import opened IssuanceRuns
  import ReadyRuns

  datatype Origin =
    | Issuing(plan: Option<PullRequestPlan>)
    | Readying
    | Aborting
    | Compensating(issuance: IssuancePlan, attempts: seq<Attempt>, failed: Effect)

  /** The effects an attempt plans from what it reads; `None` when it is refused. */
  function Planned(origin: Origin, requester: Option<string>, input: Input): Option<seq<Effect>> {
    match origin
    case Issuing(plan) =>
      (match PlanIssuance(input, plan) case None => None case Some(i) => Some(i.effects))
    case Readying => ReadyRuns.PlanReady(Project(input))
    case Aborting => PlanAbort(Project(input), requester)
    case Compensating(i, attempts, failed) =>
      (match PlanCompensation(i, attempts, failed, input) case None => None case Some(plan) => Some([plan.effect]))
  }

  /** A running attempt remembers what it was planned from. */
  datatype Session = Idle | Running(origin: Origin, read: World, listing: Listing, landed: nat)

  /** `created` counts the pull requests with the configured head that attempts have opened so far. */
  datatype State = State(world: World, session: Session, created: nat)

  datatype Step =
    | Begin(origin: Origin, listing: Listing)
    | Land(choice: Choice, reported: bool)   // an unreported landing ends the attempt
    | Stop
    | Outside(world: World)

  function Effects(c: Setting, requester: Option<string>, s: Session): seq<Effect>
    requires s.Running?
  {
    Planned(s.origin, requester, Observe(c, s.read, s.listing)).GetOr([])
  }

  function WithHead(name: string): PullRequestEvidence -> bool { (p: PullRequestEvidence) => p.head == name }

  function Heads(c: Setting, w: World): nat { |Filter(w.pullRequests, WithHead(c.authority.branch))| }

  predicate OpensCanonical(c: Setting, e: Effect) { e.CreatePullRequest? && e.branch == c.authority.branch }

  /** Others may do anything, except that a pull request once opened stays on record. */
  ghost predicate Next(c: Setting, requester: Option<string>, s: State, step: Step, t: State) {
    match step
    case Begin(origin, listing) =>
      s.session.Idle? && Planned(origin, requester, Observe(c, s.world, listing)).Some?
      && t == State(s.world, Running(origin, s.world, listing, 0), s.created)
    case Land(choice, reported) =>
      && s.session.Running? && s.session.landed < |Effects(c, requester, s.session)|
      && var e := Effects(c, requester, s.session)[s.session.landed];
         && Apply(s.world, e, choice).Some?
         && t == State(Apply(s.world, e, choice).value,
                       if reported then s.session.(landed := s.session.landed + 1) else Idle,
                       s.created + if OpensCanonical(c, e) then 1 else 0)
    case Stop => t == s.(session := Idle)
    case Outside(world) => t == s.(world := world) && Heads(c, world) >= Heads(c, s.world)
  }

  ghost predicate Run(c: Setting, requester: Option<string>, states: seq<State>, steps: seq<Step>) {
    && |states| == |steps| + 1 && states[0].session.Idle? && states[0].created == 0
    && forall i :: 0 <= i < |steps| ==> Next(c, requester, states[i], steps[i], states[i + 1])
  }

  // ---- what attempts may plan --------------------------------------------------------------------

  predicate Creates(e: Effect) { e.CreateBranch? || e.CreateProvenanceCommit? || e.CreatePullRequest? }

  /** Only an issuance of an absent Change creates, and all it creates stands on the configured branch. */
  lemma CreationIsIssuance(origin: Origin, requester: Option<string>, input: Input, k: nat)
    requires Planned(origin, requester, input).Some? && k < |Planned(origin, requester, input).value|
    requires Creates(Planned(origin, requester, input).value[k])
    ensures origin.Issuing? && Project(input).status == Absent && PlanIssuance(input, origin.plan).Some?
    ensures PlanIssuance(input, origin.plan).value.effects ==
      IssueEffects(input.authority.branch, input.baseBranch, input.identity.rootIssue, origin.plan)
  {
    hide Project, PlanIssuance, PlanTransition, PlanCompensation, ValidateIssuance, IssueEffects;
    var e := Planned(origin, requester, input).value[k];
    match origin
    case Issuing(plan) =>
      IssuancePlanShape(input, plan);
      AbsentNames(input);
    case Readying =>
      CreationNeedsUnissuedChange(Request(Ready, Project(input).change.value, None), e);
    case Aborting =>
      var p := Project(input);
      CreationNeedsUnissuedChange(AbortRequest(p.change.value, requester, ProjectedSha(p, p.change.value)), e);
    case Compensating(i, attempts, failed) =>
      CompensationDeletesOnlyItsOwnGeneration(i, attempts, failed, input);
  }

  lemma AbsentNames(input: Input)
    ensures var p := Project(input); p.status == Absent ==>
      && p.canonicalBranch == Some(input.authority.branch) && p.canonicalBaseBranch == Some(input.baseBranch)
      && Readable(input) && Unclaimed(FactsOf(input))
  {
    hide StatusOf, CanonicalBranch, Consistent, NothingClaims, BranchCandidates, PullRequestCandidates, AnyConflict, ProjectedChange;
    AbsentIff(FactsOf(input));
    if NothingClaims(FactsOf(input)) { UnclaimedIsUnanchored(FactsOf(input)); }
  }

  /** What an absent projection read holds no pull request with the configured head. */
  lemma AbsentReadHasNoHead(c: Setting, w: World, listing: Listing)
    requires Project(Observe(c, w, listing)).status == Absent
    ensures Heads(c, w) == 0
  {
    hide Project, Consistent, Filter, CanonicalBranch, AnchoredNames, ValidInput, EvidenceDiagnostics, StableSort;
    var input := Observe(c, w, listing);
    AbsentNames(input);
    UnclaimedIsUnanchored(FactsOf(input));
    var raw := Map(w.pullRequests, Report);
    forall i | 0 <= i < |w.pullRequests| ensures w.pullRequests[i].head != c.authority.branch {
      assert raw[i] == Report(w.pullRequests[i]) && ReadList(input.evidence.pullRequests) == raw;
      ReadCandidate(input, i);
    }
    assert forall p :: p in Filter(w.pullRequests, WithHead(c.authority.branch)) ==> p in w.pullRequests;
  }

  lemma ReadCandidate(input: Input, i: nat)
    requires i < |ReadList(input.evidence.pullRequests)|
    ensures NormalizePullRequest(ReadList(input.evidence.pullRequests)[i]) in FactsOf(input).pullRequests
  {
    var raw := Map(ReadList(input.evidence.pullRequests), NormalizePullRequest);
    var j := Ordering.Origin(raw, FactsOf(input).pullRequests, i);
    assert raw[i] == NormalizePullRequest(ReadList(input.evidence.pullRequests)[i]);
  }

  // ---- at most one pull request ----------------------------------------------------------------------

  lemma {:induction false} MappedHeads(s: seq<PullRequestEvidence>, g: PullRequestEvidence -> PullRequestEvidence, name: string)
    requires forall p :: g(p).head == p.head
    ensures |Filter(Map(s, g), WithHead(name))| == |Filter(s, WithHead(name))|
  {
    FilterImage(s, g, WithHead(name), WithHead(name));
  }

  /** Only opening a pull request adds to its head; no effect takes one away. */
  lemma EffectHeads(c: Setting, w: World, e: Effect, choice: Choice)
    requires Apply(w, e, choice).Some?
    ensures Heads(c, Apply(w, e, choice).value) == Heads(c, w) + if OpensCanonical(c, e) then 1 else 0
  {
    hide Filter;
    match e
    case CreatePullRequest(branch, base, _, _, _, _) =>
      var p := PullRequestEvidence(choice.number, branch, ShaOf(w, branch), base, true, true, false, None, choice.claim, None);
      FilterSnoc(w.pullRequests, p, WithHead(c.authority.branch));
    case MarkPullRequestReady(number) => MappedHeads(w.pullRequests, GitHubWorld.Readying(number), c.authority.branch);
    case ClosePullRequest(number) => MappedHeads(w.pullRequests, Closing(number), c.authority.branch);
    case _ =>
  }

  predicate CreatesNext(c: Setting, requester: Option<string>, s: Session) {
    && s.Running? && s.landed < |Effects(c, requester, s)|
    && exists k :: s.landed <= k < |Effects(c, requester, s)| && OpensCanonical(c, Effects(c, requester, s)[k])
  }

  /** An attempt about to open a pull request is the first to do so, and none was there before; `start` is what the run began with. */
  predicate OneAtMost(c: Setting, requester: Option<string>, start: nat, s: State) {
    && s.created <= 1 && start + s.created <= Heads(c, s.world) && (s.created > 0 ==> start == 0)
    && (CreatesNext(c, requester, s.session) ==> s.created == 0 && start == 0)
    && (s.session.Running? ==> Planned(s.session.origin, requester, Observe(c, s.session.read, s.session.listing)).Some?)
  }

  lemma BeginKeepsOne(c: Setting, requester: Option<string>, start: nat, s: State, step: Step, t: State)
    requires OneAtMost(c, requester, start, s) && Next(c, requester, s, step, t) && step.Begin?
    ensures OneAtMost(c, requester, start, t)
  {
    hide Planned, Heads, Observe;
    if CreatesNext(c, requester, t.session) {
      var effects := Effects(c, requester, t.session);
      var k :| 0 <= k < |effects| && OpensCanonical(c, effects[k]);
      var input := Observe(c, s.world, step.listing);
      CreationIsIssuance(step.origin, requester, input, k);
      AbsentReadHasNoHead(c, s.world, step.listing);
    }
  }

  /** After an issuance opened its pull request it has nothing left to do. */
  lemma OpeningIsLast(c: Setting, requester: Option<string>, s: Session, k: nat)
    requires s.Running? && k < |Effects(c, requester, s)| && OpensCanonical(c, Effects(c, requester, s)[k])
    requires Planned(s.origin, requester, Observe(c, s.read, s.listing)).Some?
    ensures k + 1 == |Effects(c, requester, s)|
  {
    hide Observe, PlanIssuance, Project;
    CreationIsIssuance(s.origin, requester, Observe(c, s.read, s.listing), k);
  }

  lemma LandKeepsOne(c: Setting, requester: Option<string>, start: nat, s: State, step: Step, t: State)
    requires OneAtMost(c, requester, start, s) && Next(c, requester, s, step, t) && step.Land?
    ensures OneAtMost(c, requester, start, t)
  {
    hide Planned, Heads, Observe, Apply;
    var effects := Effects(c, requester, s.session);
    var e := effects[s.session.landed];
    EffectHeads(c, s.world, e, step.choice);
    if OpensCanonical(c, e) { OpeningIsLast(c, requester, s.session, s.session.landed); }
    assert CreatesNext(c, requester, t.session) ==> CreatesNext(c, requester, s.session);
  }

  lemma {:induction false} RunKeepsOne(c: Setting, requester: Option<string>, states: seq<State>, steps: seq<Step>, i: nat)
    requires Run(c, requester, states, steps) && i < |states|
    ensures OneAtMost(c, requester, Heads(c, states[0].world), states[i])
    decreases i
  {
    hide OneAtMost, Heads, Apply, Planned, Observe, Next;
    if i > 0 {
      RunKeepsOne(c, requester, states, steps, i - 1);
      StepKeepsOne(c, requester, Heads(c, states[0].world), states[i - 1], steps[i - 1], states[i]);
    } else {
      InitiallyNone(c, requester, Heads(c, states[0].world), states[0]);
    }
  }

  /**
   In every run at most one pull request with the configured head is opened, and none at all
   when there was one to begin with. It does not matter where attempts stop or what others do.
   */
  lemma AtMostOnePullRequest(c: Setting, requester: Option<string>, states: seq<State>, steps: seq<Step>, i: nat)
    requires Run(c, requester, states, steps) && i < |states|
    ensures states[i].created <= if Heads(c, states[0].world) == 0 then 1 else 0
  {
    hide Heads, Run;
    RunKeepsOne(c, requester, states, steps, i);
  }

  lemma InitiallyNone(c: Setting, requester: Option<string>, start: nat, s: State)
    requires start <= Heads(c, s.world) && s.session.Idle? && s.created == 0
    ensures OneAtMost(c, requester, start, s)
  {
  }

  lemma StepKeepsOne(c: Setting, requester: Option<string>, start: nat, s: State, step: Step, t: State)
    requires OneAtMost(c, requester, start, s) && Next(c, requester, s, step, t)
    ensures OneAtMost(c, requester, start, t)
  {
    hide Planned, Heads, Observe, Apply;
    match step
    case Begin(_, _) => BeginKeepsOne(c, requester, start, s, step, t);
    case Land(choice, _) => LandKeepsOne(c, requester, start, s, step, t);
    case _ =>
  }

  // ---- only proven generations are deleted ---------------------------------------------------------

  /** The generation this attempt may delete: the one it read, or the one the failed issuance itself committed. */
  ghost predicate Proven(c: Setting, s: Session, name: string, sha: Option<string>)
    requires s.Running?
  {
    match s.origin
    case Aborting =>
      exists b :: b in s.read.branches && b.name == name && b.sha.Some? && sha == Some(Lower(b.sha.value))
    case Compensating(i, attempts, _) =>
      name == i.verification.branch && |attempts| > 1 && attempts[1].evidence.Some?
      && attempts[1].evidence.value.ProvenanceCommitted? && sha == Some(Lower(attempts[1].evidence.value.commitSha))
    case _ => false
  }

  lemma CandidateWasRead(c: Setting, w: World, listing: Listing, k: nat) returns (b: BranchEvidence)
    requires k < |Project(Observe(c, w, listing)).branches|
    ensures b in w.branches && NormalizeBranch(b) == Project(Observe(c, w, listing)).branches[k].evidence
  {
    hide StatusOf, CanonicalBranch, AnyConflict, ProjectedChange, ClassifyBranch, PullRequestCandidates;
    var input := Observe(c, w, listing);
    var read := Map(w.branches, NormalizeBranch);
    CandidateIsFact(input, k);
    hide Project;
    assert ReadList(input.evidence.branches) == w.branches;
    var j := Ordering.Origin(FactsOf(input).branches, read, k);
    b := w.branches[j];
  }

  lemma CandidateIsFact(input: Input, k: nat)
    requires k < |Project(input).branches|
    ensures k < |FactsOf(input).branches| && FactsOf(input).branches[k] == Project(input).branches[k].evidence
  {
    hide StatusOf, CanonicalBranch, AnyConflict, ProjectedChange, ClassifyBranch, PullRequestCandidates, StatusDiagnostics,
         ValidInput, EvidenceDiagnostics, StableSort;
  }

  /** What an abort deletes is the canonical branch at a generation it has read. */
  lemma AbortDeletesWhatItRead(c: Setting, w: World, listing: Listing, requester: Option<string>, e: Effect)
    requires PlanAbort(Project(Observe(c, w, listing)), requester).Some?
    requires e in PlanAbort(Project(Observe(c, w, listing)), requester).value && e.DeleteBranch?
    ensures e.expectedCommitSha.Some?
    ensures exists b :: b in w.branches && b.name == e.branch && b.sha.Some? && e.expectedCommitSha == Some(Lower(b.sha.value))
  {
    hide Project, PlanTransition, Observe;
    var p := Project(Observe(c, w, listing));
    var change := p.change.value;
    DeletionsNameGeneration(AbortRequest(change, requester, ProjectedSha(p, change)), e);
    var found := Filter(p.branches, CanonicalBranchCandidate(e.branch));
    assert found[0] in p.branches;
    var k :| 0 <= k < |p.branches| && p.branches[k] == found[0];
    var b := CandidateWasRead(c, w, listing, k);
    LowerIdempotent(b.sha.value);
  }

  lemma DeletionIsProven(c: Setting, requester: Option<string>, s: Session, e: Effect)
    requires s.Running? && e in Effects(c, requester, s) && e.DeleteBranch?
    ensures e.expectedCommitSha.Some? && Proven(c, s, e.branch, LowerSha(e.expectedCommitSha))
  {
    hide Project, PlanIssuance, PlanTransition, PlanCompensation, Observe, PlanAbort;
    var input := Observe(c, s.read, s.listing);
    match s.origin
    case Issuing(plan) => IssuanceDeletesNothing(input, plan, e);
    case Readying => DeletionsNameGeneration(Request(Ready, Project(input).change.value, None), e);
    case Aborting =>
      AbortDeletesWhatItRead(c, s.read, s.listing, requester, e);
      var b :| b in s.read.branches && b.name == e.branch && b.sha.Some? && e.expectedCommitSha == Some(Lower(b.sha.value));
      LowerIdempotent(b.sha.value);
    case Compensating(i, attempts, failed) =>
      CompensationDeletesOnlyItsOwnGeneration(i, attempts, failed, input);
      LowerIdempotent(attempts[1].evidence.value.commitSha);
  }

  lemma IssuanceDeletesNothing(input: Input, plan: Option<PullRequestPlan>, e: Effect)
    requires PlanIssuance(input, plan).Some? && e in PlanIssuance(input, plan).value.effects
    ensures !e.DeleteBranch?
  {
    hide Project, PlanIssuance, ValidateIssuance;
    IssuancePlanShape(input, plan);
  }

  /**
   Whenever an attempt removes a branch, that branch is still at a generation the attempt had proven,
   so work pushed after the planning read is never lost.
   */
  lemma OnlyProvenGenerationsAreDeleted(c: Setting, requester: Option<string>, s: State, step: Step, t: State, name: string)
    requires Next(c, requester, s, step, t) && step.Land?
    requires HasBranch(s.world, name) && !HasBranch(t.world, name)
    ensures Proven(c, s.session, name, ShaOf(s.world, name))
  {
    hide Planned, HasBranch, ShaOf, Apply, Proven, Heads;
    var e := Effects(c, requester, s.session)[s.session.landed];
    OnlyTheNamedGenerationIsRemoved(s.world, e, step.choice, name);
    DeletionIsProven(c, requester, s.session, e);
  }

  /** What a running attempt claims to have read is a state the run has passed through. */
  lemma {:induction false} ReadsAreReal(c: Setting, requester: Option<string>, states: seq<State>, steps: seq<Step>, i: nat)
    returns (j: nat)
    requires Run(c, requester, states, steps) && i < |states| && states[i].session.Running?
    ensures j < i && steps[j].Begin? && steps[j].origin == states[i].session.origin
    ensures states[j].world == states[i].session.read
    decreases i
  {
    hide Planned, Apply, Heads, Observe;
    var step := steps[i - 1];
    assert Next(c, requester, states[i - 1], step, states[i]);
    if step.Begin? {
      j := i - 1;
    } else {
      j := ReadsAreReal(c, requester, states, steps, i - 1);
    }
  }

  /**
   No unproven generation is deleted in any run: a branch that an attempt removes stood, at that moment, at a
   generation read at the very state where the attempt was planned, or at the provenance commit of the
   failed issuance that is being undone.
   */
  lemma NoUnreadWorkIsDeleted(c: Setting, requester: Option<string>, states: seq<State>, steps: seq<Step>, i: nat, name: string)
    returns (j: nat)
    requires Run(c, requester, states, steps) && i < |steps| && steps[i].Land?
    requires HasBranch(states[i].world, name) && !HasBranch(states[i + 1].world, name)
    ensures j < i && steps[j].Begin? && states[i].session.Running? && states[i].session.read == states[j].world
    ensures steps[j].origin == states[i].session.origin
    ensures Proven(c, states[i].session, name, ShaOf(states[i].world, name))
  {
    hide Planned, HasBranch, ShaOf, Apply, Proven, Heads;
    assert Next(c, requester, states[i], steps[i], states[i + 1]);
    OnlyProvenGenerationsAreDeleted(c, requester, states[i], steps[i], states[i + 1], name);
    j := ReadsAreReal(c, requester, states, steps, i);
  }

  // ---- compensation undoes only what the run itself committed -------------------------------------

  /** At step `k` an issuance of this run landed its provenance commit on that branch, and saw it land. */
  ghost predicate CommittedAt(c: Setting, requester: Option<string>, states: seq<State>, steps: seq<Step>, k: nat,
                              name: string, sha: string)
    requires Run(c, requester, states, steps)
  {
    && k < |steps| && steps[k].Land? && steps[k].reported && steps[k].choice.commitSha == sha
    && states[k].session.Running? && states[k].session.origin.Issuing?
    && states[k].session.landed < |Effects(c, requester, states[k].session)|
    && var e := Effects(c, requester, states[k].session)[states[k].session.landed];
       e.CreateProvenanceCommit? && e.branch == name
  }

  /** Compensation attempts of the run are given records of the run: the recorded commit is one it landed earlier. */
  ghost predicate OwnRecords(c: Setting, requester: Option<string>, states: seq<State>, steps: seq<Step>)
    requires Run(c, requester, states, steps)
  {
    forall j :: 0 <= j < |steps| && steps[j].Begin? && steps[j].origin.Compensating? && CreatedSha(steps[j].origin.attempts).Some? ==>
      exists k, sha :: 0 <= k < j && CommittedAt(c, requester, states, steps, k, steps[j].origin.issuance.verification.branch, sha)
        && CreatedSha(steps[j].origin.attempts) == Some(Lower(sha))
  }

  lemma CommitMovesBranch(w: World, e: Effect, choice: Choice)
    requires e.CreateProvenanceCommit? && Apply(w, e, choice).Some?
    ensures HasBranch(Apply(w, e, choice).value, e.branch) && ShaOf(Apply(w, e, choice).value, e.branch) == Some(choice.commitSha)
  {
    hide Filter;
    FilterImage(w.branches, Advance(e.branch, choice.commitSha), BranchIs(e.branch), BranchIs(e.branch));
    var found := Filter(w.branches, BranchIs(e.branch));
    assert found[0] in w.branches && found[0].name == e.branch;
  }

  /**
   A branch removed by a compensation of the run stood at a generation that an earlier issuance of the same run
   committed, and that the branch had right after that commit.
   */
  lemma CompensationRemovesOwnCommit(c: Setting, requester: Option<string>, states: seq<State>, steps: seq<Step>, i: nat,
                                     name: string)
    returns (k: nat, sha: string)
    requires Run(c, requester, states, steps) && OwnRecords(c, requester, states, steps)
    requires i < |steps| && steps[i].Land? && states[i].session.Running? && states[i].session.origin.Compensating?
    requires HasBranch(states[i].world, name) && !HasBranch(states[i + 1].world, name)
    ensures k < i && CommittedAt(c, requester, states, steps, k, name, sha)
    ensures ShaOf(states[k + 1].world, name) == Some(sha) && ShaOf(states[i].world, name) == Some(Lower(sha))
  {
    hide Planned, HasBranch, ShaOf, Apply, Heads;
    var j := NoUnreadWorkIsDeleted(c, requester, states, steps, i, name);
    var origin := steps[j].origin;
    LowerIdempotent(origin.attempts[1].evidence.value.commitSha);
    assert CreatedSha(origin.attempts) == ShaOf(states[i].world, name);
    k, sha :| 0 <= k < j && CommittedAt(c, requester, states, steps, k, name, sha) && CreatedSha(origin.attempts) == Some(Lower(sha));
    assert Next(c, requester, states[k], steps[k], states[k + 1]);
    CommitMovesBranch(states[k].world, Effects(c, requester, states[k].session)[states[k].session.landed], steps[k].choice);
  }
}
