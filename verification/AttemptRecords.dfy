/** What a record of attempts must say for a compensation or a recovery to exist, and what each outcome then reports. */
module AttemptRecords {
  import opened Wrappers
  import opened Ordering
  import opened Change
  import opened Projection
  import opened ProjectionTheorems
  import opened AbortRecovery
  import opened Transition
  import opened Issuance
  import opened Compensation
  import opened CompensationRuns
  import Admission

  /** The same effect, up to the case in which a commit generation is written. */
  predicate SameEffect(a: Effect, b: Effect) {
    if a.DeleteBranch? then b == DeleteBranch(a.branch, LowerSha(a.expectedCommitSha)) else a == b
  }

  /** What is reported of a succeeded effect: its own operands, and whatever generation or number came out of it. */
  predicate Reports(effect: Effect, sha: string, number: nat, e: Proof) {
    match effect
    case CreateBranch(branch, base) => e == BranchCreated(branch, base, sha)
    case CreateProvenanceCommit(branch, root, path) => e == ProvenanceCommitted(branch, root, path, sha)
    case CreatePullRequest(branch, base, root, _, _, _) => e == PullRequestCreated(branch, base, root, number)
    case MarkPullRequestReady(n) => e == PullRequestReady(n)
    case ClosePullRequest(n) => e == PullRequestClosed(n)
    case DeleteBranch(branch, None) => e == BranchDeleted(branch, None)
    case DeleteBranch(branch, Some(at)) => e == BranchDeleted(branch, Some(sha)) && Lower(sha) == Lower(at)
  }

  ghost predicate EvidenceFits(a: Attempt) {
    a.evidence.Some? ==> a.succeeded && exists sha, number :: IsCommitSha(sha) && ValidNumber(number) && Reports(a.effect, sha, number, a.evidence.value)
  }

  const SOME_SHA: string := "0000000000000000000000000000000000000000"

  lemma EvidenceFitsIff(a: Attempt)
    requires ValidEffect(a.effect)
    ensures EvidenceFits(a) <==> ValidAttempt(a)
  {
    hide ValidText, Lower;
    if a.evidence.Some? && ValidAttempt(a) {
      var e := a.evidence.value;
      var sha := match e
        case BranchCreated(_, _, s) => s
        case ProvenanceCommitted(_, _, _, s) => s
        case BranchDeleted(_, Some(s)) => s
        case _ => SOME_SHA;
      var number := if e.PullRequestCreated? then e.pullRequest else 1;
      assert IsCommitSha(sha) && ValidNumber(number) && Reports(a.effect, sha, number, e);
    }
  }

  /** The attempts repeat the first effects of the plan one by one; all succeeded but the last, which is the failed effect. */
  ghost predicate Record(effects: seq<Effect>, attempts: seq<Attempt>, failed: Effect) {
    && 0 < |attempts| <= |effects|
    && (forall k :: 0 <= k < |attempts| ==>
          SameEffect(attempts[k].effect, effects[k]) && EvidenceFits(attempts[k]) && (attempts[k].succeeded <==> k != |attempts| - 1))
    && SameEffect(failed, effects[|attempts| - 1])
  }

  lemma SameEffectIff(a: Effect, b: Effect)
    ensures SameEffect(a, b) <==> NormalizeEffect(a) == b
    ensures SameEffect(a, b) && ValidEffect(b) ==> ValidEffect(a)
  {
    hide ValidText;
    if a.DeleteBranch? && a.expectedCommitSha.Some? && SameEffect(a, b) && ValidEffect(b) {
      var x := a.expectedCommitSha.value;
      assert b.expectedCommitSha == Some(Lower(x));
      forall i | 0 <= i < |x| ensures IsHexDigit(x[i]) { assert IsHexDigit(Lower(x)[i]); }
    }
  }

  lemma ValidatedPlan(transported: Plan)
    requires ValidatePlan(transported).Success?
    ensures ValidEffects(ValidatePlan(transported).value.effects)
  {
    hide RequestProblems, Build, ValidEffect, NormalizeEffect;
    var effects := ValidatePlan(transported).value.effects;
    assert effects == Map(transported.effects, NormalizeEffect);
    forall i | 0 <= i < |effects| ensures ValidEffect(effects[i]) { NormalizedIsValid(transported.effects[i]); }
  }

  lemma NormalizedIsValid(e: Effect)
    requires ValidEffect(e)
    ensures ValidEffect(NormalizeEffect(e))
  {
    hide ValidText;
  }

  lemma RecordIff(effects: seq<Effect>, attempts: seq<Attempt>, failed: Effect)
    requires ValidEffects(effects)
    ensures Record(effects, attempts, failed) <==>
      && ValidAttempts(attempts) && ValidEffect(failed) && 0 < |attempts| <= |effects|
      && (forall k :: 0 <= k < |attempts| ==>
            NormalizeEffect(attempts[k].effect) == effects[k] && (attempts[k].succeeded <==> k < |attempts| - 1))
      && NormalizeEffect(failed) == effects[|attempts| - 1]
  {
    hide ValidEffect, NormalizeEffect, SameEffect, EvidenceFits;
    if 0 < |attempts| <= |effects| {
      forall k | 0 <= k < |attempts|
        ensures SameEffect(attempts[k].effect, effects[k]) && EvidenceFits(attempts[k])
          <==> NormalizeEffect(attempts[k].effect) == effects[k] && ValidAttempt(attempts[k])
      {
        SameEffectIff(attempts[k].effect, effects[k]);
        if ValidEffect(attempts[k].effect) { EvidenceFitsIff(attempts[k]); }
      }
      SameEffectIff(failed, effects[|attempts| - 1]);
    }
  }

  /**
   When a recovery exists, for every plan, record and evidence: the plan validates, the attempts are a record of it up to the
   failed effect, and the projection is of the same Change and healthy, absent or partial.
   */
  lemma RecoveryIff(transported: Plan, attempts: seq<Attempt>, failed: Effect, input: Input)
    ensures PlanTransitionRecovery(transported, attempts, failed, input).Some? <==>
      && ValidatePlan(transported).Success?
      && Record(ValidatePlan(transported).value.effects, attempts, failed)
      && Project(input).status in {Healthy, Absent, Partial} && Project(input).change.Some?
      && Project(input).change.value.identity == ValidatePlan(transported).value.result.identity
  {
    hide Project, ValidatePlan, Record, ValidAttempts, NormalizeEffect, ValidEffect;
    DiagnosticsExplainRejection(input);
    if ValidatePlan(transported).Success? {
      ValidatedPlan(transported);
      RecordIff(ValidatePlan(transported).value.effects, attempts, failed);
    }
  }

  // ---- a failed issuance ------------------------------------------------------------------------

  /** Branch and commit were made and the commit is known; the Draft was not opened. */
  ghost predicate OnlyDraftMissing(i: IssuancePlan, attempts: seq<Attempt>, failed: Effect) {
    i.mode == Create && |attempts| == 3 && Record(i.effects, attempts, failed) && attempts[1].evidence.Some?
  }

  lemma OnlyDraftMissingIff(i: IssuancePlan, attempts: seq<Attempt>, failed: Effect)
    requires ValidateIssuance(i).Some?
    ensures OnlyDraftMissing(i, attempts, failed) <==>
      ValidAttempts(attempts) && ValidEffect(failed) && OnlyPullRequestFailed(i, attempts, failed)
    ensures OnlyDraftMissing(i, attempts, failed) ==>
      attempts[1].evidence.value.ProvenanceCommitted? && CreatedSha(attempts) == Some(Lower(attempts[1].evidence.value.commitSha))
  {
    if i.mode == Create {
      Admission.CreateEffects(i);
      RecordOfThree(i.effects, attempts, failed);
      hide ValidateIssuance, ValidEffect, NormalizeEffect, SameEffect, Record, ValidAttempts;
      if Record(i.effects, attempts, failed) && |attempts| == 3 { CommitIsReported(i, attempts); }
    }
  }

  lemma RecordOfThree(effects: seq<Effect>, attempts: seq<Attempt>, failed: Effect)
    requires ValidEffects(effects) && |effects| == 3
    ensures |attempts| == 3 ==>
      (Record(effects, attempts, failed) <==>
        && ValidAttempts(attempts) && ValidEffect(failed)
        && NormalizeEffect(attempts[0].effect) == effects[0] && attempts[0].succeeded
        && NormalizeEffect(attempts[1].effect) == effects[1] && attempts[1].succeeded
        && NormalizeEffect(attempts[2].effect) == effects[2] && !attempts[2].succeeded
        && NormalizeEffect(failed) == effects[2])
  {
    hide ValidEffect, NormalizeEffect, Record, ValidAttempt;
    RecordIff(effects, attempts, failed);
  }

  lemma CommitIsReported(i: IssuancePlan, attempts: seq<Attempt>)
    requires |attempts| == 3 && |i.effects| == 3 && i.effects[1].CreateProvenanceCommit?
    requires SameEffect(attempts[1].effect, i.effects[1]) && EvidenceFits(attempts[1])
    ensures CreatedSha(attempts).Some? <==> attempts[1].evidence.Some?
    ensures attempts[1].evidence.Some? ==>
      attempts[1].evidence.value.ProvenanceCommitted? && CreatedSha(attempts) == Some(Lower(attempts[1].evidence.value.commitSha))
  {
  }

  // ---- when it is compensated ---------------------------------------------------------------------

  /** Projections of these statuses are made from readable evidence. */
  lemma DecidedFromFacts(input: Input)
    requires Project(input).status in {Absent, Partial}
    ensures Readable(input) && Project(input) == ProjectFacts(FactsOf(input)) && FactsOf(input).identity == input.identity
    ensures FactsOf(input).baseBranch == input.baseBranch && IssueMatches(FactsOf(input))
    ensures FactsOf(input).issue.Some? <==> input.evidence.issue.Available?
  {
    hide ProjectFacts, StableSort;
  }

  /** The one canonical branch stands at the generation that was committed. */
  ghost predicate StandsAt(f: Facts, sha: string) { exists b :: CanonicalBranches(f) == [b] && b.sha == Some(sha) }

  /** The shape that compensation asks for, from the facts: nothing of it left, or the untouched branch without a pull request. */
  lemma SafeShapeIff(f: Facts, i: IssuancePlan, sha: string)
    requires StatusOf(f) in {Absent, Partial} && f.issue.Some?
    requires i.identity == f.identity && i.verification.branch == CanonicalBranch(f) && i.verification.baseBranch == f.baseBranch
    ensures SafeShape(ProjectFacts(f), i, sha) <==>
      StatusOf(f) == Absent || (CanonicalPullRequests(f) == [] && StandsAt(f, sha))
  {
    hide TallyOf, CanonicalBranch, BranchCandidates, PullRequestCandidates, OffBase, Filter, NoneOf, Consistent, RootClaimsAgree,
         CanonicalBranches, CanonicalPullRequests, AnyConflict, NothingClaims, StatusOf;
    AbsentIff(f);
    PartialIff(f);
    if StatusOf(f) == Absent {
      NothingClaimedMeansNothingSelected(f);
      QuietCandidates(f);
      AbsentShape(f);
    } else {
      AtMostOneCanonicalBranch(f);
      PartialShape(f, i, sha);
    }
  }

  lemma AbsentShape(f: Facts)
    requires StatusOf(f) == Absent && f.issue.Some?
    ensures var p := ProjectFacts(f);
      p.status == Absent && p.valid && p.change == Some(Change(f.identity, Defined, f.provenance, NO_ARTIFACTS))
      && p.canonicalBranch == Some(CanonicalBranch(f)) && p.canonicalBaseBranch == Some(f.baseBranch)
  {
  }

  lemma PartialShape(f: Facts, i: IssuancePlan, sha: string)
    requires StatusOf(f) == Partial && Consistent(f) && RootClaimsAgree(f) && !OffBase(f)
    requires |CanonicalBranches(f)| <= 1 && |CanonicalPullRequests(f)| <= 1
    requires i.identity == f.identity && i.verification.branch == CanonicalBranch(f) && i.verification.baseBranch == f.baseBranch
    ensures SafeShape(ProjectFacts(f), i, sha) <==> CanonicalPullRequests(f) == [] && StandsAt(f, sha)
  {
    hide TallyOf, CanonicalBranch, BranchCandidates, PullRequestCandidates, OffBase, Filter, NoneOf, Consistent, RootClaimsAgree,
         CanonicalBranches, CanonicalPullRequests, AnyConflict, StatusOf;
    PartialChange(f);
    if CanonicalPullRequests(f) == [] {
      QuietCandidates(f);
      var one := CanonicalBranches(f);
      if |one| == 1 { assert one == [one[0]] && Map(one, BranchClassified(f))[0].evidence == one[0]; }
      if StandsAt(f, sha) { BranchIsKnown(f); }
    }
  }

  lemma BranchIsKnown(f: Facts)
    requires |CanonicalBranches(f)| == 1
    ensures BranchKnown(f)
  {
  }

  lemma PartialChange(f: Facts)
    requires StatusOf(f) == Partial && |CanonicalPullRequests(f)| <= 1
    ensures var p := ProjectFacts(f);
      && p.status == Partial && p.change.Some? && p.change.value.state == RecoveryRequired && p.change.value.identity == f.identity
      && p.change.value.artifacts.branch == (if BranchKnown(f) then Some(CanonicalBranch(f)) else None)
      && (p.change.value.artifacts.pullRequest == None <==> CanonicalPullRequests(f) == [])
      && p.canonicalBranch == Some(CanonicalBranch(f)) && p.canonicalBaseBranch == Some(f.baseBranch)
  {
    hide TallyOf, CanonicalBranch, BranchCandidates, PullRequestCandidates, BranchKnown, CanonicalPullRequests, AnyConflict;
  }

  /**
   When a failed issuance may be compensated, for every plan, record and evidence: the plan validates and only its Draft is
   missing; the Issue is open and both lists were read; and of that Change on that branch and base either nothing is there at
   all, or just the branch, at the generation that was committed and without a pull request.
   */
  lemma CompensationIff(i: IssuancePlan, attempts: seq<Attempt>, failed: Effect, input: Input)
    ensures PlanCompensation(i, attempts, failed, input).Some? <==>
      && ValidateIssuance(i).Some? && OnlyDraftMissing(i, attempts, failed)
      && attempts[1].evidence.value.ProvenanceCommitted?
      && IssueOpen(input.evidence) && input.evidence.branches.Available? && input.evidence.pullRequests.Available?
      && var f, sha := FactsOf(input), Lower(attempts[1].evidence.value.commitSha);
         && input.identity == i.identity && input.baseBranch == i.verification.baseBranch
         && Project(input).canonicalBranch == Some(i.verification.branch)
         && (|| Project(input).status == Absent
             || (Project(input).status == Partial && CanonicalPullRequests(f) == [] && StandsAt(f, sha)))
  {
    hide Project, ProjectFacts, FactsOf, ValidateIssuance, SafeShape, OnlyPullRequestFailed, OnlyDraftMissing, ValidAttempts, ValidEffect,
         CreatedSha, StandsAt, CanonicalBranch, StatusOf, CanonicalPullRequests;
    OnlyDraftMissingCount(i, attempts, failed);
    if ValidateIssuance(i).Some? {
      OnlyDraftMissingIff(i, attempts, failed);
      if OnlyDraftMissing(i, attempts, failed) && IssueOpen(input.evidence) {
        ShapeOfInput(i, Lower(attempts[1].evidence.value.commitSha), input);
      }
    }
  }

  lemma OnlyDraftMissingCount(i: IssuancePlan, attempts: seq<Attempt>, failed: Effect)
    ensures OnlyDraftMissing(i, attempts, failed) ==> |attempts| == 3 && attempts[1].evidence.Some?
  {
  }

  lemma ShapeOfInput(i: IssuancePlan, sha: string, input: Input)
    requires IssueOpen(input.evidence)
    ensures SameSubject(Project(input), i) && SafeShape(Project(input), i, sha) <==>
      && input.identity == i.identity && input.baseBranch == i.verification.baseBranch
      && Project(input).canonicalBranch == Some(i.verification.branch)
      && (|| Project(input).status == Absent
          || (Project(input).status == Partial && CanonicalPullRequests(FactsOf(input)) == [] && StandsAt(FactsOf(input), sha)))
  {
    hide Project, FactsOf, StandsAt, CanonicalBranch, StatusOf, CanonicalPullRequests, Filter, NoneOf;
    var p := Project(input);
    if p.status in {Absent, Partial} {
      var f := FactsOf(input);
      DecidedFromFacts(input);
      StatusIsOfFacts(f);
      if p.status == Partial { PartialIff(f); PartialChange(f); } else { AbsentShape(f); }
      hide ProjectFacts, SafeShape;
      if f.identity == i.identity && CanonicalBranch(f) == i.verification.branch && f.baseBranch == i.verification.baseBranch {
        SafeShapeIff(f, i, sha);
      }
    }
  }

  lemma StatusIsOfFacts(f: Facts)
    ensures ProjectFacts(f).status == StatusOf(f)
  {
  }

  /** The lists, read or reported as absent, hold nothing. */
  predicate NothingListed(e: Evidence) {
    && (e.branches == ConfirmedAbsent || e.branches == Available([]))
    && (e.pullRequests == ConfirmedAbsent || e.pullRequests == Available([]))
  }

  /** A projection is about the Change, branch and base of an issuance. */
  ghost predicate About(input: Input, i: IssuancePlan) {
    && Project(input).canonicalBranch == Some(i.verification.branch)
    && Project(input).canonicalBaseBranch == Some(i.verification.baseBranch)
    && (Project(input).change.Some? ==> Project(input).change.value.identity == i.identity)
  }

  /** Before an outcome is known the report is the projected Change, now needing recovery. */
  lemma PendingReport(i: IssuancePlan, attempts: seq<Attempt>, failed: Effect, input: Input)
    requires PlanCompensation(i, attempts, failed, input).Some?
    ensures Project(input).change.Some?
    ensures PlanRecovery(i, attempts, failed, input, Pending)
      == Some(RecoveryResult(CompensationRequired, Project(input).change.value.(state := RecoveryRequired)))
  {
    hide Project, ValidateIssuance, SafeShape, OnlyPullRequestFailed, ValidAttempts, ValidEffect, CreatedSha;
    ShapeHasChange(i, attempts, failed, input);
  }

  /** A success is reported exactly if a fresh read shows an open Issue and nothing else, and then as DEFINED and owning nothing. */
  lemma CompensatedReport(i: IssuancePlan, attempts: seq<Attempt>, failed: Effect, input: Input, after: Input)
    requires PlanCompensation(i, attempts, failed, input).Some?
    ensures var r := PlanRecovery(i, attempts, failed, input, Compensated(after));
      && (r.Some? <==> Project(after).status == Absent && About(after, i) && IssueOpen(after.evidence) && NothingListed(after.evidence))
      && (r.Some? ==> r.value == RecoveryResult(FullyCompensated, Change(i.identity, Defined, i.result.provenance, Artifacts(None, None))))
  {
    hide Project, PlanCompensation, SafeAbsence;
    SafeAbsenceIff(after, i);
  }

  lemma SafeAbsenceIff(after: Input, i: IssuancePlan)
    ensures SafeAbsence(after, i) <==>
      Project(after).status == Absent && About(after, i) && IssueOpen(after.evidence) && NothingListed(after.evidence)
  {
    hide Project, ProjectFacts, FactsOf;
    if Project(after).status == Absent && IssueOpen(after.evidence) {
      DecidedFromFacts(after);
      StatusIsOfFacts(FactsOf(after));
      AbsentShape(FactsOf(after));
    }
  }

  /** A failure is reported exactly for the planned delete itself, as whatever Change a fresh read shows, or none. */
  lemma FailedReport(i: IssuancePlan, attempts: seq<Attempt>, failed: Effect, input: Input, after: Input, undone: Effect)
    requires PlanCompensation(i, attempts, failed, input).Some?
    ensures var r := PlanRecovery(i, attempts, failed, input, CompensationFailed(after, undone));
      && (r.Some? <==> SameEffect(undone, PlanCompensation(i, attempts, failed, input).value.effect) && About(after, i))
      && (r.Some? ==>
            r.value == RecoveryResult(RecoveryStillRequired,
              if Project(after).change.Some? then Project(after).change.value.(state := RecoveryRequired)
              else Change(i.identity, RecoveryRequired, i.result.provenance, Artifacts(None, None))))
  {
    hide Project, PlanCompensation, ValidEffect, NormalizeEffect, SameEffect;
    CompensationDeletesOnlyItsOwnGeneration(i, attempts, failed, input);
    SameEffectIff(undone, PlanCompensation(i, attempts, failed, input).value.effect);
  }

  lemma ShapeHasChange(i: IssuancePlan, attempts: seq<Attempt>, failed: Effect, input: Input)
    requires PlanCompensation(i, attempts, failed, input).Some?
    ensures Project(input).change.Some? && Project(input).change.value.identity == i.identity
  {
    hide Project, ValidateIssuance, OnlyPullRequestFailed, ValidAttempts, ValidEffect, Filter, NoneOf;
  }
}
