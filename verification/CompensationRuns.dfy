/**
 A failed issuance in the world: branch and provenance commit landed, the Draft pull request did not.
 It is undone exactly while the branch is where the issuance left it, or already gone.
 */
module CompensationRuns {
  import opened Wrappers
  import opened Ordering
  import opened Change
  import opened Projection
  import opened ProjectionTheorems
  import opened AbortRecovery
  import opened Transition
  import opened Issuance
  import opened Compensation
  import opened GitHubWorld
  import opened IssuanceRuns

  /** The record of such a failure. */
  function FailedAttempts(c: Setting, effects: seq<Effect>, sha: string): seq<Attempt>
    requires |effects| == 3
  {
    var root := c.identity.rootIssue;
    [Attempt(effects[0], true, None),
     Attempt(effects[1], true, Some(ProvenanceCommitted(c.authority.branch, root, ProvenancePath(root), sha))),
     Attempt(effects[2], false, None)]
  }

  /** `i` was planned in the absent world `w`, whatever the reader's listing style, and committed `sha`. */
  ghost predicate FailedIssuance(c: Setting, w: World, plan: Option<PullRequestPlan>, i: IssuancePlan, sha: string) {
    && AbsentWorld(c, w) && |w.branches| < MAX_CANDIDATES
    && (exists listing :: PlanIssuance(Observe(c, w, listing), plan) == Some(i)) && i.mode == Create
    && IsCommitSha(sha) && Lower(sha) == sha
  }

  lemma IssuanceOfAbsentWorld(c: Setting, w: World, plan: Option<PullRequestPlan>, i: IssuancePlan, sha: string)
    requires FailedIssuance(c, w, plan, i, sha)
    ensures ValidateIssuance(i) == Some(i) && i.identity == c.identity && i.mode == Create
    ensures i.result == Change(c.identity, Draft, c.provenance, Artifacts(Some(c.authority.branch), None))
    ensures i.effects == IssueEffects(c.authority.branch, c.baseBranch, c.identity.rootIssue, plan)
    ensures i.verification == Verification(c.authority.branch, c.baseBranch, Draft, None)
    ensures ValidEffects(i.effects) && Map(i.effects, NormalizeEffect) == i.effects
  {
    hide WellFormed, Project, PlanIssuance, Unclaimed, PlanTransition, ValidText;
    var listing :| PlanIssuance(Observe(c, w, listing), plan) == Some(i);
    IssuancePlanShape(Observe(c, w, listing), plan);
    AbsentWorldIff(c, w, listing);
  }

  lemma AttemptsAreRecorded(c: Setting, w: World, plan: Option<PullRequestPlan>, i: IssuancePlan, sha: string)
    requires FailedIssuance(c, w, plan, i, sha)
    ensures |i.effects| == 3 && ValidEffect(i.effects[2])
    ensures var attempts := FailedAttempts(c, i.effects, sha);
      ValidAttempts(attempts) && OnlyPullRequestFailed(i, attempts, i.effects[2]) && CreatedSha(attempts) == Some(sha)
  {
    hide WellFormed, Project, PlanIssuance, AbsentWorld, ValidateIssuance, Title, Body, ProvenancePath, FailedAttempts,
         ValidAttempts, OnlyPullRequestFailed, ValidEffect, CreatedSha;
    IssuanceOfAbsentWorld(c, w, plan, i, sha);
    RecordIsValid(c, plan, sha);
    RecordFits(c, i, plan, sha);
  }

  lemma RecordIsValid(c: Setting, plan: Option<PullRequestPlan>, sha: string)
    requires IsCommitSha(sha)
    requires ValidEffects(IssueEffects(c.authority.branch, c.baseBranch, c.identity.rootIssue, plan))
    ensures var effects := IssueEffects(c.authority.branch, c.baseBranch, c.identity.rootIssue, plan);
      ValidAttempts(FailedAttempts(c, effects, sha)) && ValidEffect(effects[2])
  {
    hide Title, Body, ProvenancePath, ValidText, ValidBody, IsCommitSha;
    var effects := IssueEffects(c.authority.branch, c.baseBranch, c.identity.rootIssue, plan);
    assert ValidEffect(effects[0]) && ValidEffect(effects[1]) && ValidEffect(effects[2]);
  }

  lemma RecordFits(c: Setting, i: IssuancePlan, plan: Option<PullRequestPlan>, sha: string)
    requires i.effects == IssueEffects(c.authority.branch, c.baseBranch, c.identity.rootIssue, plan) && i.mode == Create
    requires Lower(sha) == sha
    ensures var attempts := FailedAttempts(c, i.effects, sha);
      OnlyPullRequestFailed(i, attempts, i.effects[2]) && CreatedSha(attempts) == Some(sha)
  {
    hide Title, Body, ProvenancePath;
  }

  // ---- the safety test does not see candidate order ------------------------------------------

  lemma NoneOfPermuted<T(!new)>(s: seq<Candidate<T>>, t: seq<Candidate<T>>, class_: Class)
    requires multiset(s) == multiset(t) && NoneOf(t, class_)
    ensures NoneOf(s, class_)
  {
    forall k | 0 <= k < |s| ensures s[k].class_ != class_ { var j := Origin(s, t, k); }
  }

  lemma SafetyForgetsOrder(p: Projection, q: Projection, i: IssuancePlan, sha: string)
    requires p == q.(branches := p.branches, pullRequests := p.pullRequests)
    requires multiset(p.branches) == multiset(q.branches) && multiset(p.pullRequests) == multiset(q.pullRequests)
    ensures SafeShape(p, i, sha) <==> SafeShape(q, i, sha)
  {
    hide Filter, NoneOf;
    var name := i.verification.branch;
    FilterPermutation(p.branches, q.branches, Named(name));
    FilterPermutation(p.pullRequests, q.pullRequests, PlausibleElsewhere(i.identity.rootIssue, name));
    NoneOfBothWays(p.branches, q.branches, Conflicting);
    NoneOfBothWays(p.pullRequests, q.pullRequests, Conflicting);
    NoneOfBothWays(p.pullRequests, q.pullRequests, Canonical);
    assert Filter(p.branches, Named(name)) == [] <==> Filter(q.branches, Named(name)) == [];
  }

  lemma NoneOfBothWays<T(!new)>(s: seq<Candidate<T>>, t: seq<Candidate<T>>, class_: Class)
    requires multiset(s) == multiset(t)
    ensures NoneOf(s, class_) <==> NoneOf(t, class_)
  {
    if NoneOf(t, class_) { NoneOfPermuted(s, t, class_); }
    if NoneOf(s, class_) { NoneOfPermuted(t, s, class_); }
  }

  // ---- candidates of the branch-only and the absent facts ----------------------------------------

  function BranchClassified(f: Facts): BranchEvidence -> Candidate<BranchEvidence> {
    (b: BranchEvidence) => Candidate(b, ClassifyBranch(f, b))
  }

  /** Without a canonical pull request, nothing but the canonical branches can stand in the way. */
  lemma QuietCandidates(f: Facts)
    requires Consistent(f) && RootClaimsAgree(f) && !OffBase(f) && CanonicalPullRequests(f) == []
    ensures var p, name := ProjectFacts(f), CanonicalBranch(f);
      && NoneOf(p.pullRequests, Canonical) && NoneOf(p.pullRequests, Conflicting) && NoneOf(p.branches, Conflicting)
      && Filter(p.pullRequests, PlausibleElsewhere(f.identity.rootIssue, name)) == []
      && Filter(p.branches, Named(name)) == Map(CanonicalBranches(f), BranchClassified(f))
  {
    hide TallyOf, CanonicalBranch, Filter, ProjectedChange;
    NoConflictingPullRequest(f);
    forall b | b in f.branches ensures ClassifyBranch(f, b) != Conflicting {
      if ClassifyBranch(f, b) == Conflicting { ConflictingBranchIsInconsistent(f, b); }
    }
    forall p | p in f.pullRequests ensures ClassifyPullRequest(f, p) != Canonical {
      assert !MatchesIdentity(f)(p);
    }
    FilterImage(f.branches, BranchClassified(f), Named(CanonicalBranch(f)), OnCanonicalBranch(f));
    assert BranchCandidates(f) == Map(f.branches, BranchClassified(f));
    AgreementLeavesNothingElsewhere(f);
    FilterImage(f.pullRequests, Classified(f), PlausibleElsewhere(f.identity.rootIssue, CanonicalBranch(f)), ClaimsElsewhere(f));
    assert PullRequestCandidates(f) == Map(f.pullRequests, Classified(f));
  }

  lemma BranchedSafety(c: Setting, w: World, plan: Option<PullRequestPlan>, i: IssuancePlan, sha: string, moved: string,
                       claim: Option<nat>, listing: Listing)
    requires FailedIssuance(c, w, plan, i, sha) && IsCommitSha(moved) && Lower(moved) == moved && ValidClaim(c, claim)
    ensures SafeShape(Project(Observe(c, Branched(c, w, moved, claim), listing)), i, sha) <==> moved == sha
  {
    hide WellFormed, TallyOf, CanonicalBranch, BranchCandidates, PullRequestCandidates, Project, OffBase, Filter, NoneOf,
         Consistent, RootClaimsAgree, CanonicalBranches, CanonicalPullRequests, AnyConflict, PlanIssuance, Unclaimed;
    var v := Branched(c, w, moved, claim);
    var f, g, b := RawFacts(c, w), RawFacts(c, v), BranchEvidence(c.authority.branch, Some(moved), claim);
    IssuanceOfAbsentWorld(c, w, plan, i, sha);
    BranchedProjection(c, w, moved, claim, listing);
    ObservedProjection(c, v, listing);
    SafetyForgetsOrder(Project(Observe(c, v, listing)), ProjectFacts(g), i, sha);
    assert g == WithBranch(f, b);
    BranchAdded(f, b);
    QuietCandidates(g);
    assert Map([b], BranchClassified(g))[0].evidence == b;
  }

  lemma GoneSafety(c: Setting, w: World, plan: Option<PullRequestPlan>, i: IssuancePlan, sha: string, listing: Listing)
    requires FailedIssuance(c, w, plan, i, sha)
    ensures SafeShape(Project(Observe(c, w, listing)), i, sha)
  {
    hide WellFormed, TallyOf, CanonicalBranch, BranchCandidates, PullRequestCandidates, Project, OffBase, Filter, NoneOf,
         Consistent, RootClaimsAgree, CanonicalBranches, CanonicalPullRequests, AnyConflict, PlanIssuance, NothingClaims;
    var g := RawFacts(c, w);
    IssuanceOfAbsentWorld(c, w, plan, i, sha);
    AbsentWorldIff(c, w, listing);
    ObservedProjection(c, w, listing);
    SafetyForgetsOrder(Project(Observe(c, w, listing)), ProjectFacts(g), i, sha);
    NothingClaimedMeansNothingSelected(g);
    UnclaimedIsUnanchored(g);
    QuietCandidates(g);
    assert Map([], BranchClassified(g)) == [];
  }

  // ---- theorems ---------------------------------------------------------------------------------------

  lemma PlannedOverEvidence(c: Setting, w: World, plan: Option<PullRequestPlan>, i: IssuancePlan, sha: string, v: World,
                            listing: Listing)
    requires FailedIssuance(c, w, plan, i, sha) && v.issue == w.issue && |i.effects| == 3
    requires SameSubject(Project(Observe(c, v, listing)), i)
    ensures var r := PlanCompensation(i, FailedAttempts(c, i.effects, sha), i.effects[2], Observe(c, v, listing));
      && (r.Some? <==> w.issue.open && SafeShape(Project(Observe(c, v, listing)), i, sha)
                       && Listed(v.branches, listing) && Listed(v.pullRequests, listing))
      && (r.Some? ==> r.value.effect == DeleteBranch(c.authority.branch, Some(sha)))
  {
    hide Project, SafeShape, SameSubject, ValidateIssuance, OnlyPullRequestFailed, ValidAttempts, CreatedSha, ValidEffect;
    IssuanceOfAbsentWorld(c, w, plan, i, sha);
    AttemptsAreRecorded(c, w, plan, i, sha);
    assert Map(v.pullRequests, Report) == [] <==> v.pullRequests == [];
  }

  /**
   After only the pull-request effect failed, a compensation plan exists exactly while the branch is still at the
   provenance commit and the reader reports the pull requests as a list it has read; once somebody pushed to the
   branch, none does. Running it restores the absent world.
   */
  lemma CompensatedIffUntouched(c: Setting, w: World, plan: Option<PullRequestPlan>, i: IssuancePlan, sha: string,
                                moved: string, claim: Option<nat>, listing: Listing, choice: Choice)
    requires FailedIssuance(c, w, plan, i, sha) && w.issue.open
    requires IsCommitSha(moved) && Lower(moved) == moved && ValidClaim(c, claim)
    ensures |i.effects| == 3
    ensures var v := Branched(c, w, moved, claim);
      var r := PlanCompensation(i, FailedAttempts(c, i.effects, sha), i.effects[2], Observe(c, v, listing));
      && (r.Some? <==> moved == sha && Listed(w.pullRequests, listing))
      && (r.Some? ==> Apply(v, r.value.effect, choice) == Some(w))
      && (moved != sha ==> Apply(v, DeleteBranch(c.authority.branch, Some(sha)), choice).None?)
    ensures var p := Project(Observe(c, w, listing));
      p.status == Absent && p.change == Some(Change(c.identity, Defined, c.provenance, NO_ARTIFACTS))
  {
    hide Project, SafeShape, PlanCompensation, WellFormed, Unclaimed, PlanIssuance, Filter;
    var v := Branched(c, w, moved, claim);
    IssuanceOfAbsentWorld(c, w, plan, i, sha);
    BranchedProjection(c, w, moved, claim, listing);
    BranchedSafety(c, w, plan, i, sha, moved, claim, listing);
    PlannedOverEvidence(c, w, plan, i, sha, v, listing);
    BranchedNames(c, w, moved, claim);
    AbsentWorldIff(c, w, listing);
  }

  /** A branch that is already gone is compensated exactly when both lists are reported as read; the delete changes nothing. */
  lemma CompensatedWhenGone(c: Setting, w: World, plan: Option<PullRequestPlan>, i: IssuancePlan, sha: string,
                            listing: Listing, choice: Choice)
    requires FailedIssuance(c, w, plan, i, sha) && w.issue.open
    ensures |i.effects| == 3
    ensures var r := PlanCompensation(i, FailedAttempts(c, i.effects, sha), i.effects[2], Observe(c, w, listing));
      && (r.Some? <==> Listed(w.branches, listing) && Listed(w.pullRequests, listing))
      && (r.Some? ==> Apply(w, r.value.effect, choice) == Some(w))
  {
    hide Project, SafeShape, PlanCompensation, WellFormed, Unclaimed, PlanIssuance, Filter;
    IssuanceOfAbsentWorld(c, w, plan, i, sha);
    AbsentWorldIff(c, w, listing);
    GoneSafety(c, w, plan, i, sha, listing);
    PlannedOverEvidence(c, w, plan, i, sha, w, listing);
    NoSuchBranch(c, w);
  }

  /**
   Full compensation over the restored world is reported exactly when the failure was read by a reader that lists
   empty lists and no other candidate is there at all, although the compensation itself tolerates unrelated candidates.
   */
  lemma ReportedCompensatedIff(c: Setting, w: World, plan: Option<PullRequestPlan>, i: IssuancePlan, sha: string,
                               claim: Option<nat>, planning: Listing, after: Listing)
    requires FailedIssuance(c, w, plan, i, sha) && w.issue.open && ValidClaim(c, claim)
    ensures |i.effects| == 3
    ensures var r := PlanRecovery(i, FailedAttempts(c, i.effects, sha), i.effects[2],
                                  Observe(c, Branched(c, w, sha, claim), planning), Compensated(Observe(c, w, after)));
      && (r.Some? <==> planning == EmptyListed && w.branches == [] && w.pullRequests == [])
      && (r.Some? ==> r.value == RecoveryResult(FullyCompensated, Change(c.identity, Defined, c.provenance, NO_ARTIFACTS)))
  {
    hide Project, PlanCompensation, WellFormed, Unclaimed, PlanIssuance, Filter;
    IssuanceOfAbsentWorld(c, w, plan, i, sha);
    CompensatedIffUntouched(c, w, plan, i, sha, sha, claim, planning, Choice(sha, sha, 1, None));
    AbsentWorldIff(c, w, after);
    assert Map(w.pullRequests, Report) == [] <==> w.pullRequests == [];
  }

  /**
   With the shipped reader, which reports an empty list as absent, no compensation is ever reported as successful:
   planning needs a pull request to be listed, reporting needs that there is none, and pull requests stay on record.
   This holds of every issuance, every attempt record and every pair of worlds before and after.
   */
  lemma ShippedReaderNeverReportsCompensation(c: Setting, v: World, later: World, i: IssuancePlan, attempts: seq<Attempt>,
                                              failed: Effect, after: Listing)
    ensures v.pullRequests == [] ==> PlanCompensation(i, attempts, failed, Observe(c, v, EmptyAsAbsent)).None?
    ensures (v.pullRequests != [] ==> later.pullRequests != []) ==>
      PlanRecovery(i, attempts, failed, Observe(c, v, EmptyAsAbsent), Compensated(Observe(c, later, after))).None?
  {
    hide Project, ValidateIssuance, OnlyPullRequestFailed, SafeShape, SameSubject, ValidAttempts, ValidEffect;
    assert Map(v.pullRequests, Report) == [] <==> v.pullRequests == [];
    assert Map(later.pullRequests, Report) == [] <==> later.pullRequests == [];
    assert PlanCompensation(i, attempts, failed, Observe(c, v, EmptyAsAbsent)).Some? ==> v.pullRequests != [];
    assert SafeAbsence(Observe(c, later, after), i) ==> later.pullRequests == [];
  }

  /** With the shipped reader a lone branch at the very commit of the failed issuance is never even planned for. */
  lemma AbsentListsBlockCompensation(c: Setting, w: World, plan: Option<PullRequestPlan>, i: IssuancePlan, sha: string,
                                     moved: string, claim: Option<nat>)
    requires FailedIssuance(c, w, plan, i, sha) && w.issue.open
    requires IsCommitSha(moved) && Lower(moved) == moved && ValidClaim(c, claim)
    ensures |i.effects| == 3
    ensures PlanCompensation(i, FailedAttempts(c, i.effects, sha), i.effects[2],
                             Observe(c, Branched(c, w, moved, claim), EmptyAsAbsent)).Some?
            <==> moved == sha && w.pullRequests != []
    ensures PlanCompensation(i, FailedAttempts(c, i.effects, sha), i.effects[2], Observe(c, w, EmptyAsAbsent)).Some?
            <==> w.branches != [] && w.pullRequests != []
  {
    hide PlanCompensation, FailedIssuance;
    var choice := Choice(sha, sha, 1, None);
    CompensatedIffUntouched(c, w, plan, i, sha, moved, claim, EmptyAsAbsent, choice);
    CompensatedWhenGone(c, w, plan, i, sha, EmptyAsAbsent, choice);
  }
}
