/** From nothing to a finished abort: the runs of issuance and abort meet, and the Change is never created twice. */
module Lifecycle {
  import opened Wrappers
  import opened Change
  import opened Projection
  import opened ProjectionTheorems
  import opened Transition
  import opened Issuance
  import opened AbortPlanning
  import opened GitHubWorld
  import opened AbortRuns
  import opened AbortOutcomes
  import opened IssuanceRuns

  predicate ValidSetting(c: Setting) {
    && ValidIdentity(c.identity) && ValidProvenance(c.provenance) && c.provenance.issuer == Some(TRUSTED_ISSUER)
    && ValidText(c.authority.branch, MAX_TEXT) && ValidText(c.baseBranch, MAX_TEXT)
  }

  /** The world before anything was done for the Issue. */
  function Untouched(c: Setting, open: bool): World { World(IssueEvidence(c.identity.rootIssue, open), [], []) }

  lemma UntouchedIsAbsent(c: Setting, open: bool)
    requires ValidSetting(c)
    ensures AbsentWorld(c, Untouched(c, open)) && RoomLeft(Untouched(c, open))
  {
  }

  /** A freshly issued Change is a pair on which an abort can start. */
  lemma IssuedIsOnTheWay(c: Setting, w: World, choice: Choice)
    requires ValidSetting(c) && AbsentWorld(c, w) && RoomLeft(w) && ValidChoice(c, w, choice)
    ensures OnTheWay(c, Issued(c, w, choice)) && Rank(RawFacts(c, Issued(c, w, choice))) == 2
  {
    hide WellFormed, OffBase, Consistent, RootClaimsAgree, CanonicalBranches, CanonicalPullRequests, CanonicalBranch,
         NothingClaims, ValidText, ValidIdentity, ValidProvenance;
    var f, v := RawFacts(c, w), Issued(c, w, choice);
    var p, b := NewPullRequest(c, choice), BranchEvidence(c.authority.branch, Some(choice.commitSha), choice.claim);
    assert RawFacts(c, v) == WithPair(f, b, p);
    PairAdded(f, b, p);
    IssuedWellFormed(c, w, choice);
  }

  /**
   Issue, then abort, however the abort is interrupted: all effects land, the result is the record of an aborted Change,
   and issuing once more returns that Change instead of creating another.
   */
  lemma IssueThenAbort(c: Setting, w: World, choice: Choice, requester: Option<string>, listing: Listing,
                       plan: Option<PullRequestPlan>)
    requires ValidSetting(c) && KeyIsText(c.identity) && AbsentWorld(c, w) && RoomLeft(w) && ValidChoice(c, w, choice)
    requires ValidRole(requester)
    ensures var issued := Issued(c, w, choice);
      var effects := PlanAbort(Project(Observe(c, issued, listing)), requester);
      && effects.Some? && |effects.value| == 2
      && var done := ApplyAll(issued, effects.value, choice);
         && done.Some?
         && var p := Project(Observe(c, done.value, listing));
            && p.status == Healthy && p.change.Some? && p.change.value.state == Aborted
            && p.change.value.identity == c.identity
            && PlanAbort(p, requester) == Some([])
            && var again := PlanIssuance(Observe(c, done.value, listing), plan);
               again.Some? && again.value.mode == ReturnExisting && again.value.effects == [] && again.value.result == p.change.value
  {
    hide OnTheWay, Outstanding, Generation, PlanAbort, Project, PlanIssuance, AbsentWorld, ValidSetting, Issued, ApplyAll,
         ValidChoice, ValidateIssuance, ValidRole, PlanAdmissible;
    var issued := Issued(c, w, choice);
    IssuedIsOnTheWay(c, w, choice);
    FreshPlan(c, issued, listing, requester);
    var effects := Outstanding(RawFacts(c, issued), Generation(RawFacts(c, issued)));
    assert effects[..2] == effects && effects[2..] == [];
    CrashPoint(c, issued, choice, 2);
    var done := ApplyAll(issued, effects, choice).value;
    FreshPlan(c, done, listing, requester);
    StageSeen(c, done, listing);
    IssuancePlannedIff(Observe(c, done, listing), plan);
    IssuancePlanShape(Observe(c, done, listing), plan);
  }

  /** The run starts somewhere: from the world in which nothing was done yet, for every valid setting. */
  lemma FromNothing(c: Setting, open: bool, choice: Choice, requester: Option<string>, listing: Listing)
    requires ValidSetting(c) && KeyIsText(c.identity) && ValidRole(requester) && ValidChoice(c, Untouched(c, open), choice)
    ensures Project(Observe(c, Untouched(c, open), listing)).status == Absent
    ensures var w := Untouched(c, open);
      var effects := PlanAbort(Project(Observe(c, Issued(c, w, choice), listing)), requester);
      && effects.Some? && ApplyAll(Issued(c, w, choice), effects.value, choice).Some?
      && var done := ApplyAll(Issued(c, w, choice), effects.value, choice).value;
         && Project(Observe(c, done, listing)).change.Some?
         && Project(Observe(c, done, listing)).change.value.state == Aborted
  {
    hide Project, PlanAbort, ApplyAll, PlanIssuance, ValidSetting, ValidRole, ValidChoice, Issued;
    UntouchedIsAbsent(c, open);
    AbsentWorldIff(c, Untouched(c, open), listing);
    IssueThenAbort(c, Untouched(c, open), choice, requester, listing, None);
  }
}
